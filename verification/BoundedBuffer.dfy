/** baproducer.c and baconsumer.c: any number of producers and consumers share a ring buffer and
    its three counters, guarded by the semaphores e, n and s. */
module BoundedBuffer {

  import opened Prelude

  // The counters and the values are of type unsigned long, 64 bits wide.
  const ULONG: nat := 0x1_0000_0000_0000_0000

  // The shared memory: shm_buffer, and shm_pc as last value, write index and read index.
  datatype Shared = Shared(buffer: seq<nat>, last: nat, inIdx: nat, outIdx: nat)

  function Appended(m: Shared): Shared
    requires m.buffer != []
  {
    var v := (m.last + 1) % ULONG;
    Shared(m.buffer[m.inIdx % |m.buffer| := v], v, (m.inIdx + 1) % ULONG, m.outIdx)
  }

  function Taken(m: Shared): Shared
    requires m.buffer != []
  {
    m.(buffer := m.buffer[m.outIdx % |m.buffer| := 0], outIdx := (m.outIdx + 1) % ULONG)
  }

  class Memory {
    const size: nat
    const shmBuffer: array<nat>
    const shmPc: array<nat>

    ghost predicate Valid()
      reads this
    {
      size > 0 && shmBuffer.Length == size && shmPc.Length == 3 && shmBuffer != shmPc
    }

    ghost function Contents(): Shared
      requires Valid()
      reads this, shmBuffer, shmPc
    {
      Shared(shmBuffer[..], shmPc[0], shmPc[1], shmPc[2])
    }

    constructor (size: nat)
      requires size > 0
      ensures Valid() && this.size == size && fresh(shmBuffer) && fresh(shmPc)
      ensures Contents() == Shared(seq(size, _ => 0), 0, 0, 0)
    {
      this.size := size;
      shmBuffer := new nat[size](_ => 0);
      shmPc := new nat[3](_ => 0);
    }

    /** append(): clash reports that the slot to write was not zero. */
    method Append() returns (clash: bool)
      requires Valid()
      modifies shmBuffer, shmPc
      ensures Contents() == Appended(old(Contents()))
      ensures clash <==> old(Contents().buffer[Contents().inIdx % size]) != 0
    {
      var idx := shmPc[1];
      var value := (shmPc[0] + 1) % ULONG;
      var current := shmBuffer[idx % size];
      clash := current != 0;
      shmBuffer[idx % size] := value;
      idx := (idx + 1) % ULONG;
      shmPc[0] := value;
      shmPc[1] := idx;
    }

    method Take() returns (current: nat)
      requires Valid()
      modifies shmBuffer, shmPc
      ensures Contents() == Taken(old(Contents()))
      ensures current == old(Contents().buffer[Contents().outIdx % size])
    {
      var idx := shmPc[2];
      current := shmBuffer[idx % size];
      shmBuffer[idx % size] := 0;
      idx := (idx + 1) % ULONG;
      shmPc[2] := idx;
    }
  }

  // ---------- the processes, one access to shared memory or semaphore at a time ----------

  type Pid = nat

  datatype Process =
    | PIdle                             // before sem_wait(e)
    | PReserved                         // before sem_wait(s)
    | PLocked
    | PLoaded(idx: nat, value: nat)     // has read the counters
    | PWritten(idx: nat, value: nat)    // has written the slot
    | PStored                           // has written the counters back; before sem_post(s)
    | PUnlocked                         // before sem_post(n)
    | CIdle                             // before sem_wait(n)
    | CReserved
    | CLocked
    | CLoaded(idx: nat, current: nat)   // has read index and slot
    | CCleared(idx: nat)                // has cleared the slot
    | CStored
    | CUnlocked                         // before sem_post(e)

  // taken, appended and clashes record what has happened; they steer nothing.
  datatype State = State(
    e: nat, n: nat, s: nat,
    mem: Shared,
    procs: map<Pid, Process>,
    taken: seq<nat>,
    appended: nat,
    clashes: nat
  )

  predicate Enabled(st: State, i: Pid) {
    && i in st.procs
    && match st.procs[i]
       case PIdle => st.e > 0
       case CIdle => st.n > 0
       case PReserved => st.s > 0
       case CReserved => st.s > 0
       case _ => true
  }

  function Move(st: State, i: Pid, p: Process): State {
    st.(procs := st.procs[i := p])
  }

  function Next(st: State, i: Pid): State
    requires Enabled(st, i) && st.mem.buffer != []
  {
    var m, size := st.mem, |st.mem.buffer|;
    match st.procs[i]
    case PIdle => Move(st, i, PReserved).(e := st.e - 1)
    case PReserved => Move(st, i, PLocked).(s := st.s - 1)
    case PLocked => Move(st, i, PLoaded(m.inIdx, (m.last + 1) % ULONG))
    case PLoaded(idx, v) =>
      Move(st, i, PWritten(idx, v)).(
        clashes := st.clashes + if m.buffer[idx % size] != 0 then 1 else 0,
        mem := m.(buffer := m.buffer[idx % size := v]),
        appended := st.appended + 1)
    case PWritten(idx, v) => Move(st, i, PStored).(mem := m.(last := v, inIdx := (idx + 1) % ULONG))
    case PStored => Move(st, i, PUnlocked).(s := st.s + 1)
    case PUnlocked => Move(st, i, PIdle).(n := st.n + 1)
    case CIdle => Move(st, i, CReserved).(n := st.n - 1)
    case CReserved => Move(st, i, CLocked).(s := st.s - 1)
    case CLocked => Move(st, i, CLoaded(m.outIdx, m.buffer[m.outIdx % size]))
    case CLoaded(idx, v) =>
      Move(st, i, CCleared(idx)).(mem := m.(buffer := m.buffer[idx % size := 0]), taken := st.taken + [v])
    case CCleared(idx) => Move(st, i, CStored).(mem := m.(outIdx := (idx + 1) % ULONG))
    case CStored => Move(st, i, CUnlocked).(s := st.s + 1)
    case CUnlocked => Move(st, i, CIdle).(e := st.e + 1)
  }

  // What main() of the producer sets up, with the processes about to start working.
  ghost predicate Start(st: State, size: nat) {
    && size > 0 && st.e == size && st.n == 0 && st.s == 1
    && st.mem == Shared(seq(size, _ => 0), 0, 0, 0)
    && st.taken == [] && st.appended == 0 && st.clashes == 0
    && forall i | i in st.procs :: st.procs[i].PIdle? || st.procs[i].CIdle?
  }

  /** Undisturbed, the three steps of a producer (or consumer) inside the lock are append() (take()). */
  lemma AppendInSteps(st: State, i: Pid)
    requires st.mem.buffer != [] && i in st.procs && st.procs[i].PLocked?
    ensures var t := Next(Next(Next(st, i), i), i);
      && t.mem == Appended(st.mem) && t.procs == st.procs[i := PStored]
      && t.appended == st.appended + 1 && t.taken == st.taken
      && (t.clashes > st.clashes <==> st.mem.buffer[st.mem.inIdx % |st.mem.buffer|] != 0)
  {
  }

  lemma TakeInSteps(st: State, i: Pid)
    requires st.mem.buffer != [] && i in st.procs && st.procs[i].CLocked?
    ensures var t := Next(Next(Next(st, i), i), i);
      && t.mem == Taken(st.mem) && t.procs == st.procs[i := CStored] && t.appended == st.appended
      && t.taken == st.taken + [st.mem.buffer[st.mem.outIdx % |st.mem.buffer|]]
  {
  }

  // ---------- counting processes ----------

  datatype Kind = Resting | Filling | Filled | Emptying | Emptied

  function KindOf(p: Process): Kind {
    match p
    case PIdle => Resting
    case CIdle => Resting
    case PReserved => Filling
    case PLocked => Filling
    case PLoaded(_, _) => Filling
    case PWritten(_, _) => Filled
    case PStored => Filled
    case PUnlocked => Filled
    case CReserved => Emptying
    case CLocked => Emptying
    case CLoaded(_, _) => Emptying
    case CCleared(_) => Emptied
    case CStored => Emptied
    case CUnlocked => Emptied
  }

  predicate IsProducer(p: Process) {
    p.PIdle? || p.PReserved? || p.PLocked? || p.PLoaded? || p.PWritten? || p.PStored? || p.PUnlocked?
  }

  // Between sem_wait(s) and sem_post(s).
  predicate Inside(p: Process) {
    p.PLocked? || p.PLoaded? || p.PWritten? || p.PStored? || p.CLocked? || p.CLoaded? || p.CCleared? || p.CStored?
  }

  function Those(procs: map<Pid, Process>, k: Kind): set<Pid> {
    set i | i in procs && KindOf(procs[i]) == k
  }

  function Insiders(procs: map<Pid, Process>): set<Pid> {
    set i | i in procs && Inside(procs[i])
  }

  lemma MovedCount(procs: map<Pid, Process>, i: Pid, p: Process, k: Kind)
    requires i in procs
    ensures |Those(procs[i := p], k)| + One(KindOf(procs[i]) == k) == |Those(procs, k)| + One(KindOf(p) == k)
  {
    OneApart(Those(procs[i := p], k), Those(procs, k), i);
  }

  lemma MovedInsiders(procs: map<Pid, Process>, i: Pid, p: Process)
    requires i in procs
    ensures |Insiders(procs[i := p])| + One(Inside(procs[i])) == |Insiders(procs)| + One(Inside(p))
  {
    OneApart(Insiders(procs[i := p]), Insiders(procs), i);
  }

  lemma OnlyInsider(procs: map<Pid, Process>, i: Pid, j: Pid)
    requires |Insiders(procs)| <= 1 && i in procs && j in procs && Inside(procs[i]) && Inside(procs[j])
    ensures i == j
  {
    AtMostOne(Insiders(procs), i, j);
  }

  // ---------- the invariant ----------

  // Slot and value of the j-th append, counted from zero.
  function SlotOf(j: nat, size: nat): nat
    requires size > 0
  {
    (j % ULONG) % size
  }

  function ValueOf(j: nat): nat {
    (j + 1) % ULONG
  }

  // As long as the counters have not wrapped, or the ring's size divides their range, the slots
  // of any size consecutive appends are distinct.
  predicate Regular(appended: nat, size: nat)
    requires size > 0
  {
    appended < ULONG || ULONG % size == 0
  }

  ghost predicate Accounting(st: State) {
    var t := |st.taken|;
    && st.s + |Insiders(st.procs)| == 1
    && t <= st.appended <= t + |st.mem.buffer|
    && st.n + |Those(st.procs, Filled)| + |Those(st.procs, Emptying)| == st.appended - t
    && st.e + |Those(st.procs, Filling)| + |Those(st.procs, Emptied)| == |st.mem.buffer| - (st.appended - t)
  }

  // What a process holding the lock knows, and how far the counters have come.
  ghost predicate Local(st: State, p: Process)
    requires st.mem.buffer != []
  {
    var t := |st.taken|;
    match p
    case PLoaded(idx, v) => idx == st.appended % ULONG && v == ValueOf(st.appended)
    case PWritten(idx, v) => st.appended > 0 && idx == (st.appended - 1) % ULONG && v == ValueOf(st.appended - 1)
    case CLoaded(idx, v) => idx == t % ULONG && v == st.mem.buffer[idx % |st.mem.buffer|]
    case CCleared(idx) => t > 0 && idx == (t - 1) % ULONG
    case _ => true
  }

  ghost predicate Counters(st: State)
    requires st.mem.buffer != []
  {
    var m := st.mem;
    && (forall i | i in st.procs :: Local(st, st.procs[i]))
    && ((forall i | i in st.procs :: !st.procs[i].PWritten?) ==>
          m.inIdx == st.appended % ULONG && m.last == st.appended % ULONG)
    && ((forall i | i in st.procs :: !st.procs[i].CCleared?) ==> m.outIdx == |st.taken| % ULONG)
  }

  // The filled slots are those of the appends not taken yet; all others are zero.
  ghost predicate Holds(buffer: seq<nat>, lo: nat, hi: nat)
    requires buffer != []
  {
    && (forall j | lo <= j < hi :: buffer[SlotOf(j, |buffer|)] == ValueOf(j))
    && (forall k | 0 <= k < |buffer| && (forall j | lo <= j < hi :: SlotOf(j, |buffer|) != k) :: buffer[k] == 0)
  }

  ghost predicate Contents(st: State)
    requires st.mem.buffer != []
  {
    && Holds(st.mem.buffer, |st.taken|, st.appended)
    && (forall k | 0 <= k < |st.taken| :: st.taken[k] == ValueOf(k))
    && st.clashes == 0
  }

  ghost predicate Inv(st: State) {
    && st.mem.buffer != []
    && Accounting(st) && Counters(st)
    && (Regular(st.appended, |st.mem.buffer|) ==> Contents(st))
  }

  lemma StartInv(st: State, size: nat)
    requires Start(st, size)
    ensures Inv(st)
  {
    assert Insiders(st.procs) == {} && Those(st.procs, Filled) == {} && Those(st.procs, Emptying) == {};
    assert Those(st.procs, Filling) == {} && Those(st.procs, Emptied) == {};
  }

  lemma AtLeastOne(a: int, d: nat)
    requires a >= 1
    ensures a * d >= d
  {
    assert a * d == (a - 1) * d + d;
  }

  lemma DivUnique(x: nat, q: nat, r: nat, d: nat)
    requires r < d && x == q * d + r
    ensures x / d == q && x % d == r
  {
    var q', r' := x / d, x % d;
    assert x == q' * d + r';
    assert (q - q') * d == r' - r;
    if q > q' {
      AtLeastOne(q - q', d);
    } else if q' > q {
      assert (q' - q) * d == r - r';
      AtLeastOne(q' - q, d);
    }
  }

  lemma SameSlot(j: nat, size: nat)
    requires size > 0 && (j < ULONG || ULONG % size == 0)
    ensures SlotOf(j, size) == j % size
  {
    if j >= ULONG {
      WrapKeepsSlot(j, ULONG, size);
    }
  }

  lemma WrapKeepsSlot(j: nat, range: nat, size: nat)
    requires size > 0 && range > 0 && range % size == 0
    ensures (j % range) % size == j % size
  {
    var a, q, c := j % range, j / range, range / size;
    assert j == q * range + a;
    assert range == c * size;
    AddMultiple(a, q, c, size);
  }

  lemma AddMultiple(a: nat, q: nat, c: nat, size: nat)
    requires size > 0
    ensures (a + q * (c * size)) % size == a % size
  {
    var d := a / size;
    assert a == d * size + a % size;
    assert a + q * (c * size) == (d + q * c) * size + a % size by {
      Distribute(d, q * c, size);
      assert q * (c * size) == (q * c) * size;
    }
    DivUnique(a + q * (c * size), d + q * c, a % size, size);
  }

  lemma Distribute(a: nat, b: nat, d: nat)
    ensures (a + b) * d == a * d + b * d
  {
  }

  lemma NearbySlots(i: nat, j: nat, size: nat)
    requires size > 0 && i < j < i + size
    ensures i % size != j % size
  {
    var a, b := i / size, j / size;
    if i % size == j % size {
      assert (b - a) * size == j - i;
      if b > a { AtLeastOne(b - a, size); } else { AtLeastOne(a - b + 1, size); }
    }
  }

  lemma DistinctSlots(i: nat, j: nat, size: nat)
    requires size > 0 && Regular(j, size) && i < j < i + size
    ensures SlotOf(i, size) != SlotOf(j, size)
  {
    SameSlot(i, size);
    SameSlot(j, size);
    NearbySlots(i, j, size);
  }

  /** Consecutive appends use distinct slots throughout, wrap-around of the counters included,
      exactly when the size of the ring divides the counters' range. */
  lemma SlotsNeverClashIff(size: nat)
    requires size > 0
    ensures (forall i: nat, j: nat | i < j < i + size :: SlotOf(i, size) != SlotOf(j, size)) <==> ULONG % size == 0
  {
    if ULONG % size == 0 {
      forall i: nat, j: nat | i < j < i + size
        ensures SlotOf(i, size) != SlotOf(j, size)
      {
        DistinctSlots(i, j, size);
      }
    } else {
      WrapClashes(ULONG, size);
      var i, j := ULONG - ULONG % size, ULONG;
      assert i < j < i + size && SlotOf(i, size) == SlotOf(j, size);
    }
  }

  // The last multiple of size before the range ends shares its slot with the first wrapped index.
  lemma WrapClashes(range: nat, size: nat)
    requires size > 0 && range % size != 0
    ensures range - range % size >= 0
    ensures ((range - range % size) % range) % size == (range % range) % size
  {
    var r, q := range % size, range / size;
    var m := range - r;
    assert m == q * size && m >= 0;
    MultipleOf(m, q, size);
    BelowRange(m, range);
  }

  lemma MultipleOf(m: nat, q: nat, size: nat)
    requires size > 0 && m == q * size
    ensures m % size == 0
  {
    DivUnique(m, q, 0, size);
  }

  lemma BelowRange(m: nat, range: nat)
    requires m < range
    ensures m % range == m && range % range == 0
  {
    DivUnique(m, 0, m, range);
    DivUnique(range, 1, 0, range);
  }

  // ---------- every step keeps the invariant ----------

  lemma StepAccounting(st: State, i: Pid)
    requires st.mem.buffer != [] && Accounting(st) && Enabled(st, i)
    ensures Accounting(Next(st, i))
  {
    var p := Next(st, i).procs[i];
    assert Next(st, i).procs == st.procs[i := p];
    MovedInsiders(st.procs, i, p);
    MovedCount(st.procs, i, p, Filling);
    MovedCount(st.procs, i, p, Filled);
    MovedCount(st.procs, i, p, Emptying);
    MovedCount(st.procs, i, p, Emptied);
    HasRoom(st, i);
    assert Moved(st, i, p);
    hide Moved, Insiders, Those, Accounting;
    if IsProducer(st.procs[i]) { ProducerAccounts(st, i, p); } else { ConsumerAccounts(st, i, p); }
  }

  predicate Moved(st: State, i: Pid, p: Process) {
    && i in st.procs
    && var q, procs := st.procs[i], st.procs[i := p];
    && |Insiders(procs)| + One(Inside(q)) == |Insiders(st.procs)| + One(Inside(p))
    && |Those(procs, Filling)| + One(KindOf(q) == Filling) == |Those(st.procs, Filling)| + One(KindOf(p) == Filling)
    && |Those(procs, Filled)| + One(KindOf(q) == Filled) == |Those(st.procs, Filled)| + One(KindOf(p) == Filled)
    && |Those(procs, Emptying)| + One(KindOf(q) == Emptying) == |Those(st.procs, Emptying)| + One(KindOf(p) == Emptying)
    && |Those(procs, Emptied)| + One(KindOf(q) == Emptied) == |Those(st.procs, Emptied)| + One(KindOf(p) == Emptied)
  }

  lemma ProducerAccounts(st: State, i: Pid, p: Process)
    requires st.mem.buffer != [] && Accounting(st) && Enabled(st, i) && IsProducer(st.procs[i])
    requires Moved(st, i, p) && Next(st, i).procs == st.procs[i := p]
    requires KindOf(st.procs[i]) == Filling ==> st.appended < |st.taken| + |st.mem.buffer|
    ensures Accounting(Next(st, i))
  {
    assert p == Next(st, i).procs[i];
    hide Insiders, Those;
  }

  lemma ConsumerAccounts(st: State, i: Pid, p: Process)
    requires st.mem.buffer != [] && Accounting(st) && Enabled(st, i) && !IsProducer(st.procs[i])
    requires Moved(st, i, p) && Next(st, i).procs == st.procs[i := p]
    requires KindOf(st.procs[i]) == Emptying ==> |st.taken| < st.appended
    ensures Accounting(Next(st, i))
  {
    assert p == Next(st, i).procs[i];
    hide Insiders, Those;
  }

  // A process about to fill (empty) a slot knows that there is one.
  lemma HasRoom(st: State, i: Pid)
    requires Accounting(st) && i in st.procs
    ensures KindOf(st.procs[i]) == Filling ==> st.appended < |st.taken| + |st.mem.buffer|
    ensures KindOf(st.procs[i]) == Emptying ==> |st.taken| < st.appended
  {
    assert KindOf(st.procs[i]) == Filling ==> i in Those(st.procs, Filling);
    assert KindOf(st.procs[i]) == Emptying ==> i in Those(st.procs, Emptying);
  }

  lemma OthersOutside(st: State, i: Pid)
    requires Accounting(st) && i in st.procs && Inside(st.procs[i])
    ensures forall j | j in st.procs && j != i :: !Inside(st.procs[j])
  {
    forall j | j in st.procs && j != i
      ensures !Inside(st.procs[j])
    {
      if Inside(st.procs[j]) { OnlyInsider(st.procs, i, j); }
    }
  }

  lemma StepOwnLocal(st: State, i: Pid)
    requires st.mem.buffer != [] && Counters(st) && Enabled(st, i)
    requires st.procs[i].PLocked? ==> forall j | j in st.procs :: !st.procs[j].PWritten?
    requires st.procs[i].CLocked? ==> forall j | j in st.procs :: !st.procs[j].CCleared?
    ensures Local(Next(st, i), Next(st, i).procs[i])
  {
    assert Local(st, st.procs[i]);
    if st.procs[i].PLocked? {
      PlusOne(st.appended);
      assert st.mem.last == st.appended % ULONG;
    }
  }

  lemma PlusOne(k: nat)
    ensures (k % ULONG + 1) % ULONG == (k + 1) % ULONG
  {
  }

  lemma StepOtherLocal(st: State, i: Pid, j: Pid)
    requires st.mem.buffer != [] && Enabled(st, i) && j in st.procs && Local(st, st.procs[j])
    requires Inside(st.procs[i]) ==> !Inside(st.procs[j])
    ensures Local(Next(st, i), st.procs[j])
  {
    if !Inside(st.procs[i]) {
      assert Next(st, i).mem == st.mem && Next(st, i).taken == st.taken && Next(st, i).appended == st.appended;
    }
  }

  // How far the counters in shared memory have come.
  lemma StepWriteIndex(st: State, i: Pid)
    requires st.mem.buffer != [] && Counters(st) && Enabled(st, i)
    requires st.procs[i].PWritten? ==> forall j | j in st.procs && j != i :: !st.procs[j].PWritten?
    requires forall j | j in Next(st, i).procs :: !Next(st, i).procs[j].PWritten?
    ensures var t := Next(st, i); t.mem.inIdx == t.appended % ULONG && t.mem.last == t.appended % ULONG
  {
    var t := Next(st, i);
    if st.procs[i].PWritten? {
      assert Local(st, st.procs[i]);
      PlusOne(st.appended - 1);
    } else {
      assert !st.procs[i].PLoaded? by { assert !t.procs[i].PWritten?; }
      forall j | j in st.procs
        ensures !st.procs[j].PWritten?
      {
        assert j == i || t.procs[j] == st.procs[j];
      }
      hide Local;
      assert t.mem.inIdx == st.mem.inIdx && t.mem.last == st.mem.last && t.appended == st.appended;
    }
  }

  lemma StepReadIndex(st: State, i: Pid)
    requires st.mem.buffer != [] && Counters(st) && Enabled(st, i)
    requires st.procs[i].CCleared? ==> forall j | j in st.procs && j != i :: !st.procs[j].CCleared?
    requires forall j | j in Next(st, i).procs :: !Next(st, i).procs[j].CCleared?
    ensures var t := Next(st, i); t.mem.outIdx == |t.taken| % ULONG
  {
    var t := Next(st, i);
    if st.procs[i].CCleared? {
      assert Local(st, st.procs[i]);
      PlusOne(|st.taken| - 1);
    } else {
      assert !st.procs[i].CLoaded? by { assert !t.procs[i].CCleared?; }
      forall j | j in st.procs
        ensures !st.procs[j].CCleared?
      {
        assert j == i || t.procs[j] == st.procs[j];
      }
      hide Local;
      assert t.mem.outIdx == st.mem.outIdx && t.taken == st.taken;
    }
  }

  lemma StepCounters(st: State, i: Pid)
    requires st.mem.buffer != [] && Accounting(st) && Counters(st) && Enabled(st, i)
    ensures Counters(Next(st, i))
  {
    var t := Next(st, i);
    NextOthers(st, i);
    if Inside(st.procs[i]) { OthersOutside(st, i); }
    hide Next, Enabled, Accounting, Local;
    if forall j | j in t.procs :: !t.procs[j].PWritten? { StepWriteIndex(st, i); }
    if forall j | j in t.procs :: !t.procs[j].CCleared? { StepReadIndex(st, i); }
    StepOwnLocal(st, i);
    forall j | j in t.procs
      ensures Local(t, t.procs[j])
    {
      assert Local(st, st.procs[j]);
      if j != i { StepOtherLocal(st, i, j); }
    }
  }

  lemma NextOthers(st: State, i: Pid)
    requires st.mem.buffer != [] && Enabled(st, i)
    ensures var t := Next(st, i);
      && t.mem.buffer != [] && t.procs.Keys == st.procs.Keys && i in st.procs
      && forall j | j in st.procs && j != i :: t.procs[j] == st.procs[j]
  {
  }

  lemma StepContents(st: State, i: Pid)
    requires Inv(st) && Enabled(st, i) && Regular(Next(st, i).appended, |st.mem.buffer|)
    ensures Contents(Next(st, i))
  {
    HasRoom(st, i);
    match st.procs[i]
    case PLoaded(idx, v) => StepAppend(st, i);
    case CLoaded(idx, v) => StepTake(st, i);
    case _ =>
  }

  lemma StepAppend(st: State, i: Pid)
    requires Inv(st) && Enabled(st, i) && st.procs[i].PLoaded? && Regular(st.appended + 1, |st.mem.buffer|)
    requires st.appended < |st.taken| + |st.mem.buffer|
    ensures Contents(Next(st, i))
  {
    var idx, size := st.procs[i].idx, |st.mem.buffer|;
    assert Local(st, st.procs[i]);
    assert idx % size == SlotOf(st.appended, size);
    HoldsOneMore(st.mem.buffer, |st.taken|, st.appended);
    hide Holds, Accounting, Counters;
  }

  lemma HoldsOneMore(buffer: seq<nat>, lo: nat, hi: nat)
    requires buffer != [] && Holds(buffer, lo, hi) && lo <= hi < lo + |buffer| && Regular(hi + 1, |buffer|)
    ensures Holds(buffer[SlotOf(hi, |buffer|) := ValueOf(hi)], lo, hi + 1) && buffer[SlotOf(hi, |buffer|)] == 0
  {
    var size := |buffer|;
    forall j | lo <= j < hi
      ensures SlotOf(j, size) != SlotOf(hi, size)
    {
      DistinctSlots(j, hi, size);
    }
    hide SlotOf, ValueOf;
    var r := buffer[SlotOf(hi, size) := ValueOf(hi)];
    forall k | 0 <= k < size && forall j | lo <= j < hi + 1 :: SlotOf(j, size) != k
      ensures r[k] == 0
    {
      assert SlotOf(hi, size) != k;
    }
  }

  lemma StepTake(st: State, i: Pid)
    requires Inv(st) && Enabled(st, i) && st.procs[i].CLoaded? && Regular(st.appended, |st.mem.buffer|)
    requires |st.taken| < st.appended
    ensures Contents(Next(st, i))
  {
    var idx, size := st.procs[i].idx, |st.mem.buffer|;
    assert Local(st, st.procs[i]);
    assert idx % size == SlotOf(|st.taken|, size);
    HoldsOneLess(st.mem.buffer, |st.taken|, st.appended);
    hide Holds, Accounting, Counters;
  }

  lemma HoldsOneLess(buffer: seq<nat>, lo: nat, hi: nat)
    requires buffer != [] && Holds(buffer, lo, hi) && lo < hi <= lo + |buffer| && Regular(hi, |buffer|)
    ensures Holds(buffer[SlotOf(lo, |buffer|) := 0], lo + 1, hi) && buffer[SlotOf(lo, |buffer|)] == ValueOf(lo)
  {
    var size := |buffer|;
    forall j | lo < j < hi
      ensures SlotOf(lo, size) != SlotOf(j, size)
    {
      DistinctSlots(lo, j, size);
    }
    hide SlotOf, ValueOf;
    var r := buffer[SlotOf(lo, size) := 0];
    forall k | 0 <= k < size && forall j | lo < j < hi :: SlotOf(j, size) != k
      ensures r[k] == 0
    {
      if k != SlotOf(lo, size) {
        assert forall j | lo <= j < hi :: SlotOf(j, size) != k;
      }
    }
  }

  lemma StepInv(st: State, i: Pid)
    requires Inv(st) && Enabled(st, i)
    ensures Inv(Next(st, i)) && |Next(st, i).mem.buffer| == |st.mem.buffer|
  {
    var t := Next(st, i);
    assert |t.mem.buffer| == |st.mem.buffer|;
    StepAccounting(st, i);
    StepCounters(st, i);
    if Regular(t.appended, |st.mem.buffer|) { StepContents(st, i); }
    hide Accounting, Counters, Contents, Next, Enabled;
  }

  ghost predicate Run(states: seq<State>, who: seq<Pid>, size: nat) {
    && |states| == |who| + 1 && Start(states[0], size)
    && forall i | 0 <= i < |who| ::
         states[i].mem.buffer != [] && Enabled(states[i], who[i]) && states[i + 1] == Next(states[i], who[i])
  }

  lemma {:induction false} RunInv(states: seq<State>, who: seq<Pid>, size: nat, i: nat)
    requires Run(states, who, size) && i < |states|
    ensures Inv(states[i]) && |states[i].mem.buffer| == size
  {
    if i == 0 {
      StartInv(states[0], size);
    } else {
      RunInv(states, who, size, i - 1);
      hide Inv, Next, Enabled;
      StepInv(states[i - 1], who[i - 1]);
    }
  }

  // Slot k holds the value of an append not taken yet.
  ghost predicate Occupied(st: State, k: nat)
    requires st.mem.buffer != []
  {
    exists j: nat :: |st.taken| <= j < st.appended && SlotOf(j, |st.mem.buffer|) == k
  }

  lemma NonzeroIffOccupied(st: State, k: nat)
    requires st.mem.buffer != [] && Contents(st) && k < |st.mem.buffer| && st.appended < ULONG
    ensures st.mem.buffer[k] != 0 <==> Occupied(st, k)
  {
    var size := |st.mem.buffer|;
    if Occupied(st, k) {
      var j: nat :| |st.taken| <= j < st.appended && SlotOf(j, size) == k;
      NonzeroValue(j);
      hide SlotOf, ValueOf;
      assert st.mem.buffer[SlotOf(j, size)] == ValueOf(j);
    } else {
      hide SlotOf, ValueOf;
      assert forall j | |st.taken| <= j < st.appended :: SlotOf(j, size) != k;
      hide Occupied;
    }
  }

  lemma NonzeroValue(j: nat)
    requires j + 1 < ULONG
    ensures ValueOf(j) > 0
  {
  }

  /** In every run of any number of producers and consumers, the k-th value taken is k (modulo the
      range of unsigned long), no append meets a nonzero slot, and (before the counters wrap) exactly
      the slots from out to in, modulo size, are nonzero. All this as long as the counters have not
      wrapped, or for ever when size divides their range. */
  lemma FirstInFirstOut(states: seq<State>, who: seq<Pid>, size: nat, i: nat)
    requires Run(states, who, size) && i < |states| && size > 0
    requires states[i].appended < ULONG || ULONG % size == 0
    ensures forall k | 0 <= k < |states[i].taken| :: states[i].taken[k] == (k + 1) % ULONG
    ensures states[i].clashes == 0 && |states[i].mem.buffer| == size
    ensures |states[i].taken| <= states[i].appended <= |states[i].taken| + size
    ensures states[i].appended < ULONG ==>
      forall k: nat | k < size :: states[i].mem.buffer[k] != 0 <==> Occupied(states[i], k)
  {
    RunInv(states, who, size, i);
    var st := states[i];
    assert forall k | 0 <= k < |st.taken| :: st.taken[k] == ValueOf(k) == (k + 1) % ULONG;
    assert st.appended < ULONG ==> forall k: nat | k < size :: st.mem.buffer[k] != 0 <==> Occupied(st, k) by {
      if st.appended < ULONG {
        forall k: nat | k < size
          ensures st.mem.buffer[k] != 0 <==> Occupied(st, k)
        {
          NonzeroIffOccupied(st, k);
        }
      }
    }
  }

  lemma IndicesBeforeWrap(st: State)
    requires Inv(st) && st.s > 0 && st.appended < ULONG
    ensures st.mem.inIdx == st.appended && st.mem.outIdx == |st.taken|
  {
    assert |Insiders(st.procs)| == 0;
    forall a | a in st.procs
      ensures !st.procs[a].PWritten? && !st.procs[a].CCleared?
    {
      assert Inside(st.procs[a]) == (a in Insiders(st.procs));
    }
    hide Local, Contents;
    assert st.mem.inIdx == st.appended % ULONG == st.appended;
    assert st.mem.outIdx == |st.taken| % ULONG == |st.taken|;
  }

  /** Before the counters wrap, with the lock free, the occupied slots are out, out+1, ..., in-1 modulo size. */
  lemma OccupiedAreOutToIn(states: seq<State>, who: seq<Pid>, size: nat, i: nat, k: nat)
    requires Run(states, who, size) && i < |states| && states[i].s > 0 && states[i].appended < ULONG
    requires k < size && states[i].mem.buffer != []
    ensures Occupied(states[i], k) <==> exists j: nat :: states[i].mem.outIdx <= j < states[i].mem.inIdx && j % size == k
  {
    RunInv(states, who, size, i);
    var st := states[i];
    IndicesBeforeWrap(st);
    hide Run, Inv, SlotOf;
    SlotsBeforeWrap(|st.taken|, st.appended, size, k);
  }

  lemma SlotsBeforeWrap(lo: nat, hi: nat, size: nat, k: nat)
    requires size > 0 && hi < ULONG
    ensures (exists j: nat :: lo <= j < hi && SlotOf(j, size) == k) <==> (exists j: nat :: lo <= j < hi && j % size == k)
  {
    if j: nat :| lo <= j < hi && SlotOf(j, size) == k {
      SameSlot(j, size);
    }
    if j: nat :| lo <= j < hi && j % size == k {
      SameSlot(j, size);
    }
  }

  /** In every reachable state the semaphores account for every slot, and at most one process is
      between sem_wait(s) and sem_post(s). */
  lemma SemaphoresAccount(states: seq<State>, who: seq<Pid>, size: nat, i: nat)
    requires Run(states, who, size) && i < |states|
    ensures var st := states[i];
      st.e + st.n + |Those(st.procs, Filling) + Those(st.procs, Filled)|
        + |Those(st.procs, Emptying) + Those(st.procs, Emptied)| == size
    ensures forall a, b | a in states[i].procs && b in states[i].procs
      && Inside(states[i].procs[a]) && Inside(states[i].procs[b]) :: a == b
  {
    RunInv(states, who, size, i);
    var st := states[i];
    assert Those(st.procs, Filling) !! Those(st.procs, Filled);
    assert Those(st.procs, Emptying) !! Those(st.procs, Emptied);
    forall a, b | a in st.procs && b in st.procs && Inside(st.procs[a]) && Inside(st.procs[b])
      ensures a == b
    {
      OnlyInsider(st.procs, a, b);
    }
  }

  /** With a producer and a consumer about, some process can always go on. */
  lemma NoDeadlock(states: seq<State>, who: seq<Pid>, size: nat, i: nat, a: Pid, b: Pid)
    requires Run(states, who, size) && i < |states|
    requires a in states[i].procs && b in states[i].procs
    requires IsProducer(states[i].procs[a]) && !IsProducer(states[i].procs[b])
    ensures exists j :: Enabled(states[i], j)
  {
    RunInv(states, who, size, i);
    var st := states[i];
    if Insiders(st.procs) != {} {
      var j :| j in Insiders(st.procs);
      assert Enabled(st, j);
    } else if exists j :: j in st.procs && !st.procs[j].PIdle? && !st.procs[j].CIdle? {
      var j :| j in st.procs && !st.procs[j].PIdle? && !st.procs[j].CIdle?;
      assert st.s == 1;
      assert Enabled(st, j);
    } else {
      assert Those(st.procs, Filling) == {} && Those(st.procs, Filled) == {};
      assert Those(st.procs, Emptying) == {} && Those(st.procs, Emptied) == {};
      assert Enabled(st, a) || Enabled(st, b);
    }
  }

  // ---------- when the counters wrap ----------

  ghost predicate Reached(st: State, size: nat) {
    exists states, who :: Run(states, who, size) && states[|who|] == st
  }

  lemma ReachNext(st: State, size: nat, i: Pid)
    requires Reached(st, size) && st.mem.buffer != [] && Enabled(st, i)
    ensures Reached(Next(st, i), size)
  {
    var states, who :| Run(states, who, size) && states[|who|] == st;
    var t := Next(st, i);
    hide Next, Enabled, Start;
    assert Run(states + [t], who + [i], size);
    assert (states + [t])[|who + [i]|] == t;
  }

  // One producer and one consumer, neither at work, after a appends and t takes.
  ghost predicate AtRest(st: State, size: nat, a: nat, t: nat) {
    Reached(st, size) && st.procs == map[0 := PIdle, 1 := CIdle] && st.appended == a && |st.taken| == t
  }

  lemma NobodyAtWork(procs: map<Pid, Process>)
    requires procs == map[0 := PIdle, 1 := CIdle]
    ensures |Insiders(procs)| == 0 && |Those(procs, Filled)| == 0 && |Those(procs, Emptying)| == 0
    ensures |Those(procs, Filling)| == 0 && |Those(procs, Emptied)| == 0
    ensures forall i | i in procs :: !procs[i].PWritten? && !procs[i].CCleared?
  {
    assert Insiders(procs) == {};
    assert Those(procs, Filled) == {} && Those(procs, Emptying) == {};
    assert Those(procs, Filling) == {} && Those(procs, Emptied) == {};
  }

  lemma RestingFacts(st: State, size: nat, a: nat, t: nat)
    requires AtRest(st, size, a, t)
    ensures size > 0 && |st.mem.buffer| == size && t <= a <= t + size
    ensures st.s == 1 && st.n == a - t && st.e == size - (a - t)
    ensures st.mem.inIdx == a % ULONG == st.mem.last && st.mem.outIdx == t % ULONG
  {
    var states, who :| Run(states, who, size) && states[|who|] == st;
    hide Those, Insiders, Contents, Local, Next, Enabled;
    assert size > 0;
    NobodyAtWork(st.procs);
    hide Run;
    RunInv(states, who, size, |who|);
  }

  // Successive steps of process i.
  ghost predicate Steps(s: seq<State>, i: Pid) {
    s != [] && forall k | 0 <= k < |s| - 1 :: s[k].mem.buffer != [] && Enabled(s[k], i) && s[k + 1] == Next(s[k], i)
  }

  lemma {:induction false} ReachSteps(s: seq<State>, size: nat, i: Pid, k: nat)
    requires Steps(s, i) && Reached(s[0], size) && k < |s|
    ensures Reached(s[k], size)
  {
    if k > 0 {
      ReachSteps(s, size, i, k - 1);
      hide Reached, Next, Enabled;
      ReachNext(s[k - 1], size, i);
    }
  }

  // One round of process i at rest, st being the state before.
  lemma Round(st: State, i: Pid) returns (s: seq<State>)
    requires st.mem.buffer != [] && i in st.procs && Enabled(st, i) && st.s > 0
    requires st.procs[i].PIdle? || st.procs[i].CIdle?
    ensures |s| == 8 && Steps(s, i) && s[0] == st
  {
    var s1 := Next(st, i);
    var s2 := Next(s1, i);
    assert st.procs[i].PIdle? ==> s2.procs[i].PLocked?;
    assert st.procs[i].CIdle? ==> s2.procs[i].CLocked?;
    var s3, s4, s5, s6, s7 := RoundOn(s2, i);
    s := [st, s1, s2, s3, s4, s5, s6, s7];
    hide Next, Enabled;
  }

  lemma RoundOn(s2: State, i: Pid) returns (s3: State, s4: State, s5: State, s6: State, s7: State)
    requires s2.mem.buffer != [] && i in s2.procs && (s2.procs[i].PLocked? || s2.procs[i].CLocked?)
    ensures Enabled(s2, i) && s3 == Next(s2, i) && s3.mem.buffer != [] && Enabled(s3, i) && s4 == Next(s3, i)
    ensures s4.mem.buffer != [] && Enabled(s4, i) && s5 == Next(s4, i) && s5.mem.buffer != [] && Enabled(s5, i)
    ensures s6 == Next(s5, i) && s6.mem.buffer != [] && Enabled(s6, i) && s7 == Next(s6, i)
  {
    s3 := Next(s2, i);
    s4 := Next(s3, i);
    s5 := Next(s4, i);
    s6 := Next(s5, i);
    s7 := Next(s6, i);
  }

  lemma ProducerEnters(st: State, i: Pid)
    requires st.mem.buffer != [] && Enabled(st, i) && st.procs[i].PIdle? && Enabled(Next(st, i), i)
    ensures var t := Next(Next(st, i), i);
      t.procs == st.procs[i := PLocked] && t.mem == st.mem && t.appended == st.appended && t.taken == st.taken
  {
  }

  lemma ProducerLeaves(st: State, i: Pid)
    requires st.mem.buffer != [] && i in st.procs && st.procs[i].PStored?
    ensures var t := Next(Next(st, i), i);
      t.procs == st.procs[i := PIdle] && t.mem == st.mem && t.appended == st.appended && t.taken == st.taken
  {
  }

  lemma ConsumerEnters(st: State, i: Pid)
    requires st.mem.buffer != [] && Enabled(st, i) && st.procs[i].CIdle? && Enabled(Next(st, i), i)
    ensures var t := Next(Next(st, i), i);
      t.procs == st.procs[i := CLocked] && t.mem == st.mem && t.appended == st.appended && t.taken == st.taken
  {
  }

  lemma ConsumerLeaves(st: State, i: Pid)
    requires st.mem.buffer != [] && i in st.procs && st.procs[i].CStored?
    ensures var t := Next(Next(st, i), i);
      t.procs == st.procs[i := CIdle] && t.mem == st.mem && t.appended == st.appended && t.taken == st.taken
  {
  }

  lemma StepsAt(s: seq<State>, i: Pid)
    requires |s| == 8 && Steps(s, i)
    ensures forall k | 0 <= k < 7 :: s[k].mem.buffer != [] && i in s[k].procs && Enabled(s[k], i)
    ensures s[1] == Next(s[0], i) && s[2] == Next(s[1], i) && s[3] == Next(s[2], i)
    ensures s[4] == Next(s[3], i) && s[5] == Next(s[4], i) && s[6] == Next(s[5], i) && s[7] == Next(s[6], i)
  {
    hide Next;
    assert s[0 + 1] == Next(s[0], i) && s[1 + 1] == Next(s[1], i) && s[2 + 1] == Next(s[2], i);
    assert s[3 + 1] == Next(s[3], i) && s[4 + 1] == Next(s[4], i) && s[5 + 1] == Next(s[5], i) && s[6 + 1] == Next(s[6], i);
  }

  lemma ProducerRound(s: seq<State>, i: Pid)
    requires |s| == 8 && Steps(s, i) && s[0].procs[i].PIdle?
    ensures var st, r := s[0], s[7];
      r.procs == st.procs && r.mem == Appended(st.mem) && r.appended == st.appended + 1 && r.taken == st.taken
  {
    hide Next, Enabled, Steps, Appended;
    StepsAt(s, i);
    ProducerEnters(s[0], i);
    AppendInSteps(s[2], i);
    ProducerLeaves(s[5], i);
    assert s[0].procs[i := PLocked][i := PStored][i := PIdle] == s[0].procs;
  }

  lemma ConsumerRound(s: seq<State>, i: Pid)
    requires |s| == 8 && Steps(s, i) && s[0].procs[i].CIdle?
    ensures var st, r := s[0], s[7];
      && r.procs == st.procs && r.appended == st.appended
      && r.taken == st.taken + [st.mem.buffer[st.mem.outIdx % |st.mem.buffer|]]
  {
    hide Next, Enabled, Steps, Taken;
    StepsAt(s, i);
    ConsumerEnters(s[0], i);
    TakeInSteps(s[2], i);
    ConsumerLeaves(s[5], i);
    assert s[0].procs[i := CLocked][i := CStored][i := CIdle] == s[0].procs;
  }

  lemma Produce(st: State, size: nat, a: nat, t: nat) returns (r: State)
    requires AtRest(st, size, a, t) && a < t + size
    ensures AtRest(r, size, a + 1, t) && st.mem.buffer != [] && r.mem == Appended(st.mem)
  {
    RestingFacts(st, size, a, t);
    var s := Round(st, 0);
    ProducerRound(s, 0);
    ReachSteps(s, size, 0, 7);
    r := s[7];
    hide Reached, Next, Enabled, Appended;
  }

  lemma Consume(st: State, size: nat, a: nat, t: nat) returns (r: State)
    requires AtRest(st, size, a, t) && t < a
    ensures AtRest(r, size, a, t + 1)
    ensures st.mem.buffer != [] && r.taken == st.taken + [st.mem.buffer[st.mem.outIdx % |st.mem.buffer|]]
  {
    RestingFacts(st, size, a, t);
    var s := Round(st, 1);
    ConsumerRound(s, 1);
    ReachSteps(s, size, 1, 7);
    r := s[7];
    hide Reached, Next, Enabled;
  }

  lemma {:induction false} DrainTo(size: nat, k: nat) returns (st: State)
    requires size > 0
    ensures AtRest(st, size, k, k)
  {
    if k == 0 {
      st := State(size, 0, 1, Shared(seq(size, _ => 0), 0, 0, 0), map[0 := PIdle, 1 := CIdle], [], 0, 0);
      var who: seq<Pid> := [];
      assert Run([st], who, size) && [st][|who|] == st;
    } else {
      var before := DrainTo(size, k - 1);
      hide AtRest;
      var filled := Produce(before, size, k - 1, k - 1);
      st := Consume(filled, size, k, k - 1);
    }
  }

  lemma {:induction false} FillTo(size: nat, t: nat, j: nat) returns (st: State)
    requires size > 0 && j <= size
    ensures AtRest(st, size, t + j, t)
  {
    if j == 0 {
      st := DrainTo(size, t);
    } else {
      var before := FillTo(size, t, j - 1);
      hide AtRest;
      st := Produce(before, size, t + j - 1, t);
    }
  }

  // Fill the ring across the wrap: the first value appended after it lands on a value not taken yet.
  lemma Overtaken(size: nat) returns (st: State)
    requires 0 < size < ULONG && ULONG % size != 0
    ensures Reached(st, size) && !InOrder(st)
  {
    var r := ULONG % size;
    var before := FillTo(size, ULONG - r, r);
    RestingFacts(before, size, ULONG, ULONG - r);
    var after := Produce(before, size, ULONG, ULONG - r);
    RestingFacts(after, size, ULONG + 1, ULONG - r);
    WrapClashes(ULONG, size);
    var m := after.mem;
    assert before.mem.inIdx == 0 && before.mem.last == 0;
    assert m.outIdx == (ULONG - r) % ULONG && m.outIdx % size == 0;
    assert m.buffer[0] == 1;
    st := Consume(after, size, ULONG + 1, ULONG - r);
    assert st.taken[ULONG - r] == 1;
    assert (ULONG - r + 1) % ULONG != 1;
  }

  predicate InOrder(st: State) {
    forall k | 0 <= k < |st.taken| :: st.taken[k] == (k + 1) % ULONG
  }

  /** Values keep coming out in order for ever, through every wrap of the counters, exactly when the
      size of the ring divides 2^64. */
  lemma InOrderForeverIff(size: nat)
    requires 0 < size < ULONG
    ensures (forall st: State | Reached(st, size) :: InOrder(st)) <==> ULONG % size == 0
  {
    if ULONG % size == 0 {
      forall st: State | Reached(st, size)
        ensures InOrder(st)
      {
        var states, who :| Run(states, who, size) && states[|who|] == st;
        FirstInFirstOut(states, who, size, |who|);
      }
    } else {
      var st := Overtaken(size);
    }
  }
}
