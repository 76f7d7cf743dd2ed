/** rendez.c: each participant sets its flag under the semaphore sem_flags; the one that finds all
    flags set opens the turnstile sem_sync, and whoever passes it opens it for the next. */
module Rendezvous {

  import opened Prelude

  type Pid = nat

  datatype Place =
    | Arriving   // has done statement_1; before sem_wait(sem_flags)
    | Locked
    | HasRead
    | HasMasked
    | Written    // before sem_post(sem_flags)
    | Left       // about to compare its flags
    | Opening    // found them complete; before the first sem_post(sem_sync)
    | Blocked    // before sem_wait(sem_sync)
    | Released   // before the second sem_post(sem_sync)
    | Through    // at statement_2

  // A participant and its own variable flags.
  datatype Process = Process(at: Place, flags: set<Pid>)

  datatype State = State(flags: set<Pid>, semFlags: nat, semSync: nat, procs: seq<Process>)

  predicate Participates(i: Pid, n: nat) {
    i < n
  }

  function All(n: nat): set<Pid> {
    set i: Pid | i < n && Participates(i, n)
  }

  predicate Enabled(s: State, i: Pid) {
    && i < |s.procs|
    && match s.procs[i].at
       case Arriving => s.semFlags > 0
       case Blocked => s.semSync > 0
       case Through => false
       case _ => true
  }

  function Next(s: State, i: Pid): State
    requires Enabled(s, i)
  {
    var p := s.procs[i];
    match p.at
    case Arriving => s.(semFlags := s.semFlags - 1, procs := s.procs[i := p.(at := Locked)])
    case Locked => s.(procs := s.procs[i := Process(HasRead, s.flags)])
    case HasRead => s.(procs := s.procs[i := Process(HasMasked, p.flags + {i})])
    case HasMasked => s.(flags := p.flags, procs := s.procs[i := p.(at := Written)])
    case Written => s.(semFlags := s.semFlags + 1, procs := s.procs[i := p.(at := Left)])
    case Left => s.(procs := s.procs[i := p.(at := if p.flags == All(|s.procs|) then Opening else Blocked)])
    case Opening => s.(semSync := s.semSync + 1, procs := s.procs[i := p.(at := Released)])
    case Blocked => s.(semSync := s.semSync - 1, procs := s.procs[i := p.(at := Released)])
    case Released => s.(semSync := s.semSync + 1, procs := s.procs[i := p.(at := Through)])
  }

  function Begin(n: nat): State {
    State({}, 1, 0, seq(n, _ => Process(Arriving, {})))
  }

  // ---------- the invariant ----------

  predicate Inside(p: Process) {
    p.at.Locked? || p.at.HasRead? || p.at.HasMasked? || p.at.Written?
  }

  predicate HasSet(p: Process) {
    !p.at.Arriving? && !p.at.Locked? && !p.at.HasRead? && !p.at.HasMasked?
  }

  predicate Passed(p: Process) {
    p.at.Released? || p.at.Through?
  }

  function Insiders(procs: seq<Process>): set<Pid> {
    set i: Pid | i < |procs| && Inside(procs[i])
  }

  function InTurnstile(procs: seq<Process>): set<Pid> {
    set i: Pid | i < |procs| && procs[i].at.Released?
  }

  function Setters(procs: seq<Process>): set<Pid> {
    set i: Pid | i < |procs| && HasSet(procs[i])
  }

  // Those that have seen, or are about to see, the full set.
  function Complete(procs: seq<Process>): set<Pid> {
    set i: Pid | i < |procs| && HasSet(procs[i]) && procs[i].flags == All(|procs|)
  }

  predicate Locking(s: State) {
    && s.semFlags + |Insiders(s.procs)| == 1
    && s.flags == Setters(s.procs)
    && forall i: Pid | i < |s.procs| ::
         && (s.procs[i].at.HasRead? ==> s.procs[i].flags == s.flags)
         && (s.procs[i].at.HasMasked? ==> s.procs[i].flags == s.flags + {i})
  }

  predicate OneComplete(s: State) {
    var n := |s.procs|;
    && |Complete(s.procs)| == One(s.flags == All(n) && n > 0)
    && forall i: Pid | i < n ::
         && (s.procs[i].at.Opening? ==> s.procs[i].flags == All(n))
         && (s.procs[i].at.Blocked? ==> s.procs[i].flags != All(n))
  }

  predicate Opened(s: State) {
    exists i: Pid :: i in Complete(s.procs) && Passed(s.procs[i])
  }

  predicate Turnstile(s: State) {
    && s.semSync + |InTurnstile(s.procs)| == (if Opened(s) then 2 else 0)
    && forall i: Pid | i < |s.procs| && Passed(s.procs[i]) :: Opened(s)
  }

  predicate Inv(s: State) {
    Locking(s) && OneComplete(s) && Turnstile(s)
  }

  lemma BeginInv(n: nat)
    ensures Inv(Begin(n))
  {
    var s := Begin(n);
    assert Insiders(s.procs) == {} && InTurnstile(s.procs) == {} && Setters(s.procs) == {} && Complete(s.procs) == {};
    if n > 0 { assert 0 in All(n); }
  }

  lemma StepLocking(s: State, i: Pid)
    requires Locking(s) && Enabled(s, i)
    ensures Locking(Next(s, i))
  {
    var t, p := Next(s, i), s.procs[i];
    OneApart(Insiders(t.procs), Insiders(s.procs), i);
    assert Inside(p) ==> i in Insiders(s.procs);
    forall j: Pid | j < |s.procs| && j != i && Inside(p)
      ensures !Inside(s.procs[j])
    {
      if j in Insiders(s.procs) { AtMostOne(Insiders(s.procs), i, j); }
    }
    assert t.flags == Setters(t.procs);
  }

  // A participant about to write sets a flag that nobody has set.
  lemma WriteAdds(s: State, i: Pid)
    requires Locking(s) && i < |s.procs| && s.procs[i].at.HasMasked?
    ensures s.procs[i].flags == s.flags + {i} && i !in s.flags && s.flags != All(|s.procs|)
  {
    assert i !in Setters(s.procs);
    assert i in All(|s.procs|);
  }

  lemma StepComplete(s: State, i: Pid)
    requires Locking(s) && OneComplete(s) && Enabled(s, i)
    ensures OneComplete(Next(s, i))
  {
    var t, p := Next(s, i), s.procs[i];
    OneApart(Complete(t.procs), Complete(s.procs), i);
    if p.at.HasMasked? { WriteAdds(s, i); }
  }

  lemma StepTurnstile(s: State, i: Pid)
    requires Locking(s) && OneComplete(s) && Turnstile(s) && Enabled(s, i)
    ensures Turnstile(Next(s, i))
  {
    var t, p := Next(s, i), s.procs[i];
    OneApart(InTurnstile(t.procs), InTurnstile(s.procs), i);
    if Opened(s) {
      var k: Pid :| k in Complete(s.procs) && Passed(s.procs[k]);
      assert k in Complete(t.procs) && Passed(t.procs[k]);
    }
    if p.at.Opening? {
      assert i in Complete(s.procs) && i in Complete(t.procs) && Passed(t.procs[i]);
      if Opened(s) {
        var k: Pid :| k in Complete(s.procs) && Passed(s.procs[k]);
        AtMostOne(Complete(s.procs), i, k);
      }
      assert InTurnstile(s.procs) == {};
    } else if Opened(t) {
      var k: Pid :| k in Complete(t.procs) && Passed(t.procs[k]);
      assert k in Complete(s.procs) && (Passed(s.procs[k]) || p.at.Blocked?);
    }
  }

  lemma StepInv(s: State, i: Pid)
    requires Inv(s) && Enabled(s, i)
    ensures Inv(Next(s, i)) && |Next(s, i).procs| == |s.procs|
  {
    StepLocking(s, i);
    StepComplete(s, i);
    StepTurnstile(s, i);
    hide Locking, OneComplete, Turnstile;
  }

  // ---------- runs ----------

  function Rank(p: Process): nat {
    match p.at
    case Arriving => 8
    case Locked => 7
    case HasRead => 6
    case HasMasked => 5
    case Written => 4
    case Left => 3
    case Opening => 2
    case Blocked => 2
    case Released => 1
    case Through => 0
  }

  function Remaining(procs: seq<Process>): nat {
    if procs == [] then 0 else Rank(procs[0]) + Remaining(procs[1..])
  }

  lemma {:induction false} RemainingUpdate(procs: seq<Process>, i: Pid, p: Process)
    requires i < |procs|
    ensures Remaining(procs[i := p]) + Rank(procs[i]) == Remaining(procs) + Rank(p)
  {
    if i == 0 {
      assert procs[i := p][1..] == procs[1..];
    } else {
      assert procs[i := p][1..] == procs[1..][i - 1 := p];
      RemainingUpdate(procs[1..], i - 1, p);
    }
  }

  lemma {:induction false} RemainingAtFirst(n: nat)
    ensures Remaining(Begin(n).procs) == 8 * n
  {
    if n > 0 {
      assert Begin(n).procs[1..] == Begin(n - 1).procs;
      RemainingAtFirst(n - 1);
    }
  }

  lemma StepProgress(s: State, i: Pid)
    requires Enabled(s, i)
    ensures Remaining(Next(s, i).procs) + 1 == Remaining(s.procs)
  {
    var t := Next(s, i);
    assert t.procs == s.procs[i := t.procs[i]];
    RemainingUpdate(s.procs, i, t.procs[i]);
    hide Remaining;
  }

  predicate Run(n: nat, states: seq<State>, who: seq<Pid>) {
    && |states| == |who| + 1 && states[0] == Begin(n)
    && forall i | 0 <= i < |who| :: Enabled(states[i], who[i]) && states[i + 1] == Next(states[i], who[i])
  }

  lemma {:induction false} RunInv(n: nat, states: seq<State>, who: seq<Pid>, i: nat)
    requires Run(n, states, who) && i < |states|
    ensures Inv(states[i]) && |states[i].procs| == n && Remaining(states[i].procs) + i == 8 * n
  {
    if i == 0 {
      BeginInv(n);
      RemainingAtFirst(n);
    } else {
      RunInv(n, states, who, i - 1);
      StepInv(states[i - 1], who[i - 1]);
      StepProgress(states[i - 1], who[i - 1]);
      hide Inv, Remaining, Next, Enabled;
    }
  }

  /** In every interleaving, none is at statement_2 before all have set their flag, and at most one
      participant, exactly one once all flags are set, sees the full set. */
  lemma NonePassesEarly(n: nat, states: seq<State>, who: seq<Pid>, i: nat)
    requires Run(n, states, who) && i < |states| && n > 0
    ensures var s := states[i];
      && |s.procs| == n
      && (forall a: Pid | a < n && Passed(s.procs[a]) :: s.flags == All(n) && forall b: Pid | b < n :: HasSet(s.procs[b]))
      && |Complete(s.procs)| == One(s.flags == All(n))
  {
    RunInv(n, states, who, i);
    var s := states[i];
    if Opened(s) {
      var k: Pid :| k in Complete(s.procs) && Passed(s.procs[k]);
      assert |Complete(s.procs)| > 0;
      forall b: Pid | b < n
        ensures HasSet(s.procs[b])
      {
        assert b in All(n);
        assert b in Setters(s.procs);
      }
    }
  }

  // While someone has not come through, someone can go on.
  lemma SomeoneCan(s: State, a: Pid)
    requires Inv(s) && a < |s.procs| && !s.procs[a].at.Through?
    ensures exists i :: Enabled(s, i)
  {
    if i: Pid :| i < |s.procs| && !s.procs[i].at.Arriving? && !s.procs[i].at.Blocked? && !s.procs[i].at.Through? {
      assert Enabled(s, i);
    } else if i: Pid :| i < |s.procs| && s.procs[i].at.Arriving? {
      assert Insiders(s.procs) == {};
      assert Enabled(s, i);
    } else {
      AllAtTurnstile(s);
      assert Enabled(s, a);
    }
  }

  lemma AllAtTurnstile(s: State)
    requires Inv(s) && |s.procs| > 0
    requires forall i: Pid | i < |s.procs| :: s.procs[i].at.Blocked? || s.procs[i].at.Through?
    ensures s.semSync == 2
  {
    assert s.flags == All(|s.procs|);
    assert |Complete(s.procs)| == 1;
    var k: Pid :| k in Complete(s.procs);
    assert Passed(s.procs[k]);
    assert InTurnstile(s.procs) == {};
  }

  /** The barrier never deadlocks: every run has at most 8 n steps, and one that cannot be continued
      has taken everyone through and leaves sem_sync at 2. */
  lemma EveryoneGetsThrough(n: nat, states: seq<State>, who: seq<Pid>)
    requires Run(n, states, who) && n > 0
    ensures |who| <= 8 * n
    ensures var s := states[|who|];
      (forall i :: !Enabled(s, i)) ==>
        |s.procs| == n && (forall a: Pid | a < n :: s.procs[a].at.Through?) && s.semSync == 2 && s.semFlags == 1
  {
    RunInv(n, states, who, |who|);
    var s := states[|who|];
    if forall i :: !Enabled(s, i) {
      forall a: Pid | a < n
        ensures s.procs[a].at.Through?
      {
        if !s.procs[a].at.Through? { SomeoneCan(s, a); }
      }
      AllAtTurnstile(s);
      assert Insiders(s.procs) == {};
    }
  }

  // ---------- fair schedules ----------

  // The participants take turns as the schedule says; one that cannot go on is passed over.
  function Scheduled(s: State, schedule: seq<Pid>): State
    decreases |schedule|
  {
    if schedule == [] then s
    else Scheduled(if Enabled(s, schedule[0]) then Next(s, schedule[0]) else s, schedule[1..])
  }

  function Turns(s: State, rounds: seq<seq<Pid>>): State
    decreases |rounds|
  {
    if rounds == [] then s else Turns(Scheduled(s, rounds[0]), rounds[1..])
  }

  lemma {:induction false} ScheduledInv(s: State, schedule: seq<Pid>)
    requires Inv(s)
    ensures var t := Scheduled(s, schedule);
      Inv(t) && |t.procs| == |s.procs| && Remaining(t.procs) <= Remaining(s.procs)
    decreases |schedule|
  {
    if schedule != [] {
      if Enabled(s, schedule[0]) {
        StepInv(s, schedule[0]);
        StepProgress(s, schedule[0]);
      }
      hide Inv, Remaining, Next, Enabled;
      ScheduledInv(if Enabled(s, schedule[0]) then Next(s, schedule[0]) else s, schedule[1..]);
    }
  }

  // If i can go on and is to get a turn, somebody makes a step.
  lemma {:induction false} SomeStep(s: State, schedule: seq<Pid>, i: Pid)
    requires Inv(s) && Enabled(s, i) && i in schedule
    ensures Remaining(Scheduled(s, schedule).procs) < Remaining(s.procs)
    decreases |schedule|
  {
    var j := schedule[0];
    if Enabled(s, j) {
      StepInv(s, j);
      StepProgress(s, j);
      ScheduledInv(Next(s, j), schedule[1..]);
    } else {
      SomeStep(s, schedule[1..], i);
    }
    hide Inv, Remaining, Next, Enabled;
  }

  predicate Everyone(n: nat, round: seq<Pid>) {
    forall i: Pid | i < n :: i in round
  }

  /** Whatever the order of the turns, 8 n rounds in which everyone gets one suffice to take everyone
      through. */
  lemma {:induction false} FairTurnsSuffice(s: State, rounds: seq<seq<Pid>>)
    requires Inv(s) && |s.procs| > 0 && |rounds| >= Remaining(s.procs)
    requires forall k | 0 <= k < |rounds| :: Everyone(|s.procs|, rounds[k])
    ensures var t := Turns(s, rounds);
      |t.procs| == |s.procs| && (forall i: Pid | i < |t.procs| :: t.procs[i].at.Through?) && t.semSync == 2
    decreases |rounds|
  {
    if i: Pid :| i < |s.procs| && !s.procs[i].at.Through? {
      SomeoneCan(s, i);
      var j :| Enabled(s, j);
      assert rounds != [] by { if rounds == [] { SomeStep(s, [j], j); } }
      assert j in rounds[0];
      SomeStep(s, rounds[0], j);
      ScheduledInv(s, rounds[0]);
      hide Inv, Remaining, Next, Enabled;
      FairTurnsSuffice(Scheduled(s, rounds[0]), rounds[1..]);
    } else {
      AllAtTurnstile(s);
      AllStay(s, rounds);
    }
  }

  lemma {:induction false} AllStay(s: State, rounds: seq<seq<Pid>>)
    requires forall i: Pid | i < |s.procs| :: s.procs[i].at.Through?
    ensures Turns(s, rounds) == s
    decreases |rounds|
  {
    if rounds != [] {
      NobodyMoves(s, rounds[0]);
      AllStay(s, rounds[1..]);
    }
  }

  lemma {:induction false} NobodyMoves(s: State, schedule: seq<Pid>)
    requires forall i: Pid | i < |s.procs| :: s.procs[i].at.Through?
    ensures Scheduled(s, schedule) == s
    decreases |schedule|
  {
    if schedule != [] { NobodyMoves(s, schedule[1..]); }
  }

  // ---------- four participants, and flags in one byte ----------

  function Mask(i: Pid): bv8
    requires i < 4
  {
    if i == 0 then 0x1 else if i == 1 then 0x2 else if i == 2 then 0x4 else 0x8
  }

  function Decoded(flags: bv8): set<Pid> {
    set i: Pid | i < 4 && flags & Mask(i) != 0
  }

  /** Participant i has bit i of the byte. */
  lemma MaskIsBit(i: Pid)
    requires i < 4
    ensures Mask(i) == 1 << i && Decoded(Mask(i)) == {i} && Decoded(0) == {}
  {
    assert forall j: Pid | j < 4 :: Mask(i) & Mask(j) != 0 <==> j == i;
    assert forall j: Pid | j < 4 :: 0 & Mask(j) == 0;
  }

  /** The byte and its masks represent the set of flags: setting a bit adds its participant, and
      comparing with 0x0F asks whether all are there. */
  lemma ByteIsSet(flags: bv8, i: Pid)
    requires i < 4 && flags <= 0x0F
    ensures Decoded(flags | Mask(i)) == Decoded(flags) + {i}
    ensures flags == 0x0F <==> Decoded(flags) == All(4)
    ensures flags | Mask(i) <= 0x0F
  {
    assert forall j: Pid | j < 4 :: (flags | Mask(i)) & Mask(j) != 0 <==> flags & Mask(j) != 0 || j == i;
    if Decoded(flags) == All(4) {
      assert 0 in All(4) && 1 in All(4) && 2 in All(4) && 3 in All(4);
      assert flags & 0x1 != 0 && flags & 0x2 != 0 && flags & 0x4 != 0 && flags & 0x8 != 0;
    }
  }

  // A process of the program, with its variable flags.
  datatype Participant = Participant(at: Place, flags: bv8)

  ghost function AbsProcs(procs: seq<Participant>): seq<Process> {
    seq(|procs|, i requires 0 <= i < |procs| => Process(procs[i].at, Decoded(procs[i].flags)))
  }

  class Rendez {
    var shmAddr: bv8
    var semFlags: nat
    var semSync: nat
    const procs: array<Participant>

    ghost predicate Valid()
      reads this, procs
    {
      && procs.Length == 4 && shmAddr <= 0x0F
      && forall i: Pid | i < 4 :: procs[i].flags <= 0x0F
    }

    ghost function Abs(): State
      requires Valid()
      reads this, procs
    {
      State(Decoded(shmAddr), semFlags, semSync, AbsProcs(procs[..]))
    }

    constructor ()
      ensures Valid() && Abs() == Begin(4)
    {
      shmAddr, semFlags, semSync := 0, 1, 0;
      procs := new Participant[4](_ => Participant(Arriving, 0));
      new;
      assert Decoded(0) == {};
    }

    // The critical section of participant i.
    method StepFlag(i: Pid)
      requires Valid() && Enabled(Abs(), i) && !HasSet(Abs().procs[i])
      modifies this`shmAddr, this`semFlags, procs
      ensures Valid() && Abs() == old(Next(Abs(), i))
    {
      var p := procs[i];
      ByteIsSet(p.flags, i);
      match p.at {
        case Arriving =>
          semFlags := semFlags - 1;
          procs[i] := p.(at := Locked);
        case Locked =>
          procs[i] := Participant(HasRead, shmAddr);
        case HasRead =>
          procs[i] := Participant(HasMasked, p.flags | Mask(i));
        case HasMasked =>
          shmAddr := p.flags;
          procs[i] := p.(at := Written);
      }
      assert AbsProcs(procs[..]) == AbsProcs(old(procs[..]))[i := Process(procs[i].at, Decoded(procs[i].flags))];
    }

    // Its way to the turnstile and through it.
    method StepOn(i: Pid)
      requires Valid() && Enabled(Abs(), i) && HasSet(Abs().procs[i])
      modifies this`semFlags, this`semSync, procs
      ensures Valid() && Abs() == old(Next(Abs(), i))
    {
      var p := procs[i];
      ByteIsSet(p.flags, i);
      match p.at {
        case Written =>
          semFlags := semFlags + 1;
          procs[i] := p.(at := Left);
        case Left =>
          procs[i] := p.(at := if p.flags == 0x0F then Opening else Blocked);
        case Opening =>
          semSync := semSync + 1;
          procs[i] := p.(at := Released);
        case Blocked =>
          semSync := semSync - 1;
          procs[i] := p.(at := Released);
        case Released =>
          semSync := semSync + 1;
          procs[i] := p.(at := Through);
      }
      assert AbsProcs(procs[..]) == AbsProcs(old(procs[..]))[i := Process(procs[i].at, Decoded(procs[i].flags))];
    }

    /** One step of participant i. */
    method Step(i: Pid)
      requires Valid() && Enabled(Abs(), i)
      modifies this`shmAddr, this`semFlags, this`semSync, procs
      ensures Valid() && Abs() == old(Next(Abs(), i))
    {
      match procs[i].at {
        case Arriving | Locked | HasRead | HasMasked => StepFlag(i);
        case Written | Left | Opening | Blocked | Released => StepOn(i);
      }
    }

    /** The program under a schedule. */
    method Run(schedule: seq<Pid>)
      requires Valid() && Inv(Abs()) && |Abs().procs| == 4
      modifies this`shmAddr, this`semFlags, this`semSync, procs
      ensures Valid() && Inv(Abs()) && Abs() == Scheduled(old(Abs()), schedule)
      ensures (forall i: Pid | i < 4 :: procs[i].at.Through?) ==> semSync == 2 && shmAddr == 0x0F
    {
      var k := 0;
      while k < |schedule|
        invariant 0 <= k <= |schedule| && Valid() && Inv(Abs())
        invariant Scheduled(Abs(), schedule[k..]) == Scheduled(old(Abs()), schedule)
      {
        var i := schedule[k];
        assert schedule[k..][0] == i && schedule[k..][1..] == schedule[k + 1..];
        if i < 4 && (procs[i].at.Arriving? ==> semFlags > 0) && (procs[i].at.Blocked? ==> semSync > 0) && !procs[i].at.Through? {
          StepInv(Abs(), i);
          Step(i);
        }
        k := k + 1;
      }
      if forall i: Pid | i < 4 :: procs[i].at.Through? {
        AllAtTurnstile(Abs());
        assert Abs().flags == All(4);
        ByteIsSet(shmAddr, 0);
      }
    }
  }
}
