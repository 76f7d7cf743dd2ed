/** processInotifyEvents(): reading events in chunks, with a second, timed read for an
    IN_MOVED_FROM at the end of the buffer, amounts to handling the event stream in order. */
module EventLoop {
  import opened Paths
  import opened DirTree
  import opened CacheProtocol
  import opened CacheTheorems
  import opened CacheSanity
  import opened WatchCache

  const EVENT_HEADER: nat := 16   // sizeof(struct inotify_event)
  const READ_BUF_LEN: nat := 100 * (EVENT_HEADER + NAME_MAX + 1)

  // The name is null-terminated and padded to a multiple of the header's size.
  function Size(e: Event): (n: nat)
    ensures n >= EVENT_HEADER
  {
    if e.Create? || e.MovedTo? || e.MovedFrom? || e.FileEvent? then
      EVENT_HEADER + (|e.name| + EVENT_HEADER) / EVENT_HEADER * EVENT_HEADER
    else EVENT_HEADER
  }

  // The name and its null byte fit in what follows the header, with less than one header's size to spare.
  lemma SizeFits(e: Event)
    requires e.Create? || e.MovedTo? || e.MovedFrom? || e.FileEvent?
    ensures Size(e) % EVENT_HEADER == 0
    ensures EVENT_HEADER + |e.name| + 1 <= Size(e) <= EVENT_HEADER + |e.name| + EVENT_HEADER
  {
    var q, r := (|e.name| + EVENT_HEADER) / EVENT_HEADER, (|e.name| + EVENT_HEADER) % EVENT_HEADER;
    assert |e.name| + EVENT_HEADER == EVENT_HEADER * q + r;
  }

  function Bytes(q: seq<Event>): nat {
    if q == [] then 0 else Size(q[0]) + Bytes(q[1..])
  }

  function Moves(q: seq<Event>): nat {
    if q == [] then 0 else (if q[0].MovedFrom? then 1 else 0) + Moves(q[1..])
  }

  lemma {:induction false} Concat(a: seq<Event>, b: seq<Event>)
    ensures Bytes(a + b) == Bytes(a) + Bytes(b) && Moves(a + b) == Moves(a) + Moves(b)
  {
    if a == [] {
      assert a + b == b;
    } else {
      assert (a + b)[1..] == a[1..] + b;
      Concat(a[1..], b);
    }
  }

  lemma {:induction false} NoMoves(q: seq<Event>)
    requires forall e | e in q :: !e.MovedFrom?
    ensures Moves(q) == 0
  {
    if q != [] { NoMoves(q[1..]); }
  }

  lemma {:induction false} FewMoves(q: seq<Event>)
    ensures Moves(q) <= |q|
  {
    if q != [] { FewMoves(q[1..]); }
  }

  // ---------- the state machine behind the buffer ----------

  // Events in the buffer come before those still in the kernel.
  ghost function Logical(k: Kernel, rest: seq<Event>, c: Cache): State {
    State(k.(queue := rest + k.queue), c)
  }

  // A run of the state machine: its states, and the steps between them.
  datatype History = History(states: seq<State>, steps: seq<Action>)

  ghost predicate Trace(h: History) {
    && |h.states| == |h.steps| + 1
    && forall i | 0 <= i < |h.steps| :: StepOf(h.states[i], h.steps[i], h.states[i + 1])
  }

  ghost predicate StepOf(s: State, a: Action, t: State) {
    s.k.Valid() && Possible(s, a) && t == Do(s, a)
  }

  // Other processes kept to what the program copes with.
  ghost predicate AllOrderly(h: History)
    requires Trace(h)
  {
    forall i | 0 <= i < |h.steps| :: Orderly(h.states[i], h.steps[i])
  }

  function HandleCount(steps: seq<Action>): nat {
    if steps == [] then 0
    else HandleCount(steps[..|steps| - 1]) + (if steps[|steps| - 1].Handle? then 1 else 0)
  }

  // The run leads from s to t, handling an event handled times on the way.
  ghost predicate Leads(h: History, s: State, t: State, handled: nat) {
    Trace(h) && h.states[0] == s && h.states[|h.steps|] == t && HandleCount(h.steps) == handled
  }

  lemma LeadsNowhere(s: State)
    ensures Leads(History([s], []), s, s, 0)
  {
  }

  function Extended(h: History, a: Action, t: State): History {
    History(h.states + [t], h.steps + [a])
  }

  lemma LeadsOn(h: History, s: State, t: State, handled: nat, a: Action)
    requires Leads(h, s, t, handled) && t.k.Valid() && Possible(t, a)
    ensures Leads(Extended(h, a, Do(t, a)), s, Do(t, a), handled + if a.Handle? then 1 else 0)
  {
    var n := |h.steps|;
    assert StepOf(t, a, Do(t, a));
    hide *;
    LeadsParts(h, s, t, handled);
    ExtendedParts(h, a, Do(t, a));
    TraceOn(h, a, Do(t, a));
    LeadsOf(Extended(h, a, Do(t, a)));
  }

  lemma LeadsParts(h: History, s: State, t: State, handled: nat)
    requires Leads(h, s, t, handled)
    ensures Trace(h) && |h.states| == |h.steps| + 1
    ensures h.states[0] == s && h.states[|h.steps|] == t && HandleCount(h.steps) == handled
  {
    hide StepOf, HandleCount;
  }

  lemma LeadsOf(h: History)
    requires Trace(h)
    ensures |h.states| == |h.steps| + 1 && Leads(h, h.states[0], h.states[|h.steps|], HandleCount(h.steps))
  {
    hide StepOf, HandleCount;
  }

  lemma ExtendedParts(h: History, a: Action, t: State)
    requires |h.states| == |h.steps| + 1
    ensures var h' := Extended(h, a, t);
      && |h'.steps| == |h.steps| + 1 && h'.states[0] == h.states[0] && h'.states[|h.steps| + 1] == t
      && HandleCount(h'.steps) == HandleCount(h.steps) + if a.Handle? then 1 else 0
  {
    assert (h.steps + [a])[..|h.steps|] == h.steps;
  }

  lemma TraceOn(h: History, a: Action, t: State)
    requires Trace(h) && StepOf(h.states[|h.steps|], a, t)
    ensures Trace(Extended(h, a, t))
  {
    hide StepOf;
    var h' := Extended(h, a, t);
    forall i | 0 <= i < |h'.steps|
      ensures StepOf(h'.states[i], h'.steps[i], h'.states[i + 1])
    {
      if i < |h.steps| { assert StepOf(h.states[i], h.steps[i], h.states[i + 1]); }
    }
  }

  lemma TraceStep(h: History, i: nat)
    requires Trace(h) && AllOrderly(h) && i < |h.steps|
    ensures i + 1 < |h.states| && h.states[i].k.Valid() && Enabled(h.states[i], h.steps[i])
    ensures h.states[i + 1] == Do(h.states[i], h.steps[i])
  {
    assert StepOf(h.states[i], h.steps[i], h.states[i + 1]);
    hide Possible, Orderly, Do, RootedDirs, Tree.OneToOne, QueueValid;
  }

  lemma {:induction false} TraceInv(h: History, i: nat)
    requires Trace(h) && AllOrderly(h) && i < |h.states| && Inv(h.states[0])
    ensures Inv(h.states[i])
  {
    if i > 0 {
      assert |h.states| == |h.steps| + 1;
      hide *;
      TraceInv(h, i - 1);
      TraceStep(h, i - 1);
      StepInv(h.states[i - 1], h.steps[i - 1]);
    }
  }

  /** When only orderly steps are made, the invariant that makes the cache converge is kept. */
  lemma LeadsInv(h: History, s: State, t: State, handled: nat)
    requires Leads(h, s, t, handled) && AllOrderly(h) && Inv(s)
    ensures Inv(t)
  {
    hide Inv, AllOrderly;
    TraceInv(h, |h.steps|);
  }

  // ---------- other processes at work ----------

  // The kernel's queue overflows: it ends in IN_Q_OVERFLOW, and what happens to the tree goes unseen.
  predicate Overflows(k: Kernel, l: Kernel) {
    && l.Valid() && l.tree.roots == k.tree.roots && l.nextWd == k.nextWd && k.nextCookie <= l.nextCookie
    && l.queue == k.queue + [Overflow]
  }

  function Other(k: Kernel, a: Action): Kernel
    requires k.tree.Rooted()
  {
    match a
    case Mkdir(p, n, ino, merge) => if k.tree.CanMkdir(p, n, ino) then k.Mkdir(p, n, ino, merge) else k
    case Rmdir(d) => if k.tree.CanRmdir(d) then k.Rmdir(d) else k
    case TouchFile(p, n, merge) => if p in k.tree.dirs && ValidName(n) then k.TouchFile(p, n, merge) else k
    case MoveIn(p, n, sub) => if k.tree.CanMoveIn(p, n, sub) then k.MoveIn(p, n, sub) else k
    case Rename(src, dst) => if k.tree.CanRename(src, dst) then k.Rename(src, dst) else k
    case MoveOut(src) => if |src| > 1 && src in k.tree.dirs then k.MoveOut(src) else k
    case Lose(l) => if Overflows(k, l) then l else k
    case Handle(_, _) => k
  }

  // The step that is seen with the buffer in front: merging looks at the kernel's own queue only.
  function Unbuffered(k: Kernel, rest: seq<Event>, a: Action): Action {
    match a
    case Mkdir(p, n, ino, merge) => Action.Mkdir(p, n, ino, merge && k.queue != [])
    case TouchFile(p, n, merge) => Action.TouchFile(p, n, merge && k.queue != [])
    case Lose(l) => Lose(l.(queue := rest + l.queue))
    case _ => a
  }

  lemma OtherIsStep(k: Kernel, rest: seq<Event>, a: Action, c: Cache)
    requires Logical(k, rest, c).k.Valid()
    ensures var s, a' := Logical(k, rest, c), Unbuffered(k, rest, a);
      Other(k, a) == k
      || (Possible(s, a') && Do(s, a') == Logical(Other(k, a), rest, c))
    ensures Moves(Other(k, a).queue) <= Moves(k.queue) + 1
  {
    hide RootedDirs, Tree.OneToOne, Tree.CanMkdir, Tree.CanRmdir, Tree.CanMoveIn, Tree.CanRename, Process,
         Tree.Mkdir, Tree.Rmdir, Tree.MoveIn, Tree.Rename, Tree.MoveOut, Moves;
    var t := k.tree;
    match a
    case Mkdir(p, n, ino, merge) => Posted(k.queue, rest, t.Created(p, n), merge);
    case Rmdir(d) => Posted(k.queue, rest, t.Gone(d), false);
    case TouchFile(p, n, merge) => Posted(k.queue, rest, t.FileTouched(p, n), merge);
    case MoveIn(p, n, sub) => Posted(k.queue, rest, t.Arrived(p, n, k.nextCookie) + t.Gone(p + [n]), false);
    case Rename(src, dst) =>
      if t.CanRename(src, dst) {
        OneMove(t, src, dst, k.nextCookie);
        Appended(k.queue, rest, t.Left(Parent(src), Last(src), k.nextCookie)
          + t.Arrived(Parent(dst), Last(dst), k.nextCookie) + t.Gone(dst));
      }
    case MoveOut(src) =>
      if src != [] {
        Appended(k.queue, rest, t.Left(Parent(src), Last(src), k.nextCookie));
        FewMoves(t.Left(Parent(src), Last(src), k.nextCookie));
      }
    case Lose(l) =>
      Posted(k.queue, rest, [Overflow], false);
      if Overflows(k, l) { LoseValid(k, rest, l); }
    case Handle(_, _) =>
  }

  lemma LoseValid(k: Kernel, rest: seq<Event>, l: Kernel)
    requires QueueValid(rest + k.queue, k.nextCookie) && Overflows(k, l)
    ensures l.(queue := rest + l.queue).Valid() && Overflow in rest + l.queue
  {
    hide RootedDirs, Tree.OneToOne;
    assert l.queue[|l.queue| - 1] == Overflow;
    forall e | e in rest + l.queue
      ensures EventValid(e, l.nextCookie)
    {
      if e in rest { assert e in rest + k.queue; }
    }
  }

  // An event that has no matching IN_MOVED_TO behind it never gets one: cookies are fresh.
  lemma StaysUnpaired(k: Kernel, rest: seq<Event>, a: Action)
    requires k.tree.Rooted() && QueueValid(rest + k.queue, k.nextCookie) && rest != [] && !Paired(rest + k.queue)
    ensures !Paired(rest + Other(k, a).queue)
  {
    assert EventValid(rest[0], k.nextCookie) by { assert rest[0] in rest + k.queue; }
    OtherQueue(k, a);
    hide Other, QueueValid, RootedDirs;
  }

  // The first event of another process that moves something in has a new cookie.
  lemma OtherQueue(k: Kernel, a: Action)
    requires k.tree.Rooted()
    ensures var q := Other(k, a).queue;
      k.queue <= q && (k.queue == [] && q != [] && q[0].MovedTo? ==> q[0].cookie == k.nextCookie)
  {
    hide RootedDirs, Tree.OneToOne, Tree.CanMkdir, Tree.CanRmdir, Tree.CanMoveIn, Tree.CanRename, QueueValid,
         Tree.Mkdir, Tree.Rmdir, Tree.MoveIn, Tree.Rename, Tree.MoveOut;
  }

  lemma Appended(q: seq<Event>, rest: seq<Event>, ext: seq<Event>)
    ensures rest + q + ext == rest + (q + ext)
    ensures Moves(q + ext) == Moves(q) + Moves(ext)
  {
    Concat(q, ext);
  }

  lemma Posted(q: seq<Event>, rest: seq<Event>, ext: seq<Event>, merge: bool)
    requires forall e | e in ext :: !e.MovedFrom?
    ensures rest + q + ext == rest + (q + ext) && Moves(q + ext) == Moves(q)
    ensures q != [] ==> (rest + q)[|rest + q| - 1] == q[|q| - 1]
  {
    Concat(q, ext);
    NoMoves(ext);
  }

  lemma OneMove(t: Tree, src: Path, dst: Path, cookie: nat)
    requires t.CanRename(src, dst)
    ensures src != [] && dst != []
    ensures Moves(t.Left(Parent(src), Last(src), cookie) + t.Arrived(Parent(dst), Last(dst), cookie) + t.Gone(dst)) <= 1
  {
    var l, r := t.Left(Parent(src), Last(src), cookie), t.Arrived(Parent(dst), Last(dst), cookie) + t.Gone(dst);
    assert l + t.Arrived(Parent(dst), Last(dst), cookie) + t.Gone(dst) == l + r;
    Concat(l, r);
    NoMoves(r);
    FewMoves(l);
  }

  // Other processes make at most budget changes; left is what remains of it.
  method OtherProcesses(m: Monitor, ghost s0: State, ghost handled: nat, ghost h: History, rest: seq<Event>, budget: nat)
      returns (left: nat, ghost h': History)
    requires m.Valid() && Sane(Logical(m.kernel, rest, m.cache))
    requires Leads(h, s0, Logical(m.kernel, rest, m.cache), handled)
    modifies m`kernel
    ensures m.Valid() && Sane(Logical(m.kernel, rest, m.cache))
    ensures Leads(h', s0, Logical(m.kernel, rest, m.cache), handled)
    ensures left <= budget && Moves(m.kernel.queue) + left <= Moves(old(m.kernel.queue)) + budget
    ensures rest != [] && !Paired(rest + old(m.kernel.queue)) ==> !Paired(rest + m.kernel.queue)
  {
    var acts: seq<Action> := *;
    left, h' := budget, h;
    var i := 0;
    hide Sane, Leads, Possible, Do, Other, RootedDirs, CachedPathsValid, Represents, Tree.OneToOne;
    while i < |acts| && left > 0
      invariant m.Valid() && Sane(Logical(m.kernel, rest, m.cache))
      invariant Leads(h', s0, Logical(m.kernel, rest, m.cache), handled)
      invariant left <= budget && Moves(m.kernel.queue) + left <= Moves(old(m.kernel.queue)) + budget
      invariant rest != [] && !Paired(rest + old(m.kernel.queue)) ==> !Paired(rest + m.kernel.queue)
    {
      h' := OtherKeeps(h', s0, handled, m.kernel, rest, acts[i], m.cache);
      m.kernel := Other(m.kernel, acts[i]);
      i, left := i + 1, left - 1;
    }
  }

  lemma OtherKeeps(h: History, s0: State, handled: nat, k: Kernel, rest: seq<Event>, a: Action, c: Cache) returns (h': History)
    requires Sane(Logical(k, rest, c)) && Leads(h, s0, Logical(k, rest, c), handled)
    ensures k.tree.Rooted()
    ensures var k' := Other(k, a);
      && Sane(Logical(k', rest, c)) && Leads(h', s0, Logical(k', rest, c), handled)
      && Moves(k'.queue) <= Moves(k.queue) + 1 && k'.tree.Rooted() && k'.tree.roots == k.tree.roots
      && (rest != [] && !Paired(rest + k.queue) ==> !Paired(rest + k'.queue))
  {
    var s, a' := Logical(k, rest, c), Unbuffered(k, rest, a);
    OtherIsStep(k, rest, a, c);
    OtherRoots(k, rest, a);
    if rest != [] && !Paired(rest + k.queue) { StaysUnpaired(k, rest, a); }
    hide Possible, Do, Other, Leads, RootedDirs, Tree.OneToOne;
    h' := h;
    if Other(k, a) != k {
      LeadsOn(h, s0, s, handled, a');
      StepSane(s, a');
      h' := Extended(h, a', Do(s, a'));
    }
  }

  lemma OtherRoots(k: Kernel, rest: seq<Event>, a: Action)
    requires k.tree.Rooted()
    ensures Other(k, a).tree.roots == k.tree.roots
    ensures Unbuffered(k, rest, a).Handle? ==> Other(k, a) == k
  {
  }

  // read(): some events from the head of the queue, as many as fit at most.
  method Read(m: Monitor, capacity: nat) returns (ok: bool, got: seq<Event>)
    requires m.kernel.queue != []
    modifies m`kernel
    ensures ok <==> Size(old(m.kernel.queue)[0]) <= capacity
    ensures !ok ==> m.kernel == old(m.kernel)
    ensures ok ==> got != [] && Bytes(got) <= capacity
    ensures ok ==> m.kernel == old(m.kernel).(queue := m.kernel.queue) && old(m.kernel.queue) == got + m.kernel.queue
  {
    var q := m.kernel.queue;
    if Size(q[0]) > capacity {
      return false, [];  // EINVAL
    }
    assert q[..1] == [q[0]] && Bytes([q[0]]) == Size(q[0]) + Bytes([]);
    var n: nat :| 1 <= n <= |q| && Bytes(q[..n]) <= capacity;
    ok, got := true, q[..n];
    m.kernel := m.kernel.(queue := q[n..]);
  }

  // What the buffer shows is enough to handle its first event.
  lemma BufferStep(k0: Kernel, c0: Cache, rest: seq<Event>, firstTry: bool, order: seq<Path>,
                   k: Kernel, c: Cache, consumed: int, removed: seq<Wd>)
    requires rest != [] && Handled(k0, c0, rest, firstTry, order, k, c, consumed, removed) && consumed != -1
    requires rest[0].MovedFrom? && rest[0].wd in c0 ==> |rest| > 1 || !Paired(rest + k0.queue)
    ensures 0 < consumed <= |rest|
    ensures Choice(Logical(k0, rest, c0), order, removed)
    ensures Logical(k, rest[consumed..], c) == Process(Logical(k0, rest, c0), order, removed)
  {
    var s, q := Logical(k0, rest, c0), rest + k0.queue;
    var b := State(k0.(queue := rest), c0);
    assert !(rest[0].MovedFrom? && rest[0].wd !in c0) ==> Paired(q) == Paired(rest);
    assert MustRebuild(s) == MustRebuild(b);
    if MustRebuild(b) {
      assert Fresh(s.k) == Fresh(k0);
      WalkQueue(State(Fresh(k0), map[]), order, []);
    } else if IsAnnounce(rest[0]) {
      assert q[1..] == rest[1..] + k0.queue;
      assert k0.queue + Ignoreds([]) == k0.queue;
      WalkQueue(State(k0, c0), order, rest[1..]);
      WalkQueue(State(k0, c0), order, q[1..]);
    } else {
      assert q[consumed..] == rest[consumed..] + k0.queue;
      assert rest[consumed..] + k0.queue + Ignoreds(removed) == rest[consumed..] + (k0.queue + Ignoreds(removed));
    }
  }

  lemma {:induction false} SomeBytes(q: seq<Event>)
    ensures q == [] <==> Bytes(q) == 0
    ensures q != [] ==> Bytes(q) >= EVENT_HEADER
  {
  }

  // Handling never adds moves to what is still to be handled, and uses up its own.
  lemma FewerMoves(k0: Kernel, c0: Cache, rest: seq<Event>, firstTry: bool, order: seq<Path>,
                   k: Kernel, c: Cache, consumed: int, removed: seq<Wd>)
    requires rest != [] && Handled(k0, c0, rest, firstTry, order, k, c, consumed, removed) && 0 < consumed <= |rest|
    ensures Moves(rest[consumed..]) + Moves(k.queue) <= Moves(rest) + Moves(k0.queue) - if rest[0].MovedFrom? then 1 else 0
  {
    assert rest == rest[..consumed] + rest[consumed..];
    Concat(rest[..consumed], rest[consumed..]);
    assert rest[..consumed][0] == rest[0];
    QueueAfter(k0, c0, rest, firstTry, order, k, c, consumed, removed);
    Concat(k0.queue, Ignoreds(removed));
    NoMoves(Ignoreds(removed));
  }

  lemma QueueAfter(k0: Kernel, c0: Cache, rest: seq<Event>, firstTry: bool, order: seq<Path>,
                   k: Kernel, c: Cache, consumed: int, removed: seq<Wd>)
    requires rest != [] && Handled(k0, c0, rest, firstTry, order, k, c, consumed, removed) && consumed != -1
    ensures k.queue == [] || k.queue == k0.queue + Ignoreds(removed)
  {
    if MustRebuild(State(k0.(queue := rest), c0)) {
      WalkQueue(State(Fresh(k0), map[]), order, []);
    }
  }

  // One event, or rename pair, taken off the buffer.
  lemma Consumed(h: History, s0: State, handled: nat, k0: Kernel, c0: Cache, rest: seq<Event>, firstTry: bool, order: seq<Path>,
                 k: Kernel, c: Cache, consumed: int, removed: seq<Wd>) returns (h': History)
    requires Sane(Logical(k0, rest, c0)) && Leads(h, s0, Logical(k0, rest, c0), handled)
    requires rest != [] && Handled(k0, c0, rest, firstTry, order, k, c, consumed, removed) && consumed != -1
    requires rest[0].MovedFrom? && rest[0].wd in c0 ==> |rest| > 1 || !Paired(rest + k0.queue)
    ensures 0 < consumed <= |rest|
    ensures Sane(Logical(k, rest[consumed..], c)) && Leads(h', s0, Logical(k, rest[consumed..], c), handled + 1)
    ensures Bytes(rest) == Bytes(rest[..consumed]) + Bytes(rest[consumed..])
    ensures Moves(rest[consumed..]) + Moves(k.queue) <= Moves(rest) + Moves(k0.queue) - if rest[0].MovedFrom? then 1 else 0
  {
    hide Sane, Leads, Handled, Process, Choice, Bytes, Moves;
    BufferStep(k0, c0, rest, firstTry, order, k, c, consumed, removed);
    FewerMoves(k0, c0, rest, firstTry, order, k, c, consumed, removed);
    assert rest == rest[..consumed] + rest[consumed..];
    Concat(rest[..consumed], rest[consumed..]);
    h' := HandleStep(h, s0, handled, Logical(k0, rest, c0), order, removed);
  }

  lemma HandleStep(h: History, s0: State, handled: nat, s: State, order: seq<Path>, removed: seq<Wd>) returns (h': History)
    requires Sane(s) && Leads(h, s0, s, handled) && s.k.queue != [] && Choice(s, order, removed)
    ensures Sane(Process(s, order, removed)) && Leads(h', s0, Process(s, order, removed), handled + 1)
  {
    hide Leads, Process, Choice, RootedDirs, Tree.OneToOne;
    var a := Action.Handle(order, removed);
    LeadsOn(h, s0, s, handled, a);
    StepSane(s, a);
    h' := Extended(h, a, Do(s, a));
  }

  lemma BufferedNames(k: Kernel, rest: seq<Event>, c: Cache)
    requires QueueValid(Logical(k, rest, c).k.queue, k.nextCookie)
    ensures NamesValid(rest)
  {
    forall i | 0 <= i < |rest|
      ensures EventValid(rest[i], k.nextCookie)
    {
      assert (rest + k.queue)[i] in rest + k.queue;
    }
  }

  // A hanging IN_MOVED_FROM leaves everything as it is.
  lemma Hung(k0: Kernel, c0: Cache, rest: seq<Event>, firstTry: bool, order: seq<Path>,
             k: Kernel, c: Cache, consumed: int, removed: seq<Wd>)
    requires rest != [] && Handled(k0, c0, rest, firstTry, order, k, c, consumed, removed)
    ensures consumed == -1 <==> Hanging(c0, rest, firstTry)
    ensures consumed == -1 ==> k == k0 && c == c0
    ensures consumed == -1 ==> |rest| == 1 && rest[0].MovedFrom?
    ensures consumed != -1 && firstTry && |rest| == 1 ==> !(rest[0].MovedFrom? && rest[0].wd in c0)
  {
  }

  // The buffer has room for a hanging event and any other.
  lemma RoomForOne(k: Kernel, rest: seq<Event>)
    requires QueueValid(rest + k.queue, k.nextCookie) && |rest| == 1 && k.queue != []
    ensures Bytes(rest) + Size(k.queue[0]) <= READ_BUF_LEN
  {
    assert rest[0] in rest + k.queue && k.queue[0] in rest + k.queue;
    SizeLimit(rest[0], k.nextCookie);
    SizeLimit(k.queue[0], k.nextCookie);
    assert rest[1..] == [];
  }

  lemma SizeLimit(e: Event, nextCookie: nat)
    requires EventValid(e, nextCookie)
    ensures Size(e) <= EVENT_HEADER + NAME_MAX + 1
  {
  }

  // The second read for an IN_MOVED_FROM at the end of the buffer, while others may be at work.
  method TimedRead(m: Monitor, ghost s0: State, ghost handled: nat, ghost h: History, rest: seq<Event>, numRead: nat, budget: nat)
      returns (ok: bool, rest': seq<Event>, numRead': int, left: nat, ghost h': History)
    requires m.Valid() && Sane(Logical(m.kernel, rest, m.cache))
    requires Leads(h, s0, Logical(m.kernel, rest, m.cache), handled)
    requires |rest| == 1 && rest[0].MovedFrom? && numRead == Bytes(rest) <= READ_BUF_LEN
    modifies m`kernel
    ensures ok && m.Valid() && Sane(Logical(m.kernel, rest', m.cache))
    ensures Leads(h', s0, Logical(m.kernel, rest', m.cache), handled)
    ensures rest <= rest' && 0 < numRead' <= READ_BUF_LEN
    ensures (|rest'| > 1 && numRead' == Bytes(rest')) || (rest' == rest && m.kernel.queue == [] && numRead' == numRead - 1)
    ensures Moves(rest') + Moves(m.kernel.queue) + left <= Moves(rest) + Moves(old(m.kernel.queue)) + budget
  {
    hide Leads, RootedDirs, CachedPathsValid, Represents, Tree.OneToOne;
    ok, rest', numRead' := true, rest, numRead;
    SomeBytes(rest);
    left, h' := OtherProcesses(m, s0, handled, h, rest, budget);
    if m.kernel.queue == [] {
      numRead' := numRead' - 1;  // the timeout's return value is added as if it were a count
    } else {
      ghost var q := m.kernel.queue;
      RoomForOne(m.kernel, rest);
      var got;
      ok, got := Read(m, READ_BUF_LEN - numRead);
      if ok {
        Concat(rest, got);
        Concat(got, m.kernel.queue);
        assert rest + q == rest + got + m.kernel.queue;
        rest', numRead' := rest + got, numRead + Bytes(got);
      }
    }
  }

  lemma BufferEmpty(k: Kernel, c: Cache)
    ensures Logical(k, [], c) == State(k, c)
  {
    assert [] + k.queue == k.queue;
  }

  lemma FirstSize(rest: seq<Event>)
    requires rest != []
    ensures Bytes(rest) == Size(rest[0]) + Bytes(rest[1..])
    ensures |rest| > 1 <==> Bytes(rest[1..]) >= EVENT_HEADER
  {
    SomeBytes(rest[1..]);
  }

  // One call of processNextInotifyEvent and, unless it hangs, the step past what it consumed.
  method HandleNext(m: Monitor, ghost s0: State, ghost handled: nat, ghost h: History, rest: seq<Event>, firstTry: bool)
      returns (hung: bool, rest': seq<Event>, ghost h': History)
    requires m.Valid() && Sane(Logical(m.kernel, rest, m.cache))
    requires Leads(h, s0, Logical(m.kernel, rest, m.cache), handled)
    requires rest != [] && (!firstTry ==> rest[0].MovedFrom? && (|rest| > 1 || !Paired(rest + m.kernel.queue)))
    modifies m, m.slots
    ensures m.Valid() && (m.slots == old(m.slots) || fresh(m.slots)) && Sane(Logical(m.kernel, rest', m.cache))
    ensures Leads(h', s0, Logical(m.kernel, rest', m.cache), if hung then handled else handled + 1)
    ensures hung ==> firstTry && |rest| == 1 && rest[0].MovedFrom? && rest' == rest && m.kernel == old(m.kernel)
    ensures !hung ==> |rest'| < |rest| && Bytes(rest') < Bytes(rest)
    ensures !hung ==>
      Moves(rest') + Moves(m.kernel.queue) <= Moves(rest) + Moves(old(m.kernel.queue)) - if rest[0].MovedFrom? then 1 else 0
  {
    hide Leads, Handled, RootedDirs, CachedPathsValid, Represents, Tree.OneToOne, Bytes, Moves, NamesValid, Paired;
    BufferedNames(m.kernel, rest, m.cache);
    ghost var k0, c0 := m.kernel, m.cache;
    var consumed;
    ghost var order, removed;
    consumed, order, removed := m.ProcessNextInotifyEvent(rest, firstTry);
    Hung(k0, c0, rest, firstTry, order, m.kernel, m.cache, consumed, removed);
    hung, rest', h' := consumed == -1, rest, h;
    if !hung {
      h' := Consumed(h, s0, handled, k0, c0, rest, firstTry, order, m.kernel, m.cache, consumed, removed);
      SomeBytes(rest[..consumed]);
      rest' := rest[consumed..];
    }
  }

  /** Whatever the reads return, and whatever other processes do before each event is handled and
      during the timed read (renames that overtake announcements and overflows of the queue
      included), the loop handles the events one after the other as the state machine does, and
      empties the buffer. Where others keep to orderly steps, the invariant of convergence is kept. */
  method ProcessInotifyEvents(m: Monitor, cnt: nat, budget: nat) returns (ok: bool, ghost handled: nat, ghost h: History)
    requires m.Valid() && Sane(State(m.kernel, m.cache)) && m.kernel.queue != [] && cnt <= READ_BUF_LEN
    modifies m, m.slots
    ensures ok <==> old(Size(m.kernel.queue[0])) <= cnt
    ensures ok ==> m.Valid() && Sane(State(m.kernel, m.cache)) && handled > 0
    ensures ok ==> Leads(h, old(State(m.kernel, m.cache)), State(m.kernel, m.cache), handled)
    ensures ok && Trace(h) && AllOrderly(h) && old(Inv(State(m.kernel, m.cache))) ==> Inv(State(m.kernel, m.cache))
  {
    ghost var s0 := State(m.kernel, m.cache);
    LeadsNowhere(s0);
    handled, h := 0, History([s0], []);
    var rest;
    ok, rest := Read(m, cnt);
    if !ok { return; }
    assert Logical(m.kernel, rest, m.cache) == s0;
    var numRead, firstTry, left := Bytes(rest), true, budget;
    SomeBytes(rest);
    hide Inv, Sane, Leads, Logical, RootedDirs, CachedPathsValid, Represents, Tree.OneToOne, Bytes, Moves, Size, Paired;
    while numRead > 0
      invariant m.Valid() && (m.slots == old(m.slots) || fresh(m.slots))
      invariant Sane(Logical(m.kernel, rest, m.cache)) && Leads(h, s0, Logical(m.kernel, rest, m.cache), handled)
      invariant numRead <= READ_BUF_LEN && (rest == [] <==> numRead <= 0)
      invariant numRead == Bytes(rest) || (numRead == Bytes(rest) - 1 && |rest| <= 1 && !firstTry) || rest == []
      invariant !firstTry ==> rest != [] && rest[0].MovedFrom? && (|rest| > 1 || !Paired(rest + m.kernel.queue))
      invariant rest == [] ==> handled > 0
      decreases Moves(rest) + Moves(m.kernel.queue) + left, firstTry, |rest|
    {
      left, h := OtherProcesses(m, s0, handled, h, rest, left);
      FirstSize(rest);
      assert Size(rest[0]) < numRead <==> |rest| > 1;  // the test for a following event
      var hung, rest';
      hung, rest', h := HandleNext(m, s0, handled, h, rest, firstTry);
      if !hung {
        numRead := numRead - (Bytes(rest) - Bytes(rest'));
        SomeBytes(rest');
        rest, firstTry, handled := rest', true, handled + 1;
      } else {
        firstTry := false;
        ok, rest, numRead, left, h := TimedRead(m, s0, handled, h, rest, numRead, left);
        if !ok { return; }
        if |rest| == 1 { NothingBehind(rest, m.kernel.queue); }
      }
    }
    BufferEmpty(m.kernel, m.cache);
    LeadsTrace(h, s0, State(m.kernel, m.cache), handled);
    if AllOrderly(h) && Inv(s0) { LeadsInv(h, s0, State(m.kernel, m.cache), handled); }
  }

  lemma LeadsTrace(h: History, s: State, t: State, handled: nat)
    requires Leads(h, s, t, handled)
    ensures Trace(h)
  {
    hide Trace;
  }

  lemma NothingBehind(rest: seq<Event>, q: seq<Event>)
    requires |rest| == 1 && q == []
    ensures !Paired(rest + q)
  {
  }
}
