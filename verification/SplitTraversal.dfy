/** watchSubtree() taken apart: directories may be created, and arrive from outside, between any two steps
    of a traversal, which for each directory first adds the watch and then reads the entries one by one,
    going down into each of them in between. */
module SplitTraversal {
  import opened Paths
  import opened DirTree
  import opened TreeChanges
  import opened CacheProtocol
  import opened CacheConvergence
  import opened CacheHandling

  // The program is between events when idle; else todo holds directories that nftw has read but not yet
  // reported, and reading the directories it is reading, with those entries still to be read that were
  // there when the watch was added.
  datatype Phase = Idle | Walking(todo: set<Path>, reading: map<Path, set<Path>>)

  datatype Monitoring = Monitoring(s: State, phase: Phase)

  function Children(t: Tree, p: Path): set<Path> {
    set d | d in t.dirs && |d| > 1 && Parent(d) == p
  }

  datatype Step =
    | Mkdir(p: Path, n: Name, ino: Ino, merge: bool)
    | MoveIn(parent: Path, name: Name, sub: map<Path, Ino>)
    | Begin                           // take the next event off the queue
    | Watch(dir: Path)                // traverseTree on a directory
    | Entry(open: Path, child: Path)  // one entry of a directory is read
    | Close(open: Path)               // there are no more
    | End

  ghost predicate Enabled(m: Monitoring, a: Step) {
    match a
    case Mkdir(p, n, ino, _) => m.s.k.tree.CanMkdir(p, n, ino)
    case MoveIn(p, n, sub) => m.s.k.tree.CanMoveIn(p, n, sub) && p + [n] !in m.s.k.tree.dirs
    case Begin => m.phase.Idle? && m.s.k.queue != []
    case Watch(dir) => m.phase.Walking? && dir in m.phase.todo
    case Entry(open, child) => m.phase.Walking? && open in m.phase.reading && child in Children(m.s.k.tree, open)
    case Close(open) => m.phase.Walking? && open in m.phase.reading && m.phase.reading[open] == {}
    case End => m.phase == Walking({}, map[])
  }

  predicate Announces(e: Event, w: Wd, n: Name) {
    IsAnnounce(e) && e.wd == w && e.name == n
  }

  // A directory below a watched one is watched, announced, or still to be reached.
  ghost predicate Coming(m: Monitoring, d: Path) {
    var t := m.s.k.tree;
    d in t.dirs && |d| > 1 && t.Watched(Parent(d)) && !t.Watched(d) ==>
      || (exists i :: 0 <= i < |m.s.k.queue| && Announces(m.s.k.queue[i], t.WdOf(Parent(d)), Last(d)))
      || (m.phase.Walking? && d in m.phase.todo)
      || (m.phase.Walking? && Parent(d) in m.phase.reading && d in m.phase.reading[Parent(d)])
  }

  ghost predicate Sound(s: State) {
    && Ready(s) && s.k.tree.Rooted()
    && (forall r | r in s.k.tree.roots :: s.k.tree.Watched([r]))
    && (forall w | w in s.cache :: s.k.tree.Watched(s.cache[w]) && s.k.tree.WdOf(s.cache[w]) == w)
    && (forall i | 0 <= i < |s.k.queue| :: IsAnnounce(s.k.queue[i]) && s.k.queue[i].wd in s.cache)
  }

  ghost predicate Inv(m: Monitoring) {
    Sound(m.s) && forall d {:trigger Coming(m, d)} | d in m.s.k.tree.dirs :: Coming(m, d)
  }

  ghost function Do(m: Monitoring, a: Step): Monitoring
    requires Enabled(m, a)
  {
    match a
    case Mkdir(p, n, ino, merge) => m.(s := m.s.(k := m.s.k.Mkdir(p, n, ino, merge)))
    case MoveIn(p, n, sub) => m.(s := m.s.(k := m.s.k.MoveIn(p, n, sub)))
    case Begin =>
      if MustRebuild(m.s) || !IsAnnounce(m.s.k.queue[0]) then
        Monitoring(State(Fresh(m.s.k), map[]), Walking(set r | r in m.s.k.tree.roots :: [r], map[]))
      else
        var e := m.s.k.queue[0];
        var full := m.s.cache[e.wd] + [e.name];
        Monitoring(m.s.(k := m.s.k.(queue := m.s.k.queue[1..])),
                   if full in m.s.cache.Values then Idle else Walking({full}, map[]))
    case Watch(dir) =>
      Monitoring(Visit(m.s, dir), Walking(m.phase.todo - {dir}, m.phase.reading[dir := Children(m.s.k.tree, dir)]))
    case Entry(open, child) =>
      m.(phase := Walking(m.phase.todo + {child}, m.phase.reading[open := m.phase.reading[open] - {child}]))
    case Close(open) => m.(phase := Walking(m.phase.todo, m.phase.reading - {open}))
    case End => m.(phase := Idle)
  }

  /** No step of a traversal finds a descriptor missing. */
  lemma NeverRebuilds(m: Monitoring)
    requires Inv(m) && m.s.k.queue != []
    ensures !MustRebuild(m.s)
  {
    hide RootedDirs, Ready, Coming;
  }

  // ---------- new directories ----------

  // The queue q has become r: p/n is announced, and nothing else than p is heard of.
  ghost predicate Heard(t: Tree, q: seq<Event>, r: seq<Event>, p: Path, n: Name) {
    && q <= r
    && (forall i | |q| <= i < |r| :: IsAnnounce(r[i]) && t.Watched(p) && r[i].wd == t.WdOf(p))
    && (t.Watched(p) ==> r != [] && Announces(r[|r| - 1], t.WdOf(p), n))
  }

  // New, unwatched directories at and below p/n, and an event about the topmost if p is watched.
  ghost predicate Extended(s: State, s': State, p: Path, n: Name) {
    && s'.cache == s.cache && s'.k.nextWd == s.k.nextWd && Grown(s.k.tree, s'.k.tree, p, n) && s'.k.tree.Valid()
    && Heard(s.k.tree, s.k.queue, s'.k.queue, p, n)
  }

  lemma MkdirExtends(s: State, p: Path, n: Name, ino: Ino, merge: bool)
    requires s.k.tree.Valid() && s.k.tree.CanMkdir(p, n, ino)
    ensures Extended(s, s.(k := s.k.Mkdir(p, n, ino, merge)), p, n)
  {
    MkdirGrown(s.k.tree, p, n, ino);
    MkdirHeard(s.k, p, n, ino, merge);
    hide Grown, Tree.Valid, Tree.CanMkdir, Heard;
  }

  lemma MkdirHeard(k: Kernel, p: Path, n: Name, ino: Ino, merge: bool)
    ensures Heard(k.tree, k.queue, k.Mkdir(p, n, ino, merge).queue, p, n)
  {
  }

  lemma MoveInExtends(s: State, p: Path, n: Name, sub: map<Path, Ino>)
    requires s.k.tree.Valid() && s.k.tree.CanMoveIn(p, n, sub) && p + [n] !in s.k.tree.dirs
    ensures Extended(s, s.(k := s.k.MoveIn(p, n, sub)), p, n)
  {
    MoveInGrown(s.k.tree, p, n, sub);
    MoveInHeard(s.k, p, n, sub);
    hide Grown, Tree.Valid, Tree.CanMoveIn, Tree.MoveIn, Heard;
  }

  lemma MoveInHeard(k: Kernel, p: Path, n: Name, sub: map<Path, Ino>)
    requires p + [n] !in k.tree.dirs
    ensures Heard(k.tree, k.queue, k.MoveIn(p, n, sub).queue, p, n)
  {
    assert k.tree.Gone(p + [n]) == [];
    hide Tree.MoveIn;
  }

  lemma GrownWatched(t: Tree, u: Tree, p: Path, n: Name)
    requires Grown(t, u, p, n)
    ensures forall q :: u.Watched(q) <==> t.Watched(q)
    ensures forall q | t.Watched(q) :: u.WdOf(q) == t.WdOf(q)
  {
  }

  lemma ExtendedReady(s: State, s': State, p: Path, n: Name)
    requires Sound(s) && Extended(s, s', p, n)
    ensures Ready(s') && s'.k.tree.Rooted() && forall r | r in s'.k.tree.roots :: s'.k.tree.Watched([r])
    ensures forall w | w in s'.cache :: s'.k.tree.Watched(s'.cache[w]) && s'.k.tree.WdOf(s'.cache[w]) == w
  {
    GrownWatched(s.k.tree, s'.k.tree, p, n);
    hide RootedDirs, Heard, Tree.OneToOne, Tree.Watched, Tree.WdOf;
  }

  lemma ExtendedQueue(s: State, s': State, p: Path, n: Name)
    requires Sound(s) && Extended(s, s', p, n)
    ensures forall i | 0 <= i < |s'.k.queue| :: IsAnnounce(s'.k.queue[i]) && s'.k.queue[i].wd in s'.cache
  {
    assert s.k.tree.Watched(p) ==> s.k.tree.WdOf(p) in s.cache;
    hide RootedDirs, Tree.OneToOne, Grown, Announces, Ready, Tree.Watched, Tree.Valid;
    forall i | 0 <= i < |s'.k.queue|
      ensures IsAnnounce(s'.k.queue[i]) && s'.k.queue[i].wd in s'.cache
    {
      if i < |s.k.queue| { assert s'.k.queue[i] == s.k.queue[i]; }
    }
  }

  lemma ExtendedSound(s: State, s': State, p: Path, n: Name)
    requires Sound(s) && Extended(s, s', p, n)
    ensures Sound(s')
  {
    hide Extended, Ready, RootedDirs, Tree.OneToOne, Tree.Watched, Tree.WdOf;
    ExtendedReady(s, s', p, n);
    ExtendedQueue(s, s', p, n);
  }

  lemma ExtendedComing(m: Monitoring, m': Monitoring, p: Path, n: Name, d: Path)
    requires Extended(m.s, m'.s, p, n) && m'.phase == m.phase && d in m'.s.k.tree.dirs
    requires d in m.s.k.tree.dirs ==> Coming(m, d)
    ensures Coming(m', d)
  {
    var t, u := m.s.k.tree, m'.s.k.tree;
    GrownWatched(t, u, p, n);
    if |d| > 1 && t.Watched(Parent(d)) && !t.Watched(d) {
      hide Grown, Heard, Tree.Valid, Tree.Watched, Tree.WdOf, Announces;
      if d !in t.dirs {
        GrownNew(t, u, p, n, d);
        HeardNew(t, m.s.k.queue, m'.s.k.queue, p, n);
      } else {
        HeardStill(t, m.s.k.queue, m'.s.k.queue, p, n, t.WdOf(Parent(d)), Last(d));
      }
    }
  }

  lemma GrownNew(t: Tree, u: Tree, p: Path, n: Name, d: Path)
    requires Grown(t, u, p, n) && d in u.dirs && d !in t.dirs && d != [] && t.Watched(Parent(d))
    ensures d == p + [n]
  {
  }

  lemma HeardNew(t: Tree, q: seq<Event>, r: seq<Event>, p: Path, n: Name)
    requires Heard(t, q, r, p, n) && t.Watched(p)
    ensures exists i :: 0 <= i < |r| && Announces(r[i], t.WdOf(p), n)
  {
    assert Announces(r[|r| - 1], t.WdOf(p), n);
  }

  lemma HeardStill(t: Tree, q: seq<Event>, r: seq<Event>, p: Path, n: Name, w: Wd, name: Name)
    requires Heard(t, q, r, p, n)
    ensures (exists i :: 0 <= i < |q| && Announces(q[i], w, name)) ==> exists i :: 0 <= i < |r| && Announces(r[i], w, name)
  {
    hide Announces;
    if i :| 0 <= i < |q| && Announces(q[i], w, name) { assert r[i] == q[i]; }
  }

  lemma ExtendedInv(m: Monitoring, m': Monitoring, p: Path, n: Name)
    requires Inv(m) && Extended(m.s, m'.s, p, n) && m'.phase == m.phase
    ensures Inv(m')
  {
    hide Sound, Extended, Coming;
    ExtendedSound(m.s, m'.s, p, n);
    forall d | d in m'.s.k.tree.dirs
      ensures Coming(m', d)
    {
      ExtendedComing(m, m', p, n, d);
    }
  }

  lemma SoundValid(s: State)
    requires Sound(s)
    ensures s.k.tree.Valid()
  {
    hide RootedDirs;
  }

  // ---------- the steps of the program ----------

  lemma Begun(m: Monitoring)
    requires Inv(m) && Enabled(m, Begin)
    ensures Inv(Do(m, Begin))
  {
    var m' := Do(m, Begin);
    NeverRebuilds(m);
    BegunSound(m.s);
    forall d | d in m.s.k.tree.dirs
      ensures Coming(m', d)
    {
      BegunComing(m, m', d);
    }
    hide Coming, MustRebuild, Sound;
  }

  lemma BegunSound(s: State)
    requires Sound(s) && s.k.queue != []
    ensures Sound(s.(k := s.k.(queue := s.k.queue[1..]))) && IsAnnounce(s.k.queue[0])
  {
    hide RootedDirs, Tree.OneToOne;
    assert forall i | 0 <= i < |s.k.queue| - 1 :: s.k.queue[1..][i] == s.k.queue[i + 1];
  }

  lemma BegunComing(m: Monitoring, m': Monitoring, d: Path)
    requires Inv(m) && m.phase.Idle? && m.s.k.queue != [] && d in m.s.k.tree.dirs
    requires m'.s == m.s.(k := m.s.k.(queue := m.s.k.queue[1..]))
    requires var full := m.s.cache[m.s.k.queue[0].wd] + [m.s.k.queue[0].name];
      m'.phase == if full in m.s.cache.Values then Idle else Walking({full}, map[])
    ensures Coming(m', d)
  {
    var q, t := m.s.k.queue, m.s.k.tree;
    hide RootedDirs;
    assert Coming(m, d);
    if |d| > 1 && t.Watched(Parent(d)) && !t.Watched(d) {
      assert d == Parent(d) + [Last(d)];
      var i :| 0 <= i < |q| && Announces(q[i], t.WdOf(Parent(d)), Last(d));
      if i > 0 { assert q[1..][i - 1] == q[i]; }
    }
  }

  lemma Watched(m: Monitoring, dir: Path)
    requires Inv(m) && Enabled(m, Watch(dir))
    ensures Inv(Do(m, Watch(dir)))
  {
    VisitEffect(m.s, dir);
    var m' := Do(m, Watch(dir));
    assert m'.s == Visit(m.s, dir);
    assert m'.phase == Walking(m.phase.todo - {dir}, m.phase.reading[dir := Children(m.s.k.tree, dir)]);
    WatchedSound(m.s, m'.s, dir);
    hide Visit, RootedDirs, Walkable, Ready, Sound, Do;
    forall d | d in m'.s.k.tree.dirs
      ensures Coming(m', d)
    {
      assert Coming(m, d);
      WatchedComing(m, m', dir, d);
    }
  }

  lemma WatchedSound(s: State, s': State, dir: Path)
    requires Sound(s) && Extends(s, s') && s' == Visit(s, dir)
    requires forall q | q in s.k.tree.dirs :: s'.k.tree.Watched(q) <==> s.k.tree.Watched(q) || q == dir
    ensures Sound(s')
  {
    VisitEffect(s, dir);
    hide Visit, RootedDirs, Walkable;
    forall w | w in s'.cache
      ensures s'.k.tree.Watched(s'.cache[w]) && s'.k.tree.WdOf(s'.cache[w]) == w
    {
      if w in s.cache { assert s.k.tree.Watched(s.cache[w]); }
    }
    hide Ready;
  }

  lemma WatchedComing(m: Monitoring, m': Monitoring, dir: Path, d: Path)
    requires Coming(m, d) && Extends(m.s, m'.s) && m.phase.Walking?
    requires m'.phase == Walking(m.phase.todo - {dir}, m.phase.reading[dir := Children(m.s.k.tree, dir)])
    requires forall q | q in m.s.k.tree.dirs :: m'.s.k.tree.Watched(q) <==> m.s.k.tree.Watched(q) || q == dir
    ensures Coming(m', d)
  {
    var t, t' := m.s.k.tree, m'.s.k.tree;
    if d in t.dirs && |d| > 1 && t'.Watched(Parent(d)) && !t'.Watched(d) && Parent(d) != dir {
      if i :| 0 <= i < |m.s.k.queue| && Announces(m.s.k.queue[i], t.WdOf(Parent(d)), Last(d)) {
        assert Announces(m'.s.k.queue[i], t'.WdOf(Parent(d)), Last(d));
      }
    }
  }

  // The traversal goes on, and whatever was still to be reached is so still.
  lemma GoesOn(m: Monitoring, m': Monitoring)
    requires Inv(m) && m'.s == m.s && m.phase.Walking?
    requires forall d | d in m.phase.todo :: m'.phase.Walking? && d in m'.phase.todo
    requires forall p, d | p in m.phase.reading && d in m.phase.reading[p] ::
      m'.phase.Walking? && (d in m'.phase.todo || (p in m'.phase.reading && d in m'.phase.reading[p]))
    ensures Inv(m')
  {
    hide Sound;
    forall d | d in m.s.k.tree.dirs
      ensures Coming(m', d)
    {
      assert Coming(m, d);
      GoesOnComing(m, m', d);
    }
  }

  lemma GoesOnComing(m: Monitoring, m': Monitoring, d: Path)
    requires Coming(m, d) && m'.s == m.s && m.phase.Walking?
    requires d in m.phase.todo ==> m'.phase.Walking? && d in m'.phase.todo
    requires |d| > 1 && Parent(d) in m.phase.reading && d in m.phase.reading[Parent(d)] ==>
      m'.phase.Walking? && (d in m'.phase.todo || (Parent(d) in m'.phase.reading && d in m'.phase.reading[Parent(d)]))
    ensures Coming(m', d)
  {
    var t, q := m.s.k.tree, m.s.k.queue;
    if d in t.dirs && |d| > 1 && t.Watched(Parent(d)) && !t.Watched(d) {
      if i :| 0 <= i < |q| && Announces(q[i], t.WdOf(Parent(d)), Last(d)) {
        assert Announces(m'.s.k.queue[i], t.WdOf(Parent(d)), Last(d));
      }
    }
  }

  // Reading an entry, closing a directory and ending the traversal change the phase only.
  lemma Read(m: Monitoring, a: Step)
    requires Inv(m) && Enabled(m, a) && (a.Entry? || a.Close? || a.End?)
    ensures Inv(Do(m, a))
  {
    hide Inv;
    GoesOn(m, Do(m, a));
  }

  lemma StepInv(m: Monitoring, a: Step)
    requires Inv(m) && Enabled(m, a)
    ensures Inv(Do(m, a))
  {
    match a
    case Mkdir(p, n, ino, merge) =>
      SoundValid(m.s);
      hide Inv, Tree.CanMkdir, Tree.Valid, Sound;
      MkdirExtends(m.s, p, n, ino, merge);
      hide Extended;
      ExtendedInv(m, Do(m, a), p, n);
    case MoveIn(p, n, sub) =>
      SoundValid(m.s);
      hide Inv, Tree.CanMoveIn, Tree.Valid, Sound;
      MoveInExtends(m.s, p, n, sub);
      hide Extended;
      ExtendedInv(m, Do(m, a), p, n);
    case Begin => hide Inv; Begun(m);
    case Watch(dir) => hide Inv; Watched(m, dir);
    case Entry(_, _) => hide Inv; Read(m, a);
    case Close(_) => hide Inv; Read(m, a);
    case End => hide Inv; Read(m, a);
  }

  // Runs start with the cache in sync, nothing to handle and no traversal under way.
  ghost predicate Start(m: Monitoring) {
    m.phase.Idle? && m.s.k.queue == [] && m.s.k.tree.Rooted() && Ready(m.s) && Synced(m.s)
  }

  ghost predicate Run(ms: seq<Monitoring>, steps: seq<Step>) {
    && |ms| == |steps| + 1 && Start(ms[0])
    && forall i | 0 <= i < |steps| :: Enabled(ms[i], steps[i]) && ms[i + 1] == Do(ms[i], steps[i])
  }

  lemma {:induction false} RunInv(ms: seq<Monitoring>, steps: seq<Step>, i: nat)
    requires Run(ms, steps) && i < |ms|
    ensures Inv(ms[i])
  {
    hide *;
    if i == 0 {
      RunStarts(ms, steps);
      StartInv(ms[0]);
    } else {
      RunInv(ms, steps, i - 1);
      RunStep(ms, steps, i - 1);
      StepInv(ms[i - 1], steps[i - 1]);
    }
  }

  lemma RunStarts(ms: seq<Monitoring>, steps: seq<Step>)
    requires Run(ms, steps)
    ensures |ms| == |steps| + 1 && Start(ms[0])
  {
    hide Start;
  }

  lemma RunStep(ms: seq<Monitoring>, steps: seq<Step>, i: nat)
    requires Run(ms, steps) && i + 1 < |ms|
    ensures |ms| == |steps| + 1 && Enabled(ms[i], steps[i]) && ms[i + 1] == Do(ms[i], steps[i])
  {
    hide Start, Enabled, Do;
  }

  lemma StartInv(m: Monitoring)
    requires Start(m)
    ensures Inv(m)
  {
  }

  lemma ParentOf(s: State, d: Path)
    requires Sound(s) && d in s.k.tree.dirs
    ensures |d| > 1 ==> Parent(d) in s.k.tree.dirs
  {
    assert ParentLive(s.k.tree.dirs, d);
  }

  lemma {:induction false} AllWatched(m: Monitoring, d: Path)
    requires Inv(m) && m.phase.Idle? && m.s.k.queue == [] && d in m.s.k.tree.dirs
    ensures m.s.k.tree.Watched(d)
    decreases |d|
  {
    ParentOf(m.s, d);
    assert Coming(m, d) && ValidPath(m.s.k.tree.roots, d);
    if |d| > 1 {
      AllWatched(m, Parent(d));
    } else {
      assert d == [d[0]];
    }
  }

  /** However creations and arrivals of directories interleave with the steps of a traversal, once no
      event is left and no traversal is under way the cache is exactly the tree, and it is never rebuilt. */
  lemma Converges(ms: seq<Monitoring>, steps: seq<Step>, i: nat)
    requires Run(ms, steps) && i < |ms|
    ensures ms[i].s.k.queue != [] ==> !MustRebuild(ms[i].s)
    ensures ms[i].s.k.queue == [] && ms[i].phase.Idle? ==> Synced(ms[i].s)
  {
    RunInv(ms, steps, i);
    var m := ms[i];
    if m.s.k.queue != [] {
      NeverRebuilds(m);
    } else if m.phase.Idle? {
      forall d | d in m.s.k.tree.dirs
        ensures m.s.k.tree.Watched(d)
      {
        AllWatched(m, d);
      }
    }
  }
}
