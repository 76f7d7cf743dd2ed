/** Runs in which the program loses track, although it never meets an unknown descriptor. */
module CacheLosses {
  import opened Paths
  import opened DirTree
  import opened TreeChanges
  import opened CacheProtocol
  import opened CacheReplay
  import opened CacheConvergence
  import opened CacheHandling
  import opened CacheChanges
  import opened CacheMoves
  import opened CacheSanity
  import opened CacheTheorems
  import opened CacheLimits

  // ---------- handling without a rebuild ----------

  // The cache c2 has the entries of c, and others that traversals have added since.
  predicate Over(c2: Cache, c: Cache) {
    forall w | w in c :: w in c2 && c2[w] == c[w]
  }

  lemma NextOver(c2: Cache, c: Cache, q: seq<Event>)
    requires q != [] && Replayable(c, q) && Over(c2, c)
    ensures Replayable(c2, q) && Over(Next(c2, q).0, Next(c, q).0) && Next(c2, q).1 == Next(c, q).1
    ensures DroppedHere(c, q) <= DroppedHere(c2, q) <= DroppedHere(c, q) + (c2.Keys - c.Keys)
    ensures Next(c2, q).0.Keys - Next(c, q).0.Keys <= c2.Keys - c.Keys
  {
  }

  // The events can be handled with c as with the cache, which has more entries, all of them watched.
  ghost predicate Steady(s: State, c: Cache) {
    && s.k.Valid() && Bounded(s) && Over(s.cache, c) && ReplayOK(c, s.k.queue)
    && (forall w | w in Zapped(c, s.k.queue) || (w in s.cache && w !in c) :: w in s.k.tree.watch.Values)
    && (forall p | s.k.tree.Watched(p) :: Expected(s, c, s.k.tree.WdOf(p)))
  }

  // A descriptor that no IN_DELETE_SELF will take out of the cache.
  predicate Expected(s: State, c: Cache, w: Wd)
    requires ReplayOK(c, s.k.queue)
  {
    w in s.cache && (w in c ==> w in Final(c, s.k.queue) || w in Zapped(c, s.k.queue))
  }

  lemma TrackedSteady(s: State)
    requires Sane(s) && ReplayOK(s.cache, s.k.queue)
    requires Tracks(s.k.tree, Final(s.cache, s.k.queue)) && Dead(s.k.tree, Zapped(s.cache, s.k.queue))
    ensures Steady(s, s.cache)
  {
    FinalKeys(s.cache, s.k.queue);
    hide RootedDirs, Tree.OneToOne, QueueValid, ReplayOK, Final, Zapped;
  }

  lemma SteadyWalks(s: State, c: Cache)
    requires Steady(s, c)
    ensures Walkable(s)
  {
    hide RootedDirs, QueueValid, ReplayOK, Final, Zapped, Over;
  }

  lemma SteadyHead(s: State, c: Cache)
    requires Steady(s, c) && s.k.queue != []
    ensures Replayable(c, s.k.queue) && !MustRebuild(s)
    ensures DroppedHere(s.cache, s.k.queue) <= s.k.tree.watch.Values
  {
    NextOver(s.cache, c, s.k.queue);
    assert DroppedHere(c, s.k.queue) <= Zapped(c, s.k.queue);
    hide RootedDirs, Tree.OneToOne, QueueValid, Loggable;
  }

  lemma SteadyPopped(s: State, c: Cache)
    requires Steady(s, c) && s.k.queue != [] && IsAnnounce(s.k.queue[0])
    ensures Steady(State(s.k.(queue := s.k.queue[1..]), s.cache), c) && Next(c, s.k.queue) == (c, s.k.queue[1..])
  {
    AnnouncedHead(c, s.k.queue);
    hide RootedDirs, Tree.OneToOne, ReplayOK, Final, Zapped, Over;
  }

  lemma SteadyAnnounced(s: State, c: Cache, order: seq<Path>, removed: seq<Wd>)
    requires Steady(s, c) && s.k.queue != [] && IsAnnounce(s.k.queue[0]) && Choice(s, order, removed)
    ensures Replayable(c, s.k.queue)
    ensures var s' := Process(s, order, removed);
      Steady(s', Next(c, s.k.queue).0) && s'.k.queue == s.k.queue[1..] && KeepsAll(s, s')
  {
    SteadyHead(s, c);
    SteadyPopped(s, c);
    var popped, e := State(s.k.(queue := s.k.queue[1..]), s.cache), s.k.queue[0];
    hide Steady, MustRebuild, Walk;
    if s.cache[e.wd] + [e.name] in s.cache.Values {
      assert Process(s, order, removed) == popped;
    } else {
      assert Process(s, order, removed) == Walk(popped, order);
      hide Process, Choice, Replayable, ReplayOK, Next, Tree.OneToOne, RootedDirs, QueueValid, Over;
      SteadyWalked(popped, c, order);
    }
  }

  // A traversal leaves the watches and entries there are.
  ghost predicate KeepsAll(s: State, s': State) {
    && s'.k.tree.dirs == s.k.tree.dirs && Over(s'.cache, s.cache)
    && (forall p | s.k.tree.Watched(p) :: s'.k.tree.Watched(p) && s'.k.tree.WdOf(p) == s.k.tree.WdOf(p))
  }

  lemma SteadyWalked(s: State, c: Cache, order: seq<Path>)
    requires Steady(s, c)
    ensures var s' := Walk(s, order); Steady(s', c) && s'.k.queue == s.k.queue && KeepsAll(s, s')
  {
    SteadyWalks(s, c);
    SteadyValid(s, c);
    hide *;
    WalkValid(s, order);
    WalkEffect(s, order);
    SteadyGrows(s, Walk(s, order), c);
  }

  lemma SteadyValid(s: State, c: Cache)
    requires Steady(s, c)
    ensures s.k.Valid() && Bounded(s) && ReplayOK(c, s.k.queue)
  {
    hide RootedDirs, Tree.OneToOne, QueueValid, ReplayOK, Final, Zapped, Over;
  }

  lemma SteadyGrows(s: State, s': State, c: Cache)
    requires Steady(s, c) && Walkable(s) && Walkable(s') && Extends(s, s') && s'.k.Valid() && Bounded(s')
    ensures Steady(s', c) && KeepsAll(s, s')
  {
    hide RootedDirs, Tree.OneToOne, QueueValid, ReplayOK, Final, Zapped;
    var q := s.k.queue;
    forall w | w in Zapped(c, q) || (w in s'.cache && w !in c)
      ensures w in s'.k.tree.watch.Values
    {
      if w in s.cache || w in Zapped(c, q) {
        var i :| i in s.k.tree.watch && s.k.tree.watch[i] == w;
        assert s'.k.tree.watch[i] == w;
      } else {
        assert s'.k.tree.Watched(s'.cache[w]);
      }
    }
    forall p | s'.k.tree.Watched(p)
      ensures Expected(s', c, s'.k.tree.WdOf(p))
    {
      if s.k.tree.Watched(p) {
        assert Expected(s, c, s.k.tree.WdOf(p));
      } else {
        NewEntry(s, s', p);
      }
    }
  }

  // The watches and entries that handling a logged event leaves.
  lemma SteadyLogged(s: State, c: Cache, order: seq<Path>, removed: seq<Wd>)
    requires Steady(s, c) && s.k.queue != [] && !IsAnnounce(s.k.queue[0]) && Choice(s, order, removed)
    ensures Replayable(c, s.k.queue)
    ensures var (c1, q1) := Next(c, s.k.queue); var s' := Process(s, order, removed);
      && Steady(s', c1) && s'.cache == Next(s.cache, s.k.queue).0 && s'.k.queue == q1 + Ignoreds(removed)
      && s'.k.tree == Unwatch(s.k.tree, DroppedHere(s.cache, s.k.queue))
      && (DroppedHere(s.cache, s.k.queue) == {} ==> removed == [])
  {
    SteadyHead(s, c);
    SteadyValid(s, c);
    var q := s.k.queue;
    NextOver(s.cache, c, q);
    var (c1, q1) := Next(c, q);
    LoggedProcess(s, order, removed);
    LoggedValid(s, removed);
    LoggedHead(c, q);
    assert Process(s, order, removed) == Process(s, [], removed);
    hide *;
    AppendIgnoreds(c1, q1, removed);
    LoggedSteady(s, c, c1, q1, removed, Process(s, order, removed));
  }

  lemma LoggedProcess(s: State, order: seq<Path>, removed: seq<Wd>)
    requires s.k.queue != [] && !IsAnnounce(s.k.queue[0]) && !MustRebuild(s) && Choice(s, order, removed)
    ensures Replayable(s.cache, s.k.queue)
    ensures var s' := Process(s, order, removed);
      && s'.cache == Next(s.cache, s.k.queue).0 && s'.k.queue == Next(s.cache, s.k.queue).1 + Ignoreds(removed)
      && s'.k == s.k.(tree := s'.k.tree, queue := s'.k.queue)
      && s'.k.tree == Unwatch(s.k.tree, DroppedHere(s.cache, s.k.queue))
      && (DroppedHere(s.cache, s.k.queue) == {} ==> removed == [])
  {
    hide Loggable, Advance, Dropped, Unwatch;
  }

  lemma NextKeys(c: Cache, q: seq<Event>)
    requires q != [] && Replayable(c, q)
    ensures Next(c, q).0.Keys == c.Keys - DroppedHere(c, q) - if q[0].DeleteSelf? then {q[0].wd} else {}
    ensures q[0].DeleteSelf? ==> q[0].wd in c
  {
  }

  lemma LoggedSteady(s: State, c: Cache, c1: Cache, q1: seq<Event>, removed: seq<Wd>, s': State)
    requires Steady(s, c) && s.k.queue != [] && Replayable(c, s.k.queue) && Replayable(s.cache, s.k.queue)
    requires Next(c, s.k.queue) == (c1, q1) && ReplayOK(c1, q1) && ReplayOK(c1, s'.k.queue)
    requires Over(s'.cache, c1) && s'.cache == Next(s.cache, s.k.queue).0 && s'.k.queue == q1 + Ignoreds(removed)
    requires s'.cache.Keys - c1.Keys <= s.cache.Keys - c.Keys
    requires DroppedHere(c, s.k.queue) <= DroppedHere(s.cache, s.k.queue) <= DroppedHere(c, s.k.queue) + (s.cache.Keys - c.Keys)
    requires Final(c, s.k.queue) == Final(c1, s'.k.queue) && s'.k.Valid() && Bounded(s')
    requires Zapped(c, s.k.queue) == DroppedHere(c, s.k.queue) + Zapped(c1, s'.k.queue)
    requires DroppedHere(c, s.k.queue) !! Zapped(c1, s'.k.queue)
    requires s'.k.tree == Unwatch(s.k.tree, DroppedHere(s.cache, s.k.queue))
    ensures Steady(s', c1)
  {
    var q, gone := s.k.queue, DroppedHere(s.cache, s.k.queue);
    NextKeys(s.cache, q);
    NextKeys(c, q);
    FinalKeys(c1, s'.k.queue);
    SteadyEntries(s, c);
    hide Next, Replayable, ReplayOK, Final, Zapped, DroppedHere, Over, RootedDirs, Tree.OneToOne, QueueValid, Kernel.Valid, Bounded,
         Steady;
    forall w | w in Zapped(c1, s'.k.queue) || (w in s'.cache && w !in c1)
      ensures w in s'.k.tree.watch.Values
    {
      assert w in Zapped(c, q) || (w in s.cache && w !in c);
      assert w !in gone;
      StillWatched(s.k.tree, gone, w);
    }
    forall p | s'.k.tree.Watched(p)
      ensures Expected(s', c1, s'.k.tree.WdOf(p))
    {
      var w := s'.k.tree.WdOf(p);
      assert s.k.tree.Watched(p) && s.k.tree.WdOf(p) == w && w !in gone;
      assert Expected(s, c, w);
      assert w in s'.cache;
    }
    SteadyBy(s', c1);
  }

  lemma SteadyEntries(s: State, c: Cache)
    requires Steady(s, c)
    ensures ReplayOK(c, s.k.queue) && forall w | w in c :: w in s.cache
    ensures forall w | w in Zapped(c, s.k.queue) || (w in s.cache && w !in c) :: w in s.k.tree.watch.Values
    ensures forall p | s.k.tree.Watched(p) :: Expected(s, c, s.k.tree.WdOf(p))
  {
    hide RootedDirs, Tree.OneToOne, QueueValid, ReplayOK, Final, Zapped, Expected;
  }

  lemma SteadyBy(s: State, c: Cache)
    requires s.k.Valid() && Bounded(s) && Over(s.cache, c) && ReplayOK(c, s.k.queue)
    requires forall w | w in Zapped(c, s.k.queue) || (w in s.cache && w !in c) :: w in s.k.tree.watch.Values
    requires forall p | s.k.tree.Watched(p) :: Expected(s, c, s.k.tree.WdOf(p))
    ensures Steady(s, c)
  {
    hide RootedDirs, Tree.OneToOne, QueueValid, ReplayOK, Final, Zapped, Expected, Over;
  }

  lemma StillWatched(t: Tree, gone: set<Wd>, w: Wd)
    requires w in t.watch.Values && w !in gone
    ensures w in Unwatch(t, gone).watch.Values
  {
    var i :| i in t.watch && t.watch[i] == w;
    assert i in Unwatch(t, gone).watch && Unwatch(t, gone).watch[i] == w;
  }

  // ---------- a watch that will be removed ----------

  predicate NoAnnounce(q: seq<Event>) {
    forall e | e in q :: !IsAnnounce(e)
  }

  // The watch w will be removed, and no traversal comes after that.
  predicate ZapLast(c: Cache, q: seq<Event>, w: Wd)
    requires ReplayOK(c, q)
    decreases |q|
  {
    q != [] && ((w in DroppedHere(c, q) && NoAnnounce(Next(c, q).1)) || ZapLast(Next(c, q).0, Next(c, q).1, w))
  }

  lemma {:induction false} ZapLastZapped(c: Cache, q: seq<Event>, w: Wd)
    requires ReplayOK(c, q) && ZapLast(c, q, w)
    ensures w in Zapped(c, q)
    decreases |q|
  {
    if ZapLast(Next(c, q).0, Next(c, q).1, w) { ZapLastZapped(Next(c, q).0, Next(c, q).1, w); }
  }

  lemma {:induction false} ZapLastAppend(c: Cache, q: seq<Event>, r: seq<Event>, w: Wd)
    requires ReplayOK(c, q) && ReplayOK(c, q + r) && ReplayOK(Final(c, q), r) && Separate(q, r)
    requires ZapLast(Final(c, q), r, w)
    ensures ZapLast(c, q + r, w)
    decreases |q|
  {
    if q == [] {
      assert q + r == r;
    } else {
      NextAppend(c, q, r);
      hide DroppedHere, Replayable, Next;
      ZapLastAppend(Next(c, q).0, Next(c, q).1, r, w);
    }
  }

  lemma {:induction false} ZapLastLonger(c: Cache, q: seq<Event>, r: seq<Event>, w: Wd)
    requires ReplayOK(c, q) && ReplayOK(c, q + r) && Separate(q, r) && NoAnnounce(r) && ZapLast(c, q, w)
    ensures ZapLast(c, q + r, w)
    decreases |q|
  {
    NextAppend(c, q, r);
    hide DroppedHere, Replayable, Next;
    if ZapLast(Next(c, q).0, Next(c, q).1, w) { ZapLastLonger(Next(c, q).0, Next(c, q).1, r, w); }
  }

  // The directory d is going to lose its watch w, or has lost it, for good.
  ghost predicate Doomed(s: State, c: Cache, d: Path, w: Wd) {
    && Steady(s, c) && d in s.k.tree.dirs
    && if s.k.tree.Watched(d) then s.k.tree.WdOf(d) == w && ZapLast(c, s.k.queue, w) else NoAnnounce(s.k.queue)
  }

  lemma DoomedAnnounced(s: State, c: Cache, d: Path, w: Wd, order: seq<Path>, removed: seq<Wd>)
    requires Doomed(s, c, d, w) && s.k.queue != [] && IsAnnounce(s.k.queue[0]) && Choice(s, order, removed)
    ensures Replayable(c, s.k.queue) && Doomed(Process(s, order, removed), Next(c, s.k.queue).0, d, w)
  {
    SteadyAnnounced(s, c, order, removed);
    assert s.k.queue[0] in s.k.queue;
    assert DroppedHere(c, s.k.queue) == {} && Next(c, s.k.queue) == (c, s.k.queue[1..]);
    hide Steady, Process, Choice, Over;
  }

  lemma IgnoredsOnly(q: seq<Event>, wds: seq<Wd>)
    ensures NoAnnounce(q) ==> NoAnnounce(q + Ignoreds(wds))
    ensures NoAnnounce(Ignoreds(wds)) && Separate(q, Ignoreds(wds))
  {
  }

  lemma DoomedLogged(s: State, c: Cache, d: Path, w: Wd, order: seq<Path>, removed: seq<Wd>)
    requires Doomed(s, c, d, w) && s.k.queue != [] && !IsAnnounce(s.k.queue[0]) && Choice(s, order, removed)
    ensures Replayable(c, s.k.queue) && Doomed(Process(s, order, removed), Next(c, s.k.queue).0, d, w)
  {
    var q, s' := s.k.queue, Process(s, order, removed);
    SteadyLogged(s, c, order, removed);
    SteadyHead(s, c);
    SteadyEntries(s, c);
    SteadyEntries(s', Next(c, q).0);
    var (c1, q1) := Next(c, q);
    NextOver'(s, c);
    IgnoredsOnly(q1, removed);
    TailAnnounce(c, q);
    hide Process, Choice, Steady, Next, Replayable;
    if s.k.tree.Watched(d) {
      if ZapLast(c1, q1, w) {
        ZapLastZapped(c1, q1, w);
        FinalKeys(c1, q1);
        HeadApart(c, q, w);
        ZapLastLonger(c1, q1, Ignoreds(removed), w);
      }
    }
  }

  lemma NextOver'(s: State, c: Cache)
    requires Steady(s, c) && s.k.queue != []
    ensures Replayable(c, s.k.queue) && Replayable(s.cache, s.k.queue) && ReplayOK(Next(c, s.k.queue).0, Next(c, s.k.queue).1)
    ensures DroppedHere(c, s.k.queue) <= DroppedHere(s.cache, s.k.queue)
         <= DroppedHere(c, s.k.queue) + (s.cache.Keys - c.Keys)
  {
    NextOver(s.cache, c, s.k.queue);
    hide RootedDirs, Tree.OneToOne, QueueValid, Zapped, Final, Loggable;
  }

  lemma TailAnnounce(c: Cache, q: seq<Event>)
    requires q != [] && Replayable(c, q)
    ensures NoAnnounce(q) ==> NoAnnounce(Next(c, q).1)
  {
  }

  // What is removed later is not removed now, and is cached still.
  lemma HeadApart(c: Cache, q: seq<Event>, w: Wd)
    requires ReplayOK(c, q) && q != [] && Replayable(c, q) && ReplayOK(Next(c, q).0, Next(c, q).1)
    requires w in Zapped(Next(c, q).0, Next(c, q).1)
    ensures w in c && w !in DroppedHere(c, q)
  {
    FinalKeys(Next(c, q).0, Next(c, q).1);
    NextKeys(c, q);
  }

  lemma DoomedEnd(s: State, c: Cache, d: Path, w: Wd)
    requires Doomed(s, c, d, w) && s.k.queue == []
    ensures !Synced(s)
  {
    hide Steady;
  }

  lemma {:induction false} DoomedLoses(s: State, c: Cache, d: Path, w: Wd, t: State, n: nat)
    requires Doomed(s, c, d, w) && Drains(s, t, n)
    ensures !Synced(t)
    decreases n
  {
    hide *;
    if n == 0 {
      Drained(s, t);
      DoomedEnd(s, c, d, w);
    } else {
      NotDrained(s, t, n);
      var order, removed := FirstHandled(s, t, n);
      if IsAnnounce(s.k.queue[0]) {
        DoomedAnnounced(s, c, d, w, order, removed);
      } else {
        DoomedLogged(s, c, d, w, order, removed);
      }
      DoomedLoses(Process(s, order, removed), Next(c, s.k.queue).0, d, w, t, n - 1);
    }
  }

  // ---------- a rename into a directory that is not watched ----------

  // Without the IN_MOVED_TO the program takes the directory for one that has left the tree.
  lemma LeftThenGone(t: Tree, src: Path, dst: Path, p: Path, cookie: nat, c: Cache)
    requires t.Rooted() && t.CanRename(src, dst) && Tracks(t, c) && t.OneToOne()
    requires t.Watched(Parent(src)) && src <= p && t.Watched(p) && !t.Watched(Parent(dst))
    ensures var ext := t.Left(Parent(src), Last(src), cookie) + t.Arrived(Parent(dst), Last(dst), cookie) + t.Gone(dst);
      && Effect(c, ext, Without(c - Under(c, src), t, dst), {}, {src}, Under(c, src))
      && (ext != [] ==> !ext[0].MovedTo?) && ZapLast(c, ext, t.WdOf(p))
  {
    hide Effect, Separate, RootedDirs, Tree.OneToOne, Tree.CanRename, Tracks, Under, Without, Tree.Left, Tree.Arrived, Tree.Gone,
         ZapLast, Tree.Watched;
    CanMoves(t, src, dst);
    var left, gone := t.Left(Parent(src), Last(src), cookie), t.Gone(dst);
    var c1, w := c - Under(c, src), t.WdOf(p);
    LeftOnly(t, src, dst, cookie);
    LeftEffect(t, src, cookie, c);
    DstKept(t, src, dst, c);
    GoneEffect(t, c1, dst);
    var none: set<Path> := {};
    assert Under(c, src) + {} == Under(c, src) && none + none == none;
    ZapsNow(t, src, p, cookie, c);
    EffectThen(c, left, gone, c1, {}, {src}, Under(c, src), Without(c1, t, dst), {}, {});
    EffectOK(c, left + gone, Without(c1, t, dst), {}, {src}, Under(c, src));
    EffectOK(c, left, c1, {}, {src}, Under(c, src));
    ZapLastLonger(c, left, gone, w);
  }

  lemma CanMoves(t: Tree, src: Path, dst: Path)
    requires t.CanRename(src, dst)
    ensures |src| > 1 && |dst| > 1
  {
  }

  lemma LeftOnly(t: Tree, src: Path, dst: Path, cookie: nat)
    requires |src| > 1 && |dst| > 1 && t.Watched(Parent(src)) && !t.Watched(Parent(dst))
    ensures var left, gone := t.Left(Parent(src), Last(src), cookie), t.Gone(dst);
      && left + t.Arrived(Parent(dst), Last(dst), cookie) + gone == left + gone
      && Separate(left, gone) && NoAnnounce(gone) && left + gone != [] && !(left + gone)[0].MovedTo?
  {
    var left := t.Left(Parent(src), Last(src), cookie);
    assert left + [] == left;
  }

  lemma EffectOK(c: Cache, ext: seq<Event>, after: Cache, pending: set<Path>, sources: set<Path>, zapped: set<Wd>)
    requires Effect(c, ext, after, pending, sources, zapped)
    ensures ReplayOK(c, ext)
  {
  }

  lemma DstKept(t: Tree, src: Path, dst: Path, c: Cache)
    requires t.CanRename(src, dst) && Tracks(t, c)
    ensures t.Watched(dst) ==> t.WdOf(dst) in c - Under(c, src)
  {
  }

  lemma ZapsNow(t: Tree, src: Path, p: Path, cookie: nat, c: Cache)
    requires |src| > 1 && Tracks(t, c) && src <= p && t.Watched(p) && t.Watched(Parent(src))
    ensures var q := t.Left(Parent(src), Last(src), cookie); ReplayOK(c, q) && ZapLast(c, q, t.WdOf(p))
  {
    var q, c1 := t.Left(Parent(src), Last(src), cookie), c - Under(c, src);
    assert q[1..] == [] && src == Parent(src) + [Last(src)];
    assert Replayable(c, q) && Next(c, q) == (c1, []);
    assert ReplayOK(c1, []);
    assert DroppedHere(c, q) == Under(c, src) && t.WdOf(p) in Under(c, src);
  }

  lemma LosesWatches(t: Tree, src: Path, dst: Path, p0: Path, c: Cache, zapped: set<Wd>)
    requires src <= p0 && t.Valid() && t.CanRename(src, dst) && Tracks(t, c) && Dead(t, zapped) && c.Keys !! zapped
    ensures var u := t.Rename(src, dst);
      && (forall w | w in zapped + Under(c, src) :: w in u.watch.Values)
      && (forall p | u.Watched(p) :: u.WdOf(p) in c && (t.Watched(dst) ==> u.WdOf(p) != t.WdOf(dst)))
      && (t.Watched(p0) ==> u.Watched(Rebase(src, dst, p0)) && u.WdOf(Rebase(src, dst, p0)) == t.WdOf(p0))
  {
    var u := t.Rename(src, dst);
    RenameRelabels(t, src, dst);
    assert t.OneToOne() && !(src <= dst);
    assert u.watch == if dst in t.dirs then t.watch - {t.dirs[dst]} else t.watch;
    hide *;
    StillZappable(t, u, src, dst, c, zapped);
    StillCached(t, u, src, dst, c);
    Follows(t, u, src, dst, p0);
  }

  lemma Follows(t: Tree, u: Tree, src: Path, dst: Path, p: Path)
    requires Relabelled(t, u, src, dst) && p != dst
    ensures t.Watched(p) ==> u.Watched(Rebase(src, dst, p)) && u.WdOf(Rebase(src, dst, p)) == t.WdOf(p)
  {
    hide Rebase, Tree.WdOf;
  }

  lemma StillZappable(t: Tree, u: Tree, src: Path, dst: Path, c: Cache, zapped: set<Wd>)
    requires u.watch == if dst in t.dirs then t.watch - {t.dirs[dst]} else t.watch
    requires Tracks(t, c) && Dead(t, zapped) && !(src <= dst)
    ensures forall w | w in zapped + Under(c, src) :: w in u.watch.Values
  {
    forall w | w in zapped + Under(c, src)
      ensures w in u.watch.Values
    {
      if t.Watched(dst) { assert t.LiveWd(t.WdOf(dst)) && c[t.WdOf(dst)] == dst; }
      if w in Under(c, src) { assert t.LiveWd(w); }
      KeptWatch(t, u, dst, w);
    }
  }

  lemma StillCached(t: Tree, u: Tree, src: Path, dst: Path, c: Cache)
    requires Relabelled(t, u, src, dst) && Tracks(t, c) && t.OneToOne()
    ensures forall p | u.Watched(p) :: u.WdOf(p) in c && (t.Watched(dst) ==> u.WdOf(p) != t.WdOf(dst))
  {
    hide Rebase;
    forall p | u.Watched(p)
      ensures u.WdOf(p) in c && (t.Watched(dst) ==> u.WdOf(p) != t.WdOf(dst))
    {
      var q := Rebase(dst, src, p);
      assert t.Watched(q) && u.WdOf(p) == t.WdOf(q) && q != dst;
    }
  }

  lemma KeptWatch(t: Tree, u: Tree, dst: Path, w: Wd)
    requires u.watch == if dst in t.dirs then t.watch - {t.dirs[dst]} else t.watch
    requires w in t.watch.Values && (t.Watched(dst) ==> w != t.WdOf(dst))
    ensures w in u.watch.Values
  {
    var i :| i in t.watch && t.watch[i] == w;
    assert i in u.watch && u.watch[i] == w;
  }

  /** Directories are renamed into one that is not watched, and some of them are watched: their watches are
      removed, and they stay out of the cache, whatever else waits in the queue. */
  lemma RenameIntoUnwatchedLoses(s: State, src: Path, dst: Path, t: State, steps: nat)
    requires Inv(s) && Overflow !in s.k.queue && s.k.tree.CanRename(src, dst)
    requires !Unknown(s.k.tree, src) && s.k.tree.Watched(Parent(src)) && !s.k.tree.Watched(Parent(dst))
    requires Drains(s.(k := s.k.Rename(src, dst)), t, steps)
    ensures !Synced(t)
  {
    var p :| p in s.k.tree.dirs && src <= p && s.k.tree.Watched(p);
    hide *;
    InvParts(s);
    SaneParts(s);
    var tree, c, s', w := s.k.tree, FinalOf(s), s.(k := s.k.Rename(src, dst)), s.k.tree.WdOf(p);
    var ext := RenameParts(s, src, dst);
    LeftThenGone(tree, src, dst, p, s.k.nextCookie, c);
    MoveSeparate(s.k.queue, ext);
    LostQueue(s, s', ext, Without(c - Under(c, src), tree, dst), src, w);
    LosesWatches'(s, src, dst, p);
    RenameSane(s, src, dst);
    SaneParts(s');
    LostSteady(s, s', c, src, dst);
    DoomedStart(s', Rebase(src, dst, p), w);
    DoomedLoses(s', s'.cache, Rebase(src, dst, p), w, t, steps);
  }

  /** A rename from a watched directory into one that is not: the cache ends up in sync exactly when nothing
      of what moved is watched. */
  lemma RenameAwayConvergesIff(s: State, src: Path, dst: Path, t: State, steps: nat)
    requires Inv(s) && Overflow !in s.k.queue && s.k.tree.CanRename(src, dst)
    requires s.k.tree.Watched(Parent(src)) && !s.k.tree.Watched(Parent(dst)) && !s.k.tree.Watched(dst)
    requires forall p | p in s.k.tree.dirs && src <= p && !s.k.tree.Watched(p) ::
      !Trapped(OvertakenOf(s), Rebase(src, dst, p))
    requires Drains(s.(k := s.k.Rename(src, dst)), t, steps)
    ensures Synced(t) <==> forall p | p in s.k.tree.dirs && src <= p :: !s.k.tree.Watched(p)
  {
    if Unknown(s.k.tree, src) {
      hide *;
      InvParts(s);
      SaneParts(s);
      UnknownAt(s.k.tree, src);
      PostRenameAway(s, src, dst);
      RenameSane(s, src, dst);
      GoodForeseen(s.(k := s.k.Rename(src, dst)));
      DrainsSyncedIff(s.(k := s.k.Rename(src, dst)), t, steps);
    } else {
      hide *;
      RenameIntoUnwatchedLoses(s, src, dst, t, steps);
      UnknownAt(s.k.tree, src);
    }
  }

  lemma UnknownAt(t: Tree, src: Path)
    ensures Unknown(t, src) <==> forall p | p in t.dirs && src <= p :: !t.Watched(p)
  {
  }

  lemma LostQueue(s: State, s': State, ext: seq<Event>, after: Cache, src: Path, w: Wd)
    requires Consistent(s) && s'.cache == s.cache && s'.k.queue == s.k.queue + ext && Separate(s.k.queue, ext)
    requires Effect(FinalOf(s), ext, after, {}, {src}, Under(FinalOf(s), src))
    requires ReplayOK(FinalOf(s), ext) ==> ZapLast(FinalOf(s), ext, w)
    ensures ReplayOK(s'.cache, s'.k.queue) && Final(s'.cache, s'.k.queue) == after
    ensures Zapped(s'.cache, s'.k.queue) == ZappedOf(s) + Under(FinalOf(s), src) && ZapLast(s'.cache, s'.k.queue, w)
  {
    hide Tracks, Dead, Clear, ReplayOK, Final, Pending, Sources, Zapped, Overtaken, Pairs, Separate, ZapLast, Under;
    Split(s.cache, s.k.queue, ext);
    ZapLastAppend(s.cache, s.k.queue, ext, w);
  }

  lemma LosesWatches'(s: State, src: Path, dst: Path, p0: Path)
    requires src <= p0 && s.k.tree.Valid() && Consistent(s) && s.k.tree.CanRename(src, dst)
    ensures var t, u, c := s.k.tree, s.k.tree.Rename(src, dst), FinalOf(s);
      && c.Keys <= s.cache.Keys
      && (forall w | w in ZappedOf(s) + Under(c, src) :: w in u.watch.Values)
      && (forall p | u.Watched(p) :: u.WdOf(p) in c && (t.Watched(dst) ==> u.WdOf(p) != t.WdOf(dst)))
      && (t.Watched(p0) ==> u.Watched(Rebase(src, dst, p0)) && u.WdOf(Rebase(src, dst, p0)) == t.WdOf(p0))
  {
    FinalKeys(s.cache, s.k.queue);
    hide RootedDirs, Tree.OneToOne, ReplayOK, Final, Zapped, Clear, Tree.CanRename, Tree.Rename, Tracks, Dead, Under;
    LosesWatches(s.k.tree, src, dst, p0, FinalOf(s), ZappedOf(s));
  }

  lemma LostSteady(s: State, s': State, c: Cache, src: Path, dst: Path)
    requires s'.k.Valid() && Bounded(s') && ReplayOK(s'.cache, s'.k.queue) && c.Keys <= s'.cache.Keys
    requires Final(s'.cache, s'.k.queue) == Without(c - Under(c, src), s.k.tree, dst)
    requires forall w | w in Zapped(s'.cache, s'.k.queue) :: w in s'.k.tree.watch.Values
    requires Under(c, src) <= Zapped(s'.cache, s'.k.queue)
    requires forall p | s'.k.tree.Watched(p) ::
      s'.k.tree.WdOf(p) in c && (s.k.tree.Watched(dst) ==> s'.k.tree.WdOf(p) != s.k.tree.WdOf(dst))
    ensures Steady(s', s'.cache)
  {
    hide RootedDirs, Tree.OneToOne, QueueValid, ReplayOK, Final, Zapped, Under, Steady, Kernel.Valid, Bounded;
    SteadyBy(s', s'.cache);
  }

  lemma DoomedStart(s: State, d: Path, w: Wd)
    requires Steady(s, s.cache) && ReplayOK(s.cache, s.k.queue) && ZapLast(s.cache, s.k.queue, w)
    requires s.k.tree.Watched(d) && s.k.tree.WdOf(d) == w
    ensures Doomed(s, s.cache, d, w)
  {
    hide Steady, ReplayOK, ZapLast;
  }

  // ---------- an entry that is moved away ----------

  predicate NoMove(q: seq<Event>) {
    forall e | e in q :: !e.MovedFrom?
  }

  // One move is waiting to be handled: within the tree, and to another pathname.
  predicate OneRename(c: Cache, q: seq<Event>)
    requires ReplayOK(c, q)
    decreases |q|
  {
    q != [] &&
    if q[0].MovedFrom? then
      Paired(q) && NoMove(q[2..]) && c[q[0].wd] + [q[0].name] != c[q[1].wd] + [q[1].name]
    else OneRename(Next(c, q).0, Next(c, q).1)
  }

  // The source of that rename is d or above it.
  predicate Takes(c: Cache, q: seq<Event>, d: Path)
    requires ReplayOK(c, q)
    decreases |q|
  {
    q != [] &&
    if q[0].MovedFrom? then c[q[0].wd] + [q[0].name] <= d
    else Takes(Next(c, q).0, Next(c, q).1, d)
  }

  // Before that rename is handled, a traversal from d or above it.
  predicate Finds(c: Cache, q: seq<Event>, d: Path)
    requires ReplayOK(c, q)
    decreases |q|
  {
    q != [] && !q[0].MovedFrom? &&
    ((Takes(Next(c, q).0, Next(c, q).1, d) && exists f :: f in Announced(c, q) && f <= d) || Finds(Next(c, q).0, Next(c, q).1, d))
  }

  lemma {:induction false} FindsTakes(c: Cache, q: seq<Event>, d: Path)
    requires ReplayOK(c, q) && Finds(c, q, d)
    ensures Takes(c, q, d)
    decreases |q|
  {
    if Finds(Next(c, q).0, Next(c, q).1, d) { FindsTakes(Next(c, q).0, Next(c, q).1, d); }
  }

  lemma {:induction false} NoMoveSources(c: Cache, q: seq<Event>)
    requires ReplayOK(c, q) && NoMove(q)
    ensures Sources(c, q) == {} && Overtaken(c, q) == {}
    decreases |q|
  {
    if q != [] {
      var (c1, q1) := Next(c, q);
      assert q[0] in q && q1 == q[1..];
      NoMoveSources(c1, q1);
      assert Pairs(Announced(c, q), {}) == {};
    }
  }

  lemma {:induction false} SourceTakes(c: Cache, q: seq<Event>, src: Path, d: Path)
    requires ReplayOK(c, q) && OneRename(c, q) && src in Sources(c, q) && src <= d
    ensures Takes(c, q, d)
    decreases |q|
  {
    var (c1, q1) := Next(c, q);
    if q[0].MovedFrom? {
      NoMoveSources(c1, q1);
    } else {
      assert q1 == q[1..];
      SourceTakes(c1, q1, src, d);
    }
  }

  lemma {:induction false} TrappedFinds(c: Cache, q: seq<Event>, d: Path)
    requires ReplayOK(c, q) && OneRename(c, q) && Trapped(Overtaken(c, q), d)
    ensures Finds(c, q, d)
    decreases |q|
  {
    var (c1, q1) := Next(c, q);
    if q[0].MovedFrom? {
      NoMoveSources(c1, q1);
    } else {
      var pair :| pair in Overtaken(c, q) && pair.0 <= d && pair.1 <= d;
      if pair in Pairs(Announced(c, q), Sources(c1, q1)) {
        SourceTakes(c1, q1, pair.1, d);
      } else {
        assert Trapped(Overtaken(c1, q1), d);
        TrappedFinds(c1, q1, d);
      }
    }
  }

  // Below an entry that a traversal has added everything is watched.
  ghost predicate Closed(s: State, c: Cache) {
    forall w, p | w in s.cache && w !in c && p in s.k.tree.dirs && s.cache[w] <= p :: s.k.tree.Watched(p)
  }

  // The directory d has an entry that the events do not know.
  ghost predicate Entered(s: State, c: Cache, d: Path) {
    s.k.tree.Watched(d) && s.k.tree.WdOf(d) in s.cache && s.k.tree.WdOf(d) !in c
  }

  // Its entry will be moved away ...
  ghost predicate Straying(s: State, c: Cache, d: Path) {
    && Steady(s, c) && d in s.k.tree.dirs && OneRename(c, s.k.queue) && Closed(s, c)
    && if s.k.tree.Watched(d) then Entered(s, c, d) && s.cache[s.k.tree.WdOf(d)] == d && Takes(c, s.k.queue, d)
       else Finds(c, s.k.queue, d)
  }

  // ... or has been.
  ghost predicate Strayed(s: State, c: Cache, d: Path) {
    Steady(s, c) && NoMove(s.k.queue) && Entered(s, c, d) && s.cache[s.k.tree.WdOf(d)] != d
  }

  lemma StrayingFound(s: State, c: Cache, d: Path, f: Path, s': State)
    requires Straying(s, c, d) && s.k.queue != [] && IsAnnounce(s.k.queue[0]) && Steady(s', c) && KeepsAll(s, s')
    requires Replayable(c, s.k.queue) && f == c[s.k.queue[0].wd] + [s.k.queue[0].name] && s'.k.queue == s.k.queue[1..]
    requires Walkable(s) && Walkable(s') && Extends(State(s.k.(queue := s.k.queue[1..]), s.cache), s')
    requires forall p | p in s.k.tree.dirs :: s'.k.tree.Watched(p) <==> s.k.tree.Watched(p) || f <= p
    ensures Straying(s', c, d)
  {
    var popped := State(s.k.(queue := s.k.queue[1..]), s.cache);
    AnnouncedHead(c, s.k.queue);
    assert Next(c, s.k.queue) == (c, s.k.queue[1..]);
    if !s.k.tree.Watched(d) {
      FindsTakes(c, s.k.queue, d);
      if f <= d { NewEntry(popped, s', d); }
    }
    hide Steady, Finds, Takes, OneRename, ReplayOK;
    ClosedGrows(s, s', c, f);
    hide Closed, Walkable, Extends, Over;
    StrayingNext(c, s.k.queue, d, f);
  }

  lemma ClosedGrows(s: State, s': State, c: Cache, f: Path)
    requires Closed(s, c) && Walkable(s) && Walkable(s') && KeepsAll(s, s') && s.k.queue != []
    requires Extends(State(s.k.(queue := s.k.queue[1..]), s.cache), s')
    requires forall p | p in s.k.tree.dirs :: s'.k.tree.Watched(p) <==> s.k.tree.Watched(p) || f <= p
    ensures Closed(s', c)
  {
    forall w, p | w in s'.cache && w !in c && p in s'.k.tree.dirs && s'.cache[w] <= p
      ensures s'.k.tree.Watched(p)
    {
      if w !in s.cache { assert f <= s'.cache[w]; }
    }
  }

  lemma StrayingNext(c: Cache, q: seq<Event>, d: Path, f: Path)
    requires ReplayOK(c, q) && q != [] && IsAnnounce(q[0]) && Replayable(c, q) && f == c[q[0].wd] + [q[0].name]
    ensures ReplayOK(c, q[1..])
    ensures OneRename(c, q) ==> OneRename(c, q[1..])
    ensures Takes(c, q, d) ==> Takes(c, q[1..], d)
    ensures Finds(c, q, d) && !(f <= d) ==> Finds(c, q[1..], d)
    ensures Finds(c, q, d) && f in c.Values ==> Finds(c, q[1..], d)
  {
  }

  lemma StrayingKnown(s: State, c: Cache, d: Path, f: Path, s': State)
    requires Straying(s, c, d) && s.k.queue != [] && IsAnnounce(s.k.queue[0]) && Steady(s', c)
    requires Replayable(c, s.k.queue) && f == c[s.k.queue[0].wd] + [s.k.queue[0].name] && f in s.cache.Values
    requires s' == State(s.k.(queue := s.k.queue[1..]), s.cache)
    ensures Straying(s', c, d)
  {
    StrayingNext(c, s.k.queue, d, f);
    if !s.k.tree.Watched(d) && f <= d {
      var w :| w in s.cache && s.cache[w] == f;
      assert w in c;
      assert c[w] == f;
    }
    hide Finds, Takes, OneRename, ReplayOK;
  }

  lemma AnnouncedWalk(s: State, c: Cache, order: seq<Path>, removed: seq<Wd>)
    requires Steady(s, c) && s.k.queue != [] && IsAnnounce(s.k.queue[0]) && Choice(s, order, removed)
    ensures Replayable(c, s.k.queue) && s.k.queue[0].wd in s.cache && s.k.queue[0].wd in c
    ensures s.cache[s.k.queue[0].wd] == c[s.k.queue[0].wd]
    ensures var f, s' := s.cache[s.k.queue[0].wd] + [s.k.queue[0].name], Process(s, order, removed);
      var popped := State(s.k.(queue := s.k.queue[1..]), s.cache);
      && (f in s.cache.Values ==> s' == popped)
      && (f !in s.cache.Values ==>
            && Walkable(s') && Extends(popped, s')
            && forall p | p in s.k.tree.dirs :: s'.k.tree.Watched(p) <==> s.k.tree.Watched(p) || f <= p)
  {
    SteadyHead(s, c);
    SteadyWalks(s, c);
    SteadyShadow(s, c);
    var popped := State(s.k.(queue := s.k.queue[1..]), s.cache);
    hide Steady, Walk;
    assert Walkable(popped);
    WalkEffect(popped, order);
  }

  lemma SteadyShadow(s: State, c: Cache)
    requires Steady(s, c)
    ensures Over(s.cache, c)
  {
    hide RootedDirs, Tree.OneToOne, QueueValid, ReplayOK, Final, Zapped, Over;
  }

  lemma StrayingAnnounced(s: State, c: Cache, d: Path, order: seq<Path>, removed: seq<Wd>)
    requires Straying(s, c, d) && s.k.queue != [] && IsAnnounce(s.k.queue[0]) && Choice(s, order, removed)
    ensures Straying(Process(s, order, removed), c, d)
  {
    StrayingSteady(s, c, d);
    hide Straying, Steady, Process, Choice, Walkable, Extends, KeepsAll, ReplayOK, Next;
    AnnouncedWalk(s, c, order, removed);
    SteadyAnnounced(s, c, order, removed);
    SteadyWalks(s, c);
    assert Next(c, s.k.queue).0 == c by { AnnouncedNext(c, s.k.queue); }
    var f := s.cache[s.k.queue[0].wd] + [s.k.queue[0].name];
    if f in s.cache.Values {
      StrayingKnown(s, c, d, f, Process(s, order, removed));
    } else {
      StrayingFound(s, c, d, f, Process(s, order, removed));
    }
  }

  lemma AnnouncedNext(c: Cache, q: seq<Event>)
    requires q != [] && IsAnnounce(q[0]) && Replayable(c, q)
    ensures Next(c, q) == (c, q[1..])
  {
  }

  lemma StrayingSteady(s: State, c: Cache, d: Path)
    requires Straying(s, c, d)
    ensures Steady(s, c)
  {
    hide Steady;
  }

  lemma UnwatchNone(t: Tree)
    ensures Unwatch(t, {}) == t
  {
  }

  // Handling a logged event other than a move leaves the entries that the events do not know.
  lemma LoggedEntry(c2: Cache, c: Cache, q: seq<Event>, w: Wd)
    requires q != [] && !IsAnnounce(q[0]) && Replayable(c, q) && Replayable(c2, q) && w in c2 && w !in c
    requires q[0].MovedFrom? ==> Paired(q)
    ensures DroppedHere(c2, q) == {} && w in Next(c2, q).0 && w !in Next(c, q).0
    ensures Next(c2, q).0[w]
         == if q[0].MovedFrom? then Rebase(c2[q[0].wd] + [q[0].name], c2[q[1].wd] + [q[1].name], c2[w]) else c2[w]
  {
  }

  lemma Elsewhere(src: Path, dst: Path, d: Path)
    requires src <= d && src != dst
    ensures Rebase(src, dst, d) != d
  {
    assert d[..|src|] == src && (dst + d[|src|..])[..|dst|] == dst;
  }

  // The state after a logged event that removes no watch.
  lemma LoggedState(s: State, c: Cache, order: seq<Path>, removed: seq<Wd>)
    requires Steady(s, c) && s.k.queue != [] && !IsAnnounce(s.k.queue[0]) && Choice(s, order, removed)
    requires s.k.queue[0].MovedFrom? ==> Paired(s.k.queue)
    ensures Replayable(c, s.k.queue) && Replayable(s.cache, s.k.queue) && Over(s.cache, c)
    ensures var s', c1 := Process(s, order, removed), Next(c, s.k.queue).0;
      && Steady(s', c1) && s'.k.tree == s.k.tree && s'.k.queue == Next(c, s.k.queue).1
      && s'.cache == Next(s.cache, s.k.queue).0
  {
    SteadyLogged(s, c, order, removed);
    SteadyShadow(s, c);
    NextOver'(s, c);
    assert DroppedHere(s.cache, s.k.queue) == {};
    UnwatchNone(s.k.tree);
    assert Next(c, s.k.queue).1 + Ignoreds([]) == Next(c, s.k.queue).1;
    hide Steady, Process, Choice, Over;
  }

  lemma StrayingRenamed(s: State, c: Cache, d: Path, order: seq<Path>, removed: seq<Wd>)
    requires Straying(s, c, d) && s.k.queue != [] && s.k.queue[0].MovedFrom? && Choice(s, order, removed)
    ensures Replayable(c, s.k.queue) && Strayed(Process(s, order, removed), Next(c, s.k.queue).0, d)
  {
    var q := s.k.queue;
    assert Paired(q) && s.k.tree.Watched(d);
    LoggedState(s, c, order, removed);
    LoggedEntry(s.cache, c, q, s.k.tree.WdOf(d));
    hide Steady, Process, Choice, Over;
    assert Next(c, q).1 == q[2..];
    Elsewhere(c[q[0].wd] + [q[0].name], c[q[1].wd] + [q[1].name], d);
  }

  lemma StrayingLogged(s: State, c: Cache, d: Path, order: seq<Path>, removed: seq<Wd>)
    requires Straying(s, c, d) && s.k.queue != [] && !IsAnnounce(s.k.queue[0]) && !s.k.queue[0].MovedFrom?
    requires Choice(s, order, removed)
    ensures Replayable(c, s.k.queue) && Straying(Process(s, order, removed), Next(c, s.k.queue).0, d)
  {
    var q, s' := s.k.queue, Process(s, order, removed);
    StrayingSteady(s, c, d);
    LoggedState(s, c, order, removed);
    ClosedLogged(s, s', c, Next(c, q).0);
    if s.k.tree.Watched(d) { LoggedEntry(s.cache, c, q, s.k.tree.WdOf(d)); }
    assert Announced(c, q) == {};
    hide Steady, Process, Choice, Over, Next, Closed;
  }

  lemma ClosedLogged(s: State, s': State, c: Cache, c1: Cache)
    requires s.k.queue != [] && !IsAnnounce(s.k.queue[0]) && !s.k.queue[0].MovedFrom?
    requires Replayable(c, s.k.queue) && Replayable(s.cache, s.k.queue) && Next(c, s.k.queue).0 == c1
    requires s'.cache == Next(s.cache, s.k.queue).0 && s'.k.tree == s.k.tree
    requires Closed(s, c)
    ensures Closed(s', c1)
  {
    forall w | w in s'.cache && w !in c1
      ensures w in s.cache && w !in c && s'.cache[w] == s.cache[w]
    {
    }
  }

  lemma StrayedAnnounced(s: State, c: Cache, d: Path, order: seq<Path>, removed: seq<Wd>)
    requires Strayed(s, c, d) && s.k.queue != [] && IsAnnounce(s.k.queue[0]) && Choice(s, order, removed)
    ensures Strayed(Process(s, order, removed), c, d)
  {
    SteadyAnnounced(s, c, order, removed);
    AnnouncedNext(c, s.k.queue);
    hide Steady, Process, Choice;
  }

  lemma StrayedLogged(s: State, c: Cache, d: Path, order: seq<Path>, removed: seq<Wd>)
    requires Strayed(s, c, d) && s.k.queue != [] && !IsAnnounce(s.k.queue[0]) && Choice(s, order, removed)
    ensures Replayable(c, s.k.queue) && Strayed(Process(s, order, removed), Next(c, s.k.queue).0, d)
  {
    assert s.k.queue[0] in s.k.queue;
    LoggedState(s, c, order, removed);
    LoggedEntry(s.cache, c, s.k.queue, s.k.tree.WdOf(d));
    hide Steady, Process, Choice, Over;
    assert Next(c, s.k.queue).1 == s.k.queue[1..];
  }

  lemma StrayStep(s: State, c: Cache, d: Path, order: seq<Path>, removed: seq<Wd>) returns (c1: Cache)
    requires (Straying(s, c, d) || Strayed(s, c, d)) && s.k.queue != [] && Choice(s, order, removed)
    ensures Straying(Process(s, order, removed), c1, d) || Strayed(Process(s, order, removed), c1, d)
  {
    hide *;
    c1 := c;
    if IsAnnounce(s.k.queue[0]) {
      if Straying(s, c, d) { StrayingAnnounced(s, c, d, order, removed); } else { StrayedAnnounced(s, c, d, order, removed); }
    } else if Strayed(s, c, d) {
      StrayedLogged(s, c, d, order, removed);
      c1 := Next(c, s.k.queue).0;
    } else if s.k.queue[0].MovedFrom? {
      StrayingRenamed(s, c, d, order, removed);
      c1 := Next(c, s.k.queue).0;
    } else {
      StrayingLogged(s, c, d, order, removed);
      c1 := Next(c, s.k.queue).0;
    }
  }

  lemma StrayEnd(s: State, c: Cache, d: Path)
    requires (Straying(s, c, d) || Strayed(s, c, d)) && s.k.queue == []
    ensures !Synced(s)
  {
    hide Steady;
  }

  lemma {:induction false} StrayLoses(s: State, c: Cache, d: Path, t: State, n: nat)
    requires (Straying(s, c, d) || Strayed(s, c, d)) && Drains(s, t, n)
    ensures !Synced(t)
    decreases n
  {
    hide *;
    if n == 0 {
      Drained(s, t);
      StrayEnd(s, c, d);
    } else {
      NotDrained(s, t, n);
      var order, removed := FirstHandled(s, t, n);
      var c1 := StrayStep(s, c, d, order, removed);
      StrayLoses(Process(s, order, removed), c1, d, t, n - 1);
    }
  }
}
