/** Several changes before the program handles the first event: when the cache ends up in sync all the same. */
module CacheRaces {
  import opened Paths
  import opened DirTree
  import opened TreeChanges
  import opened CacheProtocol
  import opened CacheReplay
  import opened CacheConvergence
  import opened CacheHandling
  import opened CacheChanges
  import opened CacheMoves
  import opened CacheSanity
  import opened CacheTheorems
  import opened CacheLimits
  import opened CacheLosses

  // ---------- new directories while a rename waits to be handled ----------

  lemma {:induction false} OneRenameAppend(c: Cache, q: seq<Event>, r: seq<Event>)
    requires ReplayOK(c, q) && ReplayOK(c, q + r) && Separate(q, r) && NoMove(r) && OneRename(c, q)
    ensures OneRename(c, q + r)
    decreases |q|
  {
    NextAppend(c, q, r);
    if q[0].MovedFrom? {
      assert (q + r)[2..] == q[2..] + r;
    } else {
      OneRenameAppend(Next(c, q).0, Next(c, q).1, r);
      hide Replayable, Next;
    }
  }

  // A directory that will be found before the rename is handled, and is taken along then.
  lemma StrayStart(s: State, d: Path, t: State, steps: nat)
    requires Sane(s) && ReplayOK(s.cache, s.k.queue) && OneRename(s.cache, s.k.queue)
    requires Tracks(s.k.tree, Final(s.cache, s.k.queue)) && Dead(s.k.tree, Zapped(s.cache, s.k.queue))
    requires d in s.k.tree.dirs && !s.k.tree.Watched(d) && Trapped(Overtaken(s.cache, s.k.queue), d)
    requires Drains(s, t, steps)
    ensures !Synced(t)
  {
    TrackedSteady(s);
    TrappedFinds(s.cache, s.k.queue, d);
    hide Steady, Finds, OneRename, ReplayOK, Drains, Synced, Sane;
    assert Straying(s, s.cache, d);
    StrayLoses(s, s.cache, d, t, steps);
  }

  /** While one rename waits to be handled, directories arrive: the cache ends up in sync exactly when none
      of them lies both at or below the rename's source and at or below a pathname that will be traversed
      before the rename is handled. */
  lemma ArrivalConvergesIff(s: State, p: Path, n: Name, sub: map<Path, Ino>, t: State, steps: nat)
    requires Inv(s) && Overflow !in s.k.queue && s.k.tree.CanMoveIn(p, n, sub) && !s.k.tree.Watched(p + [n])
    requires OneRename(s.cache, s.k.queue)
    requires Drains(s.(k := s.k.MoveIn(p, n, sub)), t, steps)
    ensures Synced(t) <==> forall x | x in sub :: !Trapped(OvertakenOf(s), p + [n] + x)
  {
    hide *;
    InvParts(s);
    SaneParts(s);
    var s' := s.(k := s.k.MoveIn(p, n, sub));
    MoveInSane(s, p, n, sub);
    if forall x | x in sub :: !Trapped(OvertakenOf(s), p + [n] + x) {
      PostMoveIn(s, p, n, sub);
      GoodForeseen(s');
      DrainsSyncedIff(s', t, steps);
    } else {
      var x :| x in sub && Trapped(OvertakenOf(s), p + [n] + x);
      MoveInReplay(s, p, n, sub);
      MoveInQueue(s, p, n, sub);
      ConsistentParts(s);
      OneRenameAppend(s.cache, s.k.queue, s.k.tree.Arrived(p, n, s.k.nextCookie) + s.k.tree.Gone(p + [n]));
      ArrivedAt(s.k.tree, p + [n], sub, x);
      MoveInUnwatched(s.k.tree, p, n, sub, x);
      StrayStart(s', p + [n] + x, t, steps);
    }
  }

  lemma MoveInQueue(s: State, p: Path, n: Name, sub: map<Path, Ino>)
    requires s.k.Valid()
    ensures var ext := s.k.tree.Arrived(p, n, s.k.nextCookie) + s.k.tree.Gone(p + [n]);
      && s.k.MoveIn(p, n, sub).queue == s.k.queue + ext && Separate(s.k.queue, ext) && NoMove(ext)
      && s.k.MoveIn(p, n, sub).tree == s.k.tree.MoveIn(p + [n], sub)
  {
    FreshCookie(s.k, p, n, p + [n]);
    hide Kernel.Valid, Separate, Tree.MoveIn;
  }

  lemma ArrivedAt(t: Tree, d: Path, sub: map<Path, Ino>, x: Path)
    requires x in sub
    ensures d + x in t.MoveIn(d, sub).dirs && t.MoveIn(d, sub).dirs[d + x] == sub[x]
  {
    assert forall y: Path | d + x == d + y :: x == (d + x)[|d|..] == y;
  }

  lemma MoveInUnwatched(t: Tree, p: Path, n: Name, sub: map<Path, Ino>, x: Path)
    requires t.CanMoveIn(p, n, sub) && x in sub
    ensures !t.MoveIn(p + [n], sub).Watched(p + [n] + x)
  {
    ArrivedAt(t, p + [n], sub, x);
  }

  /** The same for a single new directory. */
  lemma CreationConvergesIff(s: State, p: Path, n: Name, ino: Ino, t: State, steps: nat)
    requires Inv(s) && Overflow !in s.k.queue && s.k.tree.CanMkdir(p, n, ino) && OneRename(s.cache, s.k.queue)
    requires Drains(s.(k := s.k.Mkdir(p, n, ino, false)), t, steps)
    ensures Synced(t) <==> !Trapped(OvertakenOf(s), p + [n])
  {
    hide *;
    InvParts(s);
    SaneParts(s);
    var s', x := s.(k := s.k.Mkdir(p, n, ino, false)), p + [n];
    MkdirSane(s, p, n, ino, false);
    if !Trapped(OvertakenOf(s), x) {
      PostMkdir(s, p, n, ino, false);
      GoodForeseen(s');
      DrainsSyncedIff(s', t, steps);
    } else {
      var ext := s.k.tree.Created(p, n);
      CreatedQueue(s, p, n, ino);
      ConsistentParts(s);
      CreatedEffect(s.k.tree, FinalOf(s), p, n);
      MkdirWatches(s.k.tree, p, n, ino);
      SameTracked(s.k.tree, s'.k.tree, FinalOf(s), ZappedOf(s));
      AppendReplay(s.cache, s.k.queue, ext, FinalOf(s), if s.k.tree.Watched(p) then {x} else {}, {}, {});
      NoPairs(PendingOf(s), OvertakenOf(s));
      assert ZappedOf(s) + {} == ZappedOf(s);
      OneRenameAppend(s.cache, s.k.queue, ext);
      StrayStart(s', x, t, steps);
    }
  }

  lemma CreatedQueue(s: State, p: Path, n: Name, ino: Ino)
    requires s.k.tree.CanMkdir(p, n, ino)
    ensures var u, ext := s.k.tree.Mkdir(p + [n], ino), s.k.tree.Created(p, n);
      && s.k.Mkdir(p, n, ino, false).queue == s.k.queue + ext && Separate(s.k.queue, ext) && NoMove(ext)
      && s.k.Mkdir(p, n, ino, false).tree == u && p + [n] in u.dirs && !u.Watched(p + [n]) && p + [n] !in s.k.tree.dirs
  {
  }

  // ---------- a directory created and removed again ----------

  // The announcement of a directory that has gone is all that is left.
  lemma StaleState(s: State, p: Path, n: Name, ino: Ino)
    requires Inv(s) && s.k.queue == [] && s.k.tree.CanMkdir(p, n, ino)
    ensures s.k.tree.Watched(p) && p + [n] in s.k.Mkdir(p, n, ino, false).tree.dirs
    ensures s.k.Mkdir(p, n, ino, false).Rmdir(p + [n]) == s.k.(queue := [Create(s.k.tree.WdOf(p), n)])
  {
    IdleParts(s);
    hide Inv, Sane, Good, Consistent, PendingOf, OvertakenOf, FinalOf;
    assert p in s.k.tree.dirs;
    GoneAgain(s.k.tree, p, n, ino);
    assert [] + s.k.tree.Created(p, n) == [Create(s.k.tree.WdOf(p), n)];
  }

  lemma GoneAgain(t: Tree, p: Path, n: Name, ino: Ino)
    requires t.CanMkdir(p, n, ino)
    ensures var u := t.Mkdir(p + [n], ino);
      p + [n] in u.dirs && u.Gone(p + [n]) == [] && u.Rmdir(p + [n]) == t
  {
    var u, x := t.Mkdir(p + [n], ino), p + [n];
    assert u.Rmdir(x).dirs == t.dirs && u.Rmdir(x).watch == t.watch;
  }

  lemma NothingAt(t: Tree, x: Path, order: seq<Path>)
    requires t.Rooted() && x !in t.dirs && x != [] && forall q :: q in order <==> q in t.dirs && x <= q
    ensures order == []
  {
    if order != [] { t.AncestorsLive(x, order[0]); }
  }

  /** mkdir p/n and rmdir p/n, both before the program looks: handling the IN_CREATE changes nothing, neither
      the cache nor a watch. */
  lemma CreatedThenGone(s: State, p: Path, n: Name, ino: Ino, order: seq<Path>, removed: seq<Wd>)
    requires Inv(s) && s.k.queue == [] && s.k.tree.CanMkdir(p, n, ino)
    requires p + [n] in s.k.Mkdir(p, n, ino, false).tree.dirs
    requires var s2 := s.(k := s.k.Mkdir(p, n, ino, false).Rmdir(p + [n]));
      s2.k.queue != [] && Choice(s2, order, removed)
    ensures Process(s.(k := s.k.Mkdir(p, n, ino, false).Rmdir(p + [n])), order, removed) == s
  {
    var t, s2 := s.k.tree, s.(k := s.k.(queue := [Create(s.k.tree.WdOf(p), n)]));
    StaleState(s, p, n, ino);
    IdleParts(s);
    SaneParts(s);
    IdleEntry(s, p);
    assert p + [n] !in t.dirs && p + [n] != [];
    assert s2.k.queue[1..] == [] && State(s2.k.(queue := []), s2.cache) == s;
    hide Inv, Sane, Good, Consistent, RootedDirs, Tree.OneToOne, Kernel.Valid;
    if p + [n] !in s.cache.Values { NothingAt(t, p + [n], order); }
  }

  lemma IdleEntry(s: State, p: Path)
    requires Consistent(s) && FinalOf(s) == s.cache && s.k.tree.Watched(p)
    ensures s.k.tree.WdOf(p) in s.cache && s.cache[s.k.tree.WdOf(p)] == p
  {
    ConsistentParts(s);
    hide Consistent, FinalOf, ReplayOK;
  }

  lemma StaleGood(s: State, p: Path, n: Name)
    requires Inv(s) && s.k.queue == [] && s.k.tree.Watched(p) && p + [n] !in s.k.tree.dirs
    ensures var s2 := s.(k := s.k.(queue := [Create(s.k.tree.WdOf(p), n)]));
      Good(s2) && Consistent(s2) && PendingOf(s2) == {p + [n]} && OvertakenOf(s2) == {}
  {
    var t, s2 := s.k.tree, s.(k := s.k.(queue := [Create(s.k.tree.WdOf(p), n)]));
    IdleParts(s);
    ConsistentParts(s);
    assert [] + [Create(t.WdOf(p), n)] == s2.k.queue && Separate(s.k.queue, s2.k.queue);
    var none: set<Path> := {};
    assert none + {p + [n]} == {p + [n]};
    hide Inv, Consistent, Sane, Good, Separate, Effect, Tracks, Foreseen;
    CreatedEffect(t, FinalOf(s), p, n);
    assert t.Created(p, n) == s2.k.queue;
    UnwatchedChange(s, s2, s2.k.queue, {p + [n]});
    AllForeseen(t, {p + [n]});
    GoodBy(s2);
  }

  lemma AllForeseen(t: Tree, pending: set<Path>)
    requires forall p | p in t.dirs :: t.Watched(p)
    ensures Foreseen(t, pending)
  {
  }

  lemma GoodBy(s: State)
    requires Consistent(s) && Foreseen(s.k.tree, PendingOf(s))
    ensures Good(s)
  {
  }

  // ---------- the announcement of a directory that has gone ----------

  function RenamePair(t: Tree, src: Path, dst: Path, cookie: nat): seq<Event>
    requires src != [] && dst != [] && t.Watched(Parent(src)) && t.Watched(Parent(dst))
  {
    [MovedFrom(t.WdOf(Parent(src)), Last(src), cookie), MovedTo(t.WdOf(Parent(dst)), Last(dst), cookie)]
  }

  lemma PairPosted(k: Kernel, src: Path, dst: Path, e: Event)
    requires k.tree.Rooted() && k.tree.CanRename(src, dst) && k.queue == [e]
    requires k.tree.Watched(Parent(src)) && k.tree.Watched(Parent(dst))
    ensures src != [] && dst != [] && src != dst && src == Parent(src) + [Last(src)] && dst == Parent(dst) + [Last(dst)]
    ensures k.Rename(src, dst).queue == [e] + (RenamePair(k.tree, src, dst, k.nextCookie) + k.tree.Gone(dst))
  {
    hide RootedDirs, Tree.Rename, Tree.Gone;
  }

  lemma RenameQueue(s: State, src: Path, dst: Path, e: Event)
    requires s.k.tree.Rooted() && s.k.tree.CanRename(src, dst) && s.k.queue == [e] && e.Create?
    requires ReplayOK(s.cache, s.k.Rename(src, dst).queue)
    requires s.k.tree.Watched(Parent(src)) && s.k.tree.WdOf(Parent(src)) in s.cache
    requires s.k.tree.Watched(Parent(dst)) && s.k.tree.WdOf(Parent(dst)) in s.cache
    requires s.cache[s.k.tree.WdOf(Parent(src))] == Parent(src) && s.cache[s.k.tree.WdOf(Parent(dst))] == Parent(dst)
    ensures OneRename(s.cache, s.k.Rename(src, dst).queue)
  {
    PairPosted(s.k, src, dst, e);
    assert NoMove(s.k.tree.Gone(dst));
    hide RootedDirs, ReplayOK, OneRename, Tree.CanRename, Tree.Rename, NoMove, Tree.Gone;
    PairBehind(s.cache, s.k.Rename(src, dst).queue, e, RenamePair(s.k.tree, src, dst, s.k.nextCookie), s.k.tree.Gone(dst));
  }

  lemma PairBehind(c: Cache, q: seq<Event>, e: Event, pair: seq<Event>, gone: seq<Event>)
    requires q == [e] + (pair + gone) && e.Create? && |pair| == 2 && Paired(pair) && NoMove(gone) && ReplayOK(c, q)
    requires pair[0].wd in c && pair[1].wd in c && c[pair[0].wd] + [pair[0].name] != c[pair[1].wd] + [pair[1].name]
    ensures OneRename(c, q)
  {
    var r := pair + gone;
    assert q[1..] == r && r[2..] == gone && Paired(r);
    assert Next(c, q) == (c, r);
    assert OneRename(c, r);
  }

  // Everything that moves is watched, and so are the directories it moves from.
  predicate Known(t: Tree, src: Path) {
    |src| > 1 && t.Watched(Parent(src)) && forall p | p in t.dirs && src <= p :: t.Watched(p)
  }

  lemma IdleKnown(s: State, src: Path, dst: Path)
    requires Inv(s) && s.k.queue == [] && s.k.tree.CanRename(src, dst)
    ensures Known(s.k.tree, src) && dst != [] && s.k.tree.Watched(Parent(dst))
    ensures forall p | p in s.k.tree.dirs ::
      s.k.tree.Watched(p) && s.k.tree.WdOf(p) in s.cache && s.cache[s.k.tree.WdOf(p)] == p
  {
    IdleParts(s);
    SaneParts(s);
    ConsistentParts(s);
    assert ParentLive(s.k.tree.dirs, src);
    hide Inv, Sane, Good, Consistent, FinalOf, RootedDirs, Tree.OneToOne;
  }

  // The state in which the rename has overtaken the announcement.
  lemma OvertakenState(s: State, p: Path, n: Name, ino: Ino, src: Path, dst: Path)
    requires Inv(s) && s.k.queue == [] && s.k.tree.CanMkdir(p, n, ino) && s.k.tree.CanRename(src, dst)
    ensures s.k.tree.Watched(p) && s.k.tree.Rooted()
    ensures var s2 := s.(k := s.k.(queue := [Create(s.k.tree.WdOf(p), n)])); var s3 := s2.(k := s2.k.Rename(src, dst));
      && Inv(s3) && Overflow !in s3.k.queue && Consistent(s3) && OvertakenOf(s3) == Pairs({p + [n]}, {src})
      && OneRename(s3.cache, s3.k.queue)
  {
    StaleState(s, p, n, ino);
    IdleParts(s);
    SaneParts(s);
    IdleKnown(s, src, dst);
    var e, x := Create(s.k.tree.WdOf(p), n), p + [n];
    var s2 := s.(k := s.k.(queue := [e]));
    var s3 := s2.(k := s2.k.Rename(src, dst));
    assert x !in s.k.tree.dirs && ValidName(n);
    hide *;
    StaleGood(s, p, n);
    StaleSane(s, e);
    SaneParts(s2);
    RenameSane(s2, src, dst);
    PostRename(s2, src, dst);
    KnownTraps(s2, src, dst);
    RenameConsistent(s2, src, dst);
    NoPairsBefore(x, src);
    GoodInv(s3);
    ConsistentParts(s3);
    RenameQueue'(s2, src, dst, e);
  }

  lemma RenameQueue'(s: State, src: Path, dst: Path, e: Event)
    requires s.k.tree.Rooted() && s.k.tree.CanRename(src, dst) && s.k.queue == [e] && e.Create?
    requires ReplayOK(s.cache, s.(k := s.k.Rename(src, dst)).k.queue) && Known(s.k.tree, src) && s.k.tree.Watched(Parent(dst))
    requires forall p | p in s.k.tree.dirs :: s.k.tree.Watched(p) && s.k.tree.WdOf(p) in s.cache && s.cache[s.k.tree.WdOf(p)] == p
    ensures OneRename(s.cache, s.(k := s.k.Rename(src, dst)).k.queue)
  {
    assert ParentLive(s.k.tree.dirs, src);
    hide RootedDirs, OneRename, ReplayOK, Tree.Rename;
    RenameQueue(s, src, dst, e);
  }

  lemma StaleSane(s: State, e: Event)
    requires Sane(s) && e.Create? && ValidName(e.name)
    ensures Sane(s.(k := s.k.(queue := [e])))
  {
    hide RootedDirs, Tree.OneToOne;
  }

  lemma GoodInv(s: State)
    requires Sane(s) && Good(s)
    ensures Inv(s) && Overflow !in s.k.queue && Consistent(s)
  {
    NoOverflow(s.cache, s.k.queue);
    hide RootedDirs, Tree.OneToOne, QueueValid, Foreseen, ReplayOK, Tracks, Dead, Clear;
  }

  lemma KnownTraps(s: State, src: Path, dst: Path)
    requires Consistent(s) && Known(s.k.tree, src)
    ensures forall p | p in s.k.tree.dirs && src <= p && !s.k.tree.Watched(p) :: !Trapped(OvertakenOf(s), Rebase(src, dst, p))
  {
    hide Consistent, Trapped, Rebase;
  }

  lemma NoPairsBefore(x: Path, src: Path)
    ensures var none: set<(Path, Path)> := {}; none + Pairs({x}, {src}) == Pairs({x}, {src})
  {
  }

  /** mkdir p/n and rmdir p/n, then rename src to dst, then a directory with the subtree sub arrives at m/l:
      all that before the first event is handled. The cache ends up in sync exactly when no directory that
      has arrived lies both at or below p/n, where the stale IN_CREATE sends a traversal, and at or below
      src, from where the rename moves the entries away. */
  lemma StaleAnnouncementConvergesIff(s: State, p: Path, n: Name, ino: Ino, src: Path, dst: Path,
                                      m: Path, l: Name, sub: map<Path, Ino>, t: State, steps: nat)
    requires Inv(s) && s.k.queue == [] && s.k.tree.CanMkdir(p, n, ino)
    requires p + [n] in s.k.Mkdir(p, n, ino, false).tree.dirs
    requires var k2 := s.k.Mkdir(p, n, ino, false).Rmdir(p + [n]);
      k2.tree.Rooted() && k2.tree.CanRename(src, dst)
      && k2.Rename(src, dst).tree.CanMoveIn(m, l, sub) && m + [l] !in k2.Rename(src, dst).tree.dirs
      && Drains(s.(k := k2.Rename(src, dst).MoveIn(m, l, sub)), t, steps)
    ensures Synced(t) <==> !exists x :: x in sub && p + [n] <= m + [l] + x && src <= m + [l] + x
  {
    hide *;
    StaleState(s, p, n, ino);
    var s2 := s.(k := s.k.(queue := [Create(s.k.tree.WdOf(p), n)]));
    var s3 := s2.(k := s2.k.Rename(src, dst));
    OvertakenState(s, p, n, ino, src, dst);
    FreshUnwatched(s3.k.tree, m + [l]);
    ArrivalConvergesIff(s3, m, l, sub, t, steps);
    forall x: Path
      ensures Trapped(OvertakenOf(s3), m + [l] + x) <==> p + [n] <= m + [l] + x && src <= m + [l] + x
    {
      OnePair(p + [n], src, m + [l] + x);
    }
  }

  lemma FreshUnwatched(t: Tree, d: Path)
    requires d !in t.dirs
    ensures !t.Watched(d)
  {
  }

  lemma OnePair(f: Path, src: Path, y: Path)
    ensures Trapped(Pairs({f}, {src}), y) <==> f <= y && src <= y
  {
    assert (f, src) in Pairs({f}, {src});
  }

  // ---------- a directory created, and something renamed before the program looks ----------

  // Kernel and cache right after the two changes.
  ghost function Raced(s: State, p: Path, n: Name, ino: Ino, src: Path, dst: Path): State
    requires s.k.Valid() && s.k.tree.CanMkdir(p, n, ino) && s.k.tree.Mkdir(p + [n], ino).CanRename(src, dst)
  {
    MkdirGrown(s.k.tree, p, n, ino);
    s.(k := s.k.Mkdir(p, n, ino, false).Rename(src, dst))
  }

  // After the mkdir its directory is the only one that is not watched, and the only one announced.
  lemma NewState(s: State, p: Path, n: Name, ino: Ino)
    requires Inv(s) && s.k.queue == [] && s.k.tree.CanMkdir(p, n, ino)
    ensures var s1, u := s.(k := s.k.Mkdir(p, n, ino, false)), s.k.tree.Mkdir(p + [n], ino);
      && s1.k.tree == u && u.Rooted() && Inv(s1) && Overflow !in s1.k.queue
      && Consistent(s1) && PendingOf(s1) == {p + [n]} && OvertakenOf(s1) == {}
      && p + [n] in u.dirs && !u.Watched(p + [n])
      && (forall q | q in u.dirs && q != p + [n] :: u.Watched(q) && q in s.k.tree.dirs)
  {
    var t, x, s1 := s.k.tree, p + [n], s.(k := s.k.Mkdir(p, n, ino, false));
    IdleParts(s);
    SaneParts(s);
    NewWatches(t, p, n, ino);
    var noPairs: set<(Path, Path)>, none: set<Path> := {}, {};
    assert !Trapped(noPairs, x) && none + {x} == {x};
    ConsistentParts(s);
    assert [] + t.Created(p, n) == s1.k.queue && Separate(s.k.queue, t.Created(p, n));
    hide *;
    MkdirSane(s, p, n, ino, false);
    SaneParts(s1);
    PostMkdir(s, p, n, ino, false);
    GoodInv(s1);
    CreatedEffect(t, FinalOf(s), p, n);
    UnwatchedChange(s, s1, t.Created(p, n), {x});
  }

  lemma NewWatches(t: Tree, p: Path, n: Name, ino: Ino)
    requires t.CanMkdir(p, n, ino) && forall q | q in t.dirs :: t.Watched(q)
    ensures var u := t.Mkdir(p + [n], ino);
      && SameWatches(t, u) && t.Watched(p) && p + [n] !in t.dirs && p + [n] in u.dirs && !u.Watched(p + [n])
      && (forall q | q in u.dirs && q != p + [n] :: u.Watched(q) && q in t.dirs)
  {
  }

  lemma NotBelowNew(t: Tree, u: Tree, x: Path, src: Path)
    requires t.Rooted() && u.Rooted() && x !in t.dirs && x != [] && src in u.dirs && |src| > 1
    requires forall q | q in u.dirs && q != x :: q in t.dirs
    ensures Parent(src) != x && Parent(src) in u.dirs
  {
    assert ParentLive(u.dirs, src);
    assert Parent(src) <= src;
    assert src == x ==> |Parent(src)| < |x|;
    if src in t.dirs && x <= src { t.AncestorsLive(x, src); }
  }

  // The old pathname of what has moved is not above the new one.
  lemma MovedAway(t: Tree, src: Path, dst: Path, x: Path)
    requires t.Rooted() && t.CanRename(src, dst) && src <= x
    ensures !(x <= Rebase(src, dst, x))
  {
    var y := Rebase(src, dst, x);
    t.TargetEmpty(src, dst);
    if dst <= src { t.AncestorsLive(dst, src); }
    if x <= y { Comparable(src, dst, y); }
  }

  /** Other processes create the directory p/n and then rename src to dst, both before the program
      handles the first event. It ends up in sync exactly when the rename moved neither the new
      directory nor one above it, and did not go into the new directory. */
  lemma RaceConverges(s: State, p: Path, n: Name, ino: Ino, src: Path, dst: Path, t: State, steps: nat)
    requires Inv(s) && s.k.queue == []
    requires s.k.tree.CanMkdir(p, n, ino) && s.k.tree.Mkdir(p + [n], ino).CanRename(src, dst)
    requires Drains(Raced(s, p, n, ino, src, dst), t, steps)
    ensures Synced(t) <==> !(src <= p + [n]) && Parent(dst) != p + [n]
  {
    var x, u, s1 := p + [n], s.k.tree.Mkdir(p + [n], ino), s.(k := s.k.Mkdir(p, n, ino, false));
    NewState(s, p, n, ino);
    InvParts(s);
    SaneParts(s);
    assert Raced(s, p, n, ino, src, dst) == s.(k := s.k.Mkdir(p, n, ino, false).Rename(src, dst));
    hide *;
    RaceParts(s, p, n, ino, src, dst);
    if Parent(dst) == x {
      RenameIntoUnwatchedLoses(s1, src, dst, t, steps);
    } else {
      NoTraps(s1, src, dst);
      RenameConvergesIff(s1, src, dst, t, steps);
      if src <= x {
        MovedAway(u, src, dst, x);
        NotTraversed(x, Rebase(src, dst, x));
      }
    }
  }

  lemma NotTraversed(x: Path, y: Path)
    requires !(x <= y)
    ensures !Traversed({x}, y)
  {
  }

  lemma NoTraps(s: State, src: Path, dst: Path)
    requires Consistent(s) && OvertakenOf(s) == {}
    ensures forall p | p in s.k.tree.dirs && src <= p && !s.k.tree.Watched(p) :: !Trapped(OvertakenOf(s), Rebase(src, dst, p))
  {
    hide Consistent, OvertakenOf, Rebase;
  }

  lemma RaceParts(s: State, p: Path, n: Name, ino: Ino, src: Path, dst: Path)
    requires Inv(s) && s.k.queue == []
    requires s.k.tree.CanMkdir(p, n, ino) && s.k.tree.Mkdir(p + [n], ino).CanRename(src, dst)
    ensures var u, x := s.k.tree.Mkdir(p + [n], ino), p + [n];
      && src != [] && dst != []
      && u.Watched(Parent(src)) && (Parent(dst) != x ==> u.Watched(Parent(dst)))
      && (Parent(dst) == x ==> u.Watched(src) && !u.Watched(Parent(dst)))
  {
    var u, x := s.k.tree.Mkdir(p + [n], ino), p + [n];
    NewState(s, p, n, ino);
    InvParts(s);
    SaneParts(s);
    assert |src| > 1 && |dst| > 1 && src in u.dirs && Parent(dst) in u.dirs && x !in s.k.tree.dirs && !(src <= dst);
    hide Inv, Sane, Good, Consistent, Tree.CanRename, Tree.CanMkdir, Tree.Mkdir, RootedDirs, Tree.OneToOne, QueueValid;
    NotBelowNew(s.k.tree, u, x, src);
    assert Parent(dst) <= dst;
  }
}
