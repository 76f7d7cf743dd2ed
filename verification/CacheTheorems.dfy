/** Every step keeps the invariant, and what follows for whole runs. */
module CacheTheorems {
  import opened Paths
  import opened DirTree
  import opened TreeChanges
  import opened CacheProtocol
  import opened CacheReplay
  import opened CacheConvergence
  import opened CacheHandling
  import opened CacheChanges
  import opened CacheMoves
  import opened CacheSanity

  // ---------- the steps of other processes ----------

  lemma MkdirWatches(t: Tree, p: Path, n: Name, ino: Ino)
    requires t.CanMkdir(p, n, ino)
    ensures SameWatches(t, t.Mkdir(p + [n], ino))
  {
  }

  lemma CreatedEffect(t: Tree, c: Cache, p: Path, n: Name)
    requires Tracks(t, c) && p + [n] !in t.dirs
    ensures Effect(c, t.Created(p, n), c, if t.Watched(p) then {p + [n]} else {}, {}, {})
  {
    if t.Watched(p) {
      AnnounceEffect(t, c, p, n, Create(t.WdOf(p), n));
    } else {
      NoEffect(c);
    }
  }

  lemma MkdirParts(s: State, p: Path, n: Name, ino: Ino, merge: bool)
    requires s.k.tree.CanMkdir(p, n, ino)
    ensures var t, s', ext := s.k.tree, s.(k := s.k.Mkdir(p, n, ino, merge)), s.k.tree.Created(p, n);
      && p in t.dirs && p + [n] !in t.dirs && s'.k.tree == t.Mkdir(p + [n], ino) && s'.cache == s.cache
      && s'.k.tree.dirs.Keys == t.dirs.Keys + {p + [n]} && Separate(s.k.queue, ext)
      && (s'.k.queue == s.k.queue + ext
          || (t.Watched(p) && s'.k.queue == s.k.queue && s.k.queue != []
              && s.k.queue[|s.k.queue| - 1] == Create(t.WdOf(p), n)))
  {
  }

  lemma PostMkdir(s: State, p: Path, n: Name, ino: Ino, merge: bool)
    requires s.k.Valid() && Good(s) && s.k.tree.CanMkdir(p, n, ino) && !Trapped(OvertakenOf(s), p + [n])
    ensures Good(s.(k := s.k.Mkdir(p, n, ino, merge)))
  {
    var t, s', ext := s.k.tree, s.(k := s.k.Mkdir(p, n, ino, merge)), s.k.tree.Created(p, n);
    var more := if t.Watched(p) then {p + [n]} else {};
    MkdirParts(s, p, n, ino, merge);
    MkdirWatches(t, p, n, ino);
    hide Consistent, Effect, Foreseen, Separate, Trapped, Tree.CanMkdir, Tree.Mkdir, Kernel.Mkdir, SameWatches,
         RootedDirs, Tree.OneToOne, QueueValid, Tree.Created;
    MkdirForeseen(t, s'.k.tree, PendingOf(s), p, n);
    if s'.k.queue == s.k.queue + ext {
      GoodTracks(s);
      CreatedEffect(t, FinalOf(s), p, n);
      UnwatchedChange(s, s', ext, more);
    } else {
      MkdirStaysUnwatched(t, s'.k.tree, p, n);
      MergedChange(s, s', p, n, Create(t.WdOf(p), n));
      assert PendingOf(s) + more == PendingOf(s);
      assert PendingOf(s') == PendingOf(s);
    }
  }

  lemma GoodTracks(s: State)
    requires Consistent(s)
    ensures Tracks(s.k.tree, FinalOf(s))
  {
  }

  lemma MkdirStaysUnwatched(t: Tree, u: Tree, p: Path, n: Name)
    requires SameWatches(t, u) && p + [n] !in t.dirs
    ensures !t.Watched(p + [n])
  {
  }

  lemma MkdirForeseen(t: Tree, u: Tree, pending: set<Path>, p: Path, n: Name)
    requires Foreseen(t, pending) && p in t.dirs && u.dirs.Keys == t.dirs.Keys + {p + [n]} && SameWatches(t, u)
    ensures Foreseen(u, pending + if t.Watched(p) then {p + [n]} else {})
  {
    TraversedBelow(t, pending, p, n, p + [n]);
    hide Foreseen;
    ForeseenGrows(t, u, pending, if t.Watched(p) then {p + [n]} else {});
  }

  // The event was merged with the last one, which announces the same pathname already.
  lemma MergedChange(s: State, s': State, p: Path, n: Name, e: Event)
    requires Consistent(s) && s'.cache == s.cache && s'.k.queue == s.k.queue && SameWatches(s.k.tree, s'.k.tree)
    requires s.k.queue != [] && s.k.queue[|s.k.queue| - 1] == e 
    requires s.k.tree.Watched(p) && e == Create(s.k.tree.WdOf(p), n) && !s.k.tree.Watched(p + [n])
    requires forall q | q in s'.k.tree.dirs && q !in s.k.tree.dirs :: !Trapped(OvertakenOf(s), q)
    ensures Consistent(s') && p + [n] in PendingOf(s)
  {
    var q0 := s.k.queue[..|s.k.queue| - 1];
    assert s.k.queue == q0 + [e];
    LastPending(s.k.tree, s.cache, q0, p, n, e);
    hide ReplayOK, Final, Pending, Sources, Zapped, Overtaken, Tracks, Dead;
    SameTracked(s.k.tree, s'.k.tree, FinalOf(s), ZappedOf(s));
  }

  lemma LastPending(t: Tree, c: Cache, q0: seq<Event>, p: Path, n: Name, e: Event)
    requires ReplayOK(c, q0 + [e]) && Tracks(t, Final(c, q0 + [e]))
    requires t.Watched(p) && e == Create(t.WdOf(p), n) && !t.Watched(p + [n])
    ensures p + [n] in Pending(c, q0 + [e])
  {
    assert Separate(q0, [e]);
    PrefixOK(c, q0, [e]);
    Split(c, q0, [e]);
    var f := Final(c, q0);
    assert [e][1..] == [];
    assert Final(f, [e]) == f;
    AnnounceEffect(t, f, p, n, e);
  }

  lemma {:induction false} PrefixOK(c: Cache, q: seq<Event>, r: seq<Event>)
    requires ReplayOK(c, q + r) && Separate(q, r)
    ensures ReplayOK(c, q)
    decreases |q|
  {
    if q != [] {
      NextNeeds(c, q, r);
      NextAppend(c, q, r);
      PrefixOK(Next(c, q).0, Next(c, q).1, r);
      hide Replayable, Next;
    }
  }

  lemma PostTouch(s: State, p: Path, n: Name, merge: bool)
    requires s.k.Valid() && Good(s) && p in s.k.tree.dirs
    ensures Good(s.(k := s.k.TouchFile(p, n, merge)))
  {
    var t, s' := s.k.tree, s.(k := s.k.TouchFile(p, n, merge));
    var ext := t.FileTouched(p, n);
    if s'.k.queue != s.k.queue {
      FileEffect(t, FinalOf(s), p, n);
      assert Separate(s.k.queue, ext) && SameWatches(t, s'.k.tree);
      assert PendingOf(s) + {} == PendingOf(s);
      hide Consistent, Effect, Foreseen, Separate;
      UnwatchedChange(s, s', ext, {});
    }
  }

  lemma PostRmdir(s: State, d: Path)
    requires s.k.Valid() && Good(s) && s.k.tree.CanRmdir(d)
    ensures Good(s.(k := s.k.Rmdir(d)))
  {
    assert s.k.tree.OneToOne();
    RmdirConsistent(s, d);
    RmdirLive(s.k.tree, d);
    assert PendingOf(s) + {} == PendingOf(s);
    hide Consistent, RootedDirs, Tree.OneToOne;
    ForeseenGrows(s.k.tree, s.k.tree.Rmdir(d), PendingOf(s), {});
  }

  // ---------- arrivals ----------

  // The tree before an arrival at d, without what it replaces.
  function Freed(t: Tree, d: Path): Tree {
    if d in t.dirs then t.Rmdir(d) else t
  }

  lemma MoveInWatches(t: Tree, p: Path, n: Name, sub: map<Path, Ino>)
    requires t.Valid() && t.CanMoveIn(p, n, sub)
    ensures var d, u := p + [n], t.MoveIn(p + [n], sub);
      && SameWatches(Freed(t, d), u) && Freed(t, d).Valid()
      && (forall q | q in u.dirs && q !in Freed(t, d).dirs :: d <= q && q == d + q[|d|..] && q[|d|..] in sub)
  {
    var d := p + [n];
    var f := Freed(t, d);
    if d in t.dirs {
      assert t.CanRmdir(d) by { assert ValidPath(t.roots, p); }
      RmdirValid(t, d);
      RmdirFirst(t, p, n, sub);
    }
    MoveInGrown(f, p, n, sub);
    MoveInDirs(f, p, n, sub);
    hide RootedDirs, Tree.OneToOne, Tree.CanMoveIn;
    GrownWatches(f, t.MoveIn(d, sub), p, n);
  }

  lemma GrownWatches(t: Tree, u: Tree, p: Path, n: Name)
    requires Grown(t, u, p, n)
    ensures SameWatches(t, u)
  {
  }

  lemma FreedTracked(t: Tree, d: Path, c: Cache, zapped: set<Wd>, o: set<(Path, Path)>)
    requires t.OneToOne() && Tracks(t, c) && Dead(t, zapped) && Clear(t, o)
    ensures Tracks(Freed(t, d), Without(c, t, d)) && Dead(Freed(t, d), zapped) && Clear(Freed(t, d), o)
    ensures forall q :: Freed(t, d).Watched(q) <==> t.Watched(q) && q != d
  {
    if d in t.dirs {
      RmdirTracked(t, d, c, zapped);
      RmdirLive(t, d);
      RmdirClear(t, d, o);
    }
  }

  lemma ArrivedEffect(t: Tree, c: Cache, p: Path, n: Name, cookie: nat)
    requires Tracks(t, c)
    ensures Effect(c, t.Arrived(p, n, cookie) + t.Gone(p + [n]), Without(c, t, p + [n]),
                   if t.Watched(p) && !t.Watched(p + [n]) then {p + [n]} else {}, {}, {})
  {
    var d := p + [n];
    var more := if t.Watched(p) && !t.Watched(d) then {d} else {};
    GoneEffect(t, c, d);
    if t.Watched(p) {
      AnnounceEffect(t, c, p, n, MovedTo(t.WdOf(p), n, cookie));
    } else {
      NoEffect(c);
    }
    assert Separate(t.Arrived(p, n, cookie), t.Gone(d));
    assert more + {} == more;
    hide Effect, Separate;
    EffectThen(c, t.Arrived(p, n, cookie), t.Gone(d), c, more, {}, {}, Without(c, t, d), {}, {});
  }

  lemma FreshCookie(k: Kernel, p: Path, n: Name, d: Path)
    requires k.Valid()
    ensures Separate(k.queue, k.tree.Arrived(p, n, k.nextCookie) + k.tree.Gone(d))
  {
    hide RootedDirs, Tree.OneToOne;
    if k.queue != [] {
      assert k.queue[|k.queue| - 1] in k.queue;
    }
  }

  // An arrival from outside, also over an existing directory, wherever the new directories lie.
  lemma MoveInReplay(s: State, p: Path, n: Name, sub: map<Path, Ino>)
    requires s.k.Valid() && Consistent(s) && s.k.tree.CanMoveIn(p, n, sub)
    ensures var s', t, c, q := s.(k := s.k.MoveIn(p, n, sub)), s.k.tree, s.cache, s.k.MoveIn(p, n, sub).queue;
      && ReplayOK(c, q) && Overtaken(c, q) == OvertakenOf(s)
      && Tracks(s'.k.tree, Final(c, q)) && Dead(s'.k.tree, Zapped(c, q))
      && Pending(c, q) == PendingOf(s) + (if t.Watched(p) && !t.Watched(p + [n]) then {p + [n]} else {})
  {
    hide *;
    var d, t, s' := p + [n], s.k.tree, s.(k := s.k.MoveIn(p, n, sub));
    var c, o, more := FinalOf(s), OvertakenOf(s), if t.Watched(p) && !t.Watched(d) then {d} else {};
    ConsistentParts(s);
    MoveInParts(s, p, n, sub);
    MoveInWatches(t, p, n, sub);
    ArrivedEffect(t, c, p, n, s.k.nextCookie);
    FreshCookie(s.k, p, n, d);
    FreedTracked(t, d, c, ZappedOf(s), o);
    SameTracked(Freed(t, d), t.MoveIn(d, sub), Without(c, t, d), ZappedOf(s));
    NoPairs(PendingOf(s), o);
    assert ZappedOf(s) + {} == ZappedOf(s);
    AppendReplay(s.cache, s.k.queue, t.Arrived(p, n, s.k.nextCookie) + t.Gone(d), Without(c, t, d), more, {}, {});
  }

  lemma ConsistentParts(s: State)
    requires Consistent(s)
    ensures ReplayOK(s.cache, s.k.queue) && FinalOf(s) == Final(s.cache, s.k.queue) && ZappedOf(s) == Zapped(s.cache, s.k.queue)
    ensures PendingOf(s) == Pending(s.cache, s.k.queue) && OvertakenOf(s) == Overtaken(s.cache, s.k.queue)
    ensures Tracks(s.k.tree, FinalOf(s)) && Dead(s.k.tree, ZappedOf(s)) && Clear(s.k.tree, OvertakenOf(s))
  {
    hide ReplayOK, Final, Zapped, Pending, Overtaken, Tracks, Dead, Clear;
  }

  lemma ConsistentBy(s: State)
    requires ReplayOK(s.cache, s.k.queue)
    requires Tracks(s.k.tree, Final(s.cache, s.k.queue)) && Dead(s.k.tree, Zapped(s.cache, s.k.queue))
    requires Clear(s.k.tree, Overtaken(s.cache, s.k.queue))
    ensures Consistent(s)
  {
    hide ReplayOK, Final, Zapped, Pending, Overtaken, Tracks, Dead, Clear;
  }

  lemma MoveInConsistent(s: State, p: Path, n: Name, sub: map<Path, Ino>)
    requires s.k.Valid() && Consistent(s) && s.k.tree.CanMoveIn(p, n, sub)
    requires forall x | x in sub :: !Trapped(OvertakenOf(s), p + [n] + x)
    ensures var s', t := s.(k := s.k.MoveIn(p, n, sub)), s.k.tree;
      && Consistent(s') && OvertakenOf(s') == OvertakenOf(s)
      && PendingOf(s') == PendingOf(s) + (if t.Watched(p) && !t.Watched(p + [n]) then {p + [n]} else {})
  {
    hide *;
    var d, t, s' := p + [n], s.k.tree, s.(k := s.k.MoveIn(p, n, sub));
    MoveInParts(s, p, n, sub);
    MoveInWatches(t, p, n, sub);
    FreedTracked(t, d, FinalOf(s), ZappedOf(s), OvertakenOf(s));
    GraftClear(Freed(t, d), t.MoveIn(d, sub), d, sub, OvertakenOf(s));
    MoveInReplay(s, p, n, sub);
    ConsistentBy(s');
    ConsistentParts(s');
  }

  lemma NoPairs(pending: set<Path>, o: set<(Path, Path)>)
    ensures o + Pairs(pending, {}) == o
  {
  }

  lemma MoveInParts(s: State, p: Path, n: Name, sub: map<Path, Ino>)
    requires s.k.Valid() && Consistent(s)
    ensures var t, k := s.k.tree, s.k.MoveIn(p, n, sub);
      && t.Valid() && t.OneToOne()
      && Tracks(t, FinalOf(s)) && Dead(t, ZappedOf(s)) && Clear(t, OvertakenOf(s))
      && k.tree == t.MoveIn(p + [n], sub) && k.queue == s.k.queue + (t.Arrived(p, n, s.k.nextCookie) + t.Gone(p + [n]))
  {
    hide RootedDirs, QueueValid, Tracks, Dead, Clear, ReplayOK;
  }

  lemma GraftClear(t: Tree, u: Tree, d: Path, sub: map<Path, Ino>, o: set<(Path, Path)>)
    requires Clear(t, o) && SameWatches(t, u) && forall x | x in sub :: !Trapped(o, d + x)
    requires forall q | q in u.dirs && q !in t.dirs :: d <= q && q == d + q[|d|..] && q[|d|..] in sub
    ensures Clear(u, o)
  {
    hide Trapped;
  }

  lemma ArrivedForeseen(t: Tree, u: Tree, d: Path, pending: set<Path>)
    requires Foreseen(t, pending) && d in u.dirs && !u.Watched(d)
    requires forall q | q in u.dirs && q in t.dirs && q != d && t.Watched(q) :: u.Watched(q)
    requires forall q | q in u.dirs && q !in t.dirs :: d <= q
    ensures Foreseen(u, pending) <==> Traversed(pending, d)
  {
    if Traversed(pending, d) {
      var f :| f in pending && f <= d;
      forall q | q in u.dirs && !u.Watched(q)
        ensures Traversed(pending, q)
      {
        if d <= q {
          assert f in pending && f <= q;
        } else {
          assert q in t.dirs;
        }
      }
    }
  }

  lemma MoveInTree(s: State, p: Path, n: Name, sub: map<Path, Ino>)
    requires s.k.tree.Valid() && s.k.tree.CanMoveIn(p, n, sub)
    ensures var d, t, u := p + [n], s.k.tree, s.k.MoveIn(p, n, sub).tree;
      && d in u.dirs && !u.Watched(d)
      && (forall q | q in u.dirs && q in t.dirs && q != d && t.Watched(q) :: u.Watched(q))
      && (forall q | q in u.dirs && q !in t.dirs :: d <= q)
  {
    var d, t := p + [n], s.k.tree;
    assert d == d + [] && [] in sub;
    MoveInWatches(t, p, n, sub);
    if d in t.dirs { RmdirLive(t, d); }
    hide RootedDirs;
  }

  lemma NewForeseen(s: State, p: Path, n: Name, sub: map<Path, Ino>)
    requires s.k.Valid() && Good(s) && s.k.tree.CanMoveIn(p, n, sub) && !s.k.tree.Watched(p + [n])
    requires forall x | x in sub :: !Trapped(OvertakenOf(s), p + [n] + x)
    ensures Good(s.(k := s.k.MoveIn(p, n, sub)))
  {
    var d, t, pending := p + [n], s.k.tree, PendingOf(s);
    var u, more := t.MoveIn(d, sub), if t.Watched(p) then {d} else {};
    assert t.Valid() && t.OneToOne() && p in t.dirs;
    MoveInConsistent(s, p, n, sub);
    MoveInWatches(t, p, n, sub);
    hide RootedDirs, Consistent, Tree.OneToOne, QueueValid, Tree.CanMoveIn, Tree.MoveIn, Trapped;
    forall q | q in u.dirs && q !in t.dirs
      ensures Traversed(pending + more, q)
    {
      assert d <= q;
      TraversedBelow(t, pending, p, n, q);
    }
    if d in t.dirs { RmdirLive(t, d); }
    hide Foreseen, Traversed;
    ForeseenGrows(t, u, pending, more);
  }

  // Which directories are foreseen after an arrival.
  lemma ArrivalForeseenIff(s: State, p: Path, n: Name, sub: map<Path, Ino>)
    requires s.k.Valid() && Good(s) && s.k.tree.CanMoveIn(p, n, sub)
    requires forall x | x in sub :: !Trapped(OvertakenOf(s), p + [n] + x)
    ensures var s' := s.(k := s.k.MoveIn(p, n, sub));
      && Consistent(s')
      && (Foreseen(s'.k.tree, PendingOf(s')) <==> !s.k.tree.Watched(p + [n]) || Traversed(PendingOf(s), p + [n]))
  {
    var d, s' := p + [n], s.(k := s.k.MoveIn(p, n, sub));
    assert s.k.tree.Valid();
    hide Tree.Valid, Kernel.Valid, Consistent, Foreseen, Traversed, Trapped, Tree.CanMoveIn, Kernel.MoveIn;
    MoveInConsistent(s, p, n, sub);
    if !s.k.tree.Watched(d) {
      NewForeseen(s, p, n, sub);
    } else {
      MoveInTree(s, p, n, sub);
      assert PendingOf(s) + {} == PendingOf(s);
      ArrivedForeseen(s.k.tree, s'.k.tree, d, PendingOf(s));
    }
  }

  /** A subtree arrives from outside, not where it would be found too early; and over a watched directory
      only if it will be traversed. */
  lemma PostMoveIn(s: State, p: Path, n: Name, sub: map<Path, Ino>)
    requires s.k.Valid() && Good(s) && s.k.tree.CanMoveIn(p, n, sub)
    requires !s.k.tree.Watched(p + [n]) || Traversed(PendingOf(s), p + [n])
    requires forall x | x in sub :: !Trapped(OvertakenOf(s), p + [n] + x)
    ensures Good(s.(k := s.k.MoveIn(p, n, sub)))
  {
    ArrivalForeseenIff(s, p, n, sub);
  }

  // ---------- moves ----------

  lemma RenamedForeseenIff(t: Tree, src: Path, dst: Path, pending: set<Path>)
    requires t.Valid() && t.CanRename(src, dst) && Foreseen(t, pending)
    ensures Foreseen(t.Rename(src, dst), pending) <==>
      forall p {:trigger t.Watched(p)} | p in t.dirs && src <= p && !t.Watched(p) :: Traversed(pending, Rebase(src, dst, p))
  {
    if Foreseen(t.Rename(src, dst), pending) {
      RenamedForeseen(t, src, dst, pending);
    } else if forall p {:trigger t.Watched(p)} | p in t.dirs && src <= p && !t.Watched(p) ::
                Traversed(pending, Rebase(src, dst, p)) {
      hide *;
      ForeseenRenamed(t, src, dst, pending);
    }
  }

  lemma RenamedForeseen(t: Tree, src: Path, dst: Path, pending: set<Path>)
    requires t.Valid() && t.CanRename(src, dst) && Foreseen(t.Rename(src, dst), pending)
    ensures forall p | p in t.dirs && src <= p && !t.Watched(p) :: Traversed(pending, Rebase(src, dst, p))
  {
    var u := t.Rename(src, dst);
    RenameRelabels(t, src, dst);
    assert !(src <= dst);
    hide Tree.Rename, Tree.CanRename, Rebase, Traversed, Tree.Valid, Tree.Watched;
    forall p | p in t.dirs && src <= p && !t.Watched(p)
      ensures Traversed(pending, Rebase(src, dst, p))
    {
      assert p != dst && !u.Watched(Rebase(src, dst, p));
    }
  }

  lemma ForeseenRenamed(t: Tree, src: Path, dst: Path, pending: set<Path>)
    requires t.Valid() && t.CanRename(src, dst) && Foreseen(t, pending)
    requires forall p {:trigger t.Watched(p)} | p in t.dirs && src <= p && !t.Watched(p) ::
      Traversed(pending, Rebase(src, dst, p))
    ensures Foreseen(t.Rename(src, dst), pending)
  {
    var u := t.Rename(src, dst);
    RenameRelabels(t, src, dst);
    assert t.Rooted();
    hide RootedDirs, Tree.OneToOne, Tree.Rename, Tree.CanRename, Rebase, Traversed, Tree.Valid, Tree.Watched;
    forall q | q in u.dirs && !u.Watched(q)
      ensures Traversed(pending, q)
    {
      NothingLeft(t, src, dst, q);
      var p := Rebase(dst, src, q);
      assert p in t.dirs && !t.Watched(p) && Rebase(src, dst, p) == q && (!(src <= p) ==> p == q);
    }
  }

  /** A rename between watched directories may overtake any announcement, as long as the program will
      find what it does not watch yet. */
  lemma PostRename(s: State, src: Path, dst: Path)
    requires s.k.Valid() && Good(s) && s.k.tree.CanRename(src, dst)
    requires s.k.tree.Watched(Parent(src)) && s.k.tree.Watched(Parent(dst))
    requires Followed(s.k.tree, OvertakenOf(s), PendingOf(s), src, dst)
    ensures Good(s.(k := s.k.Rename(src, dst)))
  {
    var pending := PendingOf(s);
    assert s.k.tree.Valid();
    hide Consistent, Foreseen, RootedDirs, Tree.OneToOne, QueueValid, Tree.CanRename, Tree.Rename, Traversed, Trapped, Rebase;
    RenameConsistent(s, src, dst);
    RenamedForeseenIff(s.k.tree, src, dst, pending);
  }

  lemma UnseenMap(t: Tree, src: Path, dst: Path)
    requires t.Rooted() && t.CanRename(src, dst) && !t.Watched(dst)
    ensures t.Rename(src, dst).watch == t.watch
  {
    hide RootedDirs, Rebased, Tree.CanRename;
    t.TargetEmpty(src, dst);
  }

  lemma UnseenWatches(t: Tree, src: Path, dst: Path)
    requires t.Valid() && t.CanRename(src, dst) && Unseen(t, src) && !t.Watched(dst)
    ensures SameWatches(t, t.Rename(src, dst))
  {
    var u := t.Rename(src, dst);
    RenameRelabels(t, src, dst);
    assert t.Rooted();
    UnseenMap(t, src, dst);
    hide RootedDirs, Tree.OneToOne, Tree.Rename, Tree.CanRename, Tree.Valid;
    forall q | q in u.dirs
      ensures !(dst <= q) ==> Rebase(dst, src, q) == q
      ensures dst <= q ==> src <= Rebase(dst, src, q)
    {
      NothingLeft(t, src, dst, q);
    }
    UnseenSame(t, u, src, dst);
  }

  lemma UnseenSame(t: Tree, u: Tree, src: Path, dst: Path)
    requires Relabelled(t, u, src, dst) && Unseen(t, src) && !t.Watched(dst) && u.watch == t.watch
    requires forall q | q in u.dirs && !(dst <= q) :: Rebase(dst, src, q) == q
    requires forall q | q in u.dirs && dst <= q :: src <= Rebase(dst, src, q)
    ensures SameWatches(t, u)
  {
    forall p | t.Watched(p)
      ensures u.Watched(p) && u.WdOf(p) == t.WdOf(p)
    {
      assert p != dst && Rebase(src, dst, p) == p;
    }
    hide Rebase;
    forall q | u.Watched(q)
      ensures t.Watched(q)
    {
      assert t.Watched(Rebase(dst, src, q));
    }
  }

  lemma PostUnseenRename(s: State, src: Path, dst: Path)
    requires s.k.Valid() && Good(s) && s.k.tree.CanRename(src, dst) && Unseen(s.k.tree, src) && !s.k.tree.Watched(dst)
    requires forall p | p in s.k.tree.dirs && src <= p :: !Trapped(OvertakenOf(s), Rebase(src, dst, p))
    ensures Good(s.(k := s.k.Rename(src, dst)))
  {
    UnseenParts(s, src, dst);
    var t, s', pending := s.k.tree, s.(k := s.k.Rename(src, dst)), PendingOf(s);
    var u, ext := t.Rename(src, dst), t.Arrived(Parent(dst), Last(dst), s.k.nextCookie);
    var more := if t.Watched(Parent(dst)) then {dst} else {};
    hide Consistent, RootedDirs, Tree.OneToOne, Tree.Valid, Kernel.Valid, QueueValid, Tree.CanRename, Tree.Rename, Trapped, Rebase,
         Traversed, Foreseen, Effect, Separate, SameWatches, Tracks, Unseen, Tree.Watched, Tree.Arrived;
    UnseenWatches(t, src, dst);
    UnseenEvents(s, src, dst);
    UnseenNew(t, src, dst);
    forall q | q in u.dirs && q !in t.dirs
      ensures Traversed(pending + more, q)
    {
      TraversedBelow(t, pending, Parent(dst), Last(dst), q);
    }
    ForeseenUnseen(t, u, pending, more);
    UnwatchedChange(s, s', ext, more);
  }

  lemma UnseenParts(s: State, src: Path, dst: Path)
    requires s.k.Valid() && Good(s) && s.k.tree.CanRename(src, dst)
    ensures s.k.tree.Valid() && s.k.tree.Rooted() && Consistent(s) && Foreseen(s.k.tree, PendingOf(s))
    ensures dst != [] && dst == Parent(dst) + [Last(dst)] && Parent(dst) in s.k.tree.dirs
    ensures s.k.Rename(src, dst).tree == s.k.tree.Rename(src, dst)
  {
    hide Consistent, Foreseen, RootedDirs, Tree.OneToOne, QueueValid, Tree.Rename;
  }

  lemma ForeseenUnseen(t: Tree, u: Tree, pending: set<Path>, more: set<Path>)
    requires Foreseen(t, pending) && SameWatches(t, u)
    requires forall p | p in u.dirs && p !in t.dirs :: Traversed(pending + more, p)
    ensures Foreseen(u, pending + more)
  {
    hide Traversed;
    ForeseenGrows(t, u, pending, more);
  }

  // What lives at a new pathname has moved there.
  lemma UnseenNew(t: Tree, src: Path, dst: Path)
    requires t.Valid() && t.CanRename(src, dst)
    ensures forall q | q in t.Rename(src, dst).dirs && q !in t.dirs ::
      var p := Rebase(dst, src, q); dst <= q && p in t.dirs && src <= p && Rebase(src, dst, p) == q
  {
    var u := t.Rename(src, dst);
    RenameRelabels(t, src, dst);
    assert t.Rooted();
    hide RootedDirs, Tree.OneToOne, Tree.Rename, Tree.CanRename, Rebase;
    forall q | q in u.dirs && q !in t.dirs
      ensures var p := Rebase(dst, src, q); dst <= q && p in t.dirs && src <= p && Rebase(src, dst, p) == q
    {
      NothingLeft(t, src, dst, q);
    }
  }

  lemma UnseenEvents(s: State, src: Path, dst: Path)
    requires s.k.Valid() && Consistent(s) && s.k.tree.CanRename(src, dst) && Unseen(s.k.tree, src) && !s.k.tree.Watched(dst)
    ensures var t, ext := s.k.tree, s.k.tree.Arrived(Parent(dst), Last(dst), s.k.nextCookie);
      && s.k.Rename(src, dst).queue == s.k.queue + ext && Separate(s.k.queue, ext)
      && Effect(FinalOf(s), ext, FinalOf(s), if t.Watched(Parent(dst)) then {dst} else {}, {}, {})
  {
    hide *;
    GoodTracks(s);
    UnseenQueue(s.k, src, dst);
    UnseenEffect(s.k.tree, FinalOf(s), src, dst, s.k.nextCookie);
  }

  lemma UnseenEffect(t: Tree, c: Cache, src: Path, dst: Path, cookie: nat)
    requires Tracks(t, c) && t.CanRename(src, dst) && !t.Watched(dst)
    ensures dst != []
    ensures Effect(c, t.Arrived(Parent(dst), Last(dst), cookie), c, if t.Watched(Parent(dst)) then {dst} else {}, {}, {})
  {
    var p := Parent(dst);
    assert dst == p + [Last(dst)];
    hide Tree.CanRename, Tracks;
    if t.Watched(p) {
      AnnounceEffect(t, c, p, Last(dst), MovedTo(t.WdOf(p), Last(dst), cookie));
    } else {
      NoEffect(c);
    }
  }

  lemma UnseenQueue(k: Kernel, src: Path, dst: Path)
    requires k.Valid() && k.tree.CanRename(src, dst) && Unseen(k.tree, src) && !k.tree.Watched(dst)
    ensures var ext := k.tree.Arrived(Parent(dst), Last(dst), k.nextCookie);
      k.Rename(src, dst).queue == k.queue + ext && Separate(k.queue, ext)
  {
    var t, ext := k.tree, k.tree.Arrived(Parent(dst), Last(dst), k.nextCookie);
    FreshCookie(k, Parent(dst), Last(dst), dst);
    assert t.Gone(dst) == [] && ext + [] == ext;
    assert t.Left(Parent(src), Last(src), k.nextCookie) == [] && [] + ext + [] == ext;
    hide RootedDirs, Tree.OneToOne, QueueValid, Tree.Rename, Tree.Arrived, Separate;
  }

  lemma MoveOutForeseen(t: Tree, src: Path, pending: set<Path>)
    requires Foreseen(t, pending)
    ensures Foreseen(t.MoveOut(src), pending)
  {
    MoveOutLive(t, src);
  }

  /** A move out of the tree; what is below it plays no part. */
  lemma PostMoveOut(s: State, src: Path)
    requires s.k.Valid() && Good(s) && |src| > 1 && (s.k.tree.Watched(Parent(src)) || Unseen(s.k.tree, src))
    ensures Good(s.(k := s.k.MoveOut(src)))
  {
    MoveOutForeseen(s.k.tree, src, PendingOf(s));
    if s.k.tree.Watched(Parent(src)) {
      hide Consistent, Foreseen, RootedDirs, Tree.OneToOne, QueueValid, Tree.MoveOut;
      MoveOutConsistent(s, src);
    } else {
      hide Consistent, Foreseen, RootedDirs, Tree.OneToOne, QueueValid, Tree.MoveOut;
      UnseenMoveOut(s, src);
    }
  }

  lemma UnseenMoveOut(s: State, src: Path)
    requires s.k.Valid() && Consistent(s) && Unseen(s.k.tree, src)
    ensures Consistent(s.(k := s.k.MoveOut(src))) && PendingOf(s.(k := s.k.MoveOut(src))) == PendingOf(s)
  {
    var t, s' := s.k.tree, s.(k := s.k.MoveOut(src));
    MoveOutLive(t, src);
    assert SameWatches(t, s'.k.tree);
    assert s'.k.queue == s.k.queue + [] && Separate(s.k.queue, []);
    NoEffect(FinalOf(s));
    assert PendingOf(s) + {} == PendingOf(s);
    assert s'.k.tree.dirs.Keys <= t.dirs.Keys;
    hide Consistent, Effect, Separate, RootedDirs, Tree.OneToOne, QueueValid, Tree.MoveOut, Trapped;
    UnwatchedChange(s, s', [], {});
  }

  /** A rename of directories that are not watched, from a watched directory to one that is not: the program
      takes it for a move out of the tree, and finds the directories again where they are now. */
  lemma PostRenameAway(s: State, src: Path, dst: Path)
    requires s.k.Valid() && Bounded(s) && Good(s) && s.k.tree.CanRename(src, dst) && Unknown(s.k.tree, src)
    requires s.k.tree.Watched(Parent(src)) && !s.k.tree.Watched(Parent(dst)) && !s.k.tree.Watched(dst)
    requires forall p | p in s.k.tree.dirs && src <= p :: !Trapped(OvertakenOf(s), Rebase(src, dst, p))
    ensures Good(s.(k := s.k.Rename(src, dst)))
  {
    var t, s1, sub := s.k.tree, s.(k := s.k.MoveOut(src)), Subtree(s.k.tree, src);
    assert t.Valid() && |src| > 1 && src in t.dirs && dst != [];
    hide RootedDirs, Tree.OneToOne, QueueValid, Consistent, Foreseen, Trapped, Tree.CanRename, Kernel.Valid, Tree.Valid,
         Kernel.MoveOut, Kernel.MoveIn, Kernel.Rename, Good, Subtree;
    PostMoveOut(s, src);
    MoveOutSane(s, src);
    AwayParts(s, src, dst);
    PostMoveIn(s1, Parent(dst), Last(dst), sub);
    AwayIs(s, src, dst);
    GoodSame(s1.(k := s1.k.MoveIn(Parent(dst), Last(dst), sub)), s.(k := s.k.Rename(src, dst)));
  }

  lemma GoodSame(s: State, t: State)
    requires Good(s) && t.k.tree == s.k.tree && t.k.queue == s.k.queue && t.cache == s.cache
    ensures Good(t)
  {
  }

  // The arrival's side of it.
  lemma AwayParts(s: State, src: Path, dst: Path)
    requires s.k.Valid() && Good(s) && s.k.tree.CanRename(src, dst) && Unknown(s.k.tree, src)
    requires s.k.tree.Watched(Parent(src)) && !s.k.tree.Watched(dst)
    requires forall p | p in s.k.tree.dirs && src <= p :: !Trapped(OvertakenOf(s), Rebase(src, dst, p))
    ensures dst != [] && |src| > 1 && Consistent(s.(k := s.k.MoveOut(src)))
    ensures var s1, sub, d := s.(k := s.k.MoveOut(src)), Subtree(s.k.tree, src), Parent(dst) + [Last(dst)];
      && s1.k.tree.CanMoveIn(Parent(dst), Last(dst), sub) && !s1.k.tree.Watched(d)
      && forall x | x in sub :: !Trapped(OvertakenOf(s1), d + x)
  {
    var t, s1, sub := s.k.tree, s.(k := s.k.MoveOut(src)), Subtree(s.k.tree, src);
    UnseenParts(s, src, dst);
    LeavesTarget(t, src, dst);
    hide RootedDirs, Tree.OneToOne, QueueValid, Consistent, Foreseen, Trapped, Tree.CanRename, Kernel.Valid, Tree.Valid,
         Good, Subtree, Unknown, Tree.CanMoveIn, Tree.MoveOut, Rebase, Tree.Watched;
    SubtreeArrives(t, src, dst);
    MoveOutConsistent(s, src);
    MoveOutLive(t, src);
    forall x | x in sub
      ensures !Trapped(OvertakenOf(s1), dst + x)
    {
      SubtreeAt(t, src, x);
      BelowItself(src, x);
      AwayFree(t, src, dst, x, OvertakenOf(s), PendingOf(s));
    }
  }

  lemma BelowItself(src: Path, x: Path)
    ensures src <= src + x
  {
  }

  lemma AwayFree(t: Tree, src: Path, dst: Path, x: Path, o: set<(Path, Path)>, pending: set<Path>)
    requires t.Valid() && t.CanRename(src, dst) && src + x in t.dirs && !Trapped(o, Rebase(src, dst, src + x))
    ensures !Trapped(o + Pairs(pending, {src}), dst + x)
  {
    assert (src + x)[|src|..] == x;
    t.TargetEmpty(src, dst);
    if src <= dst + x {
      Comparable(src, dst, dst + x);
      assert false;
    }
    if Trapped(o + Pairs(pending, {src}), dst + x) { OldTrap(o, pending, src, dst + x); }
  }

  lemma AwayIs(s: State, src: Path, dst: Path)
    requires s.k.tree.Valid() && s.k.tree.CanRename(src, dst) && !s.k.tree.Watched(Parent(dst))
    ensures var k1, k2 := s.k.MoveOut(src).MoveIn(Parent(dst), Last(dst), Subtree(s.k.tree, src)), s.k.Rename(src, dst);
      k1.tree == k2.tree && k1.queue == k2.queue
  {
    var t := s.k.tree;
    var u := t.MoveOut(src);
    assert dst == Parent(dst) + [Last(dst)] && !(src <= dst) && t.Rooted() && |src| > 1;
    hide RootedDirs, Tree.OneToOne, Subtree, Tree.MoveIn, Tree.Rename, Tree.CanRename, Tree.Valid, Tree.MoveOut;
    RenameIsOutAndIn(t, src, dst);
    MoveOutLive(t, src);
    AwayGone(t, src, dst);
    AwayQueue(s.k.queue, t.Left(Parent(src), Last(src), s.k.nextCookie), t.Gone(dst));
  }

  lemma AwayQueue(q: seq<Event>, left: seq<Event>, gone: seq<Event>)
    ensures (q + left) + ([] + gone) == q + (left + [] + gone)
  {
  }

  lemma AwayGone(t: Tree, src: Path, dst: Path)
    requires !(src <= dst)
    ensures t.MoveOut(src).Gone(dst) == t.Gone(dst)
  {
  }

  // ---------- the program's step ----------

  lemma HandleInv(s: State, order: seq<Path>, removed: seq<Wd>)
    requires Inv(s) && s.k.queue != [] && Choice(s, order, removed)
    ensures Inv(Process(s, order, removed))
  {
    HandleSane(s, order, removed);
    hide RootedDirs, Walk, Visit, Choice, Consistent, Foreseen, Process, MustRebuild;
    if Overflow !in s.k.queue {
      HandleConsistent(s, order, removed);
    } else if MustRebuild(s) {
      RebuildInv(s, order, removed);
    } else {
      OverflowStays(s, order, removed);
    }
  }

  lemma RebuildInv(s: State, order: seq<Path>, removed: seq<Wd>)
    requires s.k.Valid() && s.k.queue != [] && MustRebuild(s) && Choice(s, order, removed)
    ensures Inv(Process(s, order, removed))
  {
    hide RootedDirs, Walk, MustRebuild;
    RebuildSynced(s.k, order);
  }

  lemma OverflowStays(s: State, order: seq<Path>, removed: seq<Wd>)
    requires s.k.Valid() && Bounded(s) && Overflow in s.k.queue && !MustRebuild(s) && Choice(s, order, removed)
    ensures Overflow in Process(s, order, removed).k.queue
  {
    if IsAnnounce(s.k.queue[0]) { AnnouncedValid(s, order); } else { LoggedValid(s, removed); }
  }

  // The head event shows that the cache is not what it should be: the queue has overflowed, a descriptor is
  // not cached, or a cached directory that has been moved out has no watch any more.
  predicate LostTrack(s: State)
    requires s.k.queue != []
  {
    var e := s.k.queue[0];
    || e.Overflow?
    || (!e.Ignored? && e.wd !in s.cache)
    || (Paired(s.k.queue) && s.k.queue[1].wd !in s.cache)
    || (e.MovedFrom? && !Paired(s.k.queue)
        && exists w :: w in s.cache && s.cache[e.wd] + [e.name] <= s.cache[w] && w !in s.k.tree.watch.Values)
  }

  /** An event that shows the cache to be wrong, whatever state it is in, brings it in sync at once; every
      other event is taken off the queue, with its IN_MOVED_TO if it is half of a rename, and the rest stays. */
  lemma ResyncsIff(s: State, order: seq<Path>, removed: seq<Wd>)
    requires Sane(s) && s.k.queue != [] && Choice(s, order, removed)
    ensures LostTrack(s) <==> MustRebuild(s)
    ensures var t := Process(s, order, removed);
      if LostTrack(s) then Synced(t) && t.k.queue == [] && Inv(t)
      else s.k.queue[if Paired(s.k.queue) then 2 else 1..] <= t.k.queue
  {
    LostTrackIff(s);
    hide RootedDirs, Tree.OneToOne, QueueValid, LostTrack, MustRebuild, Walk;
    if MustRebuild(s) {
      RebuildSynced(s.k, order);
    } else if IsAnnounce(s.k.queue[0]) {
      WalkKeepsQueue(State(s.k.(queue := s.k.queue[1..]), s.cache), order);
    }
  }

  lemma LostTrackIff(s: State)
    requires s.k.queue != []
    ensures LostTrack(s) <==> MustRebuild(s)
  {
    var e, q := s.k.queue[0], s.k.queue;
    if Loggable(s.cache, q) && e.MovedFrom? && !Paired(q) {
      assert Dropped(s.cache, q) == Under(s.cache, s.cache[e.wd] + [e.name]);
    }
  }

  lemma {:induction false} WalkKeepsQueue(s: State, order: seq<Path>)
    ensures Walk(s, order).k.queue == s.k.queue
    decreases |order|
  {
    if order != [] { WalkKeepsQueue(Visit(s, order[0]), order[1..]); }
  }

  // ---------- every step, every run ----------

  lemma StepGood(s: State, a: Action)
    requires s.k.Valid() && Bounded(s) && Good(s) && Enabled(s, a) && !a.Lose?
    ensures Good(Do(s, a))
  {
    assert ReplayOK(s.cache, s.k.queue);
    hide Tree.CanMkdir, Tree.CanMoveIn, Tree.CanRename, Tree.CanRmdir, Choice, Trapped, RootedDirs, Tree.OneToOne, QueueValid,
         Process, Followed, Unknown, Traversed;
    match a
    case Mkdir(p, n, ino, merge) => hide Good; PostMkdir(s, p, n, ino, merge);
    case Rmdir(d) => hide Good; PostRmdir(s, d);
    case TouchFile(p, n, merge) => hide Good; PostTouch(s, p, n, merge);
    case MoveIn(p, n, sub) => hide Good; PostMoveIn(s, p, n, sub);
    case Rename(src, dst) =>
      hide Good;
      assert |src| > 1;
      if !s.k.tree.Watched(Parent(src)) {
        PostUnseenRename(s, src, dst);
      } else if s.k.tree.Watched(Parent(dst)) {
        PostRename(s, src, dst);
      } else {
        PostRenameAway(s, src, dst);
      }
    case MoveOut(src) => hide Good; PostMoveOut(s, src);
    case Lose(k) =>
    case Handle(order, removed) => HandleConsistent(s, order, removed);
  }

  // Events other than those handled stay in the queue.
  lemma StaysQueued(s: State, a: Action)
    requires s.k.Valid() && Possible(s, a) && !a.Handle? && Overflow in s.k.queue
    ensures Overflow in Do(s, a).k.queue
  {
    hide Tree.CanMkdir, Tree.CanMoveIn, Tree.CanRename, Tree.CanRmdir, RootedDirs, Tree.OneToOne, QueueValid,
         Tree.Created, Tree.Gone, Tree.Arrived, Tree.Left, Tree.FileTouched;
  }

  lemma StepInv(s: State, a: Action)
    requires Inv(s) && Enabled(s, a)
    ensures Inv(Do(s, a))
  {
    hide Good, Possible, Orderly, Do, RootedDirs, Tree.OneToOne, QueueValid;
    if a.Handle? {
      HandleStep(s, a);
    } else {
      StepSane(s, a);
      if Overflow in s.k.queue {
        StaysQueued(s, a);
      } else if a.Lose? {
        LoseStep(s, a);
      } else {
        StepGood(s, a);
      }
    }
  }

  lemma HandleStep(s: State, a: Action)
    requires Inv(s) && Possible(s, a) && a.Handle?
    ensures Inv(Do(s, a))
  {
    hide Inv;
    HandleInv(s, a.order, a.removed);
  }

  lemma LoseStep(s: State, a: Action)
    requires s.k.Valid() && Possible(s, a) && a.Lose?
    ensures Overflow in Do(s, a).k.queue
  {
  }

  // The states of a run, from the initial build of the cache on.
  ghost predicate Run(states: seq<State>, steps: seq<Action>) {
    && |states| == |steps| + 1
    && (exists k: Kernel, order: seq<Path> :: k.Valid() && (forall p :: p in order <==> p in k.tree.dirs)
          && states[0] == Rebuild(k, order))
    && forall i | 0 <= i < |steps| ::
         states[i].k.Valid() && Enabled(states[i], steps[i]) && states[i + 1] == Do(states[i], steps[i])
  }

  lemma {:induction false} RunInv(states: seq<State>, steps: seq<Action>, i: nat)
    requires Run(states, steps) && i < |states|
    ensures Inv(states[i])
  {
    hide Inv, Do, Enabled, Rebuild;
    if i == 0 {
      var k: Kernel, order: seq<Path> :| k.Valid() && (forall p :: p in order <==> p in k.tree.dirs)
        && states[0] == Rebuild(k, order);
      RebuildSynced(k, order);
    } else {
      RunInv(states, steps, i - 1);
      StepInv(states[i - 1], steps[i - 1]);
    }
  }

  lemma QuiescentSynced(s: State)
    requires Inv(s) && s.k.queue == []
    ensures Synced(s)
  {
    hide RootedDirs;
    assert Final(s.cache, []) == s.cache;
    ForeseenNone(s.k.tree);
    TrackedSynced(s);
  }

  lemma ForeseenNone(t: Tree)
    ensures Foreseen(t, {}) <==> forall p | p in t.dirs :: t.Watched(p)
  {
    var none: set<Path> := {};
    forall p | p in t.dirs && Foreseen(t, none)
      ensures t.Watched(p)
    {
      assert !Traversed(none, p);
    }
  }

  lemma TrackedSynced(s: State)
    requires Tracks(s.k.tree, s.cache)
    ensures Synced(s) <==> forall p | p in s.k.tree.dirs :: s.k.tree.Watched(p)
  {
    forall w | w in s.cache
      ensures s.k.tree.Watched(s.cache[w]) && s.k.tree.WdOf(s.cache[w]) == w
    {
      assert s.k.tree.LiveWd(w);
    }
  }

  /** In every run, whenever all events have been handled the cache is exactly the set of live
      directories; and unless the kernel's queue overflowed, no event ever finds its descriptor
      missing, so the cache is never rebuilt. */
  lemma Converges(states: seq<State>, steps: seq<Action>, i: nat)
    requires Run(states, steps) && i < |states|
    ensures states[i].k.queue == [] ==> Synced(states[i])
    ensures states[i].k.queue != [] && Overflow !in states[i].k.queue ==> !MustRebuild(states[i])
  {
    RunInv(states, steps, i);
    hide Run, RootedDirs, MustRebuild, Consistent, Foreseen;
    if states[i].k.queue == [] {
      QuiescentSynced(states[i]);
    } else if Overflow !in states[i].k.queue {
      NoRebuild(states[i]);
    }
  }

  /** A directory that stays in the tree keeps its watch descriptor, across renames too. */
  lemma StepKeepsDescriptors(s: State, a: Action, i: Ino)
    requires Inv(s) && Enabled(s, a) && !a.Lose? && Overflow !in s.k.queue
    requires i in s.k.tree.dirs.Values && i in s.k.tree.watch && i in Do(s, a).k.tree.dirs.Values
    ensures i in Do(s, a).k.tree.watch && Do(s, a).k.tree.watch[i] == s.k.tree.watch[i]
  {
    StepParts(s, a);
    hide Inv, Orderly, Kernel.Valid, Tree.Valid, RootedDirs, Tree.OneToOne, Consistent, Foreseen, Bounded, QueueValid,
         Tree.CanMkdir, Tree.CanMoveIn, Tree.CanRename, Tree.CanRmdir, Tree.Rename, Tree.Rmdir, Tree.MoveIn, Process, Choice,
         Tree.Created, Tree.Arrived, Tree.Left, Tree.Gone, Tree.Watched;
    var t := s.k.tree;
    match a
    case Mkdir(p, n, ino, merge) =>
    case Rmdir(d) => RmdirKeepsInode(t, d, i);
    case TouchFile(p, n, merge) =>
    case MoveIn(p, n, sub) => MoveInKeepsInode(t, p, n, sub, i);
    case Rename(src, dst) => RenameKeepsInode(t, src, dst, i);
    case MoveOut(src) =>
    case Lose(k) =>
    case Handle(order, removed) => HandleKeepsInode(s, order, removed, i);
  }

  lemma StepParts(s: State, a: Action)
    requires Inv(s) && Enabled(s, a) && Overflow !in s.k.queue
    ensures s.k.Valid() && s.k.tree.Valid() && s.k.tree.OneToOne() && Bounded(s) && Consistent(s)
    ensures a.MoveIn? ==> s.k.tree.CanMoveIn(a.parent, a.name, a.sub)
    ensures a.Rmdir? ==> a.d in s.k.tree.dirs
  {
    hide RootedDirs, Foreseen, QueueValid, Choice, Tree.CanMkdir, Tree.CanMoveIn, Tree.CanRename;
  }

  lemma MoveInKeepsInode(t: Tree, p: Path, n: Name, sub: map<Path, Ino>, i: Ino)
    requires t.OneToOne() && t.CanMoveIn(p, n, sub)
    requires i in t.watch && i in t.MoveIn(p + [n], sub).dirs.Values
    ensures i in t.MoveIn(p + [n], sub).watch && t.MoveIn(p + [n], sub).watch[i] == t.watch[i]
  {
    var d := p + [n];
    var q :| q in t.MoveIn(d, sub).dirs && t.MoveIn(d, sub).dirs[q] == i;
    MovedInOrBefore(t, d, sub, q);
    assert q in t.dirs && q != d && t.dirs[q] == i;
  }

  lemma MovedInOrBefore(t: Tree, d: Path, sub: map<Path, Ino>, q: Path)
    requires [] in sub && q in t.MoveIn(d, sub).dirs
    ensures var i := t.MoveIn(d, sub).dirs[q]; i in sub.Values || (q in t.dirs && q != d && i == t.dirs[q])
  {
    assert d == d + [];
  }

  lemma RmdirKeepsInode(t: Tree, d: Path, i: Ino)
    requires t.OneToOne() && d in t.dirs && i in t.watch && i in t.Rmdir(d).dirs.Values
    ensures i in t.Rmdir(d).watch && t.Rmdir(d).watch[i] == t.watch[i]
  {
  }

  lemma HandleKeepsInode(s: State, order: seq<Path>, removed: seq<Wd>, i: Ino)
    requires s.k.Valid() && Bounded(s) && Consistent(s) && s.k.queue != [] && Choice(s, order, removed)
    requires i in s.k.tree.dirs.Values && i in s.k.tree.watch
    ensures var s' := Process(s, order, removed); i in s'.k.tree.watch && s'.k.tree.watch[i] == s.k.tree.watch[i]
  {
    var t := s.k.tree;
    hide RootedDirs, Clear;
    NoRebuild(s);
    var p :| p in t.dirs && t.dirs[p] == i;
    assert t.LiveWd(t.WdOf(p));
    if IsAnnounce(s.k.queue[0]) {
      ConsistentWalks(s);
      WalkEffect(State(s.k.(queue := s.k.queue[1..]), s.cache), order);
    } else {
      assert Dropped(s.cache, s.k.queue) <= Zapped(s.cache, s.k.queue);
    }
  }

  lemma RenameKeepsInode(t: Tree, src: Path, dst: Path, i: Ino)
    requires t.Valid() && t.CanRename(src, dst) && i in t.Rename(src, dst).dirs.Values && i in t.watch
    ensures i in t.Rename(src, dst).watch && t.Rename(src, dst).watch[i] == t.watch[i]
  {
    hide RootedDirs, Rebased, Tree.CanRename;
    t.TargetEmpty(src, dst);
    FromRebased(t.dirs, src, dst, i);
    assert dst in t.dirs ==> t.dirs[dst] != i;
  }

  lemma FromRebased(dirs: map<Path, Ino>, src: Path, dst: Path, i: Ino)
    requires (forall p | p in dirs && p != dst :: !(dst <= p)) && i in Rebased(dirs, src, dst).Values
    ensures exists p :: p in dirs && p != dst && dirs[p] == i
  {
    var q :| q in Rebased(dirs, src, dst) && Rebased(dirs, src, dst)[q] == i;
  }
}
