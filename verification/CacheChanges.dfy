/** Changes other processes make to the tree, and what they leave in the event queue. */
module CacheChanges {
  import opened Paths
  import opened DirTree
  import opened CacheProtocol
  import opened CacheReplay

  // What the events ext do to a cache c that knows the tree they were posted for.
  ghost predicate Effect(c: Cache, ext: seq<Event>, after: Cache, pending: set<Path>, sources: set<Path>, zapped: set<Wd>) {
    && ReplayOK(c, ext) && Final(c, ext) == after && Pending(c, ext) == pending
    && Sources(c, ext) == sources && Zapped(c, ext) == zapped && Overtaken(c, ext) == {}
  }

  // What the longer queue will do.
  lemma AppendReplay(c: Cache, q: seq<Event>, ext: seq<Event>, after: Cache,
                     pending: set<Path>, sources: set<Path>, zapped: set<Wd>)
    requires ReplayOK(c, q) && Separate(q, ext) && Effect(Final(c, q), ext, after, pending, sources, zapped)
    ensures ReplayOK(c, q + ext) && Final(c, q + ext) == after
    ensures Pending(c, q + ext) == Pending(c, q) + pending && Zapped(c, q + ext) == Zapped(c, q) + zapped
    ensures Overtaken(c, q + ext) == Overtaken(c, q) + Pairs(Pending(c, q), sources)
  {
    hide ReplayOK, Final, Pending, Sources, Zapped, Overtaken, Pairs, Separate;
    Split(c, q, ext);
    var o := Overtaken(c, q) + Pairs(Pending(c, q), sources);
    assert o + {} == o;
  }

  /** A change whose events are appended to the queue. */
  lemma Append(s: State, s': State, ext: seq<Event>, after: Cache, pending: set<Path>, sources: set<Path>, zapped: set<Wd>)
    requires Consistent(s) && s'.cache == s.cache && s'.k.queue == s.k.queue + ext && Separate(s.k.queue, ext)
    requires Effect(FinalOf(s), ext, after, pending, sources, zapped)
    requires Tracks(s'.k.tree, after) && Dead(s'.k.tree, ZappedOf(s) + zapped)
    requires Clear(s'.k.tree, OvertakenOf(s) + Pairs(PendingOf(s), sources))
    ensures Consistent(s') && FinalOf(s') == after && PendingOf(s') == PendingOf(s) + pending
    ensures OvertakenOf(s') == OvertakenOf(s) + Pairs(PendingOf(s), sources)
  {
    hide Tracks, Dead, Clear, ReplayOK, Final, Pending, Sources, Zapped, Overtaken, Pairs, Separate, Effect;
    AppendReplay(s.cache, s.k.queue, ext, after, pending, sources, zapped);
  }

  // ---------- the events of one change ----------

  lemma TrackedValues(t: Tree, c: Cache)
    requires Tracks(t, c)
    ensures forall p :: p in c.Values <==> t.Watched(p)
  {
    forall p | t.Watched(p)
      ensures p in c.Values
    {
      assert c[t.WdOf(p)] == p;
    }
    forall p | p in c.Values
      ensures t.Watched(p)
    {
      var w :| w in c && c[w] == p;
      assert t.LiveWd(w);
    }
  }

  lemma NoEffect(c: Cache)
    ensures Effect(c, [], c, {}, {}, {})
  {
  }

  // An event that only says that there may be something new at p/n.
  lemma AnnounceEffect(t: Tree, c: Cache, p: Path, n: Name, e: Event)
    requires Tracks(t, c) && t.Watched(p) && IsAnnounce(e) && e.wd == t.WdOf(p) && e.name == n
    ensures Effect(c, [e], c, if t.Watched(p + [n]) then {} else {p + [n]}, {}, {})
  {
    TrackedValues(t, c);
    var q := [e];
    assert q[1..] == [] && c[e.wd] == p;
    assert Replayable(c, q) && Next(c, q) == (c, []);
    assert ReplayOK(c, []);
    assert Pairs(Announced(c, q), {}) == {};
  }

  lemma FileEffect(t: Tree, c: Cache, p: Path, n: Name)
    requires Tracks(t, c)
    ensures Effect(c, t.FileTouched(p, n), c, {}, {}, {})
  {
    var q := t.FileTouched(p, n);
    if q != [] {
      assert q[1..] == [] && c - {} == c;
      assert Replayable(c, q) && Next(c, q) == (c, []);
      assert ReplayOK(c, []);
      assert Pairs({}, {}) == {};
    }
  }

  function Without(c: Cache, t: Tree, d: Path): Cache {
    if t.Watched(d) then c - {t.WdOf(d)} else c
  }

  lemma GoneEffect(t: Tree, c: Cache, d: Path)
    requires t.Watched(d) ==> t.WdOf(d) in c
    ensures Effect(c, t.Gone(d), Without(c, t, d), {}, {}, {})
  {
    var q := t.Gone(d);
    if q != [] {
      var w := t.WdOf(d);
      var r, c1 := [Ignored(w)], c - {w};
      assert q[1..] == r && r[1..] == [] && c1 - {} == c1;
      assert Replayable(c, q) && Next(c, q) == (c1, r);
      assert Replayable(c1, r) && Next(c1, r) == (c1, []);
      assert ReplayOK(c1, []) && ReplayOK(c1, r);
      assert Pairs({}, {}) == {};
      IgnoredLast(c1, w);
      assert Pairs({}, Sources(c1, r)) == {};
    }
  }

  lemma IgnoredLast(c: Cache, w: Wd)
    ensures Effect(c, [Ignored(w)], c, {}, {}, {})
  {
    var q := [Ignored(w)];
    assert q[1..] == [] && c - {} == c;
    assert Replayable(c, q) && Next(c, q) == (c, []);
    assert ReplayOK(c, []);
    assert Pairs({}, {}) == {};
  }

  // One effect after another, when no announcement comes before a move.
  lemma EffectThen(c: Cache, a: seq<Event>, b: seq<Event>, c1: Cache, p1: set<Path>, s1: set<Path>, z1: set<Wd>,
                   c2: Cache, p2: set<Path>, z2: set<Wd>)
    requires Effect(c, a, c1, p1, s1, z1) && Effect(c1, b, c2, p2, {}, z2) && Separate(a, b)
    ensures Effect(c, a + b, c2, p1 + p2, s1, z1 + z2)
  {
    hide ReplayOK, Final, Pending, Sources, Zapped, Overtaken, Separate;
    Split(c, a, b);
    assert Pairs(p1, {}) == {};
    assert s1 + {} == s1;
  }

  // ---------- changes among unwatched directories ----------

  // The watched directories are the same, under the same pathnames.
  ghost predicate SameWatches(t: Tree, u: Tree) {
    && u.watch == t.watch
    && (forall p :: u.Watched(p) <==> t.Watched(p))
    && (forall p | t.Watched(p) :: u.WdOf(p) == t.WdOf(p))
  }

  lemma SameTracked(t: Tree, u: Tree, c: Cache, zapped: set<Wd>)
    requires SameWatches(t, u) && Tracks(t, c) && Dead(t, zapped)
    ensures Tracks(u, c) && Dead(u, zapped)
  {
    forall w | t.LiveWd(w)
      ensures u.LiveWd(w)
    {
      var p :| t.Watched(p) && t.WdOf(p) == w;
      assert u.Watched(p) && u.WdOf(p) == w;
    }
    forall w | u.LiveWd(w)
      ensures t.LiveWd(w)
    {
      var p :| u.Watched(p) && u.WdOf(p) == w;
      assert t.Watched(p) && t.WdOf(p) == w;
    }
  }

  /** New directories that nobody watches, and an event for the topmost, if its parent is watched. */
  lemma UnwatchedChange(s: State, s': State, ext: seq<Event>, pending: set<Path>)
    requires Consistent(s) && s'.cache == s.cache && s'.k.queue == s.k.queue + ext && Separate(s.k.queue, ext)
    requires SameWatches(s.k.tree, s'.k.tree) && Effect(FinalOf(s), ext, FinalOf(s), pending, {}, {})
    requires forall p | p in s'.k.tree.dirs && p !in s.k.tree.dirs :: !Trapped(OvertakenOf(s), p)
    ensures Consistent(s') && FinalOf(s') == FinalOf(s) && PendingOf(s') == PendingOf(s) + pending
    ensures OvertakenOf(s') == OvertakenOf(s)
  {
    hide ReplayOK, Final, Pending, Sources, Zapped, Overtaken, Separate, Effect, Tracks, Dead;
    SameTracked(s.k.tree, s'.k.tree, FinalOf(s), ZappedOf(s));
    assert ZappedOf(s) + {} == ZappedOf(s);
    assert Pairs(PendingOf(s), {}) == {} && OvertakenOf(s) + {} == OvertakenOf(s);
    Append(s, s', ext, FinalOf(s), pending, {}, {});
  }

  // Foreseen directories stay foreseen, and so are new ones at or below pathnames that are.
  lemma ForeseenGrows(t: Tree, u: Tree, pending: set<Path>, more: set<Path>)
    requires Foreseen(t, pending) && forall p | p in t.dirs && p in u.dirs && t.Watched(p) :: u.Watched(p)
    requires forall p | p in u.dirs && p !in t.dirs && !u.Watched(p) :: Traversed(pending + more, p)
    ensures Foreseen(u, pending + more)
  {
    forall p | p in u.dirs && !u.Watched(p)
      ensures Traversed(pending + more, p)
    {
      if p in t.dirs {
        assert Traversed(pending, p);
        var f :| f in pending && f <= p;
        assert f in pending + more;
      }
    }
  }

  // What lies below p/n is foreseen: by the event about it, or with p.
  lemma TraversedBelow(t: Tree, pending: set<Path>, p: Path, n: Name, q: Path)
    requires Foreseen(t, pending) && p in t.dirs && p + [n] <= q
    ensures Traversed(pending + if t.Watched(p) then {p + [n]} else {}, q)
  {
    if t.Watched(p) {
      assert p + [n] in pending + {p + [n]};
    } else {
      assert Traversed(pending, p);
      var f :| f in pending && f <= p;
      assert f in pending + {} && f <= q;
    }
  }

  // ---------- a directory is removed ----------

  lemma RmdirLive(t: Tree, d: Path)
    requires t.OneToOne() && d in t.dirs
    ensures forall p :: t.Rmdir(d).Watched(p) <==> t.Watched(p) && p != d
    ensures forall p | t.Watched(p) && p != d :: t.Rmdir(d).WdOf(p) == t.WdOf(p)
    ensures forall w :: t.Rmdir(d).LiveWd(w) <==> t.LiveWd(w) && !(t.Watched(d) && t.WdOf(d) == w)
  {
    var u := t.Rmdir(d);
    forall w | t.LiveWd(w) && !(t.Watched(d) && t.WdOf(d) == w)
      ensures u.LiveWd(w)
    {
      var p :| t.Watched(p) && t.WdOf(p) == w;
      assert u.Watched(p) && u.WdOf(p) == w;
    }
    forall w | u.LiveWd(w)
      ensures t.LiveWd(w) && !(t.Watched(d) && t.WdOf(d) == w)
    {
      var p :| u.Watched(p) && u.WdOf(p) == w;
      assert t.Watched(p) && t.WdOf(p) == w;
    }
  }

  lemma RmdirTracked(t: Tree, d: Path, c: Cache, zapped: set<Wd>)
    requires t.OneToOne() && d in t.dirs && Tracks(t, c) && Dead(t, zapped)
    ensures Tracks(t.Rmdir(d), Without(c, t, d)) && Dead(t.Rmdir(d), zapped)
  {
    var u := t.Rmdir(d);
    RmdirLive(t, d);
    forall w | w in zapped
      ensures w in u.watch.Values
    {
      var i :| i in t.watch && t.watch[i] == w;
      assert t.Watched(d) ==> t.LiveWd(t.WdOf(d));
      assert i in u.watch && u.watch[i] == w;
    }
  }

  /** rmdir: its IN_DELETE_SELF takes the entry of the directory out of the cache. */
  lemma RmdirConsistent(s: State, d: Path)
    requires s.k.Valid() && Consistent(s) && d in s.k.tree.dirs
    ensures var s' := s.(k := s.k.Rmdir(d));
      && Consistent(s') && PendingOf(s') == PendingOf(s) && OvertakenOf(s') == OvertakenOf(s)
      && FinalOf(s') == Without(FinalOf(s), s.k.tree, d)
  {
    var t, s' := s.k.tree, s.(k := s.k.Rmdir(d));
    var c, o := FinalOf(s), OvertakenOf(s);
    assert Separate(s.k.queue, t.Gone(d)) && t.OneToOne();
    GoneEffect(t, c, d);
    RmdirTracked(t, d, c, ZappedOf(s));
    RmdirClear(t, d, o);
    assert ZappedOf(s) + {} == ZappedOf(s) && Pairs(PendingOf(s), {}) == {} && o + {} == o;
    hide RootedDirs, ReplayOK, Final, Pending, Sources, Zapped, Overtaken, Separate, Effect, Tracks, Dead, Clear, Tree.Gone,
         Tree.OneToOne, QueueValid, Without;
    Append(s, s', t.Gone(d), Without(c, t, d), {}, {}, {});
  }

  lemma RmdirClear(t: Tree, d: Path, o: set<(Path, Path)>)
    requires t.OneToOne() && d in t.dirs && Clear(t, o)
    ensures Clear(t.Rmdir(d), o)
  {
    RmdirLive(t, d);
  }
}
