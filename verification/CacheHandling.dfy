/** The program's own step: handling one event, or rebuilding the cache from scratch. */
module CacheHandling {
  import opened Paths
  import opened DirTree
  import opened CacheProtocol
  import opened CacheReplay
  import opened CacheConvergence

  ghost predicate Bounded(s: State) {
    forall w | w in s.cache :: w < s.k.nextWd
  }

  lemma {:induction false} WalkValid(s: State, order: seq<Path>)
    requires s.k.Valid() && Bounded(s)
    ensures var t := Walk(s, order);
      && t.k.Valid() && Bounded(t) && t.k.queue == s.k.queue
      && t.k.tree.dirs == s.k.tree.dirs && t.k.tree.roots == s.k.tree.roots
    decreases |order|
  {
    if order != [] {
      VisitValid(s, order[0]);
      hide Visit;
      WalkValid(Visit(s, order[0]), order[1..]);
    }
  }

  lemma VisitValid(s: State, p: Path)
    requires s.k.Valid() && Bounded(s)
    ensures var t := Visit(s, p);
      && t.k.Valid() && Bounded(t) && t.k.queue == s.k.queue
      && t.k.tree.dirs == s.k.tree.dirs && t.k.tree.roots == s.k.tree.roots
  {
    hide RootedDirs;
  }

  /** reinitialize(): the cache is exactly the tree again. */
  lemma RebuildSynced(k: Kernel, order: seq<Path>)
    requires k.Valid() && forall p :: p in order <==> p in k.tree.dirs
    ensures Inv(Rebuild(k, order)) && Synced(Rebuild(k, order)) && Rebuild(k, order).k.queue == []
  {
    var s := State(Fresh(k), map[]);
    var t := Rebuild(k, order);
    assert s.k.Valid() && Walkable(s) && Ready(s);
    WalkValid(s, order);
    WalkEffect(s, order);
    hide Walk, RootedDirs;
    assert Extends(s, t) && Ready(t);
    AllTracked(s, t);
  }

  lemma AllTracked(s: State, t: State)
    requires Extends(s, t) && Ready(t) && s.cache == map[] && t.k.Valid() && t.k.queue == []
    requires forall p | p in t.k.tree.dirs :: t.k.tree.Watched(p)
    ensures Inv(t) && Synced(t)
  {
    TracksAll(s, t);
    NothingQueued(t.cache);
    hide RootedDirs, Tree.OneToOne, QueueValid, Tracks, Extends;
    NothingTrapped(t.k.tree);
  }

  lemma TracksAll(s: State, t: State)
    requires Extends(s, t) && Ready(t) && s.cache == map[]
    ensures Tracks(t.k.tree, t.cache)
  {
    hide RootedDirs;
    forall w | w in t.cache
      ensures t.k.tree.LiveWd(w)
    {
      assert t.k.tree.Watched(t.cache[w]) && t.k.tree.WdOf(t.cache[w]) == w;
    }
  }

  lemma NothingQueued(c: Cache)
    ensures ReplayOK(c, []) && Final(c, []) == c && Overtaken(c, []) == {} && Zapped(c, []) == {}
  {
  }

  lemma NothingTrapped(t: Tree)
    ensures Clear(t, {})
  {
    var none: set<(Path, Path)> := {};
    assert forall p :: !Trapped(none, p);
  }

  // ---------- what handling the head finds ----------

  /** Without overflow the program never meets an unknown descriptor or a failing watch removal. */
  lemma NoRebuild(s: State)
    requires Consistent(s) && s.k.queue != []
    ensures !MustRebuild(s) && Replayable(s.cache, s.k.queue)
  {
    assert DroppedHere(s.cache, s.k.queue) <= Zapped(s.cache, s.k.queue);
    hide Tracks, Clear, Loggable;
  }

  // ---------- an event handled without looking at the tree ----------

  // Removing watches of directories that are not live.
  lemma UnwatchLive(t: Tree, wds: set<Wd>)
    requires forall w | w in wds :: !t.LiveWd(w)
    ensures var u := Unwatch(t, wds);
      && (forall p :: u.Watched(p) <==> t.Watched(p))
      && (forall p | t.Watched(p) :: u.WdOf(p) == t.WdOf(p))
      && (forall w :: u.LiveWd(w) <==> t.LiveWd(w))
  {
    var u := Unwatch(t, wds);
    forall p | t.Watched(p)
      ensures u.Watched(p) && u.WdOf(p) == t.WdOf(p)
    {
      assert t.LiveWd(t.WdOf(p));
    }
    SameLive(t, u);
  }

  lemma SameLive(t: Tree, u: Tree)
    requires forall p :: u.Watched(p) <==> t.Watched(p)
    requires forall p | t.Watched(p) :: u.WdOf(p) == t.WdOf(p)
    ensures forall w :: u.LiveWd(w) <==> t.LiveWd(w)
  {
    forall w | t.LiveWd(w)
      ensures u.LiveWd(w)
    {
      var p :| t.Watched(p) && t.WdOf(p) == w;
      assert u.Watched(p) && u.WdOf(p) == w;
    }
    forall w | u.LiveWd(w)
      ensures t.LiveWd(w)
    {
      var p :| u.Watched(p) && u.WdOf(p) == w;
      assert t.Watched(p) && t.WdOf(p) == w;
    }
  }

  lemma {:induction false} IgnoredsReplay(c: Cache, wds: seq<Wd>)
    ensures var q := Ignoreds(wds);
      && ReplayOK(c, q) && Final(c, q) == c && Pending(c, q) == {}
      && Sources(c, q) == {} && Zapped(c, q) == {} && Overtaken(c, q) == {}
    decreases |wds|
  {
    var q := Ignoreds(wds);
    if wds != [] {
      assert q[0] == Ignored(wds[0]) && q[1..] == Ignoreds(wds[1..]);
      assert c - {} == c;
      assert Replayable(c, q) && Next(c, q) == (c, Ignoreds(wds[1..]));
      IgnoredsReplay(c, wds[1..]);
      assert Pairs({}, Sources(c, q[1..])) == {};
    }
  }

  lemma AppendIgnoreds(c: Cache, q: seq<Event>, wds: seq<Wd>)
    requires ReplayOK(c, q)
    ensures var r := q + Ignoreds(wds);
      && ReplayOK(c, r) && Final(c, r) == Final(c, q) && Pending(c, r) == Pending(c, q)
      && Zapped(c, r) == Zapped(c, q) && Overtaken(c, r) == Overtaken(c, q)
  {
    IgnoredsReplay(Final(c, q), wds);
    assert Separate(q, Ignoreds(wds));
    hide ReplayOK, Final, Pending, Sources, Zapped, Overtaken;
    Split(c, q, Ignoreds(wds));
    assert Pairs(Pending(c, q), {}) == {};
  }

  lemma HandleLogged(s: State, order: seq<Path>, removed: seq<Wd>)
    requires Consistent(s) && s.k.queue != [] && !IsAnnounce(s.k.queue[0]) && Choice(s, order, removed)
    ensures Consistent(Process(s, order, removed))
    ensures var s' := Process(s, order, removed);
      Foreseen(s'.k.tree, Pending(s'.cache, s'.k.queue)) <==> Foreseen(s.k.tree, Pending(s.cache, s.k.queue))
  {
    NoRebuild(s);
    var q, t := s.k.queue, s.k.tree;
    var (c, rest) := Advance(s.cache, q);
    var gone := Dropped(s.cache, q);
    assert Process(s, order, removed) == State(s.k.(tree := Unwatch(t, gone), queue := rest + Ignoreds(removed)), c);
    LoggedHead(s.cache, q);
    hide Process, Choice, MustRebuild, Advance, Loggable, Dropped, Replayable, Next, Unwatch;
    AppendIgnoreds(c, rest, removed);
    FinalKeys(c, rest);
    UnwatchLive(t, gone);
    UnwatchKeeps(t, gone, Final(c, rest), Pending(c, rest), Overtaken(c, rest), Zapped(c, rest));
  }

  lemma LoggedHead(c: Cache, q: seq<Event>)
    requires ReplayOK(c, q) && q != [] && !IsAnnounce(q[0]) && Loggable(c, q)
    ensures var (c1, q1) := Advance(c, q);
      && ReplayOK(c1, q1) && Final(c, q) == Final(c1, q1) && Pending(c, q) == Pending(c1, q1)
      && Zapped(c, q) == Dropped(c, q) + Zapped(c1, q1) && Overtaken(c, q) == Overtaken(c1, q1)
      && Dropped(c, q) !! Zapped(c1, q1)
  {
    var (c1, q1) := Advance(c, q);
    FinalKeys(c1, q1);
    assert Next(c, q) == (c1, q1) && Announced(c, q) == {};
    assert Pairs({}, Sources(c1, q1)) == {};
  }

  lemma UnwatchKeeps(t: Tree, gone: set<Wd>, c: Cache, pending: set<Path>, o: set<(Path, Path)>, zapped: set<Wd>)
    requires Tracks(t, c) && Clear(t, o) && Dead(t, gone + zapped) && gone !! zapped
    ensures var u := Unwatch(t, gone);
      Tracks(u, c) && Clear(u, o) && Dead(u, zapped) && (Foreseen(u, pending) <==> Foreseen(t, pending))
  {
    var u := Unwatch(t, gone);
    UnwatchLive(t, gone);
    forall w | w in zapped
      ensures w in u.watch.Values
    {
      var i :| i in t.watch && t.watch[i] == w;
      assert i in u.watch && u.watch[i] == w;
    }
    hide Unwatch, Tree.LiveWd;
  }

  // ---------- an announcement ----------

  lemma AnnouncedHead(c: Cache, q: seq<Event>)
    requires ReplayOK(c, q) && q != [] && IsAnnounce(q[0])
    ensures q[0].wd in c && ReplayOK(c, q[1..]) && Final(c, q) == Final(c, q[1..])
    ensures Pending(c, q) == Announced(c, q) + Pending(c, q[1..]) && Zapped(c, q) == Zapped(c, q[1..])
    ensures Overtaken(c, q) == Pairs(Announced(c, q), Sources(c, q[1..])) + Overtaken(c, q[1..])
  {
  }

  // Its pathname is cached: nothing happens.
  lemma HandleKnown(s: State, order: seq<Path>, removed: seq<Wd>)
    requires Consistent(s) && s.k.queue != [] && IsAnnounce(s.k.queue[0]) && s.k.queue[0].wd in s.cache
    requires s.cache[s.k.queue[0].wd] + [s.k.queue[0].name] in s.cache.Values
    ensures var s' := Process(s, order, removed);
      && s' == s.(k := s.k.(queue := s.k.queue[1..])) && Consistent(s')
      && Pending(s'.cache, s'.k.queue) == Pending(s.cache, s.k.queue)
  {
    var s' := s.(k := s.k.(queue := s.k.queue[1..]));
    assert Process(s, order, removed) == s';
    KnownHead(s.cache, s.k.queue);
    hide Process, ReplayOK, Final, Pending, Zapped, Overtaken, Tracks, Clear, Dead;
  }

  lemma KnownHead(c: Cache, q: seq<Event>)
    requires ReplayOK(c, q) && q != [] && IsAnnounce(q[0]) && q[0].wd in c && c[q[0].wd] + [q[0].name] in c.Values
    ensures ReplayOK(c, q[1..]) && Final(c, q) == Final(c, q[1..]) && Pending(c, q) == Pending(c, q[1..])
    ensures Zapped(c, q) == Zapped(c, q[1..]) && Overtaken(c, q) == Overtaken(c, q[1..])
  {
    AnnouncedHead(c, q);
    assert Announced(c, q) == {};
    assert Pairs({}, Sources(c, q[1..])) == {};
  }

  lemma ConsistentWalks(s: State)
    requires Consistent(s) && s.k.Valid() && Bounded(s)
    ensures Walkable(s)
  {
    FinalKeys(s.cache, s.k.queue);
    hide RootedDirs, ReplayOK, Final, Zapped, Overtaken, Clear;
  }

  // Otherwise the directories at or below f are watched, and their entries stay where they are.
  lemma HandleFound(s: State, f: Path, order: seq<Path>, removed: seq<Wd>)
    requires Consistent(s) && s.k.Valid() && Bounded(s) && s.k.queue != [] && IsAnnounce(s.k.queue[0])
    requires s.k.queue[0].wd in s.cache && f == s.cache[s.k.queue[0].wd] + [s.k.queue[0].name] && f !in s.cache.Values
    requires Choice(s, order, removed)
    ensures var s' := Process(s, order, removed);
      && Consistent(s')
      && (Foreseen(s'.k.tree, Pending(s'.cache, s'.k.queue)) <==> Foreseen(s.k.tree, Pending(s.cache, s.k.queue)))
      && (forall p | p in s.k.tree.dirs :: s'.k.tree.Watched(p) <==> s.k.tree.Watched(p) || f <= p)
  {
    var q, t := s.k.queue, s.k.tree;
    var popped := State(s.k.(queue := q[1..]), s.cache);
    var s' := Walk(popped, order);
    assert s' == Process(s, order, removed);
    assert forall p :: p in order <==> p in t.dirs && f <= p;
    ConsistentWalks(s);
    assert Walkable(popped);
    WalkEffect(popped, order);
    NewEntries(popped, s');
    AnnouncedHead(s.cache, q);
    assert Announced(s.cache, q) == {f};
    var u, n := s'.k.tree, New(s.cache, s'.cache);
    var c, r := s.cache, q[1..];
    assert Extends(popped, s') && s'.k.queue == r && u.dirs == t.dirs && u.roots == t.roots;
    assert forall p | p in n.Values :: p in t.dirs && f <= p && !t.Watched(p);
    hide Process, Choice, Walk, ReplayOK, Final, Pending, Zapped, Overtaken, Sources, Announced, RootedDirs;
    UntouchedNew(t, n, f, Sources(c, r), Overtaken(c, r));
    Added(c, n, r);
    FinalKeys(c, r);
    WalkTracks(popped, s', Final(c, r), n, Zapped(c, r));
    ClearGrows(t, u, Pairs({f}, Sources(c, r)) + Overtaken(c, r), Overtaken(c + n, r));
    ForeseenFound(t, u, f, n.Values, Pending(c, r));
  }

  lemma UntouchedNew(t: Tree, n: Cache, f: Path, sources: set<Path>, o: set<(Path, Path)>)
    requires Clear(t, Pairs({f}, sources) + o) && forall p | p in n.Values :: p in t.dirs && f <= p && !t.Watched(p)
    ensures Untouched(n, sources)
  {
    forall w, src | w in n && src in sources
      ensures !(src <= n[w])
    {
      var p := n[w];
      assert p in n.Values;
      if src <= p {
        assert (f, src) in Pairs({f}, sources) + o;
        assert Trapped(Pairs({f}, sources) + o, p);
      }
    }
  }

  lemma WalkTracks(s: State, s': State, c: Cache, n: Cache, zapped: set<Wd>)
    requires Walkable(s) && Walkable(s') && Extends(s, s') && n == New(s.cache, s'.cache)
    requires Tracks(s.k.tree, c) && Dead(s.k.tree, zapped) && c.Keys <= s.cache.Keys && zapped <= s.cache.Keys
    ensures Tracks(s'.k.tree, c + n) && Dead(s'.k.tree, zapped)
  {
    var t, u := s.k.tree, s'.k.tree;
    assert u.dirs == t.dirs;
    forall p | u.Watched(p)
      ensures u.WdOf(p) in c + n && (c + n)[u.WdOf(p)] == p
    {
      if t.Watched(p) {
        assert u.WdOf(p) == t.WdOf(p);
      } else {
        NewEntry(s, s', p);
      }
    }
    forall w | w in c + n
      ensures u.LiveWd(w)
    {
      if w in n {
        assert u.Watched(n[w]) && u.WdOf(n[w]) == w;
      } else {
        var p :| t.Watched(p) && t.WdOf(p) == w;
        assert u.Watched(p) && u.WdOf(p) == w;
      }
    }
    WalkDead(s, s', zapped);
  }

  lemma WalkDead(s: State, s': State, zapped: set<Wd>)
    requires Walkable(s) && Extends(s, s') && Dead(s.k.tree, zapped) && zapped <= s.cache.Keys
    ensures Dead(s'.k.tree, zapped)
  {
    var t, u := s.k.tree, s'.k.tree;
    forall w | w in zapped
      ensures w in u.watch.Values && !u.LiveWd(w)
    {
      var i :| i in t.watch && t.watch[i] == w;
      assert u.watch[i] == w;
      forall p | u.Watched(p)
        ensures u.WdOf(p) != w
      {
        if t.Watched(p) { assert t.LiveWd(t.WdOf(p)); }
      }
    }
  }

  lemma ClearGrows(t: Tree, u: Tree, o: set<(Path, Path)>, o': set<(Path, Path)>)
    requires Clear(t, o) && o' <= o && u.dirs == t.dirs && forall p | t.Watched(p) :: u.Watched(p)
    ensures Clear(u, o')
  {
    assert forall p | Trapped(o', p) :: Trapped(o, p);
  }

  lemma ForeseenFound(t: Tree, u: Tree, f: Path, found: set<Path>, pending: set<Path>)
    requires u.dirs == t.dirs && forall p | p in found :: f <= p
    requires forall p | p in t.dirs :: u.Watched(p) <==> t.Watched(p) || f <= p
    ensures Foreseen(u, pending - found) <==> Foreseen(t, {f} + pending)
  {
    if Foreseen(u, pending - found) {
      forall p | p in t.dirs && !t.Watched(p)
        ensures Traversed({f} + pending, p)
      {
        if f <= p {
          assert f in {f} + pending;
        } else {
          assert Traversed(pending - found, p);
          var g :| g in pending - found && g <= p;
          assert g in {f} + pending;
        }
      }
    }
    if Foreseen(t, {f} + pending) {
      forall p | p in u.dirs && !u.Watched(p)
        ensures Traversed(pending - found, p)
      {
        assert Traversed({f} + pending, p);
        var g :| g in {f} + pending && g <= p;
        assert g in found ==> f <= p;
        assert g in pending - found;
      }
    }
  }

  // ---------- any event ----------

  /** Handling an event keeps the state consistent, and neither finds a directory that was not foreseen
      nor misses one that was. */
  lemma HandleConsistent(s: State, order: seq<Path>, removed: seq<Wd>)
    requires Consistent(s) && s.k.Valid() && Bounded(s) && s.k.queue != [] && Choice(s, order, removed)
    ensures var s' := Process(s, order, removed);
      && Consistent(s')
      && (Foreseen(s'.k.tree, PendingOf(s')) <==> Foreseen(s.k.tree, PendingOf(s)))
  {
    NoRebuild(s);
    var e := s.k.queue[0];
    hide Consistent, Process, Choice, Foreseen, MustRebuild, Loggable;
    if !IsAnnounce(e) {
      HandleLogged(s, order, removed);
    } else if s.cache[e.wd] + [e.name] in s.cache.Values {
      HandleKnown(s, order, removed);
    } else {
      HandleFound(s, s.cache[e.wd] + [e.name], order, removed);
    }
  }
}
