/** Concrete runs that leave the cache wrong. */
module CacheExamples {
  import opened Paths
  import opened DirTree
  import opened TreeChanges
  import opened CacheProtocol
  import opened CacheHandling
  import opened CacheSanity
  import opened CacheLimits
  import opened CacheRaces

  const R: Path := ["r"]
  const X: Path := ["r", "x"]
  const Y: Path := ["r", "y"]
  const XZ: Path := ["r", "x", "z"]
  const YZ: Path := ["r", "y", "z"]

  function At(dirs: map<Path, Ino>, watch: map<Ino, Wd>, nextWd: Wd, nextCookie: nat, queue: seq<Event>, cache: Cache): State {
    State(Kernel(Tree({"r"}, dirs, watch), nextWd, nextCookie, queue), cache)
  }

  // Everything at or below src, and the new parent, is watched.
  predicate AllWatched(t: Tree, src: Path, dst: Path) {
    && (forall p | p in t.dirs && src <= p :: t.Watched(p))
    && dst != [] && t.Watched(Parent(dst))
  }

  lemma Names()
    ensures R + ["x"] == X && R + ["y"] == Y && X + ["z"] == XZ && Y + ["z"] == YZ
    ensures Parent(X) == R && Parent(Y) == R && Parent(XZ) == X && Last(X) == "x" && Last(Y) == "y"
    ensures R <= X && R <= XZ && X <= XZ && !(X <= R) && !(X <= Y) && !(Y <= R) && !(Y <= X) && !(XZ <= R) && !(XZ <= X)
    ensures !(X <= YZ) && !(Y <= XZ)
    ensures R != X && R != Y && X != Y && XZ != R && XZ != X && XZ != Y && YZ != XZ && YZ != X && YZ != Y && YZ != R
    ensures ValidName("x") && ValidName("y") && ValidName("z")
  {
    assert X[1] == "x" && Y[1] == "y" && "x"[0] != "y"[0];
    assert |R| == 1 && |X| == 2 && |Y| == 2 && |XZ| == 3 && |YZ| == 3;
    assert XZ[1] == "x" && YZ[1] == "y";
  }

  function Before(): State {
    At(map[R := 0, X := 1], map[0 := 1, 1 := 2], 3, 0, [], map[1 := R, 2 := X])
  }

  lemma BeforeRooted()
    ensures Before().k.tree.Rooted()
  {
    Names();
    var dirs := Before().k.tree.dirs;
    assert dirs.Keys == {R, X};
    assert ParentLive(dirs, R) && ParentLive(dirs, X);
    assert ValidPath({"r"}, R) && ValidPath({"r"}, X);
  }

  lemma BeforeSynced()
    ensures Sane(Before()) && Synced(Before()) && Before().k.queue == []
  {
    BeforeRooted();
    BeforeMaps();
    hide RootedDirs;
  }

  lemma BeforeMaps()
    ensures Before().k.tree.OneToOne() && Bounded(Before()) && Synced(Before())
  {
    Names();
    var dirs := Before().k.tree.dirs;
    assert dirs.Keys == {R, X};
    assert dirs[R] == 0 && dirs[X] == 1;
  }

  function Created(): State {
    At(map[R := 0, X := 1, XZ := 2], map[0 := 1, 1 := 2], 3, 0, [Create(2, "z")], map[1 := R, 2 := X])
  }

  lemma ThenCreated()
    ensures Before().k.tree.CanMkdir(X, "z", 2) && Before().(k := Before().k.Mkdir(X, "z", 2, false)) == Created()
  {
    Names();
    assert Before().k.tree.Watched(X) && Before().k.tree.WdOf(X) == 2;
  }

  function Stale(): State {
    At(map[R := 0, X := 1], map[0 := 1, 1 := 2], 3, 0, [Create(2, "z")], map[1 := R, 2 := X])
  }

  lemma ThenStale()
    ensures Created().k.tree.CanRmdir(XZ) && Created().(k := Created().k.Rmdir(XZ)) == Stale()
  {
    Names();
    var t := Created().k.tree;
    assert t.dirs.Keys == {R, X, XZ};
    assert t.Rmdir(XZ).dirs == map[R := 0, X := 1] && t.Rmdir(XZ).watch == map[0 := 1, 1 := 2];
  }

  function Renamed(): State {
    At(map[R := 0, Y := 1], map[0 := 1, 1 := 2], 3, 1,
       [Create(2, "z"), MovedFrom(1, "x", 0), MovedTo(1, "y", 0)], map[1 := R, 2 := X])
  }

  lemma ThenRenamed()
    requires Stale().k.Valid()
    ensures Stale().k.tree.CanRename(X, Y) && AllWatched(Stale().k.tree, X, Y)
    ensures Stale().(k := Stale().k.Rename(X, Y)) == Renamed()
  {
    hide RootedDirs, Tree.OneToOne, QueueValid, Tree.CanRename, Tree.Rename, Tree.Left, Tree.Arrived, Tree.Gone, AllWatched;
    RenamedTree();
    RenamedEvents();
  }

  lemma RenamedEvents()
    ensures var t := Stale().k.tree;
      && Parent(X) == R && Parent(Y) == R
      && t.Left(R, Last(X), 0) == [MovedFrom(1, "x", 0)] && t.Arrived(R, Last(Y), 0) == [MovedTo(1, "y", 0)]
      && t.Gone(Y) == []
  {
    Names();
    var t := Stale().k.tree;
    assert t.Watched(R) && t.WdOf(R) == 1 && Y !in t.dirs;
  }

  lemma RenamedTree()
    requires Stale().k.Valid()
    ensures Stale().k.tree.CanRename(X, Y) && AllWatched(Stale().k.tree, X, Y)
    ensures Stale().k.tree.Rename(X, Y) == Renamed().k.tree
  {
    Names();
    var t := Stale().k.tree;
    hide RootedDirs, Tree.OneToOne;
    assert t.dirs.Keys == {R, X};
    assert t.CanRename(X, Y) && AllWatched(t, X, Y);
    t.TargetEmpty(X, Y);
    RebasedOne(t.dirs);
  }

  lemma RebasedOne(dirs: map<Path, Ino>)
    requires dirs == map[R := 0, X := 1] && forall p | p in dirs && p != Y :: !(Y <= p)
    ensures Rebased(dirs, X, Y) == map[R := 0, Y := 1]
  {
    Names();
    assert Rebase(X, Y, X) == Y + [] == Y && Rebase(X, Y, R) == R;
    assert forall p | p in dirs :: p == R || p == X;
    assert R in dirs && X in dirs;
  }

  function Again(): State {
    At(map[R := 0, Y := 1, X := 3, XZ := 4], map[0 := 1, 1 := 2], 3, 1,
       [Create(2, "z"), MovedFrom(1, "x", 0), MovedTo(1, "y", 0), Create(1, "x")], map[1 := R, 2 := X])
  }

  lemma ThenAgain()
    ensures Renamed().k.tree.CanMkdir(R, "x", 3)
    ensures var k := Renamed().k.Mkdir(R, "x", 3, false);
      k.tree.CanMkdir(X, "z", 4) && Renamed().(k := k.Mkdir(X, "z", 4, false)) == Again()
  {
    Names();
    var t := Renamed().k.tree;
    assert t.Watched(R) && t.WdOf(R) == 1;
    var u := t.Mkdir(X, 3);
    assert u.dirs == map[R := 0, Y := 1, X := 3] && !u.Watched(X);
  }

  // The directory made again is found, by its old announcement, under its own name ...
  function Found(): State {
    At(map[R := 0, Y := 1, X := 3, XZ := 4], map[0 := 1, 1 := 2, 4 := 3], 4, 1,
       [MovedFrom(1, "x", 0), MovedTo(1, "y", 0), Create(1, "x")], map[1 := R, 2 := X, 3 := XZ])
  }

  lemma ThenFound()
    ensures Again().k.queue != [] && Choice(Again(), [XZ], []) && Process(Again(), [XZ], []) == Found()
  {
    Names();
    var s := Again();
    assert !MustRebuild(s) && s.cache[2] + ["z"] == XZ && XZ !in s.cache.Values;
    assert forall p :: p in [XZ] <==> p in s.k.tree.dirs && XZ <= p;
    var popped := State(s.k.(queue := s.k.queue[1..]), s.cache);
    assert Visit(popped, XZ) == Found();
    assert [XZ][1..] == [] && Walk(Found(), []) == Found();
  }

  // ... which the rename, made before, then changes.
  function Misplaced(): State {
    At(map[R := 0, Y := 1, X := 3, XZ := 4], map[0 := 1, 1 := 2, 4 := 3], 4, 1,
       [Create(1, "x")], map[1 := R, 2 := Y, 3 := YZ])
  }

  lemma ThenMisplaced()
    ensures Found().k.queue != [] && Choice(Found(), [], []) && Process(Found(), [], []) == Misplaced()
  {
    Names();
    var s := Found();
    assert Paired(s.k.queue) && Loggable(s.cache, s.k.queue);
    assert Rebase(X, Y, R) == R && Rebase(X, Y, X) == Y + [] == Y && Rebase(X, Y, XZ) == Y + ["z"] == YZ;
    assert Rewrite(s.cache, X, Y) == map[1 := R, 2 := Y, 3 := YZ];
    assert Unwatch(s.k.tree, {}).watch == s.k.tree.watch;
    assert s.k.queue[2..] == [Create(1, "x")] && |Ignoreds([])| == 0;
  }

  function Wrong(): State {
    At(map[R := 0, Y := 1, X := 3, XZ := 4], map[0 := 1, 1 := 2, 4 := 3, 3 := 4], 5, 1, [],
       map[1 := R, 2 := Y, 3 := YZ, 4 := X])
  }

  lemma ThenWrong()
    ensures Misplaced().k.queue != [] && Choice(Misplaced(), [X, XZ], []) && Process(Misplaced(), [X, XZ], []) == Wrong()
  {
    Names();
    var s := Misplaced();
    assert !MustRebuild(s) && s.cache[1] + ["x"] == X && X !in s.cache.Values;
    assert forall p :: p in [X, XZ] <==> p in s.k.tree.dirs && X <= p;
    var popped := State(s.k.(queue := s.k.queue[1..]), s.cache);
    assert Visit(popped, X) == Wrong();
    assert Visit(Wrong(), XZ) == Wrong();
    assert [X, XZ][1..] == [XZ] && [XZ][1..] == [];
    assert Walk(popped, [X, XZ]) == Walk(Visit(popped, X), [XZ]);
    assert Walk(Wrong(), [XZ]) == Walk(Visit(Wrong(), XZ), []);
    assert Walk(Wrong(), []) == Wrong();
  }

  /** From a synchronised cache: mkdir r/x/z, rmdir r/x/z, rename r/x to r/y, mkdir r/x, mkdir r/x/z.
      Everything below r/x, and r, is watched when it is renamed; yet in the end the cache has r/x/z as
      r/y/z. The IN_CREATE of a directory that has gone again is enough to spoil a rename. */
  lemma StaleAnnouncementSpoilsRename() returns (s: State, stale: State, t: State)
    ensures Sane(s) && s.k.queue == [] && Synced(s)
    ensures s.k.tree.CanMkdir(X, "z", 2) && s.k.Mkdir(X, "z", 2, false).tree.CanRmdir(XZ)
    ensures stale == s.(k := s.k.Mkdir(X, "z", 2, false).Rmdir(XZ)) && Sane(stale)
    ensures AllWatched(stale.k.tree, X, Y) && stale.k.tree.CanRename(X, Y)
    ensures var k := stale.k.Rename(X, Y);
      && k.tree.CanMkdir(R, "x", 3) && k.Mkdir(R, "x", 3, false).tree.CanMkdir(X, "z", 4)
      && Drains(stale.(k := k.Mkdir(R, "x", 3, false).Mkdir(X, "z", 4, false)), t, 3)
    ensures t.k.tree.dirs == map[R := 0, Y := 1, X := 3, XZ := 4]
    ensures t.cache == map[1 := R, 2 := Y, 3 := YZ, 4 := X] && !Synced(t)
  {
    hide *;
    s, stale, t := Before(), Stale(), Wrong();
    BeforeSynced();
    ThenCreated();
    MkdirSane(s, X, "z", 2, false);
    ThenStale();
    RmdirSane(Created(), XZ);
    StaleValid();
    ThenRenamed();
    ThenAgain();
    Draining();
    WrongIs();
  }

  lemma StaleValid()
    requires Sane(Stale())
    ensures Stale().k.Valid() && Stale().k.tree.Rooted()
  {
    hide RootedDirs, Tree.OneToOne, QueueValid;
  }

  lemma WrongIs()
    ensures var t := Wrong();
      && t.k.tree.dirs == map[R := 0, Y := 1, X := 3, XZ := 4]
      && t.cache == map[1 := R, 2 := Y, 3 := YZ, 4 := X] && !Synced(t)
  {
    Names();
    assert Wrong().cache[3] == YZ && YZ !in Wrong().k.tree.dirs;
  }

  lemma Draining()
    ensures Drains(Again(), Wrong(), 3)
  {
    ThenFound();
    ThenMisplaced();
    ThenWrong();
    assert Wrong().k.queue == [];
    hide *;
    NothingToDrain(Wrong());
    HandledThen(Misplaced(), [X, XZ], [], Wrong(), 0);
    HandledThen(Found(), [], [], Wrong(), 1);
    HandledThen(Again(), [XZ], [], Wrong(), 2);
  }

  // ---------- a rename that overtakes the announcement of what it moves ----------

  lemma OneDirectory() returns (s: State)
    ensures s.k.tree == Tree({"r"}, map[R := 0], map[0 := 1]) && s.k.queue == [] && s.cache == map[1 := R]
    ensures Inv(s)
  {
    var k := Kernel(Tree({"r"}, map[R := 0], map[]), 0, 0, []);
    assert ParentLive(k.tree.dirs, R);
    assert k.Valid();
    RebuildSynced(k, [R]);
    s := Rebuild(k, [R]);
    assert [R][1..] == [];
    var v := Visit(State(Fresh(k), map[]), R);
    assert Walk(v, []) == v;
    assert s == v;
  }

  function Small(dirs: map<Path, Ino>, s: State, queue: seq<Event>, cookie: nat): State {
    State(Kernel(Tree({"r"}, dirs, map[0 := 1]), s.k.nextWd, cookie, queue), map[1 := R])
  }

  lemma ThenRaced(s: State, c: nat)
    requires s.k.Valid() && s == Small(map[R := 0], s, [], c)
    ensures s.k.tree.CanMkdir(R, "x", 1) && s.k.tree.Mkdir(R + ["x"], 1).CanRename(X, Y)
    ensures Raced(s, R, "x", 1, X, Y)
         == Small(map[R := 0, Y := 1], s, [Create(1, "x"), MovedFrom(1, "x", c), MovedTo(1, "y", c)], c + 1)
  {
    hide RootedDirs, Rebased, Tree.CanRename, Tree.CanMkdir, Tree.OneToOne, QueueValid, Tree.Left, Tree.Arrived, Tree.Gone,
         Tree.Created, Tree.Rename, Tree.Mkdir, ValidName;
    RacedTree(s);
    RacedEvents(s);
    Names();
    RacedRooted(s);
    var k1 := s.k.Mkdir(R, "x", 1, false);
    assert k1 == Kernel(s.k.tree.Mkdir(X, 1), s.k.nextWd, c, [Create(1, "x")]);
    var pair := [MovedFrom(1, "x", c)] + [MovedTo(1, "y", c)] + [];
    assert [Create(1, "x")] + pair == [Create(1, "x"), MovedFrom(1, "x", c), MovedTo(1, "y", c)];
    assert k1.Rename(X, Y).queue == [Create(1, "x")] + pair;
  }

  lemma RacedRooted(s: State)
    requires s.k.Valid() && s.k.tree.CanMkdir(R, "x", 1)
    ensures s.k.tree.Rooted() && s.k.tree.Mkdir(R + ["x"], 1).Rooted()
  {
    hide RootedDirs, Tree.CanMkdir, QueueValid;
    MkdirGrown(s.k.tree, R, "x", 1);
  }

  lemma RacedTree(s: State)
    requires s.k.tree == Tree({"r"}, map[R := 0], map[0 := 1]) && s.k.tree.Rooted()
    ensures var u := s.k.tree.Mkdir(X, 1);
      && s.k.tree.CanMkdir(R, "x", 1) && u.CanRename(X, Y)
      && (u.Rooted() ==> u.Rename(X, Y) == Tree({"r"}, map[R := 0, Y := 1], map[0 := 1]))
  {
    Names();
    var u := s.k.tree.Mkdir(X, 1);
    assert u.dirs == map[R := 0, X := 1] && u.dirs.Keys == {R, X};
    assert s.k.tree.CanMkdir(R, "x", 1) && u.CanRename(X, Y);
    hide RootedDirs;
    RebasedOne(u.dirs);
    hide Rebased;
  }

  lemma RacedEvents(s: State)
    requires s.k.tree == Tree({"r"}, map[R := 0], map[0 := 1])
    ensures var t, u := s.k.tree, s.k.tree.Mkdir(X, 1);
      && t.Created(R, "x") == [Create(1, "x")] && u.Left(R, "x", s.k.nextCookie) == [MovedFrom(1, "x", s.k.nextCookie)]
      && u.Arrived(R, "y", s.k.nextCookie) == [MovedTo(1, "y", s.k.nextCookie)] && u.Gone(Y) == []
  {
    Names();
    var t := s.k.tree;
    var u := t.Mkdir(X, 1);
    assert t.Watched(R) && t.WdOf(R) == 1 && u.Watched(R) && u.WdOf(R) == 1 && !u.Watched(Y);
  }

  lemma HandledRace(s: State, c: nat)
    requires s == Small(map[R := 0], s, [], c)
    ensures Drains(Small(map[R := 0, Y := 1], s, [Create(1, "x"), MovedFrom(1, "x", c), MovedTo(1, "y", c)], c + 1),
                   Small(map[R := 0, Y := 1], s, [], c + 1), 2)
  {
    var pair := [MovedFrom(1, "x", c), MovedTo(1, "y", c)];
    var s1 := Small(map[R := 0, Y := 1], s, [Create(1, "x")] + pair, c + 1);
    var s2, t := Small(map[R := 0, Y := 1], s, pair, c + 1), Small(map[R := 0, Y := 1], s, [], c + 1);
    HandledCreate(s1, s2, pair);
    HandledPair(s2, t, c);
    assert [Create(1, "x")] + pair == [Create(1, "x"), MovedFrom(1, "x", c), MovedTo(1, "y", c)];
    assert t.k.queue == [];
    hide *;
    NothingToDrain(t);
    HandledThen(s2, [], [], t, 0);
    HandledThen(s1, [], [], t, 1);
  }

  lemma HandledCreate(s1: State, s2: State, pair: seq<Event>)
    requires s1 == State(s2.k.(queue := [Create(1, "x")] + pair), map[1 := R]) && s2.k.queue == pair && s2.cache == map[1 := R]
    requires s2.k.tree.dirs == map[R := 0, Y := 1]
    ensures s1.k.queue != [] && Choice(s1, [], []) && Process(s1, [], []) == s2
  {
    Names();
    assert s1.k.queue[1..] == pair;
    assert s1.cache[1] + ["x"] == X && X !in s1.cache.Values;
    var none: seq<Path> := [];
    assert forall p :: p in none <==> p in s1.k.tree.dirs && X <= p;
  }

  lemma HandledPair(s2: State, t: State, c: nat)
    requires s2.k.queue == [MovedFrom(1, "x", c), MovedTo(1, "y", c)] && s2.cache == map[1 := R]
    requires t == s2.(k := s2.k.(queue := []))
    ensures s2.k.queue != [] && Choice(s2, [], []) && Process(s2, [], []) == t
  {
    Names();
    assert Rewrite(s2.cache, X, Y) == s2.cache;
    assert Unwatch(s2.k.tree, {}).watch == s2.k.tree.watch;
    assert s2.k.queue[2..] == [] && |Ignoreds([])| == 0;
  }

  /** mkdir r/x, then rename r/x to r/y, both before the IN_CREATE is handled: the directory r/y is
      in the tree, but not in the cache. */
  lemma RenameLosesDirectory() returns (s: State, t: State)
    ensures Inv(s) && s.k.Valid() && s.k.queue == [] && s.k.tree.CanMkdir(R, "x", 1)
    ensures s.k.tree.Mkdir(R + ["x"], 1).CanRename(X, Y) && Drains(Raced(s, R, "x", 1, X, Y), t, 2)
    ensures t.k.tree.dirs == map[R := 0, Y := 1] && t.cache == map[1 := R] && !Synced(t)
  {
    hide *;
    s := OneDirectory();
    t := Small(map[R := 0, Y := 1], s, [], s.k.nextCookie + 1);
    IsSmall(s);
    Unsynced(s, t, s.k.nextCookie + 1);
    ThenRaced(s, s.k.nextCookie);
    HandledRace(s, s.k.nextCookie);
  }

  lemma IsSmall(s: State)
    requires Inv(s) && s.k.tree == Tree({"r"}, map[R := 0], map[0 := 1]) && s.k.queue == [] && s.cache == map[1 := R]
    ensures s.k.Valid() && s == Small(map[R := 0], s, [], s.k.nextCookie)
  {
    hide Good, Kernel.Valid;
  }

  lemma Unsynced(s: State, t: State, c: nat)
    requires t == Small(map[R := 0, Y := 1], s, [], c)
    ensures t.k.tree.dirs == map[R := 0, Y := 1] && t.cache == map[1 := R] && !Synced(t)
  {
    assert Y in t.k.tree.dirs && !t.k.tree.Watched(Y);
  }
}
