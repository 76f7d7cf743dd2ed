/** inotify_dtree.c as a state machine: other processes change the tree, the program handles
    one event (or one matched rename pair) at a time. The cache is seen here as a map from
    watch descriptor to path; WatchCache implements it with the array of slots. */
module CacheProtocol {
  import opened Paths
  import opened DirTree

  type Cache = map<Wd, Path>

  datatype State = State(k: Kernel, cache: Cache)

  // ---------- what the program does ----------

  // traverseTree on one directory: inotify_add_watch, then cache a descriptor not cached yet.
  function Visit(s: State, p: Path): State {
    if p !in s.k.tree.dirs then s
    else
      var t, ino := s.k.tree, s.k.tree.dirs[p];
      var k := if ino in t.watch then s.k
               else s.k.(tree := t.(watch := t.watch[ino := s.k.nextWd]), nextWd := s.k.nextWd + 1);
      var wd := k.tree.watch[ino];
      State(k, if wd in s.cache then s.cache else s.cache[wd := p])
  }

  function Walk(s: State, order: seq<Path>): State
    decreases |order|
  {
    if order == [] then s else Walk(Visit(s, order[0]), order[1..])
  }

  // A new inotify instance has no watches and no events.
  function Fresh(k: Kernel): Kernel {
    k.(tree := k.tree.(watch := map[]), nextWd := 1, queue := [])
  }

  function Rebuild(k: Kernel, order: seq<Path>): State {
    Walk(State(Fresh(k), map[]), order)
  }

  function Rewrite(c: Cache, src: Path, dst: Path): Cache {
    map w | w in c :: Rebase(src, dst, c[w])
  }

  function Under(c: Cache, p: Path): set<Wd> {
    set w | w in c && p <= c[w]
  }

  function Unwatch(t: Tree, wds: set<Wd>): Tree {
    t.(watch := map i | i in t.watch && t.watch[i] !in wds :: t.watch[i])
  }

  function Ignoreds(wds: seq<Wd>): (r: seq<Event>)
    ensures |r| == |wds| && forall i | 0 <= i < |r| :: r[i] == Ignored(wds[i])
  {
    seq(|wds|, i requires 0 <= i < |wds| => Ignored(wds[i]))
  }

  // The event after an IN_MOVED_FROM is the IN_MOVED_TO of the same rename.
  predicate Paired(q: seq<Event>) {
    |q| > 1 && q[0].MovedFrom? && q[1].MovedTo? && q[1].cookie == q[0].cookie
  }

  predicate IsAnnounce(e: Event) {
    e.Create? || e.MovedTo?
  }

  // A head event handled without looking at the tree, with every descriptor it needs cached.
  predicate Loggable(c: Cache, q: seq<Event>) {
    && q != [] && !IsAnnounce(q[0]) && !q[0].Overflow?
    && (q[0].Ignored? || q[0].wd in c)
    && (Paired(q) ==> q[1].wd in c)
  }

  // The watches that handling the head event removes.
  function Dropped(c: Cache, q: seq<Event>): set<Wd>
    requires Loggable(c, q)
  {
    if q[0].MovedFrom? && !Paired(q) then Under(c, c[q[0].wd] + [q[0].name]) else {}
  }

  function Advance(c: Cache, q: seq<Event>): (r: (Cache, seq<Event>))
    requires Loggable(c, q)
    ensures |r.1| < |q|
  {
    if q[0].DeleteSelf? then (c - {q[0].wd}, q[1..])
    else if Paired(q) then (Rewrite(c, c[q[0].wd] + [q[0].name], c[q[1].wd] + [q[1].name]), q[2..])
    else (c - Dropped(c, q), q[1..])
  }

  // Handling the next event ends in reinitialize().
  predicate MustRebuild(s: State)
    requires s.k.queue != []
  {
    var e := s.k.queue[0];
    if IsAnnounce(e) then e.wd !in s.cache
    else !Loggable(s.cache, s.k.queue) || !(Dropped(s.cache, s.k.queue) <= s.k.tree.watch.Values)
  }

  // processNextInotifyEvent. Which order nftw visits directories in, and in which order
  // watches are removed, is not determined by the state.
  function Process(s: State, order: seq<Path>, removed: seq<Wd>): State
    requires s.k.queue != []
  {
    var q := s.k.queue;
    if MustRebuild(s) then Rebuild(s.k, order)
    else if IsAnnounce(q[0]) then
      var popped := State(s.k.(queue := q[1..]), s.cache);
      if s.cache[q[0].wd] + [q[0].name] in s.cache.Values then popped else Walk(popped, order)
    else
      var (c, rest) := Advance(s.cache, q);
      State(s.k.(tree := Unwatch(s.k.tree, Dropped(s.cache, q)), queue := rest + Ignoreds(removed)), c)
  }

  // order is what nftw (or the nftw of every root) enumerates, removed what zapSubtree removes.
  ghost predicate Choice(s: State, order: seq<Path>, removed: seq<Wd>)
    requires s.k.queue != []
  {
    var e := s.k.queue[0];
    if MustRebuild(s) then forall p :: p in order <==> p in s.k.tree.dirs
    else if IsAnnounce(e) then forall p :: p in order <==> p in s.k.tree.dirs && s.cache[e.wd] + [e.name] <= p
    else (set w | w in removed) == Dropped(s.cache, s.k.queue) && |removed| == |Dropped(s.cache, s.k.queue)|
  }

  // ---------- what the queue will do to the cache ----------

  // Handling the head needs no descriptor that is not cached.
  predicate Replayable(c: Cache, q: seq<Event>) {
    q != [] && if IsAnnounce(q[0]) then q[0].wd in c else Loggable(c, q)
  }

  // The cache and the queue once the head has been handled, apart from what traversals add.
  function Next(c: Cache, q: seq<Event>): (r: (Cache, seq<Event>))
    requires Replayable(c, q)
    ensures |r.1| < |q|
  {
    if IsAnnounce(q[0]) then (c, q[1..]) else Advance(c, q)
  }

  predicate ReplayOK(c: Cache, q: seq<Event>)
    decreases |q|
  {
    q == [] || (Replayable(c, q) && ReplayOK(Next(c, q).0, Next(c, q).1))
  }

  function Final(c: Cache, q: seq<Event>): Cache
    requires ReplayOK(c, q)
    decreases |q|
  {
    if q == [] then c else Final(Next(c, q).0, Next(c, q).1)
  }

  // The pathname the head sends a traversal to, unless it is cached by then.
  function Announced(c: Cache, q: seq<Event>): set<Path>
    requires Replayable(c, q)
  {
    if IsAnnounce(q[0]) && c[q[0].wd] + [q[0].name] !in c.Values then {c[q[0].wd] + [q[0].name]} else {}
  }

  // The pathnames that will be traversed.
  function Pending(c: Cache, q: seq<Event>): set<Path>
    requires ReplayOK(c, q)
    decreases |q|
  {
    if q == [] then {} else Announced(c, q) + Pending(Next(c, q).0, Next(c, q).1)
  }

  // The pathname that the head moves away.
  function Departing(c: Cache, q: seq<Event>): set<Path>
    requires Replayable(c, q)
  {
    if q[0].MovedFrom? then {c[q[0].wd] + [q[0].name]} else {}
  }

  function Sources(c: Cache, q: seq<Event>): set<Path>
    requires ReplayOK(c, q)
    decreases |q|
  {
    if q == [] then {} else Departing(c, q) + Sources(Next(c, q).0, Next(c, q).1)
  }

  // The watches that will be removed.
  function DroppedHere(c: Cache, q: seq<Event>): set<Wd>
    requires Replayable(c, q)
  {
    if IsAnnounce(q[0]) then {} else Dropped(c, q)
  }

  function Zapped(c: Cache, q: seq<Event>): set<Wd>
    requires ReplayOK(c, q)
    decreases |q|
  {
    if q == [] then {} else DroppedHere(c, q) + Zapped(Next(c, q).0, Next(c, q).1)
  }

  function Pairs(a: set<Path>, b: set<Path>): set<(Path, Path)> {
    set f, src | f in a && src in b :: (f, src)
  }

  // The traversals that come before the handling of a move, although the move may be made already.
  function Overtaken(c: Cache, q: seq<Event>): set<(Path, Path)>
    requires ReplayOK(c, q)
    decreases |q|
  {
    if q == [] then {}
    else
      var (c1, q1) := Next(c, q);
      Pairs(Announced(c, q), Sources(c1, q1)) + Overtaken(c1, q1)
  }

  // A new directory at p would be found by such a traversal, and its entry be moved away again.
  predicate Trapped(o: set<(Path, Path)>, p: Path) {
    exists pair :: pair in o && pair.0 <= p && pair.1 <= p
  }

  // ---------- the steps ----------

  datatype Action =
    | Mkdir(p: Path, n: Name, ino: Ino, merge: bool)
    | Rmdir(d: Path)
    | TouchFile(f: Path, fname: Name, fmerge: bool)
    | MoveIn(parent: Path, name: Name, sub: map<Path, Ino>)
    | Rename(src: Path, dst: Path)
    | MoveOut(out: Path)
    | Lose(k: Kernel)   // the kernel's queue overflows: anything may have happened unseen
    | Handle(order: seq<Path>, removed: seq<Wd>)

  // What other processes, the kernel and the program can do.
  ghost predicate Possible(s: State, a: Action)
    requires s.k.Valid()
  {
    match a
    case Mkdir(p, n, ino, _) => s.k.tree.CanMkdir(p, n, ino)
    case Rmdir(d) => s.k.tree.CanRmdir(d)
    case TouchFile(p, n, _) => p in s.k.tree.dirs && ValidName(n)
    case MoveIn(p, n, sub) => s.k.tree.CanMoveIn(p, n, sub)
    case Rename(src, dst) => s.k.tree.CanRename(src, dst)
    case MoveOut(src) => |src| > 1 && src in s.k.tree.dirs
    case Lose(k) => k.Valid() && k.tree.roots == s.k.tree.roots && k.nextWd == s.k.nextWd && Overflow in k.queue
    case Handle(order, removed) => s.k.queue != [] && Choice(s, order, removed)
  }

  // What moves is watched, or lies afterwards where it will be traversed, and not too early.
  predicate Followed(t: Tree, o: set<(Path, Path)>, pending: set<Path>, src: Path, dst: Path) {
    forall p {:trigger t.Watched(p)} | p in t.dirs && src <= p && !t.Watched(p) ::
      Traversed(pending, Rebase(src, dst, p)) && !Trapped(o, Rebase(src, dst, p))
  }

  // Nothing that moves is watched.
  predicate Unknown(t: Tree, src: Path) {
    forall p | p in t.dirs && src <= p :: !t.Watched(p)
  }

  // And nothing tells of its departure.
  predicate Unseen(t: Tree, src: Path) {
    |src| > 1 && !t.Watched(Parent(src)) && Unknown(t, src)
  }

  // What the program copes with. Moves may overtake announcements, but directories that it does not
  // watch yet must come to lie where it will find them, and not where such an announcement makes it
  // find them too early.
  predicate Orderly(s: State, a: Action) {
    ReplayOK(s.cache, s.k.queue) ==>
      var t, o, pending := s.k.tree, Overtaken(s.cache, s.k.queue), Pending(s.cache, s.k.queue);
      match a
      case Mkdir(p, n, _, _) => !Trapped(o, p + [n])
      case MoveIn(p, n, sub) =>
        && (!t.Watched(p + [n]) || Traversed(pending, p + [n]))
        && forall x | x in sub :: !Trapped(o, p + [n] + x)
      case Rename(src, dst) => src != [] && dst != [] &&
        if t.Watched(Parent(src)) && t.Watched(Parent(dst)) then Followed(t, o, pending, src, dst)
        else Unknown(t, src) && !t.Watched(dst) && forall p | p in t.dirs && src <= p :: !Trapped(o, Rebase(src, dst, p))
      case MoveOut(src) => (src != [] && t.Watched(Parent(src))) || Unseen(t, src)
      case _ => true
  }

  ghost predicate Enabled(s: State, a: Action)
    requires s.k.Valid()
  {
    Possible(s, a) && Orderly(s, a)
  }

  ghost function Do(s: State, a: Action): State
    requires s.k.Valid() && Possible(s, a)
  {
    match a
    case Mkdir(p, n, ino, merge) => s.(k := s.k.Mkdir(p, n, ino, merge))
    case Rmdir(d) => s.(k := s.k.Rmdir(d))
    case TouchFile(p, n, merge) => s.(k := s.k.TouchFile(p, n, merge))
    case MoveIn(p, n, sub) => s.(k := s.k.MoveIn(p, n, sub))
    case Rename(src, dst) => s.(k := s.k.Rename(src, dst))
    case MoveOut(src) => s.(k := s.k.MoveOut(src))
    case Lose(k) => s.(k := k)
    case Handle(order, removed) => Process(s, order, removed)
  }

  // ---------- the invariant ----------

  // The cache knows the watched directories, each under its own pathname, and no others.
  ghost predicate Tracks(t: Tree, c: Cache) {
    && (forall p | t.Watched(p) :: t.WdOf(p) in c && c[t.WdOf(p)] == p)
    && (forall w | w in c :: t.LiveWd(w))
  }

  predicate Clear(t: Tree, o: set<(Path, Path)>) {
    forall p {:trigger Trapped(o, p)} | p in t.dirs && Trapped(o, p) :: t.Watched(p)
  }

  ghost predicate Dead(t: Tree, wds: set<Wd>) {
    forall w | w in wds :: w in t.watch.Values && !t.LiveWd(w)
  }

  // Once the queue has been handled, the cache will know the watched directories.
  ghost predicate Consistent(s: State) {
    && ReplayOK(s.cache, s.k.queue)
    && Tracks(s.k.tree, Final(s.cache, s.k.queue))
    && Clear(s.k.tree, Overtaken(s.cache, s.k.queue))
    && Dead(s.k.tree, Zapped(s.cache, s.k.queue))
  }

  ghost function FinalOf(s: State): Cache
    requires Consistent(s)
  {
    Final(s.cache, s.k.queue)
  }

  ghost function PendingOf(s: State): set<Path>
    requires Consistent(s)
  {
    Pending(s.cache, s.k.queue)
  }

  ghost function OvertakenOf(s: State): set<(Path, Path)>
    requires Consistent(s)
  {
    Overtaken(s.cache, s.k.queue)
  }

  ghost function ZappedOf(s: State): set<Wd>
    requires Consistent(s)
  {
    Zapped(s.cache, s.k.queue)
  }

  // p will be traversed.
  predicate Traversed(pending: set<Path>, p: Path) {
    exists f :: f in pending && f <= p
  }

  // Every live directory is watched or will be traversed.
  predicate Foreseen(t: Tree, pending: set<Path>) {
    forall p {:trigger Traversed(pending, p)} | p in t.dirs && !t.Watched(p) :: Traversed(pending, p)
  }

  ghost predicate Good(s: State) {
    Consistent(s) && Foreseen(s.k.tree, PendingOf(s))
  }

  ghost predicate Inv(s: State) {
    && s.k.Valid()
    && (forall w | w in s.cache :: w < s.k.nextWd)
    && (Overflow in s.k.queue || Good(s))
  }

  // The cache holds exactly the live directories, each under its own descriptor and path.
  ghost predicate Synced(s: State) {
    && (forall p | p in s.k.tree.dirs :: s.k.tree.Watched(p) && s.k.tree.WdOf(p) in s.cache && s.cache[s.k.tree.WdOf(p)] == p)
    && (forall w | w in s.cache :: s.cache[w] in s.k.tree.dirs && s.k.tree.Watched(s.cache[w]) && s.k.tree.WdOf(s.cache[w]) == w)
  }
}
