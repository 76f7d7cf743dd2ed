/** The environment of inotify_dtree.c: the live directories below the roots, the kernel's
    watches on them, and the FIFO of events not yet handled. */
module DirTree {
  import opened Paths

  type Ino = nat
  type Wd = nat

  // The events with a name are those with IN_ISDIR; FileEvent stands for any event about a
  // non-directory, and Overflow for IN_Q_OVERFLOW (which has no descriptor).
  datatype Event =
    | Create(wd: Wd, name: Name)
    | MovedTo(wd: Wd, name: Name, cookie: nat)
    | MovedFrom(wd: Wd, name: Name, cookie: nat)
    | DeleteSelf(wd: Wd)
    | Ignored(wd: Wd)
    | FileEvent(wd: Wd, name: Name)
    | Overflow

  predicate EventValid(e: Event, nextCookie: nat) {
    && (e.Create? || e.MovedTo? || e.MovedFrom? || e.FileEvent? ==> ValidName(e.name))
    && (e.MovedTo? || e.MovedFrom? ==> e.cookie < nextCookie)
  }

  predicate QueueValid(q: seq<Event>, nextCookie: nat) {
    forall e | e in q :: EventValid(e, nextCookie)
  }

  // The directory src has become dst; whatever was dst is gone.
  function Rebased(dirs: map<Path, Ino>, src: Path, dst: Path): map<Path, Ino>
    requires forall p | p in dirs && p != dst :: !(dst <= p)
  {
    RebasedApart(dirs, src, dst);
    map p | p in dirs && p != dst :: Rebase(src, dst, p) := dirs[p]
  }

  lemma RebasedApart(dirs: map<Path, Ino>, src: Path, dst: Path)
    requires forall p | p in dirs && p != dst :: !(dst <= p)
    ensures forall p, q | p in dirs && q in dirs && p != dst && q != dst && Rebase(src, dst, p) == Rebase(src, dst, q) ::
      p == q
  {
    forall p, q | p in dirs && q in dirs && p != dst && q != dst && Rebase(src, dst, p) == Rebase(src, dst, q)
      ensures p == q
    {
      RebaseInjective(src, dst, p, q);
    }
  }

  predicate RootedDirs(roots: set<string>, dirs: map<Path, Ino>) {
    && ValidRoots(roots)
    && (forall r | r in roots :: [r] in dirs)
    && (forall p | p in dirs :: ValidPath(roots, p))
    && (forall p {:trigger ParentLive(dirs, p)} | p in dirs :: ParentLive(dirs, p))
  }

  predicate ParentLive(dirs: map<Path, Ino>, p: Path) {
    |p| > 1 ==> Parent(p) in dirs
  }

  /** Every live directory with its inode, and the watch descriptors of watched inodes (also of
      directories that have been moved out of the tree). */
  datatype Tree = Tree(roots: set<string>, dirs: map<Path, Ino>, watch: map<Ino, Wd>) {
    predicate Watched(p: Path) {
      p in dirs && dirs[p] in watch
    }

    function WdOf(p: Path): Wd
      requires Watched(p)
    {
      watch[dirs[p]]
    }

    ghost predicate LiveWd(w: Wd) {
      exists p :: Watched(p) && WdOf(p) == w
    }

    predicate Rooted() {
      RootedDirs(roots, dirs)
    }

    predicate OneToOne() {
      && (forall p, q | p in dirs && q in dirs && dirs[p] == dirs[q] :: p == q)
      && (forall i, j | i in watch && j in watch && watch[i] == watch[j] :: i == j)
    }

    predicate Valid() {
      Rooted() && OneToOne()
    }

    predicate Leaf(p: Path) {
      p in dirs && forall q | q in dirs && p <= q :: q == p
    }

    lemma {:induction false} AncestorsLive(p: Path, q: Path)
      requires Rooted() && q in dirs && p <= q && p != []
      ensures p in dirs
      decreases |q|
    {
      if p != q {
        assert ParentLive(dirs, q);
        AncestorsLive(p, Parent(q));
      }
    }

    // ---- what other processes do to the tree ----

    predicate CanMkdir(p: Path, n: Name, ino: Ino) {
      p in dirs && ValidName(n) && p + [n] !in dirs && ino !in dirs.Values && ino !in watch
    }

    function Mkdir(d: Path, ino: Ino): Tree {
      this.(dirs := dirs[d := ino])
    }

    predicate CanRmdir(d: Path) {
      |d| > 1 && Leaf(d)
    }

    // The inode of a deleted directory loses its watch.
    function Rmdir(d: Path): Tree
      requires d in dirs
    {
      this.(dirs := dirs - {d}, watch := watch - {dirs[d]})
    }

    // A directory, with everything below it, that carries no watch arrives from outside. An
    // existing target must be empty, and is deleted.
    predicate CanMoveIn(p: Path, n: Name, sub: map<Path, Ino>) {
      && p in dirs && ValidName(n)
      && (p + [n] !in dirs || Leaf(p + [n]))
      && [] in sub
      && (forall s | s in sub :: (forall i | 0 <= i < |s| :: ValidName(s[i])) && (s != [] ==> Parent(s) in sub))
      && (forall s | s in sub :: sub[s] !in dirs.Values && sub[s] !in watch)
      && (forall s, t | s in sub && t in sub && sub[s] == sub[t] :: s == t)
    }

    function MoveIn(d: Path, sub: map<Path, Ino>): Tree {
      assert forall s: Path, t: Path | d + s == d + t :: s == (d + s)[|d|..] == t;
      this.(dirs := dirs + map s | s in sub :: d + s := sub[s],
            watch := if d in dirs then watch - {dirs[d]} else watch)
    }

    predicate CanRename(src: Path, dst: Path) {
      && |src| > 1 && src in dirs && !(src <= dst)
      && |dst| > 1 && ValidName(Last(dst)) && Parent(dst) in dirs
      && (dst !in dirs || Leaf(dst))
    }

    function Rename(src: Path, dst: Path): Tree
      requires Rooted() && CanRename(src, dst)
    {
      TargetEmpty(src, dst);
      this.(dirs := Rebased(dirs, src, dst),
            watch := if dst in dirs then watch - {dirs[dst]} else watch)
    }

    lemma TargetEmpty(src: Path, dst: Path)
      requires Rooted() && CanRename(src, dst)
      ensures forall p | p in dirs && p != dst :: !(dst <= p)
    {
      forall p | p in dirs && p != dst
        ensures !(dst <= p)
      {
        if dst <= p { AncestorsLive(dst, p); }
      }
    }

    // The watches of a directory moved out of the tree stay in place until they are removed.
    function MoveOut(src: Path): Tree {
      this.(dirs := map q | q in dirs && !(src <= q) :: dirs[q])
    }

    // ---- the events these changes produce ----

    function Created(p: Path, n: Name): seq<Event> {
      if Watched(p) then [Create(WdOf(p), n)] else []
    }

    function FileTouched(p: Path, n: Name): seq<Event> {
      if Watched(p) then [FileEvent(WdOf(p), n)] else []
    }

    function Left(p: Path, n: Name, cookie: nat): seq<Event> {
      if Watched(p) then [MovedFrom(WdOf(p), n, cookie)] else []
    }

    function Arrived(p: Path, n: Name, cookie: nat): seq<Event> {
      if Watched(p) then [MovedTo(WdOf(p), n, cookie)] else []
    }

    function Gone(d: Path): seq<Event> {
      if Watched(d) then [DeleteSelf(WdOf(d)), Ignored(WdOf(d))] else []
    }
  }

  datatype Kernel = Kernel(
    tree: Tree,
    nextWd: Wd,              // descriptors are never reused by one inotify instance
    nextCookie: nat,
    queue: seq<Event>
  ) {
    predicate Valid() {
      && tree.Valid()
      && (forall i | i in tree.watch :: tree.watch[i] < nextWd)
      && QueueValid(queue, nextCookie)
    }

    // inotify may merge an event into an identical one at the end of the queue (it does so
    // unless that one has been read already).
    function Post(es: seq<Event>, merge: bool): seq<Event> {
      if merge && |es| == 1 && queue != [] && queue[|queue| - 1] == es[0] then queue else queue + es
    }

    function Mkdir(p: Path, n: Name, ino: Ino, merge: bool): Kernel {
      this.(tree := tree.Mkdir(p + [n], ino), queue := Post(tree.Created(p, n), merge))
    }

    function Rmdir(d: Path): Kernel
      requires d in tree.dirs
    {
      this.(tree := tree.Rmdir(d), queue := queue + tree.Gone(d))
    }

    function TouchFile(p: Path, n: Name, merge: bool): Kernel {
      this.(queue := Post(tree.FileTouched(p, n), merge))
    }

    function MoveIn(p: Path, n: Name, sub: map<Path, Ino>): Kernel {
      this.(tree := tree.MoveIn(p + [n], sub),
            queue := queue + (tree.Arrived(p, n, nextCookie) + tree.Gone(p + [n])),
            nextCookie := nextCookie + 1)
    }

    function Rename(src: Path, dst: Path): Kernel
      requires tree.Rooted() && tree.CanRename(src, dst)
    {
      this.(tree := tree.Rename(src, dst),
            queue := queue + (tree.Left(Parent(src), Last(src), nextCookie)
              + tree.Arrived(Parent(dst), Last(dst), nextCookie) + tree.Gone(dst)),
            nextCookie := nextCookie + 1)
    }

    function MoveOut(src: Path): Kernel
      requires src != []
    {
      this.(tree := tree.MoveOut(src),
            queue := queue + tree.Left(Parent(src), Last(src), nextCookie),
            nextCookie := nextCookie + 1)
    }
  }
}
