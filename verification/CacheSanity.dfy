/** What holds whatever other processes do, whether or not the program can keep up with it. */
module CacheSanity {
  import opened Paths
  import opened DirTree
  import opened TreeChanges
  import opened CacheProtocol
  import opened CacheHandling

  // A proper directory tree with well-formed events, and no descriptor cached that was never issued.
  ghost predicate Sane(s: State) {
    s.k.Valid() && Bounded(s)
  }

  lemma LastValid(t: Tree, p: Path)
    requires t.Rooted() && p in t.dirs && |p| > 1
    ensures ValidName(Last(p))
  {
    assert ValidPath(t.roots, p);
  }

  lemma QueueAppended(q: seq<Event>, cookie: nat, ext: seq<Event>, next: nat)
    requires QueueValid(q, cookie) && QueueValid(ext, next) && cookie <= next
    ensures QueueValid(q + ext, next)
  {
  }

  lemma MoveEvents(t: Tree, src: Path, dst: Path, cookie: nat) returns (ext: seq<Event>)
    requires t.Rooted() && t.CanRename(src, dst)
    ensures ext == t.Left(Parent(src), Last(src), cookie) + t.Arrived(Parent(dst), Last(dst), cookie) + t.Gone(dst)
    ensures QueueValid(ext, cookie + 1)
  {
    LastValid(t, src);
    ext := t.Left(Parent(src), Last(src), cookie) + t.Arrived(Parent(dst), Last(dst), cookie) + t.Gone(dst);
  }

  lemma AnnouncedValid(s: State, order: seq<Path>)
    requires s.k.Valid() && Bounded(s) && s.k.queue != [] && IsAnnounce(s.k.queue[0]) && !MustRebuild(s)
    ensures var t := Process(s, order, []);
      t.k.Valid() && Bounded(t) && (Overflow in s.k.queue ==> Overflow in t.k.queue)
  {
    var popped := State(s.k.(queue := s.k.queue[1..]), s.cache);
    assert Overflow in s.k.queue ==> Overflow in popped.k.queue;
    hide RootedDirs, Walk;
    WalkValid(popped, order);
  }

  lemma LoggedValid(s: State, removed: seq<Wd>)
    requires s.k.Valid() && Bounded(s) && s.k.queue != [] && !IsAnnounce(s.k.queue[0]) && !MustRebuild(s)
    ensures var t := Process(s, [], removed);
      t.k.Valid() && Bounded(t) && (Overflow in s.k.queue ==> Overflow in t.k.queue)
  {
    var q := s.k.queue;
    var (c, rest) := Advance(s.cache, q);
    assert forall e | e in rest + Ignoreds(removed) :: e in q || e.Ignored?;
    if Overflow in q { OverflowKept(s.cache, q); }
    hide RootedDirs, Advance, Loggable;
  }

  lemma OverflowKept(c: Cache, q: seq<Event>)
    requires Loggable(c, q) && Overflow in q
    ensures Overflow in Advance(c, q).1
  {
    var i :| 0 <= i < |q| && q[i] == Overflow;
    if Paired(q) {
      assert i > 1 && q[2..][i - 2] == Overflow;
    } else {
      assert i > 0 && q[1..][i - 1] == Overflow;
    }
  }

  lemma SaneAfter(s: State, s': State, ext: seq<Event>)
    requires Sane(s) && s'.cache == s.cache && s'.k.nextWd == s.k.nextWd && s.k.nextCookie <= s'.k.nextCookie
    requires s'.k.tree.Valid() && forall i | i in s'.k.tree.watch :: i in s.k.tree.watch && s'.k.tree.watch[i] == s.k.tree.watch[i]
    requires s'.k.queue == s.k.queue || s'.k.queue == s.k.queue + ext
    requires QueueValid(ext, s'.k.nextCookie)
    ensures Sane(s')
  {
    hide RootedDirs, Tree.OneToOne;
    QueueAppended(s.k.queue, s.k.nextCookie, ext, s'.k.nextCookie);
  }

  lemma MkdirSane(s: State, p: Path, n: Name, ino: Ino, merge: bool)
    requires Sane(s) && s.k.tree.CanMkdir(p, n, ino)
    ensures Sane(s.(k := s.k.Mkdir(p, n, ino, merge)))
  {
    var ext := s.k.tree.Created(p, n);
    assert QueueValid(ext, s.k.nextCookie);
    hide RootedDirs, Tree.OneToOne, Tree.CanMkdir, QueueValid, Tree.Created;
    MkdirGrown(s.k.tree, p, n, ino);
    SaneAfter(s, s.(k := s.k.Mkdir(p, n, ino, merge)), ext);
  }

  lemma RmdirSane(s: State, d: Path)
    requires Sane(s) && s.k.tree.CanRmdir(d)
    ensures Sane(s.(k := s.k.Rmdir(d)))
  {
    var ext := s.k.tree.Gone(d);
    assert QueueValid(ext, s.k.nextCookie);
    hide RootedDirs, Tree.OneToOne, QueueValid, Tree.Gone;
    RmdirValid(s.k.tree, d);
    SaneAfter(s, s.(k := s.k.Rmdir(d)), ext);
  }

  lemma TouchSane(s: State, p: Path, n: Name, merge: bool)
    requires Sane(s) && p in s.k.tree.dirs && ValidName(n)
    ensures Sane(s.(k := s.k.TouchFile(p, n, merge)))
  {
    hide RootedDirs, Tree.OneToOne;
    SaneAfter(s, s.(k := s.k.TouchFile(p, n, merge)), s.k.tree.FileTouched(p, n));
  }

  lemma MoveInSane(s: State, p: Path, n: Name, sub: map<Path, Ino>)
    requires Sane(s) && s.k.tree.CanMoveIn(p, n, sub)
    ensures Sane(s.(k := s.k.MoveIn(p, n, sub)))
  {
    var ext := s.k.tree.Arrived(p, n, s.k.nextCookie) + s.k.tree.Gone(p + [n]);
    assert QueueValid(ext, s.k.nextCookie + 1);
    hide RootedDirs, Tree.OneToOne, Tree.CanMoveIn, QueueValid, Tree.Arrived, Tree.Gone;
    MoveInValid(s.k.tree, p, n, sub);
    SaneAfter(s, s.(k := s.k.MoveIn(p, n, sub)), ext);
  }

  lemma RenameSane(s: State, src: Path, dst: Path)
    requires Sane(s) && s.k.tree.CanRename(src, dst)
    ensures Sane(s.(k := s.k.Rename(src, dst)))
  {
    hide Tree.OneToOne;
    var ext := MoveEvents(s.k.tree, src, dst, s.k.nextCookie);
    hide RootedDirs, QueueValid, Tree.CanRename, Tree.Left, Tree.Arrived, Tree.Gone, Rebased;
    RenameValid(s.k.tree, src, dst);
    SaneAfter(s, s.(k := s.k.Rename(src, dst)), ext);
  }

  lemma MoveOutSane(s: State, src: Path)
    requires Sane(s) && src in s.k.tree.dirs && |src| > 1
    ensures Sane(s.(k := s.k.MoveOut(src)))
  {
    hide Tree.OneToOne;
    var ext := s.k.tree.Left(Parent(src), Last(src), s.k.nextCookie);
    LastValid(s.k.tree, src);
    assert QueueValid(ext, s.k.nextCookie + 1);
    hide RootedDirs, QueueValid, Tree.Left;
    MoveOutValid(s.k.tree, src);
    SaneAfter(s, s.(k := s.k.MoveOut(src)), ext);
  }

  lemma HandleSane(s: State, order: seq<Path>, removed: seq<Wd>)
    requires Sane(s) && s.k.queue != [] && Choice(s, order, removed)
    ensures Sane(Process(s, order, removed))
  {
    hide RootedDirs, Good, Walk, Visit;
    if MustRebuild(s) {
      RebuildSynced(s.k, order);
    } else if IsAnnounce(s.k.queue[0]) {
      AnnouncedValid(s, order);
    } else {
      LoggedValid(s, removed);
    }
  }

  /** Every step there can be, renames that overtake announcements included, keeps the state sane. */
  lemma StepSane(s: State, a: Action)
    requires Sane(s) && Possible(s, a)
    ensures Sane(Do(s, a))
  {
    hide Tree.CanMkdir, Tree.CanMoveIn, Tree.CanRename, Tree.CanRmdir, Choice;
    match a
    case Mkdir(p, n, ino, merge) => hide Sane; MkdirSane(s, p, n, ino, merge);
    case Rmdir(d) => hide Sane; RmdirSane(s, d);
    case TouchFile(p, n, merge) => hide Sane; TouchSane(s, p, n, merge);
    case MoveIn(p, n, sub) => hide Sane; MoveInSane(s, p, n, sub);
    case Rename(src, dst) => hide Sane; RenameSane(s, src, dst);
    case MoveOut(src) => hide Sane; MoveOutSane(s, src);
    case Lose(k) => hide RootedDirs;
    case Handle(order, removed) => hide Sane; HandleSane(s, order, removed);
  }
}
