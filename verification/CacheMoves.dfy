/** The steps that move directories. */
module CacheMoves {
  import opened Paths
  import opened DirTree
  import opened TreeChanges
  import opened CacheProtocol
  import opened CacheReplay
  import opened CacheChanges

  /** Renaming src to dst and dst back to src restores the cache exactly when no cached directory
      was at or below dst (unless at or below src too). */
  lemma RenameBackRestoresIff(c: Cache, src: Path, dst: Path)
    ensures Rewrite(Rewrite(c, src, dst), dst, src) == c <==> forall w | w in c && dst <= c[w] :: src <= c[w]
  {
    var back := Rewrite(Rewrite(c, src, dst), dst, src);
    forall w | w in c
      ensures back[w] == c[w] <==> (dst <= c[w] ==> src <= c[w])
    {
      RebaseThereAndBack(src, dst, c[w]);
    }
    hide Rebase;
  }

  // ---------- a rename between watched directories ----------

  // Where the directories of t are in u, after the rename, and which of them are watched.
  ghost predicate Relabelled(t: Tree, u: Tree, src: Path, dst: Path) {
    && (forall p | p in t.dirs && p != dst ::
          var q := Rebase(src, dst, p);
          && q in u.dirs && (u.Watched(q) <==> t.Watched(p)) && (t.Watched(p) ==> u.WdOf(q) == t.WdOf(p)))
    && (forall q | q in u.dirs :: var p := Rebase(dst, src, q); p in t.dirs && p != dst && Rebase(src, dst, p) == q)
  }

  lemma SameInode(t: Tree, u: Tree, p: Path, q: Path, dst: Path)
    requires t.OneToOne() && p in t.dirs && p != dst && q in u.dirs && u.dirs[q] == t.dirs[p]
    requires u.watch == if dst in t.dirs then t.watch - {t.dirs[dst]} else t.watch
    ensures (u.Watched(q) <==> t.Watched(p)) && (t.Watched(p) ==> u.WdOf(q) == t.WdOf(p))
  {
  }

  lemma RenamedParts(t: Tree, src: Path, dst: Path)
    requires t.Valid() && t.CanRename(src, dst)
    ensures var u := t.Rename(src, dst);
      && t.Rooted() && t.OneToOne() && u.roots == t.roots
      && u.watch == (if dst in t.dirs then t.watch - {t.dirs[dst]} else t.watch)
      && (forall p | p in t.dirs && p != dst :: Rebase(src, dst, p) in u.dirs && u.dirs[Rebase(src, dst, p)] == t.dirs[p])
      && (forall q | q in u.dirs ::
            Rebase(dst, src, q) in t.dirs && Rebase(dst, src, q) != dst && Rebase(src, dst, Rebase(dst, src, q)) == q)
  {
    t.TargetEmpty(src, dst);
    RebasedBack(t.dirs, src, dst);
    hide RootedDirs, Rebase, Tree.CanRename, Tree.OneToOne;
  }

  lemma RenameRelabels(t: Tree, src: Path, dst: Path)
    requires t.Valid() && t.CanRename(src, dst)
    ensures Relabelled(t, t.Rename(src, dst), src, dst)
  {
    RenamedParts(t, src, dst);
    hide *;
    RelabelledIf(t, t.Rename(src, dst), src, dst);
  }

  lemma RelabelledIf(t: Tree, u: Tree, src: Path, dst: Path)
    requires t.OneToOne() && u.watch == if dst in t.dirs then t.watch - {t.dirs[dst]} else t.watch
    requires forall p | p in t.dirs && p != dst :: Rebase(src, dst, p) in u.dirs && u.dirs[Rebase(src, dst, p)] == t.dirs[p]
    requires forall q | q in u.dirs ::
      Rebase(dst, src, q) in t.dirs && Rebase(dst, src, q) != dst && Rebase(src, dst, Rebase(dst, src, q)) == q
    ensures Relabelled(t, u, src, dst)
  {
    hide Rebase, Tree.OneToOne, Tree.Watched, Tree.WdOf;
    forall p | p in t.dirs && p != dst
      ensures var q := Rebase(src, dst, p);
        && q in u.dirs && (u.Watched(q) <==> t.Watched(p)) && (t.Watched(p) ==> u.WdOf(q) == t.WdOf(p))
    {
      SameInode(t, u, p, Rebase(src, dst, p), dst);
    }
  }

  function Moved(c: Cache, t: Tree, src: Path, dst: Path): Cache {
    Without(Rewrite(c, src, dst), t, dst)
  }

  lemma RelabelledTracks(t: Tree, u: Tree, src: Path, dst: Path, c: Cache)
    requires t.OneToOne() && Relabelled(t, u, src, dst) && Tracks(t, c)
    ensures Tracks(u, Moved(c, t, src, dst))
  {
    var c' := Moved(c, t, src, dst);
    hide Rebase;
    forall q | u.Watched(q)
      ensures u.WdOf(q) in c' && c'[u.WdOf(q)] == q
    {
      var p := Rebase(dst, src, q);
      assert t.Watched(p) && u.WdOf(q) == t.WdOf(p);
      if t.Watched(dst) { assert t.WdOf(p) != t.WdOf(dst); }
    }
    forall w | w in c'
      ensures u.LiveWd(w)
    {
      assert w in c && (t.Watched(dst) ==> w != t.WdOf(dst));
      RelabelledLive(t, u, src, dst, w);
    }
  }

  lemma RelabelledLive(t: Tree, u: Tree, src: Path, dst: Path, w: Wd)
    requires Relabelled(t, u, src, dst) && t.LiveWd(w) && (t.Watched(dst) ==> w != t.WdOf(dst))
    ensures u.LiveWd(w)
  {
    var p :| t.Watched(p) && t.WdOf(p) == w;
    hide Rebase;
    assert u.Watched(Rebase(src, dst, p)) && u.WdOf(Rebase(src, dst, p)) == w;
  }

  lemma RelabelledDead(t: Tree, u: Tree, src: Path, dst: Path, zapped: set<Wd>)
    requires t.OneToOne() && Relabelled(t, u, src, dst) && Dead(t, zapped)
    requires u.watch == if dst in t.dirs then t.watch - {t.dirs[dst]} else t.watch
    ensures Dead(u, zapped)
  {
    hide Rebase;
    forall w | w in zapped
      ensures w in u.watch.Values && !u.LiveWd(w)
    {
      var i :| i in t.watch && t.watch[i] == w;
      if t.Watched(dst) { assert t.LiveWd(t.WdOf(dst)); }
      assert i in u.watch && u.watch[i] == w;
      forall q | u.Watched(q)
        ensures u.WdOf(q) != w
      {
        assert t.LiveWd(t.WdOf(Rebase(dst, src, q)));
      }
    }
  }

  lemma RenamedTracked(t: Tree, src: Path, dst: Path, c: Cache, zapped: set<Wd>)
    requires t.Valid() && t.CanRename(src, dst) && Tracks(t, c) && Dead(t, zapped)
    ensures Tracks(t.Rename(src, dst), Moved(c, t, src, dst)) && Dead(t.Rename(src, dst), zapped)
  {
    RenameRelabels(t, src, dst);
    assert t.OneToOne();
    var u := t.Rename(src, dst);
    assert u.watch == if dst in t.dirs then t.watch - {t.dirs[dst]} else t.watch;
    hide *;
    RelabelledTracks(t, u, src, dst, c);
    RelabelledDead(t, u, src, dst, zapped);
  }

  // After the move nothing lives at or below src, and what has moved lives at or below dst.
  lemma NothingLeft(t: Tree, src: Path, dst: Path, q: Path)
    requires t.Rooted() && t.CanRename(src, dst) && q in t.Rename(src, dst).dirs
    ensures !(src <= q) && (src <= Rebase(dst, src, q) <==> dst <= q)
    ensures !(dst <= q) ==> Rebase(dst, src, q) == q
  {
    t.TargetEmpty(src, dst);
    RebasedBack(t.dirs, src, dst);
    var p := Rebase(dst, src, q);
    if dst <= src { t.AncestorsLive(dst, src); }
    if src <= q && dst <= q { Comparable(src, dst, q); }
  }

  lemma Comparable(a: Path, b: Path, q: Path)
    requires a <= q && b <= q
    ensures a <= b || b <= a
  {
    if |a| <= |b| {
      assert b[..|a|] == q[..|a|] == a;
    } else {
      assert a[..|b|] == q[..|b|] == b;
    }
  }

  // The pair of events, and the deletion of a directory that was replaced.
  lemma RenameEffect(t: Tree, src: Path, dst: Path, cookie: nat, c: Cache)
    requires t.Rooted() && t.CanRename(src, dst) && Tracks(t, c) && t.Watched(Parent(src)) && t.Watched(Parent(dst))
    ensures var ext := t.Left(Parent(src), Last(src), cookie) + t.Arrived(Parent(dst), Last(dst), cookie) + t.Gone(dst);
      && Effect(c, ext, Moved(c, t, src, dst), {}, {src}, {})
      && (ext != [] ==> !ext[0].MovedTo?)
  {
    var pair := [MovedFrom(t.WdOf(Parent(src)), Last(src), cookie), MovedTo(t.WdOf(Parent(dst)), Last(dst), cookie)];
    assert t.Left(Parent(src), Last(src), cookie) + t.Arrived(Parent(dst), Last(dst), cookie) == pair;
    var c1 := Rewrite(c, src, dst);
    assert src == Parent(src) + [Last(src)] && dst == Parent(dst) + [Last(dst)];
    hide RootedDirs, Tree.CanRename;
    PairEffect(c, pair, src, dst);
    GoneEffect(t, c1, dst);
    assert Separate(pair, t.Gone(dst));
    hide Effect, Separate, Rewrite;
    EffectThen(c, pair, t.Gone(dst), c1, {}, {src}, {}, Moved(c, t, src, dst), {}, {});
  }

  lemma PairEffect(c: Cache, pair: seq<Event>, src: Path, dst: Path)
    requires |pair| == 2 && Paired(pair) && pair[0].wd in c && pair[1].wd in c
    requires src == c[pair[0].wd] + [pair[0].name] && dst == c[pair[1].wd] + [pair[1].name]
    ensures Effect(c, pair, Rewrite(c, src, dst), {}, {src}, {})
  {
    assert pair[2..] == [];
    var c1 := Rewrite(c, src, dst);
    assert Replayable(c, pair) && Next(c, pair) == (c1, []);
    assert ReplayOK(c1, []);
    assert Pairs({}, {}) == {};
  }

  /** A rename between watched directories, whatever is below src: the cache will follow it. */
  lemma RenameConsistent(s: State, src: Path, dst: Path)
    requires s.k.Valid() && Consistent(s) && s.k.tree.CanRename(src, dst)
    requires s.k.tree.Watched(Parent(src)) && s.k.tree.Watched(Parent(dst))
    requires forall p | p in s.k.tree.dirs && src <= p && !s.k.tree.Watched(p) :: !Trapped(OvertakenOf(s), Rebase(src, dst, p))
    ensures var s' := s.(k := s.k.Rename(src, dst));
      && Consistent(s') && PendingOf(s') == PendingOf(s)
      && OvertakenOf(s') == OvertakenOf(s) + Pairs(PendingOf(s), {src})
  {
    hide *;
    var ext := RenameParts(s, src, dst);
    var t, s' := s.k.tree, s.(k := s.k.Rename(src, dst));
    var c, o, pending := FinalOf(s), OvertakenOf(s), PendingOf(s);
    RenameEffect(t, src, dst, s.k.nextCookie, c);
    RenamedTracked(t, src, dst, c, ZappedOf(s));
    RenamedClear(t, src, dst, o, pending);
    MoveSeparate(s.k.queue, ext);
    assert ZappedOf(s) + {} == ZappedOf(s) && pending + {} == pending;
    Append(s, s', ext, Moved(c, t, src, dst), {}, {src}, {});
  }

  lemma RenameParts(s: State, src: Path, dst: Path) returns (ext: seq<Event>)
    requires s.k.Valid() && Consistent(s) && s.k.tree.CanRename(src, dst)
    ensures s.k.tree.Valid() && s.k.tree.Rooted() && src != [] && dst != []
    ensures Tracks(s.k.tree, FinalOf(s)) && Dead(s.k.tree, ZappedOf(s)) && Clear(s.k.tree, OvertakenOf(s))
    ensures ext == s.k.tree.Left(Parent(src), Last(src), s.k.nextCookie)
      + s.k.tree.Arrived(Parent(dst), Last(dst), s.k.nextCookie) + s.k.tree.Gone(dst)
    ensures var k := s.k.Rename(src, dst); k.tree == s.k.tree.Rename(src, dst) && k.queue == s.k.queue + ext
  {
    hide RootedDirs, Tree.OneToOne, QueueValid, ReplayOK, Tracks, Dead, Clear, Tree.Rename, Tree.Left, Tree.Arrived, Tree.Gone;
    ext := s.k.tree.Left(Parent(src), Last(src), s.k.nextCookie)
      + s.k.tree.Arrived(Parent(dst), Last(dst), s.k.nextCookie) + s.k.tree.Gone(dst);
  }

  lemma MoveSeparate(q: seq<Event>, ext: seq<Event>)
    requires ext != [] ==> !ext[0].MovedTo?
    ensures Separate(q, ext)
  {
  }

  lemma RenamedClear(t: Tree, src: Path, dst: Path, o: set<(Path, Path)>, pending: set<Path>)
    requires t.Valid() && t.CanRename(src, dst) && Clear(t, o)
    requires forall p | p in t.dirs && src <= p && !t.Watched(p) :: !Trapped(o, Rebase(src, dst, p))
    ensures Clear(t.Rename(src, dst), o + Pairs(pending, {src}))
  {
    var u, o' := t.Rename(src, dst), o + Pairs(pending, {src});
    RenameRelabels(t, src, dst);
    assert t.Rooted();
    hide RootedDirs, Tree.OneToOne, Tree.Rename, Tree.CanRename, Rebase;
    forall q | q in u.dirs && Trapped(o', q)
      ensures u.Watched(q)
    {
      NothingLeft(t, src, dst, q);
      OldTrap(o, pending, src, q);
      var p := Rebase(dst, src, q);
      assert p in t.dirs && Rebase(src, dst, p) == q && (u.Watched(q) <==> t.Watched(p));
    }
  }

  lemma OldTrap(o: set<(Path, Path)>, pending: set<Path>, src: Path, q: Path)
    requires Trapped(o + Pairs(pending, {src}), q) && !(src <= q)
    ensures Trapped(o, q)
  {
    var pair :| pair in o + Pairs(pending, {src}) && pair.0 <= q && pair.1 <= q;
    assert pair in o;
  }

  // ---------- a move out of the tree ----------

  lemma MoveOutLive(t: Tree, src: Path)
    ensures var u := t.MoveOut(src);
      && u.watch == t.watch && (forall p :: u.Watched(p) <==> t.Watched(p) && !(src <= p))
      && (forall p | u.Watched(p) :: u.WdOf(p) == t.WdOf(p))
      && (forall w | u.LiveWd(w) :: t.LiveWd(w))
  {
    var u := t.MoveOut(src);
    forall w | u.LiveWd(w)
      ensures t.LiveWd(w)
    {
      var p :| u.Watched(p) && u.WdOf(p) == w;
      assert t.Watched(p) && t.WdOf(p) == w;
    }
  }

  lemma MoveOutTracked(t: Tree, src: Path, c: Cache, zapped: set<Wd>)
    requires t.OneToOne() && Tracks(t, c) && Dead(t, zapped)
    ensures Tracks(t.MoveOut(src), c - Under(c, src)) && Dead(t.MoveOut(src), zapped + Under(c, src))
  {
    var u, c' := t.MoveOut(src), c - Under(c, src);
    MoveOutLive(t, src);
    forall w | w in c
      ensures w in t.watch.Values && (u.LiveWd(w) <==> w in c')
    {
      var p :| t.Watched(p) && t.WdOf(p) == w;
      assert c[w] == p;
      if w in c' {
        assert u.Watched(p) && u.WdOf(p) == w;
      } else {
        forall q | u.Watched(q)
          ensures u.WdOf(q) != w
        {
          assert t.Watched(q) && c[t.WdOf(q)] == q;
        }
      }
    }
  }

  lemma LeftEffect(t: Tree, src: Path, cookie: nat, c: Cache)
    requires Tracks(t, c) && |src| > 1 && t.Watched(Parent(src))
    ensures Effect(c, t.Left(Parent(src), Last(src), cookie), c - Under(c, src), {}, {src}, Under(c, src))
  {
    var q := t.Left(Parent(src), Last(src), cookie);
    var c1 := c - Under(c, src);
    assert q[1..] == [] && src == Parent(src) + [Last(src)];
    assert Replayable(c, q) && Next(c, q) == (c1, []);
    assert ReplayOK(c1, []);
    assert Pairs({}, {}) == {};
  }

  /** Moving out a directory, from a watched one, with whatever is below it. */
  lemma MoveOutConsistent(s: State, src: Path)
    requires s.k.Valid() && Consistent(s) && |src| > 1 && s.k.tree.Watched(Parent(src))
    ensures var s' := s.(k := s.k.MoveOut(src));
      && Consistent(s') && PendingOf(s') == PendingOf(s)
      && OvertakenOf(s') == OvertakenOf(s) + Pairs(PendingOf(s), {src})
  {
    var t, s' := s.k.tree, s.(k := s.k.MoveOut(src));
    var c, o, pending := FinalOf(s), OvertakenOf(s), PendingOf(s);
    var ext := t.Left(Parent(src), Last(src), s.k.nextCookie);
    assert t.OneToOne();
    LeftEffect(t, src, s.k.nextCookie, c);
    MoveOutTracked(t, src, c, ZappedOf(s));
    MoveOutClear(t, src, o, pending);
    assert Separate(s.k.queue, ext) && pending + {} == pending;
    hide RootedDirs, ReplayOK, Final, Pending, Sources, Zapped, Overtaken, Separate, Effect, Tracks, Dead, Clear,
         Tree.OneToOne, QueueValid, Tree.Left, Tree.MoveOut, Under;
    Append(s, s', ext, c - Under(c, src), {}, {src}, Under(c, src));
  }

  lemma MoveOutClear(t: Tree, src: Path, o: set<(Path, Path)>, pending: set<Path>)
    requires Clear(t, o)
    ensures Clear(t.MoveOut(src), o + Pairs(pending, {src}))
  {
    var u, o' := t.MoveOut(src), o + Pairs(pending, {src});
    forall q | q in u.dirs && Trapped(o', q)
      ensures u.Watched(q)
    {
      OldTrap(o, pending, src, q);
    }
  }

  // ---------- a rename as a move out of the tree and back into it ----------

  function Subtree(t: Tree, src: Path): map<Path, Ino> {
    assert forall p: Path | src <= p :: src + p[|src|..] == p;
    map x | x in (set p | p in t.dirs && src <= p :: p[|src|..]) :: t.dirs[src + x]
  }

  lemma SubtreeAt(t: Tree, src: Path, x: Path)
    ensures x in Subtree(t, src) <==> src + x in t.dirs
    ensures x in Subtree(t, src) ==> Subtree(t, src)[x] == t.dirs[src + x]
  {
    assert (src + x)[|src|..] == x;
    assert forall p: Path | src <= p :: src + p[|src|..] == p;
  }

  lemma MoveInAt(t: Tree, d: Path, sub: map<Path, Ino>, q: Path)
    ensures var v := t.MoveIn(d, sub);
      if d <= q && q[|d|..] in sub then q in v.dirs && v.dirs[q] == sub[q[|d|..]]
      else (q in v.dirs <==> q in t.dirs) && (q in v.dirs ==> v.dirs[q] == t.dirs[q])
  {
    if d <= q { assert q == d + q[|d|..]; }
    assert forall x: Path | q == d + x :: x == q[|d|..];
  }

  // Where a directory is that has been moved out and back in.
  lemma OutAndInAt(t: Tree, src: Path, dst: Path, q: Path)
    requires t.Valid() && t.CanRename(src, dst)
    ensures var v := t.MoveOut(src).MoveIn(dst, Subtree(t, src));
      if dst <= q then
        && (q in v.dirs <==> src + q[|dst|..] in t.dirs)
        && (q in v.dirs ==> v.dirs[q] == t.dirs[src + q[|dst|..]])
      else (q in v.dirs <==> q in t.dirs && !(src <= q)) && (q in v.dirs ==> v.dirs[q] == t.dirs[q])
  {
    var sub := Subtree(t, src);
    t.TargetEmpty(src, dst);
    assert src in t.dirs;
    hide RootedDirs, Tree.OneToOne, Subtree, Tree.MoveIn, Tree.CanRename, Tree.Valid;
    MoveInAt(t.MoveOut(src), dst, sub, q);
    if dst <= q {
      SubtreeAt(t, src, q[|dst|..]);
      if q == dst { assert q[|dst|..] == [] && src + [] == src; }
    }
  }

  lemma RenameIsOutAndIn(t: Tree, src: Path, dst: Path)
    requires t.Valid() && t.CanRename(src, dst)
    ensures t.MoveOut(src).MoveIn(dst, Subtree(t, src)) == t.Rename(src, dst)
  {
    hide *;
    OutAndInWatch(t, src, dst);
    var u, v := t.Rename(src, dst), t.MoveOut(src).MoveIn(dst, Subtree(t, src));
    forall q
      ensures (q in v.dirs <==> q in u.dirs) && (q in v.dirs ==> v.dirs[q] == u.dirs[q])
    {
      OutAndInAt(t, src, dst, q);
      RenamedAt(t, src, dst, q);
    }
    SameMap(u.dirs, v.dirs);
  }

  lemma SameMap(a: map<Path, Ino>, b: map<Path, Ino>)
    requires forall q :: (q in b <==> q in a) && (q in b ==> b[q] == a[q])
    ensures a == b
  {
  }

  lemma OutAndInWatch(t: Tree, src: Path, dst: Path)
    requires t.Valid() && t.CanRename(src, dst)
    ensures t.Rooted()
    ensures var u, v := t.Rename(src, dst), t.MoveOut(src).MoveIn(dst, Subtree(t, src));
      u.roots == v.roots && u.watch == v.watch
  {
    hide RootedDirs, Tree.OneToOne, Subtree;
  }

  lemma RenamedAt(t: Tree, src: Path, dst: Path, q: Path)
    requires t.Valid() && t.CanRename(src, dst)
    ensures var u := t.Rename(src, dst);
      if dst <= q then
        && (q in u.dirs <==> src + q[|dst|..] in t.dirs)
        && (q in u.dirs ==> u.dirs[q] == t.dirs[src + q[|dst|..]])
      else (q in u.dirs <==> q in t.dirs && !(src <= q)) && (q in u.dirs ==> u.dirs[q] == t.dirs[q])
  {
    var u := t.Rename(src, dst);
    RenamedParts(t, src, dst);
    if q in u.dirs { NothingLeft(t, src, dst, q); }
    assert !(src <= dst);
    hide *;
    if dst <= q {
      ThereBelow(src, dst, q);
    } else if q in t.dirs && !(src <= q) {
      assert q != dst;
      ElsewhereSame(src, dst, q);
    }
  }

  lemma ThereBelow(src: Path, dst: Path, q: Path)
    requires dst <= q && !(src <= dst)
    ensures Rebase(dst, src, q) == src + q[|dst|..] != dst && Rebase(src, dst, src + q[|dst|..]) == q
  {
    var p := src + q[|dst|..];
    assert src <= p && p[|src|..] == q[|dst|..];
  }

  lemma ElsewhereSame(src: Path, dst: Path, q: Path)
    requires !(src <= q)
    ensures Rebase(src, dst, q) == q
  {
  }

  lemma SubtreeArrives(t: Tree, src: Path, dst: Path)
    requires t.Valid() && t.CanRename(src, dst) && Unknown(t, src)
    ensures t.MoveOut(src).CanMoveIn(Parent(dst), Last(dst), Subtree(t, src))
  {
    var u, sub := t.MoveOut(src), Subtree(t, src);
    LeavesTarget(t, src, dst);
    hide RootedDirs, Tree.OneToOne, Subtree, Tree.MoveOut, Tree.Valid, Tree.CanRename, Unknown, ValidName, Tree.Leaf;
    SubtreeAt(t, src, []);
    forall x | x in sub
      ensures (forall i | 0 <= i < |x| :: ValidName(x[i])) && (x != [] ==> Parent(x) in sub)
      ensures sub[x] !in u.dirs.Values && sub[x] !in u.watch
      ensures forall y | y in sub && sub[x] == sub[y] :: x == y
    {
      SubtreeAt(t, src, x);
      SubtreeOf(t, src, x);
    }
  }

  lemma LeavesTarget(t: Tree, src: Path, dst: Path)
    requires t.CanRename(src, dst)
    ensures |src| > 1 && src + [] == src && src in t.dirs && dst != [] && dst == Parent(dst) + [Last(dst)]
    ensures var u := t.MoveOut(src);
      && u.watch == t.watch && Parent(dst) in u.dirs && ValidName(Last(dst)) && (dst in u.dirs ==> u.Leaf(dst))
  {
    assert dst == Parent(dst) + [Last(dst)] && !(src <= Parent(dst));
    hide ValidName;
  }

  lemma SubtreeOf(t: Tree, src: Path, x: Path)
    requires t.Valid() && |src| > 1 && src + x in t.dirs && Unknown(t, src)
    ensures (forall i | 0 <= i < |x| :: ValidName(x[i])) && (x != [] ==> Parent(x) in Subtree(t, src))
    ensures t.dirs[src + x] !in t.MoveOut(src).dirs.Values && t.dirs[src + x] !in t.watch
    ensures forall y | y in Subtree(t, src) && Subtree(t, src)[y] == t.dirs[src + x] :: x == y
  {
    var p := src + x;
    assert ValidPath(t.roots, p) && ParentLive(t.dirs, p);
    forall i | 0 <= i < |x| ensures ValidName(x[i]) { assert x[i] == p[|src| + i]; }
    assert !t.Watched(p);
    if x != [] {
      assert Parent(p) == src + Parent(x);
      SubtreeAt(t, src, Parent(x));
    }
    forall y | y in Subtree(t, src) && Subtree(t, src)[y] == t.dirs[p]
      ensures x == y
    {
      SubtreeAt(t, src, y);
      assert x == p[|src|..] && y == (src + y)[|src|..];
    }
    hide RootedDirs, Subtree;
  }
}
