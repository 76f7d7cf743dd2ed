/** The tree after each change that other processes can make: it is a tree again. */
module TreeChanges {
  import opened Paths
  import opened DirTree

  // ---------- new directories ----------

  // A new directory d = p/n, possibly with unwatched directories below it.
  ghost predicate Grown(t: Tree, u: Tree, p: Path, n: Name) {
    && u.roots == t.roots && u.watch == t.watch && p in t.dirs && p + [n] !in t.dirs
    && (forall q | q in t.dirs :: q in u.dirs && u.dirs[q] == t.dirs[q])
    && (forall q | q in u.dirs && q !in t.dirs ::
          u.dirs[q] !in u.watch && (q != p + [n] ==> Parent'(q) !in t.dirs))
  }

  function Parent'(q: Path): Path {
    if q == [] then [] else Parent(q)
  }

  lemma GrownValid(t: Tree, u: Tree, p: Path, n: Name)
    requires t.Valid() && Grown(t, u, p, n) && ValidName(n)
    requires forall q | q in u.dirs && q !in t.dirs :: p + [n] <= q && (q != p + [n] ==> Parent(q) in u.dirs)
    requires forall q | q in u.dirs && q !in t.dirs :: forall i | |p| < i < |q| :: ValidName(q[i])
    requires forall q, r | q in u.dirs && r in u.dirs && u.dirs[q] == u.dirs[r] :: q == r
    ensures u.Valid()
  {
    assert ValidPath(t.roots, p);
    forall q | q in u.dirs
      ensures ValidPath(u.roots, q) && ParentLive(u.dirs, q)
    {
      if q in t.dirs {
        assert ValidPath(t.roots, q) && ParentLive(t.dirs, q);
      } else {
        GrownPath(t.roots, p, n, q);
      }
    }
  }

  lemma GrownPath(roots: set<string>, p: Path, n: Name, q: Path)
    requires ValidPath(roots, p) && ValidName(n) && p + [n] <= q
    requires forall i | |p| < i < |q| :: ValidName(q[i])
    ensures ValidPath(roots, q) && (q == p + [n] ==> Parent(q) == p)
  {
    var d := p + [n];
    assert q[..|d|] == d;
    assert forall i | 0 <= i < |p| :: q[i] == d[i] == p[i];
    assert q[|p|] == d[|p|] == n;
  }

  lemma MkdirGrown(t: Tree, p: Path, n: Name, ino: Ino)
    requires t.Valid() && t.CanMkdir(p, n, ino)
    ensures t.Mkdir(p + [n], ino).Valid() && Grown(t, t.Mkdir(p + [n], ino), p, n)
  {
    GrownValid(t, t.Mkdir(p + [n], ino), p, n);
  }

  lemma MoveInGrown(t: Tree, p: Path, n: Name, sub: map<Path, Ino>)
    requires t.Valid() && t.CanMoveIn(p, n, sub) && p + [n] !in t.dirs
    ensures t.MoveIn(p + [n], sub).Valid() && Grown(t, t.MoveIn(p + [n], sub), p, n)
  {
    var d := p + [n];
    var u := t.MoveIn(d, sub);
    MoveInDirs(t, p, n, sub);
    MoveInIsGrowth(t, p, n, sub);
    assert ValidName(n) && t.OneToOne();
    GraftedApart(t, u, d, sub);
    hide *;
    GrownValid(t, u, p, n);
  }

  lemma MoveInIsGrowth(t: Tree, p: Path, n: Name, sub: map<Path, Ino>)
    requires t.Rooted() && t.CanMoveIn(p, n, sub) && p + [n] !in t.dirs
    ensures Grown(t, t.MoveIn(p + [n], sub), p, n)
  {
    MoveInDirs(t, p, n, sub);
    hide RootedDirs, ValidName;
  }

  lemma MoveInDirs(t: Tree, p: Path, n: Name, sub: map<Path, Ino>)
    requires t.Rooted() && t.CanMoveIn(p, n, sub) && p + [n] !in t.dirs
    ensures var d, u := p + [n], t.MoveIn(p + [n], sub);
      && (forall q | q in t.dirs :: q in u.dirs && u.dirs[q] == t.dirs[q])
      && (forall q | q in u.dirs && q !in t.dirs ::
            && d <= q && q[|d|..] in sub && u.dirs[q] == sub[q[|d|..]] && q == d + q[|d|..]
            && (q != d ==> Parent(q) in u.dirs && Parent(q) !in t.dirs)
            && forall i | |p| < i < |q| :: ValidName(q[i]))
  {
    var d, u := p + [n], t.MoveIn(p + [n], sub);
    forall q | q in t.dirs
      ensures q in u.dirs && u.dirs[q] == t.dirs[q]
    {
      if d <= q { t.AncestorsLive(d, q); }
    }
    hide RootedDirs, ValidName;
    forall q | q in u.dirs && q !in t.dirs
      ensures d <= q && q[|d|..] in sub && u.dirs[q] == sub[q[|d|..]] && q == d + q[|d|..]
      ensures q != d ==> Parent(q) in u.dirs && Parent(q) !in t.dirs
      ensures forall i | |p| < i < |q| :: ValidName(q[i])
    {
      Grafted(t, d, sub, q);
    }
  }

  lemma GraftedApart(t: Tree, u: Tree, d: Path, sub: map<Path, Ino>)
    requires t.OneToOne()
    requires forall q | q in u.dirs && q in t.dirs :: u.dirs[q] == t.dirs[q]
    requires forall q | q in u.dirs && q !in t.dirs ::
      d <= q && q == d + q[|d|..] && q[|d|..] in sub && u.dirs[q] == sub[q[|d|..]]
    requires forall s | s in sub :: sub[s] !in t.dirs.Values
    requires forall s, t | s in sub && t in sub && sub[s] == sub[t] :: s == t
    ensures forall q, r | q in u.dirs && r in u.dirs && u.dirs[q] == u.dirs[r] :: q == r
  {
  }

  lemma Grafted(t: Tree, d: Path, sub: map<Path, Ino>, q: Path)
    requires t.Rooted() && d != [] && d !in t.dirs && q in t.MoveIn(d, sub).dirs && q !in t.dirs
    requires forall s | s in sub :: (forall i | 0 <= i < |s| :: ValidName(s[i])) && (s != [] ==> Parent(s) in sub)
    ensures d <= q && q[|d|..] in sub && t.MoveIn(d, sub).dirs[q] == sub[q[|d|..]]
    ensures q != d ==> Parent(q) in t.MoveIn(d, sub).dirs && Parent(q) !in t.dirs
    ensures forall i | |d| <= i < |q| :: ValidName(q[i])
  {
    var s :| s in sub && q == d + s;
    assert q[|d|..] == s;
    assert forall i | |d| <= i < |q| :: q[i] == s[i - |d|];
    if q != d {
      var s' := Parent(s);
      assert s' in sub && Parent(q) == d + s';
      if Parent(q) in t.dirs { t.AncestorsLive(d, Parent(q)); }
    }
  }

  lemma RmdirValid(t: Tree, d: Path)
    requires t.Valid() && t.CanRmdir(d)
    ensures t.Rmdir(d).Valid()
  {
    var u := t.Rmdir(d);
    forall p | p in u.dirs
      ensures ParentLive(u.dirs, p)
    {
      assert ParentLive(t.dirs, p);
      assert |p| > 1 ==> Parent(p) <= p;
    }
  }

  // Moving in over an empty directory is removing that directory first.
  lemma MoveInValid(t: Tree, p: Path, n: Name, sub: map<Path, Ino>)
    requires t.Valid() && t.CanMoveIn(p, n, sub)
    ensures t.MoveIn(p + [n], sub).Valid()
  {
    var d := p + [n];
    if d in t.dirs {
      assert t.CanRmdir(d) by { assert ValidPath(t.roots, p); }
      hide RootedDirs, Tree.OneToOne;
      RmdirValid(t, d);
      RmdirFirst(t, p, n, sub);
      MoveInGrown(t.Rmdir(d), p, n, sub);
    } else {
      MoveInGrown(t, p, n, sub);
    }
  }

  lemma RmdirFirst(t: Tree, p: Path, n: Name, sub: map<Path, Ino>)
    requires t.CanMoveIn(p, n, sub) && p + [n] in t.dirs
    ensures var u := t.Rmdir(p + [n]); u.CanMoveIn(p, n, sub) && u.MoveIn(p + [n], sub) == t.MoveIn(p + [n], sub)
  {
    RmdirLeaves(t, p, n);
    hide ValidName, Tree.Leaf;
    RmdirReplaces(t, p + [n], sub);
  }

  lemma RmdirLeaves(t: Tree, p: Path, n: Name)
    requires p in t.dirs && p + [n] in t.dirs
    ensures var d, u := p + [n], t.Rmdir(p + [n]);
      && d !in u.dirs && p in u.dirs && (forall i | i in u.watch :: i in t.watch)
      && forall i | i in u.dirs.Values :: i in t.dirs.Values
  {
    var u := t.Rmdir(p + [n]);
    assert forall q | q in u.dirs :: q in t.dirs && u.dirs[q] == t.dirs[q];
  }

  lemma RmdirReplaces(t: Tree, d: Path, sub: map<Path, Ino>)
    requires d in t.dirs && [] in sub
    ensures t.Rmdir(d).MoveIn(d, sub) == t.MoveIn(d, sub)
  {
    assert d == d + [];
    assert t.Rmdir(d).MoveIn(d, sub).dirs == t.MoveIn(d, sub).dirs;
  }

  // ---------- moves ----------

  // The path p of a live directory after the move, and the directory above it then.
  lemma RebasedPath(t: Tree, src: Path, dst: Path, p: Path) returns (above: Path)
    requires t.Rooted() && t.CanRename(src, dst) && p in t.dirs && p != dst
    ensures ValidPath(t.roots, Rebase(src, dst, p))
    ensures |Rebase(src, dst, p)| > 1 ==>
      above in t.dirs && above != dst && Rebase(src, dst, above) == Parent(Rebase(src, dst, p))
  {
    t.TargetEmpty(src, dst);
    assert ValidPath(t.roots, p) && ParentLive(t.dirs, p) && ValidPath(t.roots, Parent(dst));
    assert |p| > 1 ==> Parent(p) <= p;
    above := if p == src then Parent(dst) else if |p| > 1 then Parent(p) else p;
    if src <= p {
      RebasedBelow(t.roots, src, dst, p);
      if p == src {
        assert Parent(dst) <= dst;
      }
    }
  }

  lemma RebasedBelow(roots: set<string>, src: Path, dst: Path, p: Path)
    requires |src| > 1 && src <= p && ValidPath(roots, p)
    requires |dst| > 1 && ValidPath(roots, Parent(dst)) && ValidName(Last(dst))
    ensures ValidPath(roots, Rebase(src, dst, p))
    ensures p == src ==> Rebase(src, dst, p) == dst
    ensures p != src ==> Parent(Rebase(src, dst, p)) == Rebase(src, dst, Parent(p))
  {
    var q := Rebase(src, dst, p);
    assert dst[0] == Parent(dst)[0];
    forall i | 1 <= i < |q|
      ensures ValidName(q[i])
    {
      if i < |dst| - 1 {
        assert q[i] == Parent(dst)[i];
      } else if i >= |dst| {
        assert q[i] == p[i - |dst| + |src|];
      }
    }
  }

  lemma RenameValid(t: Tree, src: Path, dst: Path)
    requires t.Valid() && t.CanRename(src, dst)
    ensures t.Rename(src, dst).Valid()
  {
    t.TargetEmpty(src, dst);
    RebasedApart(t.dirs, src, dst);
    RenameRooted(t, src, dst);
  }

  lemma RenameRooted(t: Tree, src: Path, dst: Path)
    requires t.Rooted() && t.CanRename(src, dst)
    ensures t.Rename(src, dst).Rooted()
  {
    t.TargetEmpty(src, dst);
    var dirs := Rebased(t.dirs, src, dst);
    forall r | r in t.roots
      ensures [r] in dirs
    {
      RebasedRoot(t, src, dst, r);
    }
    forall q | q in dirs
      ensures ValidPath(t.roots, q) && ParentLive(dirs, q)
    {
      RebasedLive(t, src, dst, q);
    }
  }

  lemma RebasedLive(t: Tree, src: Path, dst: Path, q: Path)
    requires t.Rooted() && t.CanRename(src, dst)
    requires forall p | p in t.dirs && p != dst :: !(dst <= p)
    requires q in Rebased(t.dirs, src, dst)
    ensures ValidPath(t.roots, q) && ParentLive(Rebased(t.dirs, src, dst), q)
  {
    RebasedBack(t.dirs, src, dst);
    var above := RebasedPath(t, src, dst, Rebase(dst, src, q));
  }

  lemma RebasedRoot(t: Tree, src: Path, dst: Path, r: string)
    requires t.Rooted() && t.CanRename(src, dst) && r in t.roots
    requires forall p | p in t.dirs && p != dst :: !(dst <= p)
    ensures [r] in Rebased(t.dirs, src, dst)
  {
    assert [r] in t.dirs && Rebase(src, dst, [r]) == [r];
  }

  lemma RebasedBack(dirs: map<Path, Ino>, src: Path, dst: Path)
    requires forall p | p in dirs && p != dst :: !(dst <= p)
    ensures var m := Rebased(dirs, src, dst);
      && (forall p | p in dirs && p != dst ::
            Rebase(src, dst, p) in m && m[Rebase(src, dst, p)] == dirs[p] && Rebase(dst, src, Rebase(src, dst, p)) == p)
      && (forall q | q in m ::
            var p := Rebase(dst, src, q); p in dirs && p != dst && Rebase(src, dst, p) == q)
  {
    forall p | p in dirs && p != dst
      ensures Rebase(dst, src, Rebase(src, dst, p)) == p
    {
      RebaseThereAndBack(src, dst, p);
    }
    forall q | q in Rebased(dirs, src, dst)
      ensures var p := Rebase(dst, src, q); p in dirs && p != dst && Rebase(src, dst, p) == q
    {
      var p :| p in dirs && p != dst && Rebase(src, dst, p) == q;
    }
  }

  lemma MoveOutValid(t: Tree, src: Path)
    requires t.Valid() && src in t.dirs && |src| > 1
    ensures t.MoveOut(src).Valid()
  {
    var u := t.MoveOut(src);
    forall p | p in u.dirs
      ensures ParentLive(u.dirs, p)
    {
      assert ParentLive(t.dirs, p);
      assert |p| > 1 && src <= Parent(p) ==> src <= p;
    }
  }
}
