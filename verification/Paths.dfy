/** Pathnames of watched directories: as the list of names the kernel walks, and as the
    strings inotify_dtree.c keeps in its cache. */
module Paths {

  type Name = string

  // A command-line root followed by one name per directory level.
  type Path = seq<string>

  const NAME_MAX: nat := 255

  predicate ValidName(n: Name) {
    n != "" && |n| <= NAME_MAX && '/' !in n
  }

  // strncmp(a, b, strlen(a)) == 0 followed by the test for '/' or the terminator at strlen(a).
  predicate Below(a: string, b: string) {
    a <= b && (|a| == |b| || b[|a|] == '/')
  }

  // The root pathnames are not nested in one another.
  predicate ValidRoots(roots: set<string>) {
    forall r, s | r in roots && s in roots && Below(r, s) :: r == s
  }

  predicate ValidPath(roots: set<string>, p: Path) {
    && p != []
    && p[0] in roots
    && forall i | 1 <= i < |p| :: ValidName(p[i])
  }

  function Parent(p: Path): Path
    requires p != []
  {
    p[..|p| - 1]
  }

  function Last(p: Path): Name
    requires p != []
  {
    p[|p| - 1]
  }

  function Tail(names: seq<Name>): string {
    if names == [] then "" else "/" + names[0] + Tail(names[1..])
  }

  function Render(p: Path): string
    requires p != []
  {
    p[0] + Tail(p[1..])
  }

  // Moving the directory src to dst, seen by the path q.
  function Rebase(src: Path, dst: Path, q: Path): Path {
    if src <= q then dst + q[|src|..] else q
  }

  // The same move on cached strings.
  function Splice(src: string, dst: string, s: string): string {
    if Below(src, s) then dst + s[|src|..] else s
  }

  lemma {:induction false} TailAppend(a: seq<Name>, b: seq<Name>)
    ensures Tail(a + b) == Tail(a) + Tail(b)
  {
    if a == [] {
      assert a + b == b;
    } else {
      assert (a + b)[1..] == a[1..] + b;
      TailAppend(a[1..], b);
    }
  }

  lemma RenderAppend(p: Path, names: seq<Name>)
    requires p != []
    ensures Render(p + names) == Render(p) + Tail(names)
  {
    assert (p + names)[1..] == p[1..] + names;
    TailAppend(p[1..], names);
  }

  /** snprintf("%s/%s") of a directory's pathname and an entry's name is the entry's pathname. */
  lemma RenderChild(p: Path, n: Name)
    requires p != []
    ensures Render(p + [n]) == Render(p) + "/" + n
  {
    RenderAppend(p, [n]);
    assert Tail([n]) == "/" + n + Tail([]);
  }

  // Two names that both end at a separator (or at the end) of the same text are equal.
  lemma NameBoundary(n: Name, a: string, m: Name, b: string)
    requires ValidName(n) && ValidName(m)
    requires n + a <= m + b
    requires a == "" || a[0] == '/'
    requires b == "" || b[0] == '/'
    requires |n + a| == |m + b| || (m + b)[|n + a|] == '/'
    ensures n == m && a <= b
  {
    var s := m + b;
    assert forall i | 0 <= i < |n| :: s[i] == n[i];
    assert forall i | 0 <= i < |m| :: s[i] == m[i];
    assert a != "" ==> s[|n|] == (n + a)[|n|] == '/';
    assert b != "" ==> s[|m|] == '/';
    assert |n| == |m| by {
      if |n| < |m| || |m| < |n| { assert false; }
    }
    assert n == s[..|n|] == m;
    assert a == s[|n|..][..|a|];
  }

  lemma {:induction false} TailBelow(a: seq<Name>, b: seq<Name>)
    requires forall i | 0 <= i < |a| :: ValidName(a[i])
    requires forall i | 0 <= i < |b| :: ValidName(b[i])
    ensures Below(Tail(a), Tail(b)) <==> a <= b
  {
    if a == [] {
      assert Below("", Tail(b));
    } else if b != [] {
      var s, t := a[0] + Tail(a[1..]), b[0] + Tail(b[1..]);
      assert Tail(a) == "/" + s && Tail(b) == "/" + t;
      assert Tail(a)[1..] == s && Tail(b)[1..] == t;
      TailBelow(a[1..], b[1..]);
      if Below(Tail(a), Tail(b)) {
        assert s <= t;
        NameBoundary(a[0], Tail(a[1..]), b[0], Tail(b[1..]));
        assert Below(Tail(a[1..]), Tail(b[1..]));
        assert a == [a[0]] + a[1..] && b == [b[0]] + b[1..];
      }
      if a <= b {
        assert a[1..] <= b[1..];
        assert Below(s, t);
      }
    }
  }

  /** The cache's string test finds exactly the named directory and its descendants. */
  lemma BelowIsPrefix(roots: set<string>, p: Path, q: Path)
    requires ValidRoots(roots) && ValidPath(roots, p) && ValidPath(roots, q)
    ensures Below(Render(p), Render(q)) <==> p <= q
  {
    TailBelow(p[1..], q[1..]);
    if p[0] == q[0] {
      assert Below(Render(p), Render(q)) <==> Below(Tail(p[1..]), Tail(q[1..])) by {
        assert Render(p)[|p[0]|..] == Tail(p[1..]);
        assert Render(q)[|q[0]|..] == Tail(q[1..]);
      }
      assert p == [p[0]] + p[1..] && q == [q[0]] + q[1..];
    } else if Below(Render(p), Render(q)) {
      RootBelow(p[0], Tail(p[1..]), q[0], Tail(q[1..]));
      assert false;
    }
  }

  lemma RootBelow(r: string, a: string, s: string, b: string)
    requires Below(r + a, s + b)
    requires a == "" || a[0] == '/'
    requires b == "" || b[0] == '/'
    ensures Below(r, s) || Below(s, r)
  {
    var t := s + b;
    assert forall i | 0 <= i < |r| :: t[i] == (r + a)[i] == r[i];
    if |r| < |s| {
      assert t[|r|] == s[|r|];
      assert a != "" ==> t[|r|] == (r + a)[|r|] == '/';
      assert a == "" ==> r + a == r;
      assert r == s[..|r|];
    } else {
      assert s == r[..|s|];
      assert |s| < |r| ==> t[|s|] == b[0] == r[|s|];
    }
  }

  lemma RenderInjective(roots: set<string>, p: Path, q: Path)
    requires ValidRoots(roots) && ValidPath(roots, p) && ValidPath(roots, q)
    requires Render(p) == Render(q)
    ensures p == q
  {
    BelowIsPrefix(roots, p, q);
    BelowIsPrefix(roots, q, p);
  }

  /** rewriteCachedPaths' string surgery is component-wise prefix replacement, so a/bc is never
      touched by a move of a/b. */
  lemma SpliceIsRebase(roots: set<string>, src: Path, dst: Path, q: Path)
    requires ValidRoots(roots) && ValidPath(roots, src) && ValidPath(roots, q) && dst != []
    ensures Splice(Render(src), Render(dst), Render(q)) == Render(Rebase(src, dst, q))
  {
    BelowIsPrefix(roots, src, q);
    if src <= q {
      assert q == src + q[|src|..];
      RenderAppend(src, q[|src|..]);
      RenderAppend(dst, q[|src|..]);
    }
  }

  /** Moving a directory there and back restores exactly the paths that were not below the target,
      unless they were below the source too. */
  lemma RebaseThereAndBack(src: Path, dst: Path, q: Path)
    ensures Rebase(dst, src, Rebase(src, dst, q)) == q <==> (dst <= q ==> src <= q)
  {
    if src <= q {
      assert (dst + q[|src|..])[|dst|..] == q[|src|..];
    }
  }

  lemma RebaseInjective(src: Path, dst: Path, p: Path, q: Path)
    requires !(dst <= p) && !(dst <= q)
    requires Rebase(src, dst, p) == Rebase(src, dst, q)
    ensures p == q
  {
    RebaseThereAndBack(src, dst, p);
    RebaseThereAndBack(src, dst, q);
  }
}
