/** The cache of inotify_dtree.c converges to the directory tree, whatever other processes do. */
module CacheConvergence {
  import opened Paths
  import opened DirTree
  import opened CacheProtocol

  // What makes a traversal add exactly the unwatched directories.
  ghost predicate Walkable(s: State) {
    && s.k.tree.OneToOne()
    && (forall i | i in s.k.tree.watch :: s.k.tree.watch[i] < s.k.nextWd)
    && (forall w | w in s.cache :: w < s.k.nextWd)
    && (forall p | s.k.tree.Watched(p) :: s.k.tree.WdOf(p) in s.cache)
  }

  ghost predicate Ready(s: State) {
    Walkable(s) && forall p | s.k.tree.Watched(p) :: s.cache[s.k.tree.WdOf(p)] == p
  }

  ghost predicate Extends(s: State, t: State) {
    && t.k == s.k.(tree := s.k.tree.(watch := t.k.tree.watch), nextWd := t.k.nextWd) && s.k.nextWd <= t.k.nextWd
    && (forall i | i in s.k.tree.watch :: i in t.k.tree.watch && t.k.tree.watch[i] == s.k.tree.watch[i])
    && (forall i | i in t.k.tree.watch && i !in s.k.tree.watch :: t.k.tree.watch[i] >= s.k.nextWd)
    && (forall w | w in s.cache :: w in t.cache && t.cache[w] == s.cache[w])
    && (forall w | w in t.cache && w !in s.cache ::
          t.k.tree.Watched(t.cache[w]) && t.k.tree.WdOf(t.cache[w]) == w && !s.k.tree.Watched(t.cache[w]))
  }

  lemma VisitEffect(s: State, p: Path)
    requires Walkable(s)
    ensures Walkable(Visit(s, p)) && Extends(s, Visit(s, p)) && (Ready(s) ==> Ready(Visit(s, p)))
    ensures forall q | q in s.k.tree.dirs :: Visit(s, p).k.tree.Watched(q) <==> s.k.tree.Watched(q) || q == p
  {
    var v := Visit(s, p);
    forall q | v.k.tree.Watched(q)
      ensures v.k.tree.WdOf(q) in v.cache && (Ready(s) ==> v.cache[v.k.tree.WdOf(q)] == q)
    {
      if !s.k.tree.Watched(q) { assert q == p; }
    }
  }

  lemma {:induction false} WalkEffect(s: State, order: seq<Path>)
    requires Walkable(s)
    ensures Walkable(Walk(s, order)) && Extends(s, Walk(s, order)) && (Ready(s) ==> Ready(Walk(s, order)))
    ensures forall p | p in s.k.tree.dirs ::
      Walk(s, order).k.tree.Watched(p) <==> s.k.tree.Watched(p) || p in order
    decreases |order|
  {
    if order != [] {
      var v := Visit(s, order[0]);
      VisitEffect(s, order[0]);
      WalkEffect(v, order[1..]);
      assert forall p :: p in order <==> p == order[0] || p in order[1..];
    }
  }

  // The entries that a traversal has added.
  function New(c: Cache, c': Cache): Cache {
    map w | w in c' && w !in c :: c'[w]
  }

  lemma NewEntry(s: State, t: State, p: Path)
    requires Walkable(s) && Walkable(t) && Extends(s, t) && t.k.tree.Watched(p) && !s.k.tree.Watched(p)
    ensures var w := t.k.tree.WdOf(p); w in t.cache && w !in s.cache && t.cache[w] == p
  {
    var u, w := t.k.tree, t.k.tree.WdOf(p);
    assert u.dirs == s.k.tree.dirs;
    assert w >= s.k.nextWd;
    var q := t.cache[w];
    assert u.Watched(q) && u.WdOf(q) == w;
    assert u.dirs[q] == u.dirs[p];
  }

  lemma NewEntries(s: State, t: State)
    requires Walkable(s) && Walkable(t) && Extends(s, t)
    ensures t.cache == s.cache + New(s.cache, t.cache) && s.cache.Keys !! New(s.cache, t.cache).Keys
    ensures forall p :: p in New(s.cache, t.cache).Values <==> t.k.tree.Watched(p) && !s.k.tree.Watched(p)
  {
    var n := New(s.cache, t.cache);
    forall p | t.k.tree.Watched(p) && !s.k.tree.Watched(p)
      ensures p in n.Values
    {
      NewEntry(s, t, p);
      assert n[t.k.tree.WdOf(p)] == p;
    }
    hide Walkable;
  }
}
