/** Reading the event queue ahead: what is appended to it, and what traversals add to the cache on the
    way, change nothing about how the rest will be handled. */
module CacheReplay {
  import opened Paths
  import opened DirTree
  import opened CacheProtocol

  // ---------- queues read left to right ----------

  predicate Separate(q: seq<Event>, r: seq<Event>) {
    q == [] || r == [] || !Paired([q[|q| - 1], r[0]])
  }

  // What comes later in the queue plays no part in handling its head.
  lemma NextAppend(c: Cache, q: seq<Event>, r: seq<Event>)
    requires q != [] && Separate(q, r) && Replayable(c, q)
    ensures Replayable(c, q + r) && Next(c, q + r) == (Next(c, q).0, Next(c, q).1 + r) && Separate(Next(c, q).1, r)
    ensures Announced(c, q + r) == Announced(c, q) && Departing(c, q + r) == Departing(c, q)
    ensures DroppedHere(c, q + r) == DroppedHere(c, q)
  {
    assert (q + r)[1..] == q[1..] + r;
    if |q| > 1 { assert (q + r)[2..] == q[2..] + r; }
    assert Paired(q + r) == Paired(q);
  }

  lemma NextNeeds(c: Cache, q: seq<Event>, r: seq<Event>)
    requires q != [] && Separate(q, r) && Replayable(c, q + r)
    ensures Replayable(c, q)
  {
    assert Paired(q + r) == Paired(q);
  }

  lemma PairsUnion(a: set<Path>, b: set<Path>, c: set<Path>, d: set<Path>)
    ensures Pairs(a, c + d) == Pairs(a, c) + Pairs(a, d) && Pairs(a + b, c) == Pairs(a, c) + Pairs(b, c)
  {
  }

  /** A queue is handled as its first part is, and then the rest, from the cache that leaves. */
  lemma {:induction false} Split(c: Cache, q: seq<Event>, r: seq<Event>)
    requires ReplayOK(c, q) && Separate(q, r)
    ensures ReplayOK(c, q + r) <==> ReplayOK(Final(c, q), r)
    ensures ReplayOK(c, q + r) ==>
      && Final(c, q + r) == Final(Final(c, q), r)
      && Pending(c, q + r) == Pending(c, q) + Pending(Final(c, q), r)
      && Sources(c, q + r) == Sources(c, q) + Sources(Final(c, q), r)
      && Zapped(c, q + r) == Zapped(c, q) + Zapped(Final(c, q), r)
      && Overtaken(c, q + r)
         == Overtaken(c, q) + Pairs(Pending(c, q), Sources(Final(c, q), r)) + Overtaken(Final(c, q), r)
    decreases |q|
  {
    if q == [] {
      assert q + r == r;
    } else {
      var (c1, q1) := Next(c, q);
      NextAppend(c, q, r);
      Split(c1, q1, r);
      if ReplayOK(c, q + r) {
        SplitStep(c, q, r, c1, q1);
      }
      hide Replayable, Next;
    }
  }

  lemma SplitStep(c: Cache, q: seq<Event>, r: seq<Event>, c1: Cache, q1: seq<Event>)
    requires ReplayOK(c, q) && ReplayOK(c, q + r) && q != [] && Replayable(c, q) && Next(c, q) == (c1, q1)
    requires Replayable(c, q + r) && Next(c, q + r) == (c1, q1 + r) && ReplayOK(c1, q1) && ReplayOK(c1, q1 + r)
    requires Announced(c, q + r) == Announced(c, q) && Departing(c, q + r) == Departing(c, q)
    requires DroppedHere(c, q + r) == DroppedHere(c, q)
    requires ReplayOK(Final(c1, q1), r)
    requires Final(c1, q1 + r) == Final(Final(c1, q1), r)
    requires Pending(c1, q1 + r) == Pending(c1, q1) + Pending(Final(c1, q1), r)
    requires Sources(c1, q1 + r) == Sources(c1, q1) + Sources(Final(c1, q1), r)
    requires Zapped(c1, q1 + r) == Zapped(c1, q1) + Zapped(Final(c1, q1), r)
    requires Overtaken(c1, q1 + r)
      == Overtaken(c1, q1) + Pairs(Pending(c1, q1), Sources(Final(c1, q1), r)) + Overtaken(Final(c1, q1), r)
    ensures Final(c, q) == Final(c1, q1)
    ensures Final(c, q + r) == Final(Final(c, q), r)
    ensures Pending(c, q + r) == Pending(c, q) + Pending(Final(c, q), r)
    ensures Sources(c, q + r) == Sources(c, q) + Sources(Final(c, q), r)
    ensures Zapped(c, q + r) == Zapped(c, q) + Zapped(Final(c, q), r)
    ensures Overtaken(c, q + r)
      == Overtaken(c, q) + Pairs(Pending(c, q), Sources(Final(c, q), r)) + Overtaken(Final(c, q), r)
  {
    var f, a := Final(c1, q1), Announced(c, q);
    hide Replayable, Next, Announced, Departing, DroppedHere, Pairs;
    PairsUnion(a, Pending(c1, q1), Sources(c1, q1), Sources(f, r));
    PairsUnion(a, Pending(c1, q1), Sources(f, r), {});
    Regroup(a, Pending(c1, q1), Pending(f, r));
    Regroup(Departing(c, q), Sources(c1, q1), Sources(f, r));
    Regroup(DroppedHere(c, q), Zapped(c1, q1), Zapped(f, r));
    Regroup4(Pairs(a, Sources(c1, q1)), Pairs(a, Sources(f, r)), Overtaken(c1, q1),
               Pairs(Pending(c1, q1), Sources(f, r)), Overtaken(f, r));
  }

  lemma Regroup<T>(h: set<T>, a: set<T>, b: set<T>)
    ensures h + (a + b) == (h + a) + b
  {
  }

  lemma Regroup4<T>(a: set<T>, b: set<T>, c: set<T>, d: set<T>, e: set<T>)
    ensures (a + b) + (c + d + e) == (a + c) + (b + d) + e
  {
  }

  // ---------- what never changes ----------

  lemma {:induction false} FinalKeys(c: Cache, q: seq<Event>)
    requires ReplayOK(c, q)
    ensures Final(c, q).Keys <= c.Keys && Zapped(c, q) <= c.Keys && Final(c, q).Keys !! Zapped(c, q)
    decreases |q|
  {
    if q != [] {
      FinalKeys(Next(c, q).0, Next(c, q).1);
      hide ReplayOK, Loggable;
    }
  }

  lemma {:induction false} NoOverflow(c: Cache, q: seq<Event>)
    requires ReplayOK(c, q)
    ensures Overflow !in q
    decreases |q|
  {
    if q != [] {
      NoOverflow(Next(c, q).0, Next(c, q).1);
      assert q == [q[0]] + q[1..];
      if Paired(q) { assert q == [q[0], q[1]] + q[2..]; }
    }
  }

  // ---------- entries that traversals add ----------

  // New entries that no later move takes along.
  predicate Untouched(n: Cache, sources: set<Path>) {
    forall w, src | w in n && src in sources :: !(src <= n[w])
  }

  lemma NextAdd(c: Cache, n: Cache, q: seq<Event>)
    requires q != [] && Replayable(c, q) && c.Keys !! n.Keys && Untouched(n, Departing(c, q))
    ensures Replayable(c + n, q) && Next(c + n, q) == (Next(c, q).0 + n, Next(c, q).1) && Next(c, q).0.Keys !! n.Keys
    ensures Announced(c + n, q) == Announced(c, q) - n.Values && Departing(c + n, q) == Departing(c, q)
    ensures DroppedHere(c + n, q) == DroppedHere(c, q)
  {
    AddValues(c, n);
    if IsAnnounce(q[0]) {
    } else if Paired(q) {
      RewriteAdd(c, n, c[q[0].wd] + [q[0].name], c[q[1].wd] + [q[1].name]);
    } else if q[0].MovedFrom? {
      UnderAdd(c, n, c[q[0].wd] + [q[0].name]);
    } else if q[0].DeleteSelf? {
      assert (c + n) - {q[0].wd} == (c - {q[0].wd}) + n;
    } else {
      assert c - {} == c && (c + n) - {} == c + n;
    }
  }

  lemma AddValues(c: Cache, n: Cache)
    requires c.Keys !! n.Keys
    ensures (c + n).Values == c.Values + n.Values
  {
    forall p | p in c.Values + n.Values
      ensures p in (c + n).Values
    {
      if p in c.Values {
        var w :| w in c && c[w] == p;
        assert (c + n)[w] == p;
      } else {
        var w :| w in n && n[w] == p;
        assert (c + n)[w] == p;
      }
    }
  }

  lemma RewriteAdd(c: Cache, n: Cache, src: Path, dst: Path)
    requires c.Keys !! n.Keys && Untouched(n, {src})
    ensures Rewrite(c + n, src, dst) == Rewrite(c, src, dst) + n
  {
    assert forall w | w in n :: Rebase(src, dst, n[w]) == n[w];
    hide Rebase;
  }

  lemma UnderAdd(c: Cache, n: Cache, src: Path)
    requires c.Keys !! n.Keys && Untouched(n, {src})
    ensures Under(c + n, src) == Under(c, src)
    ensures (c + n) - Under(c + n, src) == (c - Under(c, src)) + n
  {
  }

  /** Entries added to the cache, at pathnames that no move still to be handled takes along, are there
      in the end; they only save traversals of their own pathnames. */
  lemma {:induction false} Added(c: Cache, n: Cache, q: seq<Event>)
    requires ReplayOK(c, q) && c.Keys !! n.Keys && Untouched(n, Sources(c, q))
    ensures ReplayOK(c + n, q) && Final(c + n, q) == Final(c, q) + n
    ensures Sources(c + n, q) == Sources(c, q) && Zapped(c + n, q) == Zapped(c, q)
    ensures Pending(c + n, q) == Pending(c, q) - n.Values && Overtaken(c + n, q) <= Overtaken(c, q)
    decreases |q|
  {
    if q != [] {
      var (c1, q1) := Next(c, q);
      NextAdd(c, n, q);
      Added(c1, n, q1);
      hide Replayable, Next, Untouched, Announced, Departing, DroppedHere;
    }
  }
}
