/** Where inotify_dtree.c loses directories, and the exact conditions under which it does not. */
module CacheLimits {
  import opened Paths
  import opened DirTree
  import opened TreeChanges
  import opened CacheProtocol
  import opened CacheConvergence
  import opened CacheHandling
  import opened CacheChanges
  import opened CacheMoves
  import opened CacheSanity
  import opened CacheTheorems

  // With nobody else at work the program handles n events, after which none is left.
  ghost predicate Drains(s: State, t: State, n: nat)
    decreases n
  {
    if n == 0 then s.k.queue == [] && t == s
    else s.k.queue != [] && exists order, removed :: Choice(s, order, removed) && Drains(Process(s, order, removed), t, n - 1)
  }

  lemma FirstHandled(s: State, t: State, n: nat) returns (order: seq<Path>, removed: seq<Wd>)
    requires Drains(s, t, n) && s.k.queue != []
    ensures n > 0 && Choice(s, order, removed) && Drains(Process(s, order, removed), t, n - 1)
  {
    order, removed :| Choice(s, order, removed) && Drains(Process(s, order, removed), t, n - 1);
  }

  lemma NothingToDrain(t: State)
    requires t.k.queue == []
    ensures Drains(t, t, 0)
  {
  }

  lemma HandledThen(s: State, order: seq<Path>, removed: seq<Wd>, t: State, n: nat)
    requires s.k.queue != [] && Choice(s, order, removed) && Drains(Process(s, order, removed), t, n)
    ensures Drains(s, t, n + 1)
  {
  }

  lemma {:induction false} DrainsInSync(s: State, t: State, n: nat)
    requires Inv(s) && Drains(s, t, n)
    ensures Synced(t)
    decreases n
  {
    hide Inv, Synced, Process, Choice;
    if n == 0 {
      QuiescentSynced(s);
    } else {
      var order, removed := FirstHandled(s, t, n);
      HandleInv(s, order, removed);
      DrainsInSync(Process(s, order, removed), t, n - 1);
    }
  }

  // ---------- with nobody else at work the events come to an end ----------

  function Busy(q: seq<Event>): nat {
    if q == [] then 0 else (if q[0].Ignored? then 0 else 1) + Busy(q[1..])
  }

  lemma {:induction false} BusyAppend(q: seq<Event>, removed: seq<Wd>)
    ensures Busy(q + Ignoreds(removed)) == Busy(q)
    decreases |q|, |removed|
  {
    if q != [] {
      assert (q + Ignoreds(removed))[1..] == q[1..] + Ignoreds(removed);
      BusyAppend(q[1..], removed);
    } else if removed != [] {
      assert ([] + Ignoreds(removed))[1..] == [] + Ignoreds(removed[1..]);
      BusyAppend([], removed[1..]);
    }
  }

  lemma {:induction false} WalkKeepsQueue(s: State, order: seq<Path>)
    ensures Walk(s, order).k.queue == s.k.queue
    decreases |order|
  {
    if order != [] { WalkKeepsQueue(Visit(s, order[0]), order[1..]); }
  }

  // Handling an event leaves fewer events other than IN_IGNORED, or as many and a shorter queue.
  lemma ProcessShrinks(s: State, order: seq<Path>, removed: seq<Wd>)
    requires s.k.queue != [] && Choice(s, order, removed)
    ensures var q, r := s.k.queue, Process(s, order, removed).k.queue;
      Busy(r) < Busy(q) || (Busy(r) == Busy(q) && |r| < |q|)
  {
    var q := s.k.queue;
    if MustRebuild(s) {
      WalkKeepsQueue(State(Fresh(s.k), map[]), order);
    } else if IsAnnounce(q[0]) {
      WalkKeepsQueue(State(s.k.(queue := q[1..]), s.cache), order);
    } else {
      BusyAppend(Advance(s.cache, q).1, removed);
      if Paired(q) { assert q[1..][1..] == q[2..]; }
    }
  }

  lemma {:induction false} Enumerated<T>(s: set<T>) returns (q: seq<T>)
    ensures (forall x :: x in q <==> x in s) && |q| == |s|
    decreases |s|
  {
    if s == {} {
      q := [];
    } else {
      var x :| x in s;
      var rest := Enumerated(s - {x});
      q := [x] + rest;
    }
  }

  lemma SomeChoice(s: State) returns (order: seq<Path>, removed: seq<Wd>)
    requires s.k.queue != []
    ensures Choice(s, order, removed)
  {
    order, removed := [], [];
    if MustRebuild(s) {
      order := Enumerated(s.k.tree.dirs.Keys);
    } else if IsAnnounce(s.k.queue[0]) {
      var full := s.cache[s.k.queue[0].wd] + [s.k.queue[0].name];
      order := Enumerated(set p | p in s.k.tree.dirs && full <= p);
    } else {
      removed := Enumerated(Dropped(s.cache, s.k.queue));
      assert (set w | w in removed) == Dropped(s.cache, s.k.queue);
    }
  }

  /** From every state, handling the events there are comes to an end; from a state of a run, with
      the cache in sync. */
  lemma {:induction false} EventsEnd(s: State) returns (t: State, n: nat)
    ensures Drains(s, t, n) && (Inv(s) ==> Synced(t))
    decreases Busy(s.k.queue), |s.k.queue|
  {
    hide *;
    if s.k.queue == [] {
      t, n := s, 0;
      NothingToDrain(s);
    } else {
      var order, removed := SomeChoice(s);
      ProcessShrinks(s, order, removed);
      t, n := EventsEnd(Process(s, order, removed));
      HandledThen(s, order, removed, t, n);
      n := n + 1;
    }
    if Inv(s) { DrainsInSync(s, t, n); }
  }

  // ---------- what a queue comes to ----------

  /** Exactly when the events there are bring the cache in sync, with nobody else at work: when every
      live directory is watched or will be traversed. */
  lemma {:induction false} DrainsSyncedIff(s: State, t: State, n: nat)
    requires Sane(s) && Consistent(s) && Drains(s, t, n)
    ensures Synced(t) <==> Foreseen(s.k.tree, PendingOf(s))
    decreases n
  {
    hide *;
    if n == 0 {
      Drained(s, t);
      IdleSyncedIff(s);
    } else {
      NotDrained(s, t, n);
      var order, removed := FirstHandled(s, t, n);
      SaneParts(s);
      HandleSane(s, order, removed);
      HandleConsistent(s, order, removed);
      DrainsSyncedIff(Process(s, order, removed), t, n - 1);
    }
  }

  lemma Drained(s: State, t: State)
    requires Drains(s, t, 0)
    ensures s.k.queue == [] && t == s
  {
  }

  lemma NotDrained(s: State, t: State, n: nat)
    requires Drains(s, t, n) && n > 0
    ensures s.k.queue != []
  {
  }

  lemma IdleSyncedIff(s: State)
    requires Consistent(s) && s.k.queue == []
    ensures Synced(s) <==> Foreseen(s.k.tree, PendingOf(s))
  {
    assert FinalOf(s) == s.cache && PendingOf(s) == {};
    hide *;
    GoodTracks(s);
    ForeseenNone(s.k.tree);
    TrackedSynced(s);
  }

  lemma SaneParts(s: State)
    requires Sane(s)
    ensures s.k.Valid() && Bounded(s) && s.k.tree.Valid() && s.k.tree.Rooted() && s.k.tree.OneToOne()
  {
    hide RootedDirs, Tree.OneToOne, QueueValid;
  }

  lemma InvParts(s: State)
    requires Inv(s) && Overflow !in s.k.queue
    ensures Sane(s) && Good(s) && Consistent(s) && Foreseen(s.k.tree, PendingOf(s))
  {
    hide RootedDirs, Tree.OneToOne, QueueValid, Consistent, Foreseen;
  }

  // With no event left, every live directory is watched.
  lemma IdleParts(s: State)
    requires Inv(s) && s.k.queue == []
    ensures Sane(s) && Good(s) && Consistent(s) && PendingOf(s) == {} && OvertakenOf(s) == {} && FinalOf(s) == s.cache
    ensures forall p | p in s.k.tree.dirs :: s.k.tree.Watched(p)
  {
    InvParts(s);
    hide Consistent, Foreseen, RootedDirs, Tree.OneToOne, QueueValid;
    ForeseenNone(s.k.tree);
  }

  // ---------- a directory moved in over an existing one ----------

  /** A directory is moved in from outside, and the events are handled. The cache ends up in sync exactly
      when there was no watched directory of that name, or a traversal still to come includes it: the
      entry of a replaced directory makes the program skip the new one. */
  lemma MoveInConvergesIff(s: State, p: Path, n: Name, sub: map<Path, Ino>, t: State, steps: nat)
    requires Inv(s) && Overflow !in s.k.queue && s.k.tree.CanMoveIn(p, n, sub)
    requires forall x | x in sub :: !Trapped(OvertakenOf(s), p + [n] + x)
    requires Drains(s.(k := s.k.MoveIn(p, n, sub)), t, steps)
    ensures Synced(t) <==> !s.k.tree.Watched(p + [n]) || Traversed(PendingOf(s), p + [n])
  {
    hide *;
    var d, s' := p + [n], s.(k := s.k.MoveIn(p, n, sub));
    InvParts(s);
    SaneParts(s);
    MoveInSane(s, p, n, sub);
    MoveInConsistent(s, p, n, sub);
    DrainsSyncedIff(s', t, steps);
    ArrivalForeseenIff(s, p, n, sub);
  }

  lemma GoodForeseen(s: State)
    requires Good(s)
    ensures Consistent(s) && Foreseen(s.k.tree, PendingOf(s))
  {
    hide Consistent, Foreseen;
  }

  lemma NoneBelow(pending: set<Path>, overtaken: set<(Path, Path)>)
    requires pending == {} && overtaken == {}
    ensures forall x :: !Traversed(pending, x) && !Trapped(overtaken, x)
  {
  }

  lemma WatchedLive(t: Tree, d: Path)
    ensures t.Watched(d) ==> d in t.dirs
  {
  }

  /** With no event waiting: exactly when there was no directory of that name. */
  lemma MoveInConvergesIffFresh(s: State, p: Path, n: Name, sub: map<Path, Ino>, t: State, steps: nat)
    requires Inv(s) && s.k.queue == [] && s.k.tree.CanMoveIn(p, n, sub)
    requires Drains(s.(k := s.k.MoveIn(p, n, sub)), t, steps)
    ensures Synced(t) <==> p + [n] !in s.k.tree.dirs
  {
    hide *;
    IdleParts(s);
    NoneBelow(PendingOf(s), OvertakenOf(s));
    WatchedLive(s.k.tree, p + [n]);
    MoveInConvergesIff(s, p, n, sub, t, steps);
  }

  // ---------- a rename between watched directories ----------

  /** A rename between watched directories, whatever waits in the queue: the cache ends up in sync exactly
      when each directory moved is watched or will be traversed under its new pathname. */
  lemma RenameConvergesIff(s: State, src: Path, dst: Path, t: State, steps: nat)
    requires Inv(s) && Overflow !in s.k.queue && s.k.tree.CanRename(src, dst)
    requires s.k.tree.Watched(Parent(src)) && s.k.tree.Watched(Parent(dst))
    requires forall p | p in s.k.tree.dirs && src <= p && !s.k.tree.Watched(p) ::
      !Trapped(OvertakenOf(s), Rebase(src, dst, p))
    requires Drains(s.(k := s.k.Rename(src, dst)), t, steps)
    ensures Synced(t) <==> forall p {:trigger s.k.tree.Watched(p)} | p in s.k.tree.dirs && src <= p && !s.k.tree.Watched(p) ::
      Traversed(PendingOf(s), Rebase(src, dst, p))
  {
    hide *;
    InvParts(s);
    SaneParts(s);
    var s' := s.(k := s.k.Rename(src, dst));
    RenameSane(s, src, dst);
    RenameConsistent(s, src, dst);
    DrainsSyncedIff(s', t, steps);
    RenamedForeseenIff(s.k.tree, src, dst, PendingOf(s));
    RenamedTreeIs(s, src, dst);
  }

  lemma RenamedTreeIs(s: State, src: Path, dst: Path)
    requires s.k.tree.Rooted() && s.k.tree.CanRename(src, dst)
    ensures s.k.Rename(src, dst).tree == s.k.tree.Rename(src, dst)
  {
    hide RootedDirs, Tree.CanRename, Tree.Rename;
  }
}
