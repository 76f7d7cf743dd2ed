/** The watch cache of inotify_dtree.c as the program keeps it: an array of slots that is
    searched linearly and grows when it is full. */
module WatchCache {
  import opened Paths
  import opened DirTree
  import opened CacheProtocol

  const ALLOC_INCR: nat := 200

  // wd is -1 in an unused slot.
  datatype Slot = Slot(wd: int, path: string)

  const EMPTY_SLOT := Slot(-1, "")

  // No descriptor is in two slots.
  ghost predicate Distinct(slots: seq<Slot>) {
    forall i, j | 0 <= i < j < |slots| && slots[i].wd >= 0 :: slots[i].wd != slots[j].wd
  }

  ghost predicate SlotOK(slot: Slot, cache: Cache) {
    slot == EMPTY_SLOT
    || (slot.wd >= 0 && slot.wd in cache && cache[slot.wd] != [] && slot.path == Render(cache[slot.wd]))
  }

  // The slots hold exactly the entries of the cache, each in one slot.
  ghost predicate Represents(slots: seq<Slot>, cache: Cache) {
    && (forall i | 0 <= i < |slots| :: SlotOK(slots[i], cache))
    && Distinct(slots)
    && (forall w | w in cache :: exists i :: 0 <= i < |slots| && slots[i].wd == w)
  }

  ghost predicate CachedPathsValid(roots: set<string>, cache: Cache) {
    ValidRoots(roots) && forall w | w in cache :: ValidPath(roots, cache[w])
  }

  class Monitor {
    var slots: array<Slot>
    var kernel: Kernel
    ghost var cache: Cache

    ghost predicate Valid()
      reads this, slots
    {
      kernel.tree.Rooted() && CachedPathsValid(kernel.tree.roots, cache) && Represents(slots[..], cache)
    }

    /** The first slot holding wd, or -1. */
    method FindWatch(wd: nat) returns (slot: int)
      requires Valid()
      ensures slot == -1 ==> wd !in cache
      ensures slot != -1 ==> 0 <= slot < slots.Length && slots[slot].wd == wd
      ensures slot != -1 ==> wd in cache && slots[slot].path == Render(cache[wd])
    {
      for j := 0 to slots.Length
        invariant forall i | 0 <= i < j :: slots[i].wd != wd
      {
        if slots[j].wd == wd {
          assert slots[..][j].wd == wd;
          return j;
        }
      }
      assert forall i | 0 <= i < |slots[..]| :: slots[..][i].wd != wd;
      return -1;
    }

    method MarkCacheSlotEmpty(slot: nat)
      requires Valid() && slot < slots.Length && slots[slot].wd >= 0
      modifies slots, `cache
      ensures Valid() && kernel == old(kernel)
      ensures slots[..] == old(slots[..])[slot := EMPTY_SLOT]
      ensures cache == old(cache) - {old(slots[slot].wd)}
    {
      ghost var before := slots[..];
      slots[slot] := EMPTY_SLOT;
      cache := cache - {before[slot].wd};
      SlotCleared(before, old(cache), slot);
    }

    /** The first unused slot; the array grows by ALLOC_INCR slots when there is none. */
    method FindEmptyCacheSlot() returns (slot: nat)
      requires Valid()
      modifies `slots
      ensures Valid() && slot < slots.Length && slots[slot] == EMPTY_SLOT
      ensures forall i | 0 <= i < slot :: slots[i] != EMPTY_SLOT
      ensures if EMPTY_SLOT in old(slots[..]) then slots == old(slots)
              else fresh(slots) && slots.Length == old(slots.Length) + ALLOC_INCR
      ensures slots[..old(slots.Length)] == old(slots[..])
      ensures forall i | old(slots.Length) <= i < slots.Length :: slots[i] == EMPTY_SLOT
    {
      var n := slots.Length;
      Unused(slots[..], cache);
      hide Represents, CachedPathsValid, RootedDirs;
      for j := 0 to n
        invariant forall i | 0 <= i < j :: slots[i] != EMPTY_SLOT
      {
        if slots[j].wd == -1 {
          assert slots[..][j] == EMPTY_SLOT;
          assert slots[..n] == slots[..];
          return j;
        }
        assert slots[..][j] == slots[j];
      }
      var grown := new Slot[n + ALLOC_INCR](i requires 0 <= i < n + ALLOC_INCR reads this, slots =>
        if i < slots.Length then slots[i] else EMPTY_SLOT);
      assert grown[..n] == slots[..];
      SlotsGrown(slots[..], grown[..], cache);
      slots := grown;
      slot := n;
    }

    method AddWatchToCache(wd: nat, ghost p: Path, pathname: string) returns (slot: nat)
      requires Valid() && wd !in cache && ValidPath(kernel.tree.roots, p) && pathname == Render(p)
      modifies `slots, slots, `cache
      ensures Valid() && cache == old(cache)[wd := p]
      ensures slot < slots.Length && slots[slot] == Slot(wd, pathname)
      ensures slots == old(slots) || fresh(slots)
    {
      slot := FindEmptyCacheSlot();
      ghost var before := slots[..];
      slots[slot] := Slot(wd, pathname);
      cache := cache[wd := p];
      SlotFilled(before, old(cache), slot, wd, p);
    }

    method PathnameToCacheSlot(ghost p: Path, pathname: string) returns (slot: int)
      requires Valid() && ValidPath(kernel.tree.roots, p) && pathname == Render(p)
      ensures slot != -1 <==> p in cache.Values
      ensures slot != -1 ==> 0 <= slot < slots.Length && slots[slot].wd >= 0 && slots[slot].path == pathname
    {
      for j := 0 to slots.Length
        invariant forall i | 0 <= i < j :: slots[i].wd >= 0 ==> slots[i].path != pathname
      {
        if slots[j].wd >= 0 && slots[j].path == pathname {
          assert slots[..][j] == slots[j];
          RenderInjective(kernel.tree.roots, p, cache[slots[j].wd]);
          return j;
        }
      }
      forall w | w in cache
        ensures cache[w] != p
      {
        var i :| 0 <= i < |slots[..]| && slots[..][i].wd == w;
        assert slots[i].path != pathname;
      }
      return -1;
    }

    /** traverseTree() for one directory that nftw reports. */
    method TraverseTree(p: Path)
      requires Valid() && ValidPath(kernel.tree.roots, p)
      modifies `slots, slots, `cache, `kernel
      ensures Valid() && State(kernel, cache) == Visit(old(State(kernel, cache)), p)
      ensures kernel.tree.roots == old(kernel.tree.roots) && kernel.tree.dirs == old(kernel.tree.dirs)
      ensures slots == old(slots) || fresh(slots)
    {
      if p !in kernel.tree.dirs { return; }
      var ino := kernel.tree.dirs[p];
      if ino !in kernel.tree.watch {
        var t := kernel.tree;
        kernel := kernel.(tree := t.(watch := t.watch[ino := kernel.nextWd]), nextWd := kernel.nextWd + 1);
      }
      var wd := kernel.tree.watch[ino];
      var slot := FindWatch(wd);
      if slot == -1 {
        slot := AddWatchToCache(wd, p, Render(p));
      }
    }

    // What nftw reports for a pathname: every directory at or below it, in no particular order.
    method Nftw(ghost top: Path, pathname: string) returns (order: seq<Path>)
      requires kernel.tree.Rooted() && ValidPath(kernel.tree.roots, top) && pathname == Render(top)
      ensures forall p :: p in order <==> p in kernel.tree.dirs && top <= p
    {
      var rest := kernel.tree.dirs.Keys;
      order := [];
      while rest != {}
        invariant rest <= kernel.tree.dirs.Keys
        invariant forall p :: p in order <==> p in kernel.tree.dirs && p !in rest && top <= p
        decreases |rest|
      {
        var p :| p in rest;
        rest := rest - {p};
        BelowIsPrefix(kernel.tree.roots, top, p);
        if Below(pathname, Render(p)) { order := order + [p]; }
      }
    }

    /** watchSubtree(): a watch and an entry for every directory at or below pathname. */
    method WatchSubtree(ghost top: Path, pathname: string) returns (ghost order: seq<Path>)
      requires Valid() && ValidPath(kernel.tree.roots, top) && pathname == Render(top)
      modifies `slots, slots, `cache, `kernel
      ensures Valid() && (slots == old(slots) || fresh(slots))
      ensures kernel.tree.roots == old(kernel.tree.roots) && kernel.tree.dirs == old(kernel.tree.dirs)
      ensures forall p :: p in order <==> p in old(kernel.tree.dirs) && top <= p
      ensures State(kernel, cache) == Walk(old(State(kernel, cache)), order)
    {
      var found := Nftw(top, pathname);
      order := found;
      ghost var s0 := State(kernel, cache);
      AllValid(kernel.tree, found);
      hide RootedDirs, Represents, CachedPathsValid, Visit, ValidPath;
      var i := 0;
      while i < |found|
        invariant 0 <= i <= |found| && Valid()
        invariant kernel.tree.roots == s0.k.tree.roots && kernel.tree.dirs == s0.k.tree.dirs
        invariant slots == old(slots) || fresh(slots)
        invariant Walk(State(kernel, cache), found[i..]) == Walk(s0, found)
      {
        assert found[i] in found && found[i..][0] == found[i] && found[i..][1..] == found[i + 1..];
        TraverseTree(found[i]);
        i := i + 1;
      }
      assert found[|found|..] == [];
    }

    /** rewriteCachedPaths(): the strings of every slot, unused ones included, are spliced. */
    method RewriteCachedPaths(ghost src: Path, ghost dst: Path,
                              oldPathPrefix: string, oldName: string, newPathPrefix: string, newName: string)
      requires Valid() && ValidPath(kernel.tree.roots, src) && ValidPath(kernel.tree.roots, dst)
      requires Render(src) == oldPathPrefix + "/" + oldName && Render(dst) == newPathPrefix + "/" + newName
      modifies slots, `cache
      ensures Valid() && cache == Rewrite(old(cache), src, dst)
      ensures forall j | 0 <= j < slots.Length ::
        slots[j] == old(slots[j]).(path := Splice(Render(src), Render(dst), old(slots[j].path)))
    {
      var fullPath := oldPathPrefix + "/" + oldName;
      var newPrefix := newPathPrefix + "/" + newName;
      var len := |fullPath|;
      ghost var before := slots[..];
      hide Represents, CachedPathsValid, Splice;
      for j := 0 to slots.Length
        invariant cache == old(cache)
        invariant forall i | 0 <= i < j :: slots[i] == before[i].(path := Splice(fullPath, newPrefix, before[i].path))
        invariant forall i | j <= i < slots.Length :: slots[i] == before[i]
      {
        if Below(fullPath, slots[j].path) {
          slots[j] := slots[j].(path := newPrefix + slots[j].path[len..]);
        }
      }
      SlotsRewritten(kernel.tree.roots, before, slots[..], cache, src, dst);
      cache := Rewrite(cache, src, dst);
    }

    /** zapSubtree(): removes the watch and the entry of every cached directory at or below p;
        -1 if a watch cannot be removed. */
    method ZapSubtree(ghost p: Path, path: string) returns (cnt: int, ghost removed: seq<Wd>)
      requires Valid() && ValidPath(kernel.tree.roots, p) && path == Render(p)
      modifies slots, `cache, `kernel
      ensures Valid() && SameTree(old(kernel), kernel)
      ensures cnt == -1 <==> !(Under(old(cache), p) <= old(kernel.tree.watch.Values))
      ensures cnt != -1 ==>
        && cnt == |removed| == |Under(old(cache), p)| && (set w | w in removed) == Under(old(cache), p)
        && cache == old(cache) - Under(old(cache), p)
        && kernel == old(kernel).(tree := Unwatch(old(kernel.tree), Under(old(cache), p)),
                                  queue := old(kernel.queue) + Ignoreds(removed))
    {
      ghost var c0, k0 := cache, kernel;
      ghost var gone: set<Wd> := {};
      removed, cnt := [], 0;
      ZappingNone(k0, c0, p);
      hide Represents, CachedPathsValid, RootedDirs, ValidPath, Render, Unwatch, Ignoreds, Below, Under, Zapping;
      for j := 0 to slots.Length
        invariant Valid() && slots == old(slots) && SameTree(k0, kernel)
        invariant cnt == |removed| && Zapping(k0, kernel, c0, cache, gone, removed, p)
        invariant forall i | 0 <= i < j && slots[i].wd >= 0 :: slots[i].wd in cache && !(p <= cache[slots[i].wd])
      {
        if slots[j].wd >= 0 {
          SlotEntry(slots[..], kernel.tree.roots, cache, j, p);
          if Below(path, slots[j].path) {
            var wd := slots[j].wd;
            if wd !in kernel.tree.watch.Values {
              ZappingFails(k0, kernel, c0, cache, gone, removed, p, wd);
              cnt := -1;
              return;
            }
            ZappingMore(k0, kernel, c0, cache, gone, removed, p, wd);
            kernel := kernel.(tree := Unwatch(kernel.tree, {wd}), queue := kernel.queue + [Ignored(wd)]);
            MarkCacheSlotEmpty(j);
            cnt := cnt + 1;
            removed, gone := removed + [wd], gone + {wd};
          }
        }
      }
      ZappedAll(slots[..], k0, kernel, c0, cache, gone, removed, p);
    }

    /** reinitialize(): a new inotify instance, and the cache rebuilt from every root. */
    method Reinitialize() returns (ghost order: seq<Path>)
      requires kernel.tree.Rooted()
      modifies `slots, `cache, `kernel
      ensures Valid() && fresh(slots)
      ensures forall p :: p in order <==> p in old(kernel.tree.dirs)
      ensures State(kernel, cache) == Rebuild(old(kernel), order)
    {
      ghost var k0 := kernel;
      slots := new Slot[0];
      cache, kernel := map[], Fresh(kernel);
      order := [];
      var rest := kernel.tree.roots;
      assert Valid();
      RootsRendered(k0.tree.roots);
      NoRoots(k0.tree.roots);
      hide RootedDirs, Represents, CachedPathsValid, ValidPath, Render, RootIn, Walk, Fresh;
      while rest != {}
        invariant Valid() && fresh(slots) && rest <= k0.tree.roots
        invariant kernel.tree.roots == k0.tree.roots && kernel.tree.dirs == k0.tree.dirs
        invariant State(kernel, cache) == Rebuild(k0, order)
        invariant forall p :: p in order <==> p in k0.tree.dirs && RootIn(k0.tree.roots - rest, p)
        decreases |rest|
      {
        var r :| r in rest;
        OneMoreRoot(k0.tree.roots, rest, r);
        rest := rest - {r};
        ghost var more := WatchSubtree([r], r);
        WalkTwice(State(Fresh(k0), map[]), order, more);
        order := order + more;
      }
      EveryRoot(k0.tree);
      assert k0.tree.roots - {} == k0.tree.roots;
    }

    // IN_CREATE or IN_MOVED_TO of a directory, its parent cached in slot.
    method HandleAnnounced(ev: Event, slot: nat) returns (ghost order: seq<Path>)
      requires Valid() && IsAnnounce(ev) && ValidName(ev.name) && ev.wd in cache
      requires slot < slots.Length && slots[slot].path == Render(cache[ev.wd])
      modifies `slots, slots, `cache, `kernel
      ensures Valid() && (slots == old(slots) || fresh(slots))
      ensures forall p :: p in order <==> p in old(kernel.tree.dirs) && old(cache)[ev.wd] + [ev.name] <= p
      ensures State(kernel, cache) ==
        if old(cache)[ev.wd] + [ev.name] in old(cache).Values then old(State(kernel, cache))
        else Walk(old(State(kernel, cache)), order)
    {
      CachedChild(kernel.tree.roots, cache, ev.wd, ev.name);
      ghost var top := cache[ev.wd] + [ev.name];
      var fullPath := slots[slot].path + "/" + ev.name;
      hide RootedDirs, Represents, CachedPathsValid, ValidPath;
      var known := PathnameToCacheSlot(top, fullPath);
      if known == -1 {
        order := WatchSubtree(top, fullPath);
      } else {
        order := Listing(set p | p in kernel.tree.dirs && top <= p);
      }
    }

    // IN_MOVED_FROM with its IN_MOVED_TO; the source's parent is cached in slot.
    method HandleRenamed(buf: seq<Event>, slot: nat)
        returns (consumed: int, ghost order: seq<Path>, ghost removed: seq<Wd>)
      requires Valid() && Paired(buf) && NamesValid(buf) && buf[0].wd in cache
      requires slot < slots.Length && slots[slot].path == Render(cache[buf[0].wd])
      modifies `slots, slots, `cache, `kernel
      ensures Valid() && (slots == old(slots) || fresh(slots))
      ensures Handled(old(kernel), old(cache), buf, false, order, kernel, cache, consumed, removed)
    {
      var from, to := buf[0], buf[1];
      hide RootedDirs, Represents, CachedPathsValid, Handled, Rewrite, NamesValid;
      var next := FindWatch(to.wd);
      if next == -1 {
        ghost var k0, c0 := kernel, cache;
        order := Reinitialize();
        UnknownTarget(k0, c0, buf, order);
        return |buf|, order, [];
      }
      RenamedStep(kernel, cache, buf, []);
      RewriteCachedPaths(cache[from.wd] + [from.name], cache[to.wd] + [to.name],
                         slots[slot].path, from.name, slots[next].path, to.name);
      return 2, [], [];
    }

    // IN_MOVED_FROM without its IN_MOVED_TO; the parent is cached in slot.
    method HandleMovedOut(buf: seq<Event>, slot: nat)
        returns (consumed: int, ghost order: seq<Path>, ghost removed: seq<Wd>)
      requires Valid() && buf != [] && buf[0].MovedFrom? && !Paired(buf) && NamesValid(buf) && buf[0].wd in cache
      requires slot < slots.Length && slots[slot].path == Render(cache[buf[0].wd])
      modifies `slots, slots, `cache, `kernel
      ensures Valid() && (slots == old(slots) || fresh(slots))
      ensures Handled(old(kernel), old(cache), buf, false, order, kernel, cache, consumed, removed)
    {
      var ev := buf[0];
      ghost var k0, c0, src := kernel, cache, cache[ev.wd] + [ev.name];
      CachedChild(kernel.tree.roots, cache, ev.wd, ev.name);
      hide RootedDirs, Represents, CachedPathsValid, NamesValid, ValidPath, Unwatch, Handled, Paired;
      var cnt;
      cnt, removed := ZapSubtree(src, slots[slot].path + "/" + ev.name);
      consumed, order := 1, [];
      if cnt == -1 {
        ghost var k1 := kernel;
        order := Reinitialize();
        ZapFailed(k0, k1, c0, buf, order);
        consumed, removed := |buf|, [];
      } else {
        ZapDone(k0, c0, buf, removed);
      }
    }

    /** processNextInotifyEvent() on the events buf left in the buffer. The result is the number
        of events consumed; -1 leaves a hanging IN_MOVED_FROM for another read, and a rebuild
        discards the whole buffer. */
    method ProcessNextInotifyEvent(buf: seq<Event>, firstTry: bool)
        returns (consumed: int, ghost order: seq<Path>, ghost removed: seq<Wd>)
      requires Valid() && buf != [] && NamesValid(buf)
      modifies `slots, slots, `cache, `kernel
      ensures Valid() && (slots == old(slots) || fresh(slots))
      ensures Handled(old(kernel), old(cache), buf, firstTry, order, kernel, cache, consumed, removed)
    {
      var ev, slot := buf[0], -1;
      ghost var k0, c0 := kernel, cache;
      removed := [];
      hide RootedDirs, Represents, CachedPathsValid, NamesValid, Handled, Rebuild, Loggable, Walk;
      if !ev.Overflow? && !ev.Ignored? {
        slot := FindWatch(ev.wd);
        if slot == -1 {
          order := Reinitialize();
          UnknownStep(k0, c0, buf, firstTry, order);
          return |buf|, order, [];
        }
      }
      if IsAnnounce(ev) {
        FirstName(buf);
        order := HandleAnnounced(ev, slot);
        AnnouncedStep(State(k0, c0), buf, firstTry, order);
        consumed := 1;
      } else if ev.MovedFrom? {
        if |buf| > 1 && buf[1].MovedTo? && buf[1].cookie == ev.cookie {
          consumed, order, removed := HandleRenamed(buf, slot);
          NotFirst(k0, c0, buf, firstTry, order, kernel, cache, consumed, removed);
        } else if |buf| > 1 || !firstTry {
          consumed, order, removed := HandleMovedOut(buf, slot);
          NotFirst(k0, c0, buf, firstTry, order, kernel, cache, consumed, removed);
        } else {
          HangingStep(k0, c0, buf);
          return -1, [], [];  // tell the caller to do another read
        }
      } else if ev.Overflow? {
        order := Reinitialize();
        UnknownStep(k0, c0, buf, firstTry, order);
        consumed := |buf|;
      } else {
        if ev.DeleteSelf? {
          MarkCacheSlotEmpty(slot);
        }
        consumed, order := 1, [];
        LoggedStep(k0, c0, buf, firstTry);
      }
    }
  }

  lemma SlotCleared(slots: seq<Slot>, cache: Cache, k: nat)
    requires Represents(slots, cache) && k < |slots| && slots[k].wd >= 0
    ensures Represents(slots[k := EMPTY_SLOT], cache - {slots[k].wd})
  {
    var after, gone := slots[k := EMPTY_SLOT], slots[k].wd;
    DistinctCleared(slots, k);
    OthersHeld(slots, cache, k);
    forall i | 0 <= i < |after|
      ensures SlotOK(after[i], cache - {gone})
    {
      OneLess(slots, cache, k, i);
    }
    hide Distinct, SlotOK;
  }

  lemma OneLess(slots: seq<Slot>, cache: Cache, k: nat, i: nat)
    requires Distinct(slots) && k < |slots| && i < |slots| && SlotOK(slots[i], cache) && slots[k].wd >= 0
    ensures SlotOK(slots[k := EMPTY_SLOT][i], cache - {slots[k].wd})
  {
    hide Render;
    if i != k && slots[i].wd >= 0 { assert slots[i].wd != slots[k].wd; }
  }

  lemma OthersHeld(slots: seq<Slot>, cache: Cache, k: nat)
    requires k < |slots| && forall w | w in cache :: exists i :: 0 <= i < |slots| && slots[i].wd == w
    ensures var after := slots[k := EMPTY_SLOT];
      forall w | w in cache && w != slots[k].wd :: exists i :: 0 <= i < |after| && after[i].wd == w
  {
    var after := slots[k := EMPTY_SLOT];
    forall w | w in cache && w != slots[k].wd
      ensures exists i :: 0 <= i < |after| && after[i].wd == w
    {
      var i :| 0 <= i < |slots| && slots[i].wd == w;
      assert after[i].wd == w;
    }
  }

  lemma RootsRendered(roots: set<string>)
    ensures forall r | r in roots :: ValidPath(roots, [r]) && Render([r]) == r
  {
  }

  lemma DistinctCleared(slots: seq<Slot>, k: nat)
    requires Distinct(slots) && k < |slots|
    ensures Distinct(slots[k := EMPTY_SLOT])
  {
  }

  lemma SlotsGrown(slots: seq<Slot>, grown: seq<Slot>, cache: Cache)
    requires Represents(slots, cache) && |slots| <= |grown| && grown[..|slots|] == slots
    requires forall i | |slots| <= i < |grown| :: grown[i] == EMPTY_SLOT
    ensures Represents(grown, cache)
  {
    assert forall i | 0 <= i < |slots| :: grown[i] == slots[i];
    forall w | w in cache
      ensures exists i :: 0 <= i < |grown| && grown[i].wd == w
    {
      var i :| 0 <= i < |slots| && slots[i].wd == w;
      assert grown[i].wd == w;
    }
  }

  lemma Unused(slots: seq<Slot>, cache: Cache)
    requires Represents(slots, cache)
    ensures forall i | 0 <= i < |slots| :: slots[i].wd == -1 <==> slots[i] == EMPTY_SLOT
  {
    hide Distinct;
  }

  lemma SlotFilled(slots: seq<Slot>, cache: Cache, k: nat, wd: Wd, p: Path)
    requires Represents(slots, cache) && k < |slots| && slots[k] == EMPTY_SLOT && wd !in cache && p != []
    ensures Represents(slots[k := Slot(wd, Render(p))], cache[wd := p])
  {
    var after := slots[k := Slot(wd, Render(p))];
    hide Render;
    DescriptorsFilled(slots, cache, k, Slot(wd, Render(p)));
  }

  lemma DescriptorsFilled(slots: seq<Slot>, cache: Cache, k: nat, slot: Slot)
    requires k < |slots| && slots[k] == EMPTY_SLOT
    requires forall w | w in cache :: exists i :: 0 <= i < |slots| && slots[i].wd == w
    ensures var after := slots[k := slot];
      forall w | w in cache || w == slot.wd :: exists i :: 0 <= i < |after| && after[i].wd == w
  {
    var after := slots[k := slot];
    assert after[k].wd == slot.wd;
    forall w | w in cache
      ensures exists i :: 0 <= i < |after| && after[i].wd == w
    {
      var i :| 0 <= i < |slots| && slots[i].wd == w;
      assert after[i].wd == w;
    }
  }

  lemma SlotsRewritten(roots: set<string>, slots: seq<Slot>, after: seq<Slot>, cache: Cache, src: Path, dst: Path)
    requires CachedPathsValid(roots, cache) && Represents(slots, cache)
    requires ValidPath(roots, src) && ValidPath(roots, dst) && Render(src) != ""
    requires |after| == |slots| && forall i | 0 <= i < |slots| ::
      after[i] == slots[i].(path := Splice(Render(src), Render(dst), slots[i].path))
    ensures CachedPathsValid(roots, Rewrite(cache, src, dst)) && Represents(after, Rewrite(cache, src, dst))
  {
    PathsRebased(roots, cache, src, dst);
    hide CachedPathsValid, Rewrite, Render, Splice, ValidPath;
    forall i | 0 <= i < |slots|
      ensures SlotOK(after[i], Rewrite(cache, src, dst))
    {
      SlotSpliced(roots, slots[i], cache, src, dst);
    }
    assert Distinct(after);
    SameDescriptors(slots, after, cache);
    RewriteKeys(cache, src, dst);
    hide Distinct, SlotOK;
  }

  lemma PathsRebased(roots: set<string>, cache: Cache, src: Path, dst: Path)
    requires CachedPathsValid(roots, cache) && ValidPath(roots, src) && ValidPath(roots, dst)
    ensures CachedPathsValid(roots, Rewrite(cache, src, dst))
  {
    hide ValidPath, Rebase;
    forall w | w in cache
      ensures ValidPath(roots, Rebase(src, dst, cache[w]))
    {
      RebaseValid(roots, src, dst, cache[w]);
    }
  }

  lemma RewriteKeys(cache: Cache, src: Path, dst: Path)
    ensures Rewrite(cache, src, dst).Keys == cache.Keys
  {
  }

  lemma SlotSpliced(roots: set<string>, slot: Slot, cache: Cache, src: Path, dst: Path)
    requires CachedPathsValid(roots, cache) && SlotOK(slot, cache)
    requires ValidPath(roots, src) && ValidPath(roots, dst) && Render(src) != ""
    ensures SlotOK(slot.(path := Splice(Render(src), Render(dst), slot.path)), Rewrite(cache, src, dst))
  {
    if slot != EMPTY_SLOT {
      var q := cache[slot.wd];
      assert ValidPath(roots, q);
      SpliceIsRebase(roots, src, dst, q);
      RebaseValid(roots, src, dst, q);
    }
  }

  lemma SameDescriptors(slots: seq<Slot>, after: seq<Slot>, cache: Cache)
    requires Represents(slots, cache) && |after| == |slots|
    requires forall i | 0 <= i < |slots| :: after[i].wd == slots[i].wd
    ensures forall w | w in cache :: exists i :: 0 <= i < |after| && after[i].wd == w
  {
    forall w | w in cache
      ensures exists i :: 0 <= i < |after| && after[i].wd == w
    {
      var i :| 0 <= i < |slots| && slots[i].wd == w;
      assert after[i].wd == w;
    }
  }

  lemma RebaseValid(roots: set<string>, src: Path, dst: Path, q: Path)
    requires ValidPath(roots, src) && ValidPath(roots, dst) && ValidPath(roots, q)
    ensures ValidPath(roots, Rebase(src, dst, q))
  {
    if src <= q {
      var r := Rebase(src, dst, q);
      assert forall i | |dst| <= i < |r| :: r[i] == q[i - |dst| + |src|];
    }
  }

  // The parts of the kernel's state that survive reinitialize().
  ghost predicate SameTree(k: Kernel, l: Kernel) {
    k.tree.roots == l.tree.roots && k.tree.dirs == l.tree.dirs && k.nextCookie == l.nextCookie && k.nextWd == l.nextWd
  }

  lemma UnwatchValues(t: Tree, gone: set<Wd>)
    ensures Unwatch(t, gone).watch.Values == t.watch.Values - gone
    ensures Unwatch(t, gone).roots == t.roots && Unwatch(t, gone).dirs == t.dirs
  {
    var u := Unwatch(t, gone);
    forall w | w in t.watch.Values && w !in gone
      ensures w in u.watch.Values
    {
      var i :| i in t.watch && t.watch[i] == w;
      assert i in u.watch && u.watch[i] == w;
    }
  }

  lemma UnwatchNone(k: Kernel)
    ensures k == k.(tree := Unwatch(k.tree, {}), queue := k.queue + Ignoreds([]))
    ensures Unwatch(k.tree, {}).roots == k.tree.roots
  {
    assert k.queue + Ignoreds([]) == k.queue;
    assert Unwatch(k.tree, {}).watch == k.tree.watch;
  }

  // A used slot holds a cached entry, and the string test on it is the test for a descendant.
  lemma SlotEntry(slots: seq<Slot>, roots: set<string>, cache: Cache, j: nat, p: Path)
    requires CachedPathsValid(roots, cache) && Represents(slots, cache) && ValidPath(roots, p)
    requires j < |slots| && slots[j].wd >= 0
    ensures slots[j].wd in cache && (Below(Render(p), slots[j].path) <==> p <= cache[slots[j].wd])
    ensures forall i | 0 <= i < |slots| && i != j :: slots[i].wd != slots[j].wd
  {
    BelowIsPrefix(roots, p, cache[slots[j].wd]);
  }

  // The watches of gone, at or below p, have been removed, in the order given.
  ghost predicate Zapping(k0: Kernel, k: Kernel, c0: Cache, c: Cache, gone: set<Wd>, removed: seq<Wd>, p: Path) {
    && |removed| == |gone| && (set w | w in removed) == gone
    && gone <= Under(c0, p) && gone <= k0.tree.watch.Values && c == c0 - gone
    && k == k0.(tree := Unwatch(k0.tree, gone), queue := k0.queue + Ignoreds(removed))
  }

  lemma ZappingNone(k: Kernel, c: Cache, p: Path)
    ensures Zapping(k, k, c, c, {}, [], p)
  {
    UnwatchNone(k);
  }

  lemma ZappingFails(k0: Kernel, k: Kernel, c0: Cache, c: Cache, gone: set<Wd>, removed: seq<Wd>, p: Path, wd: Wd)
    requires Zapping(k0, k, c0, c, gone, removed, p) && wd in c && p <= c[wd] && wd !in k.tree.watch.Values
    ensures !(Under(c0, p) <= k0.tree.watch.Values)
  {
    UnwatchValues(k0.tree, gone);
    assert wd in Under(c0, p);
  }

  lemma ZappingMore(k0: Kernel, k: Kernel, c0: Cache, c: Cache, gone: set<Wd>, removed: seq<Wd>, p: Path, wd: Wd)
    requires Zapping(k0, k, c0, c, gone, removed, p) && wd in c && p <= c[wd] && wd in k.tree.watch.Values
    ensures var k' := k.(tree := Unwatch(k.tree, {wd}), queue := k.queue + [Ignored(wd)]);
      SameTree(k0, k') && Zapping(k0, k', c0, c - {wd}, gone + {wd}, removed + [wd], p)
  {
    UnwatchValues(k0.tree, gone);
    UnwatchOne(k0, gone, removed, wd);
    assert wd in Under(c0, p);
    hide Unwatch, Ignoreds, Under;
    assert |gone + {wd}| == |gone| + 1;
  }

  lemma ZappedAll(slots: seq<Slot>, k0: Kernel, k: Kernel, c0: Cache, c: Cache, gone: set<Wd>, removed: seq<Wd>, p: Path)
    requires Represents(slots, c) && Zapping(k0, k, c0, c, gone, removed, p)
    requires forall i | 0 <= i < |slots| && slots[i].wd >= 0 :: slots[i].wd in c && !(p <= c[slots[i].wd])
    ensures gone == Under(c0, p) && gone <= k0.tree.watch.Values
    ensures |removed| == |gone| && (set w | w in removed) == gone && c == c0 - gone
    ensures k == k0.(tree := Unwatch(k0.tree, gone), queue := k0.queue + Ignoreds(removed)) && SameTree(k0, k)
  {
    UnwatchValues(k0.tree, gone);
    forall w | w in c
      ensures w !in Under(c0, p)
    {
      var i :| 0 <= i < |slots| && slots[i].wd == w;
    }
    hide Unwatch, Ignoreds;
  }

  lemma UnwatchOne(k: Kernel, gone: set<Wd>, removed: seq<Wd>, wd: Wd)
    ensures Unwatch(Unwatch(k.tree, gone), {wd}).roots == k.tree.roots
    ensures Unwatch(Unwatch(k.tree, gone), {wd}).dirs == k.tree.dirs
    ensures Unwatch(Unwatch(k.tree, gone), {wd}) == Unwatch(k.tree, gone + {wd})
    ensures k.queue + Ignoreds(removed) + [Ignored(wd)] == k.queue + Ignoreds(removed + [wd])
  {
    assert Ignoreds(removed) + [Ignored(wd)] == Ignoreds(removed + [wd]);
    assert Unwatch(Unwatch(k.tree, gone), {wd}).watch == Unwatch(k.tree, gone + {wd}).watch;
  }

  predicate NamesValid(q: seq<Event>) {
    forall i | 0 <= i < |q| && (q[i].Create? || q[i].MovedTo? || q[i].MovedFrom?) :: ValidName(q[i].name)
  }

  // An IN_MOVED_FROM at the end of the buffer, met for the first time.
  predicate Hanging(cache: Cache, buf: seq<Event>, firstTry: bool)
    requires buf != []
  {
    firstTry && |buf| == 1 && buf[0].MovedFrom? && buf[0].wd in cache
  }

  /** One call of processNextInotifyEvent is one step of the state machine on the buffer; events
      the step itself causes are appended to the kernel's queue. */
  ghost predicate Handled(k0: Kernel, c0: Cache, buf: seq<Event>, firstTry: bool, order: seq<Path>,
                          k: Kernel, c: Cache, consumed: int, removed: seq<Wd>)
    requires buf != []
  {
    var s := State(k0.(queue := buf), c0);
    if Hanging(c0, buf, firstTry) then consumed == -1 && k == k0 && c == c0
    else
      && Choice(s, order, removed)
      && if MustRebuild(s) then consumed == |buf| && State(k, c) == Rebuild(k0, order)
         else
           && consumed == (if Paired(buf) then 2 else 1)
           && c == Process(s, order, removed).cache
           && k == Process(s, order, removed).k.(queue := k0.queue + Ignoreds(removed))
           && (IsAnnounce(buf[0]) ==> removed == [])
  }

  lemma FirstName(buf: seq<Event>)
    requires NamesValid(buf) && buf != [] && IsAnnounce(buf[0])
    ensures ValidName(buf[0].name)
  {
  }

  lemma AnnouncedStep(s: State, buf: seq<Event>, firstTry: bool, order: seq<Path>)
    requires buf != [] && IsAnnounce(buf[0]) && buf[0].wd in s.cache
    requires forall p :: p in order <==> p in s.k.tree.dirs && s.cache[buf[0].wd] + [buf[0].name] <= p
    ensures var t := if s.cache[buf[0].wd] + [buf[0].name] in s.cache.Values then s else Walk(s, order);
      Handled(s.k, s.cache, buf, firstTry, order, t.k, t.cache, 1, [])
  {
    WalkQueue(s, order, buf[1..]);
    assert s.k.queue + Ignoreds([]) == s.k.queue;
  }

  lemma UnknownStep(k: Kernel, c: Cache, buf: seq<Event>, firstTry: bool, order: seq<Path>)
    requires buf != [] && (buf[0].Overflow? || (!buf[0].Ignored? && buf[0].wd !in c))
    requires forall p :: p in order <==> p in k.tree.dirs
    ensures Handled(k, c, buf, firstTry, order, Rebuild(k, order).k, Rebuild(k, order).cache, |buf|, [])
  {
  }

  lemma NotFirst(k0: Kernel, c0: Cache, buf: seq<Event>, firstTry: bool, order: seq<Path>,
                 k: Kernel, c: Cache, consumed: int, removed: seq<Wd>)
    requires buf != [] && (|buf| > 1 || !firstTry)
    requires Handled(k0, c0, buf, false, order, k, c, consumed, removed)
    ensures Handled(k0, c0, buf, firstTry, order, k, c, consumed, removed)
  {
  }

  lemma HangingStep(k: Kernel, c: Cache, buf: seq<Event>)
    requires |buf| == 1 && buf[0].MovedFrom? && buf[0].wd in c
    ensures Handled(k, c, buf, true, [], k, c, -1, [])
  {
  }

  lemma LoggedStep(k: Kernel, c: Cache, buf: seq<Event>, firstTry: bool)
    requires buf != [] && (buf[0].Ignored? || ((buf[0].DeleteSelf? || buf[0].FileEvent?) && buf[0].wd in c))
    ensures Handled(k, c, buf, firstTry, [], k, if buf[0].DeleteSelf? then c - {buf[0].wd} else c, 1, [])
  {
    HandledLog(k, c, buf, []);
  }

  lemma AllValid(t: Tree, order: seq<Path>)
    requires t.Rooted() && forall p | p in order :: p in t.dirs
    ensures forall p | p in order :: ValidPath(t.roots, p)
  {
  }

  ghost predicate RootIn(roots: set<string>, p: Path) {
    exists r :: r in roots && [r] <= p
  }

  lemma NoRoots(roots: set<string>)
    ensures forall p :: !RootIn(roots - roots, p)
  {
  }

  lemma OneMoreRoot(roots: set<string>, rest: set<string>, r: string)
    requires r in rest && rest <= roots
    ensures forall p :: RootIn(roots - (rest - {r}), p) <==> RootIn(roots - rest, p) || [r] <= p
  {
    assert roots - (rest - {r}) == roots - rest + {r};
  }

  lemma EveryRoot(t: Tree)
    requires t.Rooted()
    ensures forall p | p in t.dirs :: RootIn(t.roots, p)
  {
    forall p | p in t.dirs
      ensures RootIn(t.roots, p)
    {
      assert ValidPath(t.roots, p) && [p[0]] <= p;
    }
  }

  lemma {:induction false} Listing(ps: set<Path>) returns (order: seq<Path>)
    ensures forall p :: p in order <==> p in ps
    decreases |ps|
  {
    order := [];
    if p :| p in ps {
      order := Listing(ps - {p});
      order := order + [p];
    }
  }

  lemma {:induction false} WalkTwice(s: State, a: seq<Path>, b: seq<Path>)
    ensures Walk(s, a + b) == Walk(Walk(s, a), b)
    decreases |a|
  {
    if a == [] {
      assert a + b == b;
    } else {
      assert (a + b)[1..] == a[1..] + b;
      WalkTwice(Visit(s, a[0]), a[1..], b);
    }
  }

  lemma {:induction false} WalkQueue(s: State, order: seq<Path>, q: seq<Event>)
    ensures Walk(State(s.k.(queue := q), s.cache), order)
      == State(Walk(s, order).k.(queue := q), Walk(s, order).cache)
    ensures Walk(s, order).k.queue == s.k.queue
    decreases |order|
  {
    if order != [] {
      WalkQueue(Visit(s, order[0]), order[1..], q);
    }
  }

  lemma CachedChild(roots: set<string>, cache: Cache, wd: Wd, n: Name)
    requires CachedPathsValid(roots, cache) && wd in cache && ValidName(n)
    ensures ValidPath(roots, cache[wd] + [n]) && Render(cache[wd] + [n]) == Render(cache[wd]) + "/" + n
  {
    RenderChild(cache[wd], n);
  }

  lemma RebuildSame(k: Kernel, l: Kernel, order: seq<Path>)
    requires SameTree(k, l)
    ensures Rebuild(k, order) == Rebuild(l, order)
  {
    assert Fresh(k) == Fresh(l);
  }

  // Events that remove no watch leave the kernel as it was.
  lemma HandledLog(k: Kernel, c: Cache, buf: seq<Event>, order: seq<Path>)
    requires Loggable(c, buf) && Dropped(c, buf) == {}
    ensures var s := State(k.(queue := buf), c);
      !MustRebuild(s) && Process(s, order, []) == State(k.(queue := Advance(c, buf).1), Advance(c, buf).0)
    ensures k.queue + Ignoreds([]) == k.queue
  {
    UnwatchNone(k);
    assert Advance(c, buf).1 + Ignoreds([]) == Advance(c, buf).1;
    assert Unwatch(k.tree, {}).watch == k.tree.watch;
  }

  lemma UnknownTarget(k: Kernel, c: Cache, buf: seq<Event>, order: seq<Path>)
    requires Paired(buf) && buf[1].wd !in c && forall p :: p in order <==> p in k.tree.dirs
    ensures Handled(k, c, buf, false, order, Rebuild(k, order).k, Rebuild(k, order).cache, |buf|, [])
  {
  }

  lemma RenamedStep(k: Kernel, c: Cache, buf: seq<Event>, order: seq<Path>)
    requires Paired(buf) && NamesValid(buf) && buf[0].wd in c && buf[1].wd in c && CachedPathsValid(k.tree.roots, c)
    ensures var src, dst := c[buf[0].wd] + [buf[0].name], c[buf[1].wd] + [buf[1].name];
      && ValidPath(k.tree.roots, src) && ValidPath(k.tree.roots, dst)
      && c[buf[0].wd] != [] && Render(src) == Render(c[buf[0].wd]) + "/" + buf[0].name
      && c[buf[1].wd] != [] && Render(dst) == Render(c[buf[1].wd]) + "/" + buf[1].name
      && Handled(k, c, buf, false, order, k, Rewrite(c, src, dst), 2, [])
  {
    CachedChild(k.tree.roots, c, buf[0].wd, buf[0].name);
    CachedChild(k.tree.roots, c, buf[1].wd, buf[1].name);
    hide CachedPathsValid, NamesValid;
    HandledLog(k, c, buf, order);
  }

  lemma ZapFailed(k: Kernel, k1: Kernel, c: Cache, buf: seq<Event>, order: seq<Path>)
    requires buf != [] && buf[0].MovedFrom? && !Paired(buf) && buf[0].wd in c && SameTree(k, k1)
    requires !(Under(c, c[buf[0].wd] + [buf[0].name]) <= k.tree.watch.Values)
    requires forall p :: p in order <==> p in k.tree.dirs
    ensures Handled(k, c, buf, false, order, Rebuild(k1, order).k, Rebuild(k1, order).cache, |buf|, [])
  {
    RebuildSame(k, k1, order);
  }

  lemma ZapDone(k: Kernel, c: Cache, buf: seq<Event>, removed: seq<Wd>)
    requires buf != [] && buf[0].MovedFrom? && !Paired(buf) && buf[0].wd in c
    requires var gone := Under(c, c[buf[0].wd] + [buf[0].name]);
      gone <= k.tree.watch.Values && (set w | w in removed) == gone && |removed| == |gone|
    ensures var gone := Under(c, c[buf[0].wd] + [buf[0].name]);
      Handled(k, c, buf, false, [], k.(tree := Unwatch(k.tree, gone), queue := k.queue + Ignoreds(removed)),
              c - gone, 1, removed)
  {
  }
}
