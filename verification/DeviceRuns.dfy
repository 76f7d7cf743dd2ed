/** Whole runs of the daemon: polls, then closeDevices(). */
module DeviceRuns {

  import opened Prelude
  import opened Devices
  import opened DeviceScan
  import opened DevicePolls

  function PolledAll(s: Table, scans: seq<Scan>): Table {
    if scans == [] then s else Polled(PolledAll(s, scans[..|scans| - 1]), scans[|scans| - 1])
  }

  predicate AllProper(scans: seq<Scan>) {
    forall scan | scan in scans :: Proper(scan)
  }

  function TotalLost(s: Table, scans: seq<Scan>): int {
    if scans == [] then 0
    else TotalLost(s, scans[..|scans| - 1]) + Lost(PolledAll(s, scans[..|scans| - 1]), scans[|scans| - 1])
  }

  // What poll i of a run loses.
  function LostAt(s: Table, scans: seq<Scan>, i: nat): int
    requires i < |scans|
  {
    Lost(PolledAll(s, scans[..i]), scans[i])
  }

  predicate NeverLoses(s: Table, scans: seq<Scan>) {
    forall i: nat | i < |scans| :: LostAt(s, scans, i) == 0
  }

  // ---------- bus 255 ----------

  lemma HeldElsewhere(devs: seq<Device>, u: Usb)
    requires SlotsValid(devs) && StuckFree(devs) && u.address < 128 && Holds(devs, KeyOf(u))
    ensures u.bus != 255
  {
    var k :| 0 <= k < |devs| && Key(devs[k]) == KeyOf(u);
    assert SlotValid(devs[k]);
  }

  predicate NoneOpensOn255(seen: seq<Usb>) {
    forall i | 0 <= i < |seen| && seen[i].opens :: seen[i].bus != 255
  }

  lemma StuckFreeAfter(s: Table, scan: Scan)
    requires Sound(s) && Proper(scan) && StuckFree(s.devices) && NoneOpensOn255(Controllers(scan))
    ensures StuckFree(Polled(s, scan).devices)
  {
    var r, seen := Polled(s, scan).devices, Controllers(scan);
    PollTable(s, scan);
    SeenProper(scan);
    assert SlotsValid(s.devices);
    hide Polled, Controllers, Proper, Sound, Holds, SlotsValid, Staying, OpeningKeys, Stays;
    forall k | 0 <= k < |r| && r[k].handle != 0
      ensures r[k].bus != -1
    {
      if Reported(seen, Key(r[k])) {
        var i :| 0 <= i < |seen| && KeyOf(seen[i]) == Key(r[k]);
        assert seen[i] in seen;
        assert Holds(r, KeyOf(seen[i])) by {
          assert Key(r[k]) == KeyOf(seen[i]);
          HoldsAt(r, k);
        }
        if Holds(s.devices, KeyOf(seen[i])) { HeldElsewhere(s.devices, seen[i]); }
      }
    }
  }

  lemma HoldsAt(devs: seq<Device>, k: nat)
    requires k < |devs|
    ensures Holds(devs, Key(devs[k]))
  {
  }

  /** A poll leaves no controller on bus 255 in the table exactly when there was none and it opens none. */
  lemma StuckFreeIff(s: Table, scan: Scan)
    requires Sound(s) && Proper(scan)
    ensures StuckFree(Polled(s, scan).devices) <==> StuckFree(s.devices) && NoneOpensOn255(Controllers(scan))
  {
    var r, seen := Polled(s, scan).devices, Controllers(scan);
    PollTable(s, scan);
    SeenProper(scan);
    if !StuckFree(s.devices) {
      var k :| 0 <= k < |s.devices| && s.devices[k].handle != 0 && s.devices[k].bus == -1;
      assert Stays(s.devices[k], seen);
    } else if NoneOpensOn255(seen) {
      StuckFreeAfter(s, scan);
    } else {
      var i :| 0 <= i < |seen| && seen[i].opens && seen[i].bus == 255;
      assert seen[i] in seen;
      PollSound(s, scan);
      hide Polled, Controllers, Proper, Holds, Staying, OpeningKeys, Stays;
      Pigeonhole(s.devices, seen);
      assert Holds(r, KeyOf(seen[i]));
      if StuckFree(r) { HeldElsewhere(r, seen[i]); }
    }
  }

  lemma {:induction false} StayingOfNone(devs: seq<Device>)
    ensures Staying(devs, []) == 0 <==> StuckFree(devs)
  {
    if devs != [] {
      var rest := devs[1..];
      StayingOfNone(rest);
      assert forall k | 0 <= k < |rest| :: rest[k] == devs[k + 1];
      if StuckFree(rest) && !Stays(devs[0], []) {
        forall k | 0 <= k < |devs| && devs[k].handle != 0
          ensures devs[k].bus != -1
        {
          if k > 0 { assert devs[k] == rest[k - 1]; }
        }
      }
    }
  }

  /** -1 marks an empty slot, but is also what bus 255 becomes in an int8_t. After any poll of any table,
      and one more with everything unplugged, the table is empty if and only if there was no controller
      on bus 255 in it and none that the scan counts there could be opened. */
  lemma UnpluggedLeavesIff(s: Table, scan: Scan)
    requires Sound(s) && Proper(scan)
    ensures Occupied(Polled(Polled(s, scan), Listed([])).devices) == 0
       <==> StuckFree(s.devices) && NoneOpensOn255(Controllers(scan))
  {
    var r := Polled(s, scan);
    StuckFreeIff(s, scan);
    PollSound(s, scan);
    PollOccupied(r, Listed([]));
    assert Controllers(Listed([])) == [];
    assert OpeningKeys(r.devices, []) == {};
    StayingOfNone(r.devices);
    hide Polled, Sound, StuckFree, NoneOpensOn255, Staying, OpeningKeys, Occupied, Controllers;
  }

  /** Such a slot is never freed. */
  lemma {:induction false} StuckForever(s: Table, scans: seq<Scan>, k: nat)
    requires Sound(s) && AllProper(scans)
    requires k < |s.devices| && s.devices[k].handle != 0 && s.devices[k].bus == -1
    ensures Sound(PolledAll(s, scans)) && k < |PolledAll(s, scans).devices|
    ensures PolledAll(s, scans).devices[k] == s.devices[k]
  {
    if scans != [] {
      var before, scan := PolledAll(s, scans[..|scans| - 1]), scans[|scans| - 1];
      StuckForever(s, scans[..|scans| - 1], k);
      PollTable(before, scan);
      PollSound(before, scan);
      assert Stays(before.devices[k], Controllers(scan));
      hide Polled, Sound, Proper, Controllers, Holds, Stays, Staying, OpeningKeys;
    }
  }

  function Stuck(devs: seq<Device>): nat {
    if devs == [] then 0 else One(devs[0].handle != 0 && devs[0].bus == -1) + Stuck(devs[1..])
  }

  lemma {:induction false} StuckStay(devs: seq<Device>, seen: seq<Usb>)
    ensures Stuck(devs) <= Staying(devs, seen)
  {
    if devs != [] { StuckStay(devs[1..], seen); }
  }

  /** Each of them takes a slot from the new controllers: beside n stuck slots there is room for
      MAX_DEVS - n, and for every further one a handle is lost. */
  lemma StuckCost(s: Table, scan: Scan)
    ensures Lost(s, scan) >= Stuck(s.devices) + |OpeningKeys(s.devices, Controllers(scan))| - MAX_DEVS
  {
    StuckStay(s.devices, Controllers(scan));
    OpeningSize(s.devices, Controllers(scan));
    hide Controllers, OpeningKeys, Opening, Staying, Stuck, OpensOnce;
  }

  // ---------- runs ----------

  /** A poll keeps the table valid: occupied slots distinct, handle NULL exactly in the slots (-1, -1),
      and every handle issued either in one slot or closed, once. */
  lemma PollValid(s: Table, scan: Scan)
    requires Valid(s) && Attached(scan)
    ensures Valid(Polled(s, scan)) && Polled(s, scan).next >= s.next
  {
    var r := Polled(s, scan);
    ValidIsSound(s);
    AttachedNot255(scan);
    AttachedLosesNone(s, scan);
    StuckFreeAfter(s, scan);
    PollLoses(s, scan);
    MissingIff(s);
    MissingIff(r);
    hide Polled, SlotsValid, Handles, Issued, StuckFree, Attached, Missing, Lost;
  }

  lemma ValidIsSound(s: Table)
    requires Valid(s)
    ensures Sound(s) && StuckFree(s.devices)
  {
  }

  lemma AttachedNot255(scan: Scan)
    requires Attached(scan)
    ensures NoneOpensOn255(Controllers(scan))
  {
    var seen := Controllers(scan);
    SeenProper(scan);
    assert forall i | 0 <= i < |seen| :: seen[i] in seen;
    hide Controllers;
  }

  lemma StartSound()
    ensures Sound(Start()) && Valid(Start()) && Missing(Start()) == 0
  {
    NoHandles(Start().devices);
    HandlesSize(Start().devices);
  }

  lemma {:induction false} PollsValid(scans: seq<Scan>)
    requires forall scan | scan in scans :: Attached(scan)
    ensures Valid(PolledAll(Start(), scans)) && NeverLoses(Start(), scans)
  {
    if scans == [] {
      StartSound();
    } else {
      var init, last := scans[..|scans| - 1], scans[|scans| - 1];
      PollsValid(init);
      PollValid(PolledAll(Start(), init), last);
      ValidIsSound(PolledAll(Start(), init));
      AttachedLosesNone(PolledAll(Start(), init), last);
      hide Valid, Polled, Attached, Sound, Start, StuckFree, Lost;
      NeverLosesCons(Start(), scans);
    }
  }

  lemma LostBefore(s: Table, scans: seq<Scan>, n: nat, i: nat)
    requires i < n <= |scans|
    ensures LostAt(s, scans[..n], i) == LostAt(s, scans, i)
  {
    assert scans[..n][..i] == scans[..i];
    hide Lost, PolledAll;
  }

  lemma LosesNoneBefore(s: Table, scans: seq<Scan>, n: nat)
    requires n <= |scans| && NeverLoses(s, scans)
    ensures NeverLoses(s, scans[..n])
  {
    hide LostAt;
    forall i: nat | i < n ensures LostAt(s, scans[..n], i) == 0 { LostBefore(s, scans, n, i); }
  }

  lemma LosesNoneThen(s: Table, scans: seq<Scan>, n: nat)
    requires |scans| == n + 1 && NeverLoses(s, scans[..n]) && LostAt(s, scans, n) == 0
    ensures NeverLoses(s, scans)
  {
    hide LostAt;
    forall i: nat | i < |scans| ensures LostAt(s, scans, i) == 0 {
      if i < n { LostBefore(s, scans, n, i); }
    }
  }

  lemma NeverLosesCons(s: Table, scans: seq<Scan>)
    requires scans != []
    ensures NeverLoses(s, scans) <==>
      NeverLoses(s, scans[..|scans| - 1]) && Lost(PolledAll(s, scans[..|scans| - 1]), scans[|scans| - 1]) == 0
  {
    var n := |scans| - 1;
    assert LostAt(s, scans, n) == Lost(PolledAll(s, scans[..n]), scans[n]) by { hide Lost, PolledAll; }
    if NeverLoses(s, scans) {
      LosesNoneBefore(s, scans, n);
    } else if NeverLoses(s, scans[..n]) && LostAt(s, scans, n) == 0 {
      hide *;
      LosesNoneThen(s, scans, n);
    }
    hide Lost, PolledAll, LostAt;
  }

  lemma {:induction false} RunsLose(s: Table, scans: seq<Scan>)
    requires Sound(s) && AllProper(scans)
    ensures Sound(PolledAll(s, scans)) && Missing(PolledAll(s, scans)) == Missing(s) + TotalLost(s, scans)
    ensures TotalLost(s, scans) >= 0 && (TotalLost(s, scans) == 0 <==> NeverLoses(s, scans))
  {
    if scans != [] {
      var init, last := scans[..|scans| - 1], scans[|scans| - 1];
      RunsLose(s, init);
      PollLoses(PolledAll(s, init), last);
      LosesNoneIff(PolledAll(s, init), last);
      NeverLosesCons(s, scans);
      hide Polled, Sound, Missing, Lost, Proper, NeverLoses, OpensOnce;
    }
  }

  // ---------- closing ----------

  lemma {:induction false} ClosedTo(s: Table, i: nat, k: nat)
    requires i <= |s.devices| && k < |s.devices|
    ensures var r := Closed(s, i);
      r.next == s.next && r.devices[k] == if k < i then s.devices[k].(handle := 0) else s.devices[k]
  {
    if i > 0 {
      ClosedTo(s, i - 1, k);
      ClosedTo(s, i - 1, i - 1);
    }
  }

  lemma {:induction false} ClosedHandles(s: Table, i: nat)
    requires i <= |s.devices|
    ensures Handles(Closed(s, i).devices) + multiset(Closed(s, i).closed) == Handles(s.devices) + multiset(s.closed)
  {
    if i > 0 {
      ClosedHandles(s, i - 1);
      var t, r := Closed(s, i - 1), Closed(s, i);
      var d := t.devices[i - 1];
      assert r.closed == if d.handle == 0 then t.closed else t.closed + [d.handle];
      assert r.devices == t.devices[i - 1 := d.(handle := 0)];
      hide *;
      ClearedHandles(t, i - 1, d.(handle := 0));
    }
  }

  lemma ClosesAll(s: Table)
    ensures multiset(Closed(s, |s.devices|).closed) == Handles(s.devices) + multiset(s.closed)
  {
    var e := Closed(s, |s.devices|);
    ClosedHandles(s, |s.devices|);
    forall k | 0 <= k < |s.devices|
      ensures e.devices[k].handle == 0
    {
      ClosedTo(s, |s.devices|, k);
    }
    NoHandles(e.devices);
    hide *;
    assert multiset(e.closed) == multiset{} + multiset(e.closed);
  }

  lemma AllOnce(closed: multiset<nat>, next: nat)
    requires closed <= Issued(next)
    ensures forall h: nat :: closed[h] <= if 0 < h < next then 1 else 0
    ensures closed == Issued(next) <==> forall h: nat | 0 < h < next :: closed[h] == 1
  {
    forall h: nat
      ensures Issued(next)[h] == if 0 < h < next then 1 else 0
    {
      IssuedOnce(next, h);
    }
    hide Issued;
    if forall h: nat | 0 < h < next :: closed[h] == 1 {
      assert forall h: nat :: closed[h] == Issued(next)[h];
    }
  }

  /** Over any run no handle is closed twice, and every handle opened is closed if and only if no poll
      loses one (LosesNoneIff says when that is). */
  lemma EveryHandleClosedOnceIff(scans: seq<Scan>)
    requires AllProper(scans)
    ensures var s := PolledAll(Start(), scans);
      var closed := multiset(Closed(s, |s.devices|).closed);
      && (forall h: nat :: closed[h] <= if 0 < h < s.next then 1 else 0)
      && |closed| == s.next - 1 - TotalLost(Start(), scans)
      && ((forall h: nat | 0 < h < s.next :: closed[h] == 1) <==> NeverLoses(Start(), scans))
  {
    var s := PolledAll(Start(), scans);
    StartSound();
    RunsLose(Start(), scans);
    ClosesAll(s);
    MissingIff(s);
    assert Handles(s.devices) + multiset(s.closed) <= Issued(s.next);
    HandlesSize(s.devices);
    hide Sound, PolledAll, Start, Closed, NeverLoses, TotalLost, AllProper, Handles, Issued, Occupied;
    AllOnce(Handles(s.devices) + multiset(s.closed), s.next);
  }

  /** With lists that are read once and no controller on bus 255 every handle is closed exactly once. */
  lemma EveryHandleClosedOnce(scans: seq<Scan>, h: nat)
    requires forall scan | scan in scans :: Attached(scan)
    ensures var s := PolledAll(Start(), scans);
      multiset(Closed(s, |s.devices|).closed)[h] == if 0 < h < s.next then 1 else 0
  {
    PollsValid(scans);
    assert AllProper(scans);
    EveryHandleClosedOnceIff(scans);
    hide Attached, PolledAll, Start, Closed, NeverLoses, TotalLost, Valid, AllProper;
  }

  // ---------- a list that is read more than once ----------

  lemma {:induction false} SeenEachRound(devs: seq<Usb>, u: Usb, n: nat, room: nat)
    requires |devs| >= INDEX_RANGE && AllReadable(devs[..INDEX_RANGE]) && n <= room
    requires forall m: nat | m > 0 :: Seen(devs[..INDEX_RANGE], m) == [u]
    ensures Seen(FirstReads(devs, n * INDEX_RANGE), room) == seq(n, _ => u)
  {
    var round := devs[..INDEX_RANGE];
    if n == 0 {
      assert FirstReads(devs, 0) == [];
    } else {
      var later := FirstReads(devs, (n - 1) * INDEX_RANGE);
      SeenEachRound(devs, u, n - 1, room - 1);
      assert n * INDEX_RANGE == INDEX_RANGE + (n - 1) * INDEX_RANGE;
      OneMoreRound(devs, (n - 1) * INDEX_RANGE);
      SeenAppend(round, later, room);
      hide Seen, FirstReads;
      assert Seen(round, room) == [u];
      assert seq(n, _ => u) == [u] + seq(n - 1, _ => u);
    }
  }

  lemma {:induction false} NoneSeen(devs: seq<Usb>, room: nat)
    requires forall i | 0 <= i < |devs| :: !devs[i].controller
    ensures Seen(devs, room) == []
  {
    if devs != [] { NoneSeen(devs[1..], room); }
  }

  // 256 devices on three buses, the first one a controller.
  function TooMany(): (devs: seq<Usb>)
    ensures |devs| == INDEX_RANGE
  {
    seq(INDEX_RANGE, i requires 0 <= i < INDEX_RANGE => Usb(1 + i / 127, 1 + i % 127, i == 0, true, true))
  }

  lemma TooManyProper()
    ensures Proper(Listed(TooMany())) && AllReadable(TooMany())
    ensures TooMany()[0].controller && TooMany()[0].opens
    ensures forall m: nat | m > 0 :: Seen(TooMany(), m) == [TooMany()[0]]
  {
    var devs := TooMany();
    forall i, j | 0 <= i < j < |devs|
      ensures KeyOf(devs[i]) != KeyOf(devs[j])
    {
      if KeyOf(devs[i]) == KeyOf(devs[j]) { KeyInjective(devs[i], devs[j]); }
    }
    forall m: nat | m > 0
      ensures Seen(devs, m) == [devs[0]]
    {
      NoneSeen(devs[1..], m - 1);
    }
  }

  /** 256 devices, with one controller: the scan counts and opens it four times, and three of the handles
      are neither stored nor ever closed. */
  lemma TooManyLoses()
    ensures var scan := Listed(TooMany());
      && Proper(scan) && Ends(TooMany()) && !ReadsOnce(TooMany())
      && Controllers(scan) == seq(MAX_DEVS, _ => TooMany()[0])
      && Lost(Start(), scan) == 3
  {
    var devs := TooMany();
    TooManyProper();
    assert devs[..INDEX_RANGE] == devs;
    hide TooMany, Seen, FirstReads, Opening, Staying, OpeningKeys, Start;
    SeenEachRound(devs, devs[0], MAX_DEVS, MAX_DEVS);
    OpensFour(devs[0]);
  }

  lemma OpensFour(u: Usb)
    requires u.opens && u.address < 128
    ensures var seen := seq(MAX_DEVS, _ => u);
      && Opening(Start().devices, seen) == 4 && |OpeningKeys(Start().devices, seen)| == 1
      && Staying(Start().devices, seen) == 0
  {
    var seen, devs := seq(MAX_DEVS, _ => u), Start().devices;
    assert Opens(devs, u);
    assert u in seen by { assert seen[0] == u; }
    assert OpeningKeys(devs, seen) == {KeyOf(u)};
    OpeningEach(devs, u, 4);
    StayingNone(devs, seen);
  }

  lemma {:induction false} OpeningEach(devs: seq<Device>, u: Usb, n: nat)
    requires Opens(devs, u)
    ensures Opening(devs, seq(n, _ => u)) == n
  {
    if n > 0 {
      assert seq(n, _ => u)[1..] == seq(n - 1, _ => u);
      OpeningEach(devs, u, n - 1);
      hide Opens;
    }
  }

  lemma {:induction false} StayingNone(devs: seq<Device>, seen: seq<Usb>)
    requires forall k | 0 <= k < |devs| :: devs[k].handle == 0
    ensures Staying(devs, seen) == 0
  {
    if devs != [] { StayingNone(devs[1..], seen); }
  }
}
