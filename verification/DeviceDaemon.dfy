/** The daemon, as it works on its two arrays. */
module DeviceDaemon {

  import opened Prelude
  import opened Devices
  import opened DeviceScan
  import opened DevicePolls
  import opened DeviceRuns
  import opened DeviceSlots

  // The scan comes to an end (ScanEndsIff).
  predicate Returns(scan: Scan) {
    scan.Listed? ==> Ends(scan.devs)
  }

  predicate AllReturn(scans: seq<Scan>) {
    forall scan | scan in scans :: Proper(scan) && Returns(scan)
  }

  lemma ReturnsAt(scans: seq<Scan>, i: nat)
    requires AllReturn(scans) && i < |scans|
    ensures Proper(scans[i]) && Returns(scans[i])
  {
    hide Proper, Returns;
    assert scans[i] in scans;
  }

  lemma ReturningAreProper(scans: seq<Scan>)
    requires AllReturn(scans)
    ensures AllProper(scans)
  {
    hide Proper, Returns;
  }

  // What tmp holds after a scan.
  function Padded(found: seq<Device>): seq<Device>
    requires |found| <= MAX_DEVS
  {
    found + seq(MAX_DEVS - |found|, _ => EMPTY)
  }

  class Daemon {
    const devices: array<Device>
    const tmp: array<Device>
    var next: nat            // libusb's next handle
    ghost var closed: seq<nat>

    ghost predicate Sized()
      reads this
    {
      devices != tmp && devices.Length == MAX_DEVS && tmp.Length == MAX_DEVS
    }

    ghost function Abs(): Table
      reads this, devices
    {
      Table(devices[..], next, closed)
    }

    constructor ()
      ensures Sized() && Abs() == Start() && fresh(devices) && fresh(tmp)
    {
      devices := new Device[MAX_DEVS](_ => EMPTY);
      tmp := new Device[MAX_DEVS](_ => EMPTY);
      next, closed := 1, [];
    }

    method LibusbOpen() returns (handle: nat)
      modifies this`next
      ensures handle == old(next) && next == old(next) + 1
    {
      handle := next;
      next := next + 1;
    }

    method LibusbClose(handle: nat)
      modifies this`closed
      ensures closed == old(closed) + [handle]
    {
      closed := closed + [handle];
    }

    method ListContains(devs: array<Device>, key: (int, int)) returns (found: bool)
      ensures found <==> Holds(devs[..], key)
    {
      var i := 0;
      while i < devs.Length
        invariant 0 <= i <= devs.Length && !Holds(devs[..i], key)
      {
        if Key(devs[i]) == key {
          assert Key(devs[..][i]) == key;
          return true;
        }
        assert devs[..i + 1] == devs[..i] + [devs[i]];
        i := i + 1;
      }
      assert devs[..i] == devs[..];
      return false;
    }

    // Finds the first slot with dev's bus and address.
    method ListTryRemove(dev: Device, ghost k: nat)
      requires Sized() && k < MAX_DEVS && Key(devices[k]) == Key(dev)
      requires forall j | 0 <= j < k :: Key(devices[j]) != Key(dev)
      modifies this`closed, devices
      ensures devices[..] == old(devices[..])[k := EMPTY]
      ensures closed == if dev.handle == 0 then old(closed) else old(closed) + [dev.handle]
    {
      if dev.handle != 0 { LibusbClose(dev.handle); }
      var i := 0;
      while i < MAX_DEVS
        invariant 0 <= i <= k && devices[..] == old(devices[..])
      {
        if Key(devices[i]) == Key(dev) {
          devices[i] := EMPTY;
          break;
        }
        i := i + 1;
      }
    }

    method ListClean(ghost found: seq<Device>)
      requires Sized() && SlotsValid(devices[..])
      requires forall d: Device | d.bus != -1 && d.address != -1 :: Holds(tmp[..], Key(d)) <==> Holds(found, Key(d))
      modifies this`closed, devices
      ensures Abs() == Cleaned(old(Abs()), found, MAX_DEVS)
    {
      var i := 0;
      while i < MAX_DEVS
        invariant 0 <= i <= MAX_DEVS && Abs() == Cleaned(old(Abs()), found, i)
        invariant tmp[..] == old(tmp[..])
      {
        var dev := devices[i];
        if dev.bus != -1 && dev.address != -1 {
          var present := ListContains(tmp, Key(dev));
          if !present {
            FirstWithKey(old(Abs()), found, i);
            ListTryRemove(dev, i);
          }
        }
        i := i + 1;
      }
    }

    method ListTryAdd(dev: Device)
      requires Sized()
      modifies devices
      ensures devices[..] == Added(old(devices[..]), dev)
      ensures forall k | 0 <= k < MAX_DEVS && devices[k] != old(devices[k]) ::
        devices[k] == dev && old(devices[k]).handle == 0 && forall j | 0 <= j < k :: old(devices[j]).handle != 0
      ensures dev.handle == 0 || Holds(old(devices[..]), Key(dev)) || (forall k | 0 <= k < MAX_DEVS :: old(devices[k]).handle != 0)
        <==> devices[..] == old(devices[..])
    {
      var present := ListContains(devices, Key(dev));
      if present { return; }
      if dev.handle != 0 {
        var i := 0;
        while i < MAX_DEVS
          invariant 0 <= i <= MAX_DEVS && devices[..] == old(devices[..])
          invariant forall j | 0 <= j < i :: devices[j].handle != 0
        {
          if devices[i].handle == 0 {
            devices[i] := dev;
            break;
          }
          i := i + 1;
        }
      }
    }

    method ListUpdateDevices(ghost found: seq<Device>)
      requires Sized() && |found| <= MAX_DEVS && tmp[..] == Padded(found)
      modifies devices
      ensures devices[..] == Updated(old(devices[..]), found, |found|)
    {
      var i := 0;
      while i < MAX_DEVS
        invariant 0 <= i <= MAX_DEVS && tmp[..] == old(tmp[..])
        invariant devices[..] == Updated(old(devices[..]), found, if i < |found| then i else |found|)
      {
        ListTryAdd(tmp[i]);
        i := i + 1;
      }
    }

    /** getDevices(): tmp holds what was found, then empty slots. */
    method GetDevices(scan: Scan) returns (ghost found: seq<Device>)
      requires Sized() && Returns(scan)
      modifies this`next, tmp
      ensures Found(found, next) == ScanFound(old(Abs()), scan)
      ensures |found| <= MAX_DEVS && tmp[..] == Padded(found)
    {
      var k := 0;
      while k < MAX_DEVS
        invariant 0 <= k <= MAX_DEVS && forall j | 0 <= j < k :: tmp[j] == EMPTY
        invariant Abs() == old(Abs())
      {
        tmp[k] := EMPTY;
        k := k + 1;
      }
      found := [];
      if scan.ListFails? { return; }
      found := ScanList(scan.devs);
    }

    // Stores a controller found, and opens it if it is new.
    method StoreFound(u: Usb, id: nat) returns (d: Device)
      requires Sized() && id < MAX_DEVS
      modifies this`next, tmp
      ensures var open := !Holds(old(devices[..]), KeyOf(u)) && u.opens;
        && d == Device(KeyOf(u).0, KeyOf(u).1, if open then old(next) else 0)
        && next == (if open then old(next) + 1 else old(next))
      ensures tmp[..] == old(tmp[..])[id := d]
    {
      var present := ListContains(devices, KeyOf(u));
      var handle := 0;
      if !present && u.opens { handle := LibusbOpen(); }
      d := Device(KeyOf(u).0, KeyOf(u).1, handle);
      tmp[id] := d;
    }

    // The index i is of type uint8_t; j is the number of entries read.
    method ScanList(devs: seq<Usb>) returns (ghost found: seq<Device>)
      requires Sized() && Ends(devs) && tmp[..] == Padded([])
      modifies this`next, tmp
      ensures Found(found, next) == Scanned(old(devices[..]), Reads(devs), [], old(next))
      ensures |found| <= MAX_DEVS && tmp[..] == Padded(found)
    {
      var i, id := 0, 0;
      found := [];
      ghost var table, all, j := devices[..], Reads(devs), 0;
      assert After(devs, 0) == Some(0) && all[0..] == all;
      hide Ends, Reads, After, Scanned, Padded, Holds, KeyOf;
      while true
        invariant 0 <= j <= |all| && i == j % INDEX_RANGE && After(devs, j) == Some(id)
        invariant 0 <= id < MAX_DEVS && |found| == id && tmp[..] == Padded(found)
        invariant devices[..] == table
        invariant Scanned(table, all[j..], found, next) == Scanned(table, all, [], old(next))
        decreases |all| - j
      {
        ReadIs(devs, j, id);
        ScannedStep(table, all, j, found, next);
        if i >= |devs| { return; }
        var dev := devs[i];
        NextIndex(j);
        i := (i + 1) % INDEX_RANGE;
        j := j + 1;
        if !dev.readable { return; }
        if dev.controller {
          var d := StoreFound(dev, id);
          PaddedNext(found, d);
          found := found + [d];
          id := id + 1;
          if id == MAX_DEVS { return; }
        }
      }
    }

    /** One round of the polling thread. */
    method Poll(scan: Scan)
      requires Sized() && Sound(Abs()) && Proper(scan) && Returns(scan)
      modifies this`next, this`closed, devices, tmp
      ensures Sized() && Abs() == old(Polled(Abs(), scan)) && Sound(Abs())
      ensures PlacedBy(old(Abs()), scan, devices[..])
    {
      PollSound(Abs(), scan);
      PollPlaces(Abs(), scan);
      ghost var before := Abs();
      ghost var found := GetDevices(scan);
      PaddedHolds(found);
      assert Abs() == before.(next := ScanFound(before, scan).next);
      hide Returns, Handles, Issued, Proper, SlotValid, DistinctKeys, Scanned, Reads, PlacedBy;
      ListClean(found);
      ListUpdateDevices(found);
    }

    method CloseDevices()
      requires Sized()
      modifies this`closed, devices
      ensures Abs() == Closed(old(Abs()), MAX_DEVS)
    {
      var i := 0;
      while i < MAX_DEVS
        invariant 0 <= i <= MAX_DEVS && Abs() == Closed(old(Abs()), i)
      {
        if devices[i].handle != 0 {
          LibusbClose(devices[i].handle);
          devices[i] := devices[i].(handle := 0);
        }
        i := i + 1;
      }
    }

    method PollingThread(scans: seq<Scan>)
      requires Sized() && Abs() == Start() && AllReturn(scans)
      modifies this`next, this`closed, devices, tmp
      ensures Sized() && Abs() == PolledAll(Start(), scans) && Sound(Abs())
    {
      StartSound();
      PolledNone(scans);
      hide *;
      var i := 0;
      while i < |scans|
        invariant 0 <= i <= |scans| && Sized() && Sound(Abs()) && Abs() == PolledAll(Start(), scans[..i])
      {
        ReturnsAt(scans, i);
        PolledNext(scans, i);
        Poll(scans[i]);
        i := i + 1;
      }
      assert scans[..i] == scans;
    }

    /** Polls as scripted, then closeDevices(): no handle is closed twice, and none is left open if and
        only if no poll loses one; lists that are read once, without a controller on bus 255, lose none. */
    method Serve(scans: seq<Scan>)
      requires Sized() && Abs() == Start() && AllReturn(scans)
      modifies this`next, this`closed, devices, tmp
      ensures forall h: nat :: multiset(closed)[h] <= if 0 < h < next then 1 else 0
      ensures (forall h: nat | 0 < h < next :: multiset(closed)[h] == 1) <==> NeverLoses(Start(), scans)
      ensures (forall scan | scan in scans :: Attached(scan)) ==> NeverLoses(Start(), scans)
    {
      hide PolledAll, Closed, Start, NeverLoses, Attached, AllReturn, AllProper, Sound;
      PollingThread(scans);
      ghost var s := Abs();
      CloseDevices();
      ReturningAreProper(scans);
      AllClosedIff(scans, s, Abs());
    }
  }

  // What read number j of a scan that ends gets, when it comes to it, and what that does to its count.
  lemma ReadIs(devs: seq<Usb>, j: nat, id: nat)
    requires Ends(devs) && j <= |Reads(devs)| && After(devs, j) == Some(id)
    ensures j < |Reads(devs)| <==> j % INDEX_RANGE < |devs|
    ensures j < |Reads(devs)| ==>
      && Reads(devs)[j] == devs[j % INDEX_RANGE]
      && After(devs, j + 1) == Counted(id, devs[j % INDEX_RANGE])
  {
    if |devs| < INDEX_RANGE {
      assert j % INDEX_RANGE == j;
      hide Ends;
    } else {
      hide Ends;
      EndsWithin(devs);
      assert Reads(devs) == FirstReads(devs, MAX_DEVS * INDEX_RANGE);
      assert j != MAX_DEVS * INDEX_RANGE by { hide *; }
    }
  }

  lemma ScannedStep(table: seq<Device>, all: seq<Usb>, j: nat, found: seq<Device>, next: nat)
    requires j <= |all|
    ensures j == |all| ==> Scanned(table, all[j..], found, next) == Found(found, next)
    ensures j < |all| ==>
      var u := all[j];
      var open := !Holds(table, KeyOf(u)) && u.opens;
      var d := Device(KeyOf(u).0, KeyOf(u).1, if open then next else 0);
      var after := if open then next + 1 else next;
      Scanned(table, all[j..], found, next)
      == if !u.readable then Found(found, next)
         else if !u.controller then Scanned(table, all[j + 1..], found, next)
         else if |found| + 1 == MAX_DEVS then Found(found + [d], after)
         else Scanned(table, all[j + 1..], found + [d], after)
  {
    if j < |all| { assert all[j..][1..] == all[j + 1..]; }
  }

  lemma NextIndex(j: nat)
    ensures (j % INDEX_RANGE + 1) % INDEX_RANGE == (j + 1) % INDEX_RANGE
  {
  }

  function Counted(id: nat, u: Usb): Option<nat> {
    if !u.readable || id + One(u.controller) == MAX_DEVS then None else Some(id + One(u.controller))
  }

  lemma PolledNone(scans: seq<Scan>)
    ensures PolledAll(Start(), scans[..0]) == Start()
  {
  }

  lemma PolledNext(scans: seq<Scan>, i: nat)
    requires i < |scans|
    ensures PolledAll(Start(), scans[..i + 1]) == Polled(PolledAll(Start(), scans[..i]), scans[i])
  {
    hide Polled, Start;
    assert scans[..i + 1][..i] == scans[..i];
  }

  lemma AllClosedIff(scans: seq<Scan>, s: Table, e: Table)
    requires AllProper(scans) && s == PolledAll(Start(), scans)
    requires |s.devices| == MAX_DEVS && e == Closed(s, MAX_DEVS)
    ensures forall h: nat :: multiset(e.closed)[h] <= if 0 < h < e.next then 1 else 0
    ensures (forall h: nat | 0 < h < e.next :: multiset(e.closed)[h] == 1) <==> NeverLoses(Start(), scans)
    ensures (forall scan | scan in scans :: Attached(scan)) ==> NeverLoses(Start(), scans)
  {
    hide PolledAll, Closed, Start, NeverLoses, Attached, AllProper;
    EveryHandleClosedOnceIff(scans);
    ClosedTo(s, MAX_DEVS, 0);
    if forall scan | scan in scans :: Attached(scan) { PollsValid(scans); }
  }

  lemma PaddedNext(found: seq<Device>, d: Device)
    requires |found| < MAX_DEVS
    ensures Padded(found)[|found| := d] == Padded(found + [d])
  {
  }

  lemma PaddedHolds(found: seq<Device>)
    requires |found| <= MAX_DEVS
    ensures forall d: Device | d.bus != -1 && d.address != -1 :: Holds(Padded(found), Key(d)) <==> Holds(found, Key(d))
  {
    forall d: Device | d.bus != -1 && d.address != -1
      ensures Holds(Padded(found), Key(d)) <==> Holds(found, Key(d))
    {
      if k :| 0 <= k < |found| && Key(found[k]) == Key(d) { assert Key(Padded(found)[k]) == Key(d); }
      if k :| 0 <= k < MAX_DEVS && Key(Padded(found)[k]) == Key(d) { assert Key(found[k]) == Key(d); }
    }
  }

  // Slots are distinct, so the first slot with the key of an occupied slot is that slot.
  lemma FirstWithKey(s: Table, found: seq<Device>, i: nat)
    requires SlotsValid(s.devices) && i < |s.devices|
    ensures var c := Cleaned(s, found, i).devices;
      c[i] == s.devices[i] && (c[i].bus != -1 && c[i].address != -1 ==> forall j | 0 <= j < i :: Key(c[j]) != Key(c[i]))
  {
    CleanedSlots(s, found, i, i);
    forall j | 0 <= j < i
      ensures Cleaned(s, found, i).devices[j] == if Gone(s.devices[j], found) then EMPTY else s.devices[j]
    {
      CleanedSlots(s, found, i, j);
    }
    assert SlotValid(s.devices[i]);
    forall j | 0 <= j < i && s.devices[i].handle != 0
      ensures Key(s.devices[j]) != Key(s.devices[i])
    {
      assert SlotValid(s.devices[j]);
    }
    hide Cleaned;
  }
}
