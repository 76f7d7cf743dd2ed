/** Which slot, and so which id, a controller gets: all of the table after a poll. */
module DeviceSlots {

  import opened Prelude
  import opened Devices
  import opened DeviceScan
  import opened DevicePolls

  // ---------- the free slots, filled in order ----------

  function FreeBelow(devs: seq<Device>, k: nat): nat
    requires k <= |devs|
  {
    if k == 0 then 0 else FreeBelow(devs, k - 1) + One(devs[k - 1].handle == 0)
  }

  // u is devs, with news in its free slots, from the first slot on, as far as they reach.
  predicate InPlace(devs: seq<Device>, news: seq<Device>, u: seq<Device>) {
    && |u| == |devs|
    && forall k | 0 <= k < |devs| ::
         u[k] == if devs[k].handle == 0 && FreeBelow(devs, k) < |news| then news[FreeBelow(devs, k)] else devs[k]
  }

  // What is opened, the first of each controller.
  function News(found: seq<Device>): seq<Device> {
    if found == [] then []
    else
      var before, d := News(found[..|found| - 1]), found[|found| - 1];
      if d.handle != 0 && !Holds(before, Key(d)) then before + [d] else before
  }

  predicate AllOpen(news: seq<Device>) {
    forall i | 0 <= i < |news| :: news[i].handle != 0
  }

  lemma {:induction false} NewsOpen(found: seq<Device>)
    ensures AllOpen(News(found))
  {
    if found != [] { NewsOpen(found[..|found| - 1]); }
  }

  lemma {:induction false} FreeBelowGrows(devs: seq<Device>, j: nat, k: nat)
    requires j < k <= |devs|
    ensures FreeBelow(devs, j) + One(devs[j].handle == 0) <= FreeBelow(devs, k)
  {
    if j < k - 1 { FreeBelowGrows(devs, j, k - 1); }
  }

  lemma {:induction false} FreeAt(devs: seq<Device>, k: nat, m: nat)
    requires k <= |devs| && m < FreeBelow(devs, k)
    ensures exists j :: 0 <= j < k && devs[j].handle == 0 && FreeBelow(devs, j) == m
  {
    if m < FreeBelow(devs, k - 1) {
      FreeAt(devs, k - 1, m);
    } else {
      assert devs[k - 1].handle == 0 && FreeBelow(devs, k - 1) == m;
    }
  }

  // The first free slot that is left is the one for the next device.
  lemma NextFree(devs: seq<Device>, news: seq<Device>, u: seq<Device>, k: nat)
    requires InPlace(devs, news, u) && AllOpen(news) && k < |u| && u[k].handle == 0
    requires forall j | 0 <= j < k :: u[j].handle != 0
    ensures devs[k].handle == 0 && FreeBelow(devs, k) == |news|
  {
    hide FreeBelow;
    if FreeBelow(devs, k) > |news| { FreeAt(devs, k, |news|); }
  }

  lemma FilledInPlace(devs: seq<Device>, news: seq<Device>, u: seq<Device>, k: nat, d: Device)
    requires InPlace(devs, news, u) && AllOpen(news) && k < |u| && u[k].handle == 0
    requires forall j | 0 <= j < k :: u[j].handle != 0
    ensures InPlace(devs, news + [d], u[k := d])
  {
    NextFree(devs, news, u, k);
    hide FreeBelow, AllOpen;
    forall j | 0 <= j < |devs| && j != k && devs[j].handle == 0
      ensures FreeBelow(devs, j) != |news|
    {
      if j < k { FreeBelowGrows(devs, j, k); } else { FreeBelowGrows(devs, k, j); }
    }
  }

  lemma FullInPlace(devs: seq<Device>, news: seq<Device>, u: seq<Device>, d: Device)
    requires InPlace(devs, news, u) && forall k | 0 <= k < |u| :: u[k].handle != 0
    ensures InPlace(devs, news + [d], u)
  {
    hide FreeBelow;
  }

  // A device is in the table if it was, or has come to be; those that do not fit are only news.
  lemma HeldInNews(devs: seq<Device>, news: seq<Device>, u: seq<Device>, d: Device)
    requires SlotsValid(devs) && InPlace(devs, news, u) && AllOpen(news)
    requires d.address != -1 && !Holds(devs, Key(d))
    ensures Holds(u, Key(d)) ==> Holds(news, Key(d))
    ensures Holds(news, Key(d)) && !Holds(u, Key(d)) ==> forall k | 0 <= k < |u| :: u[k].handle != 0
  {
    hide FreeBelow, DistinctKeys;
    if k :| 0 <= k < |u| && Key(u[k]) == Key(d) {
      assert SlotValid(devs[k]) && Key(devs[k]) != Key(d);
      assert Key(news[FreeBelow(devs, k)]) == Key(d);
    }
    if m: nat :| m < |news| && Key(news[m]) == Key(d) && !Holds(u, Key(d)) {
      forall k | 0 <= k < |u|
        ensures u[k].handle != 0
      {
        if u[k].handle == 0 { AllInPlace(devs, news, u, k, m); }
      }
    }
  }

  // As long as a slot is free, every device that is new is in one.
  lemma AllInPlace(devs: seq<Device>, news: seq<Device>, u: seq<Device>, k: nat, m: nat)
    requires InPlace(devs, news, u) && AllOpen(news) && k < |u| && u[k].handle == 0 && m < |news|
    ensures Holds(u, Key(news[m]))
  {
    hide FreeBelow;
    assert FreeBelow(devs, k) > m;
    FreeAt(devs, k, m);
    var j :| 0 <= j < k && devs[j].handle == 0 && FreeBelow(devs, j) == m;
    assert u[j] == news[m];
  }

  lemma AddedInPlace(devs: seq<Device>, news: seq<Device>, u: seq<Device>, d: Device)
    requires SlotsValid(devs) && InPlace(devs, news, u) && AllOpen(news)
    requires d.address != -1 && (d.handle != 0 ==> !Holds(devs, Key(d)))
    ensures InPlace(devs, if d.handle != 0 && !Holds(news, Key(d)) then news + [d] else news, Added(u, d))
  {
    if d.handle != 0 { HeldInNews(devs, news, u, d); }
    var k := FirstFree(u);
    hide SlotsValid, InPlace, AllOpen, FirstFree, Holds, Key;
    if d.handle != 0 && !Holds(u, Key(d)) && k < |u| {
      FilledInPlace(devs, news, u, k, d);
    } else if k == |u| {
      FullInPlace(devs, news, u, d);
    }
  }

  /** Adding fills the free slots from the first on, with the devices opened in the order found; those for
      which no slot is left are not stored. */
  lemma {:induction false} UpdatedInPlace(devs: seq<Device>, found: seq<Device>, j: nat)
    requires Fits(devs, found) && j <= |found|
    ensures InPlace(devs, News(found[..j]), Updated(devs, found, j))
  {
    if j == 0 {
      assert found[..0] == [];
    } else {
      UpdatedInPlace(devs, found, j - 1);
      NewsOpen(found[..j - 1]);
      assert found[..j][..j - 1] == found[..j - 1] && found[..j][j - 1] == found[j - 1];
      assert SlotsValid(devs) && found[j - 1].address != -1;
      hide InPlace, AllOpen, Added, SlotsValid, Holds;
      AddedInPlace(devs, News(found[..j - 1]), Updated(devs, found, j - 1), found[j - 1]);
    }
  }

  // ---------- what a scan finds ----------

  // What becomes of controller i of a scan: handles are given out one by one.
  function FoundAt(table: seq<Device>, seen: seq<Usb>, next: nat, i: nat): Device
    requires i < |seen|
  {
    var (bus, address) := KeyOf(seen[i]);
    Device(bus, address, if Opens(table, seen[i]) then next + Opening(table, seen[..i]) else 0)
  }

  lemma FoundCons(table: seq<Device>, u: Usb, rest: seq<Usb>, next: nat, after: nat)
    requires after == next + One(Opens(table, u))
    ensures FoundAt(table, [u] + rest, next, 0)
         == Device(KeyOf(u).0, KeyOf(u).1, if Opens(table, u) then next else 0)
    ensures forall i | 0 <= i < |rest| :: FoundAt(table, [u] + rest, next, i + 1) == FoundAt(table, rest, after, i)
  {
    var seen := [u] + rest;
    assert seen[..0] == [];
    forall i | 0 <= i < |rest|
      ensures FoundAt(table, seen, next, i + 1) == FoundAt(table, rest, after, i)
    {
      assert seen[..i + 1][0] == u && seen[..i + 1][1..] == rest[..i] && seen[i + 1] == rest[i];
    }
  }

  lemma {:induction false} ScannedExactly(table: seq<Device>, devs: seq<Usb>, acc: seq<Device>, next: nat)
    requires |acc| < MAX_DEVS
    ensures var f, seen := Scanned(table, devs, acc, next), Seen(devs, MAX_DEVS - |acc|);
      && |f.list| == |acc| + |seen| && f.list[..|acc|] == acc
      && forall i | 0 <= i < |seen| :: f.list[|acc| + i] == FoundAt(table, seen, next, i)
    decreases |devs|
  {
    if devs != [] && devs[0].readable {
      if !devs[0].controller {
        ScannedExactly(table, devs[1..], acc, next);
      } else {
        var u, rest := devs[0], Seen(devs[1..], MAX_DEVS - |acc| - 1);
        var open := !Holds(table, KeyOf(u)) && u.opens;
        var d := Device(KeyOf(u).0, KeyOf(u).1, if open then next else 0);
        var found, after := acc + [d], if open then next + 1 else next;
        var f := Scanned(table, devs, acc, next);
        assert after == next + One(Opens(table, u));
        FoundCons(table, u, rest, next, after);
        if |found| < MAX_DEVS {
          ScannedExactly(table, devs[1..], found, after);
        } else {
          assert rest == [];
        }
        assert Seen(devs, MAX_DEVS - |acc|) == [u] + rest;
        assert |f.list| == |found| + |rest| && f.list[..|found|] == found;
        hide Scanned, Seen, FoundAt, Opens;
        Shifted(table, f.list, acc, d, [u] + rest, next, rest, after);
      }
    }
  }

  lemma Shifted(table: seq<Device>, list: seq<Device>, acc: seq<Device>, d: Device, seen: seq<Usb>, next: nat,
                rest: seq<Usb>, after: nat)
    requires |seen| == |rest| + 1 && |list| == |acc| + 1 + |rest| && list[..|acc| + 1] == acc + [d]
    requires FoundAt(table, seen, next, 0) == d
    requires forall i | 0 <= i < |rest| :: FoundAt(table, seen, next, i + 1) == FoundAt(table, rest, after, i)
    requires forall i | 0 <= i < |rest| :: list[|acc| + 1 + i] == FoundAt(table, rest, after, i)
    ensures list[..|acc|] == acc && forall i | 0 <= i < |seen| :: list[|acc| + i] == FoundAt(table, seen, next, i)
  {
    hide FoundAt;
    assert list[..|acc|] == list[..|acc| + 1][..|acc|] && list[|acc|] == list[..|acc| + 1][|acc|];
    forall i | 0 <= i < |seen|
      ensures list[|acc| + i] == FoundAt(table, seen, next, i)
    {
      if i > 0 { assert list[|acc| + 1 + (i - 1)] == FoundAt(table, rest, after, i - 1); }
    }
  }

  // ---------- the whole poll ----------

  // The new controllers that a scan opens, each once, with the handles they get.
  function Arrivals(table: seq<Device>, seen: seq<Usb>, next: nat): seq<Device> {
    if seen == [] then []
    else
      var init, u := seen[..|seen| - 1], seen[|seen| - 1];
      var before := Arrivals(table, init, next);
      if Opens(table, u) && !Holds(before, KeyOf(u))
      then before + [Device(KeyOf(u).0, KeyOf(u).1, next + Opening(table, init))]
      else before
  }

  lemma {:induction false} NewsAreArrivals(table: seq<Device>, seen: seq<Usb>, found: seq<Device>, next: nat, j: nat)
    requires |found| == |seen| && j <= |seen| && next > 0
    requires forall i | 0 <= i < |seen| :: found[i] == FoundAt(table, seen, next, i)
    ensures News(found[..j]) == Arrivals(table, seen[..j], next)
  {
    if j > 0 {
      NewsAreArrivals(table, seen, found, next, j - 1);
      assert found[..j][..j - 1] == found[..j - 1] && seen[..j][..j - 1] == seen[..j - 1];
      assert found[j - 1] == FoundAt(table, seen, next, j - 1);
    }
  }

  // The slots below slot k that cleaning leaves free.
  function Vacant(table: seq<Device>, seen: seq<Usb>, k: nat): nat
    requires k <= |table|
  {
    if k == 0 then 0 else Vacant(table, seen, k - 1) + One(!Stays(table[k - 1], seen))
  }

  lemma {:induction false} VacantAre(table: seq<Device>, seen: seq<Usb>, c: seq<Device>, k: nat)
    requires |c| == |table| && k <= |c| && forall j | 0 <= j < |c| :: c[j].handle != 0 <==> Stays(table[j], seen)
    ensures FreeBelow(c, k) == Vacant(table, seen, k)
  {
    if k > 0 {
      VacantAre(table, seen, c, k - 1);
      assert c[k - 1].handle != 0 <==> Stays(table[k - 1], seen);
    }
  }

  // Cleaning leaves what stays, and empties all other slots.
  lemma CleanedAre(table: seq<Device>, c: seq<Device>, r: seq<Device>, found: seq<Device>, seen: seq<Usb>)
    requires Steps(table, c, r, found, seen)
    ensures |c| == |table| == MAX_DEVS
    ensures forall k | 0 <= k < |table| :: c[k] == if Stays(table[k], seen) then table[k] else EMPTY
  {
    StepsLengths(table, c, r, found, seen);
    ReportedIffFound(table, found, seen);
    hide Occupied, Handles, OpenKeys, AllHeld, Reported, Represents, DistinctKeys, Adds;
    forall k | 0 <= k < |table|
      ensures c[k] == if Stays(table[k], seen) then table[k] else EMPTY
    {
      assert SlotValid(table[k]);
    }
  }

  // r is the table after a poll: what stays keeps its slot, and the new controllers stand, in the order
  // scanned, in the slots that are free then, from the first on.
  predicate PlacedBy(s: Table, scan: Scan, r: seq<Device>) {
    var seen := Controllers(scan);
    var news := Arrivals(s.devices, seen, s.next);
    && |s.devices| == |r| == MAX_DEVS
    && forall k | 0 <= k < MAX_DEVS ::
         r[k] == if Stays(s.devices[k], seen) then s.devices[k]
                 else if Vacant(s.devices, seen, k) < |news| then news[Vacant(s.devices, seen, k)] else EMPTY
  }

  /** The whole table after any poll, slot by slot. */
  lemma PollPlaces(s: Table, scan: Scan)
    requires Sound(s) && Proper(scan)
    ensures PlacedBy(s, scan, Polled(s, scan).devices)
  {
    hide *;
    var c := PollFills(s, scan);
    PlacedFrom(s, scan, c, Polled(s, scan).devices);
  }

  /** A scan whose list cannot be had empties the table, a slot on bus 255 apart. */
  lemma FailedListEmpties(s: Table, k: nat)
    requires Sound(s) && k < MAX_DEVS
    ensures |s.devices| == |Polled(s, ListFails).devices| == MAX_DEVS
    ensures Polled(s, ListFails).devices[k] == if s.devices[k].bus == -1 then s.devices[k] else EMPTY
  {
    PollPlaces(s, ListFails);
    assert SlotValid(s.devices[k]);
    hide Polled, Sound, Vacant;
  }

  lemma PlacedFrom(s: Table, scan: Scan, c: seq<Device>, r: seq<Device>)
    requires |c| == |s.devices| == MAX_DEVS && InPlace(c, Arrivals(s.devices, Controllers(scan), s.next), r)
    requires forall k | 0 <= k < |c| :: c[k] == if Stays(s.devices[k], Controllers(scan)) then s.devices[k] else EMPTY
    ensures PlacedBy(s, scan, r)
  {
    var seen := Controllers(scan);
    var news := Arrivals(s.devices, seen, s.next);
    assert |r| == |c|;
    hide InPlace, Arrivals, Controllers, Vacant, Stays;
    forall k | 0 <= k < MAX_DEVS
      ensures r[k] == if Stays(s.devices[k], seen) then s.devices[k]
                      else if Vacant(s.devices, seen, k) < |news| then news[Vacant(s.devices, seen, k)] else EMPTY
    {
      PlacesFrom(s.devices, seen, c, news, r, k);
    }
  }

  // c is the table cleaned.
  lemma PollFills(s: Table, scan: Scan) returns (c: seq<Device>)
    requires Sound(s) && Proper(scan)
    ensures |c| == |s.devices| == MAX_DEVS
    ensures InPlace(c, Arrivals(s.devices, Controllers(scan), s.next), Polled(s, scan).devices)
    ensures forall k | 0 <= k < |c| :: c[k] == if Stays(s.devices[k], Controllers(scan)) then s.devices[k] else EMPTY
  {
    hide *;
    var f, seen, r := ScanFound(s, scan), Controllers(scan), Polled(s, scan).devices;
    PollParts(s, scan);
    c := Cleaned(s.(next := f.next), f.list, MAX_DEVS).devices;
    PollSteps(s, scan);
    CleanedAre(s.devices, c, r, f.list, seen);
    StepsFit(s.devices, c, r, f.list, seen);
    ScanExactly(s, scan);
    UpdatedInPlace(c, f.list, |f.list|);
    assert f.list[..|f.list|] == f.list && seen[..|seen|] == seen;
    NewsAreArrivals(s.devices, seen, f.list, s.next, |seen|);
  }

  lemma StepsFit(table: seq<Device>, c: seq<Device>, r: seq<Device>, found: seq<Device>, seen: seq<Usb>)
    requires Steps(table, c, r, found, seen)
    ensures Fits(c, found)
  {
    hide Fits, Adds, RepresentsAll, SlotsValid;
  }

  lemma ScanExactly(s: Table, scan: Scan)
    ensures var f, seen := ScanFound(s, scan), Controllers(scan);
      |f.list| == |seen| && forall i | 0 <= i < |seen| :: f.list[i] == FoundAt(s.devices, seen, s.next, i)
  {
    if scan.Listed? {
      ScannedExactly(s.devices, Reads(scan.devs), [], s.next);
      hide Scanned, Seen, FoundAt, Reads;
      var f, seen := ScanFound(s, scan), Controllers(scan);
      assert forall i | 0 <= i < |seen| :: f.list[0 + i] == FoundAt(s.devices, seen, s.next, i);
    }
  }

  lemma PlacesFrom(table: seq<Device>, seen: seq<Usb>, c: seq<Device>, news: seq<Device>, r: seq<Device>, k: nat)
    requires |c| == |table| && k < |c| && InPlace(c, news, r)
    requires forall j | 0 <= j < |c| :: c[j] == if Stays(table[j], seen) then table[j] else EMPTY
    ensures r[k] == if Stays(table[k], seen) then table[k]
                    else if Vacant(table, seen, k) < |news| then news[Vacant(table, seen, k)] else EMPTY
  {
    hide Reported, FreeBelow, Vacant;
    VacantAre(table, seen, c, k);
  }
}
