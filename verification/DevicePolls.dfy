/** What a poll does to the table, and which handles it loses, whatever the scan. */
module DevicePolls {

  import opened Prelude
  import opened Devices
  import opened DeviceScan

  predicate Reported(seen: seq<Usb>, key: (int, int)) {
    exists i :: 0 <= i < |seen| && KeyOf(seen[i]) == key
  }

  // A new controller that can be opened.
  predicate Opens(table: seq<Device>, u: Usb) {
    u.opens && !Holds(table, KeyOf(u))
  }

  // How many handles the scan opens.
  function Opening(table: seq<Device>, seen: seq<Usb>): nat {
    if seen == [] then 0 else One(Opens(table, seen[0])) + Opening(table, seen[1..])
  }

  // The controllers it opens them for.
  function OpeningKeys(table: seq<Device>, seen: seq<Usb>): set<(int, int)> {
    set u | u in seen && Opens(table, u) :: KeyOf(u)
  }

  // A slot that cleaning leaves occupied.
  predicate Stays(d: Device, seen: seq<Usb>) {
    d.handle != 0 && (d.bus == -1 || Reported(seen, Key(d)))
  }

  function Staying(table: seq<Device>, seen: seq<Usb>): nat {
    if table == [] then 0 else One(Stays(table[0], seen)) + Staying(table[1..], seen)
  }

  function Excess(n: int): nat {
    if n > MAX_DEVS then n - MAX_DEVS else 0
  }

  /** The handles a poll loses: those beyond the first of a controller that is opened more than once, and
      those for which no slot is left. */
  function Lost(s: Table, scan: Scan): int {
    var seen := Controllers(scan);
    var keys := OpeningKeys(s.devices, seen);
    Opening(s.devices, seen) - |keys| + Excess(Staying(s.devices, seen) + |keys|)
  }

  // ---------- what was found ----------

  function OpenKeys(found: seq<Device>): set<(int, int)> {
    set d | d in found && d.handle != 0 :: Key(d)
  }

  lemma {:induction false} OpenedAre(table: seq<Device>, seen: seq<Usb>, found: seq<Device>)
    requires |found| == |seen| && forall i | 0 <= i < |seen| :: Represents(found[i], seen[i], table)
    ensures Occupied(found) == Opening(table, seen)
  {
    if seen != [] {
      assert Represents(found[0], seen[0], table);
      forall i | 0 <= i < |seen[1..]|
        ensures Represents(found[1..][i], seen[1..][i], table)
      {
        assert Represents(found[i + 1], seen[i + 1], table);
      }
      OpenedAre(table, seen[1..], found[1..]);
    }
  }

  lemma OpenKeysAre(table: seq<Device>, seen: seq<Usb>, found: seq<Device>)
    requires |found| == |seen| && forall i | 0 <= i < |seen| :: Represents(found[i], seen[i], table)
    ensures OpenKeys(found) == OpeningKeys(table, seen)
  {
    forall key | key in OpenKeys(found)
      ensures key in OpeningKeys(table, seen)
    {
      var i :| 0 <= i < |found| && found[i].handle != 0 && Key(found[i]) == key;
      assert Represents(found[i], seen[i], table) && seen[i] in seen;
    }
    forall key | key in OpeningKeys(table, seen)
      ensures key in OpenKeys(found)
    {
      var i :| 0 <= i < |seen| && Opens(table, seen[i]) && KeyOf(seen[i]) == key;
      assert Represents(found[i], seen[i], table) && found[i] in found;
    }
  }

  lemma ReportedIffFound(table: seq<Device>, found: seq<Device>, seen: seq<Usb>)
    requires |found| == |seen| && forall i | 0 <= i < |seen| :: Represents(found[i], seen[i], table)
    ensures forall key :: Reported(seen, key) <==> Holds(found, key)
  {
    forall key
      ensures Reported(seen, key) <==> Holds(found, key)
    {
      if i :| 0 <= i < |seen| && KeyOf(seen[i]) == key { assert Represents(found[i], seen[i], table); }
      if i :| 0 <= i < |found| && Key(found[i]) == key { assert Represents(found[i], seen[i], table); }
    }
  }

  lemma {:induction false} StayingAre(table: seq<Device>, seen: seq<Usb>, c: seq<Device>)
    requires |c| == |table| && forall k | 0 <= k < |c| :: c[k].handle != 0 <==> Stays(table[k], seen)
    ensures Occupied(c) == Staying(table, seen)
  {
    if c != [] {
      assert c[0].handle != 0 <==> Stays(table[0], seen);
      forall k | 0 <= k < |c[1..]|
        ensures c[1..][k].handle != 0 <==> Stays(table[1..][k], seen)
      {
        assert c[k + 1].handle != 0 <==> Stays(table[k + 1], seen);
      }
      StayingAre(table[1..], seen, c[1..]);
    }
  }

  // ---------- adding ----------

  // What the scan has found is fit for the table: nothing that is to be added is there.
  predicate Fits(devs: seq<Device>, found: seq<Device>) {
    && SlotsValid(devs)
    && (forall i | 0 <= i < |found| :: found[i].address != -1)
    && (forall i | 0 <= i < |found| && found[i].handle != 0 :: !Holds(devs, Key(found[i])))
  }

  function AtMost(n: nat): nat {
    if n < MAX_DEVS then n else MAX_DEVS
  }

  predicate AllHeld(devs: seq<Device>, found: seq<Device>) {
    forall i | 0 <= i < |found| && found[i].handle != 0 :: Holds(devs, Key(found[i]))
  }

  predicate AddsSlots(devs: seq<Device>, found: seq<Device>, u: seq<Device>) {
    && SlotsValid(u) && |u| == |devs|
    && (forall k | 0 <= k < |devs| && devs[k].handle != 0 :: u[k] == devs[k])
    && (forall k | 0 <= k < |u| && u[k].handle != 0 && u[k] != devs[k] :: u[k] in found)
  }

  // u is devs, with the devices found added: the first of each key, as long as there is room.
  predicate Adds(devs: seq<Device>, found: seq<Device>, u: seq<Device>) {
    && AddsSlots(devs, found, u)
    && Occupied(u) == AtMost(Occupied(devs) + |OpenKeys(found)|)
    && (Occupied(devs) + |OpenKeys(found)| <= MAX_DEVS ==> AllHeld(u, found))
    && Handles(u) <= Handles(devs) + Handles(found)
  }

  lemma OpenKeysAppend(found: seq<Device>, d: Device)
    ensures OpenKeys(found + [d]) == OpenKeys(found) + if d.handle != 0 then {Key(d)} else {}
  {
    assert d in found + [d];
    assert forall e | e in found :: e in found + [d];
  }

  lemma HeldAppend(devs: seq<Device>, found: seq<Device>, d: Device)
    requires AllHeld(devs, found) && (d.handle != 0 ==> Holds(devs, Key(d)))
    ensures AllHeld(devs, found + [d])
  {
  }

  // The key of what is added has been added before exactly when it is held.
  lemma HeldIff(devs: seq<Device>, found: seq<Device>, u: seq<Device>, d: Device)
    requires Adds(devs, found, u) && d.handle != 0 && d.address != -1 && !Holds(devs, Key(d))
    ensures Holds(u, Key(d)) ==> Key(d) in OpenKeys(found)
    ensures AllHeld(u, found) && Key(d) in OpenKeys(found) ==> Holds(u, Key(d))
  {
    if Holds(u, Key(d)) {
      var k :| 0 <= k < |u| && Key(u[k]) == Key(d);
      assert SlotValid(u[k]);
      assert Key(devs[k]) != Key(d);
      assert u[k] in found;
    }
  }

  lemma OneMoreAt(u: multiset<nat>, a: multiset<nat>, b: multiset<nat>, h: multiset<nat>, v: multiset<nat>)
    requires u <= a + b && v <= u + h
    ensures v <= a + (b + h)
  {
  }

  // Nothing changes, because d is not to be added or cannot be.
  lemma AddsNothing(devs: seq<Device>, found: seq<Device>, u: seq<Device>, d: Device)
    requires Fits(devs, found + [d]) && Adds(devs, found, u)
    requires d.handle != 0 ==> Holds(u, Key(d)) || FirstFree(u) == |u|
    ensures Adds(devs, found + [d], u)
  {
    hide OpenKeys, Handles, Occupied, FirstFree, AllHeld, Fits, SlotsValid, Holds, AtMost, AddsSlots, Key, HandleOf;
    FitsLast(devs, found, d);
    HandlesAppend(found, d);
    NothingCounted(devs, found, u, d);
    if Occupied(devs) + |OpenKeys(found + [d])| <= MAX_DEVS { NothingNew(devs, found, u, d); }
    OneMoreAt(Handles(u), Handles(devs), Handles(found), HandleOf(d), Handles(u));
    SlotsOfMore(devs, found, u, d);
  }

  lemma SlotsOfMore(devs: seq<Device>, found: seq<Device>, u: seq<Device>, d: Device)
    requires AddsSlots(devs, found, u)
    ensures AddsSlots(devs, found + [d], u)
  {
    hide SlotsValid;
    assert forall e | e in found :: e in found + [d];
  }

  lemma NothingCounted(devs: seq<Device>, found: seq<Device>, u: seq<Device>, d: Device)
    requires Adds(devs, found, u)
    requires d.handle != 0 ==> Holds(u, Key(d)) || FirstFree(u) == |u|
    requires d.handle != 0 ==> d.address != -1 && !Holds(devs, Key(d))
    ensures Occupied(u) == AtMost(Occupied(devs) + |OpenKeys(found + [d])|)
  {
    hide *;
    AddsCount(devs, found, u);
    OpenKeysAppend(found, d);
    FullIff(u);
    Grows(OpenKeys(found), OpenKeys(found + [d]));
    if d.handle == 0 || Holds(u, Key(d)) {
      if d.handle != 0 { HeldIff(devs, found, u, d); }
      assert OpenKeys(found + [d]) == OpenKeys(found);
    } else {
      AtMostGrows(Occupied(devs) + |OpenKeys(found)|, Occupied(devs) + |OpenKeys(found + [d])|);
    }
  }

  lemma AtMostGrows(m: nat, n: nat)
    requires m <= n && AtMost(m) == MAX_DEVS
    ensures AtMost(n) == MAX_DEVS
  {
  }

  lemma AddsCount(devs: seq<Device>, found: seq<Device>, u: seq<Device>)
    requires Adds(devs, found, u)
    ensures |u| == |devs| == MAX_DEVS
    ensures Occupied(u) == AtMost(Occupied(devs) + |OpenKeys(found)|)
    ensures Occupied(devs) + |OpenKeys(found)| <= MAX_DEVS ==> AllHeld(u, found)
  {
    hide OpenKeys, Handles, Occupied, AllHeld, AtMost, Holds;
  }

  lemma Grows<T>(a: set<T>, b: set<T>)
    requires a <= b
    ensures |a| <= |b|
  {
    assert b == a + (b - a);
  }

  lemma NothingNew(devs: seq<Device>, found: seq<Device>, u: seq<Device>, d: Device)
    requires Adds(devs, found, u) && Occupied(devs) + |OpenKeys(found + [d])| <= MAX_DEVS
    requires d.handle != 0 ==> Holds(u, Key(d)) || FirstFree(u) == |u|
    requires d.handle != 0 ==> d.address != -1 && !Holds(devs, Key(d))
    ensures AllHeld(u, found + [d])
  {
    OpenKeysAppend(found, d);
    Grows(OpenKeys(found), OpenKeys(found + [d]));
    if d.handle != 0 && !Holds(u, Key(d)) {
      FullIff(u);
      HeldIff(devs, found, u, d);
    }
    HeldAppend(u, found, d);
    hide OpenKeys, Handles, Occupied, FirstFree, AllHeld, SlotsValid, Holds;
  }

  lemma Fills(devs: seq<Device>, found: seq<Device>, u: seq<Device>, d: Device, k: nat)
    requires Fits(devs, found + [d]) && Adds(devs, found, u)
    requires d.handle != 0 && !Holds(u, Key(d)) && k < |u| && u[k].handle == 0
    ensures Adds(devs, found + [d], u[k := d])
  {
    hide OpenKeys, Handles, Occupied, AllHeld, Fits, AddsSlots, Holds, AtMost, Key;
    FitsLast(devs, found, d);
    FillsSlots(devs, found, u, d, k);
    FillsOne(devs, found, u, d, k);
    FillsHandles(devs, found, u, d, k);
  }

  lemma FitsLast(devs: seq<Device>, found: seq<Device>, d: Device)
    requires Fits(devs, found + [d])
    ensures d.address != -1 && (d.handle != 0 ==> !Holds(devs, Key(d)))
    ensures Fits(devs, found)
  {
    assert (found + [d])[|found|] == d;
    assert forall i | 0 <= i < |found| :: found[i] == (found + [d])[i];
    hide Holds, SlotsValid;
  }

  lemma FillsHandles(devs: seq<Device>, found: seq<Device>, u: seq<Device>, d: Device, k: nat)
    requires Handles(u) <= Handles(devs) + Handles(found) && k < |u| && u[k].handle == 0
    ensures Handles(u[k := d]) <= Handles(devs) + Handles(found + [d])
  {
    assert HandleOf(u[k]) == multiset{};
    hide *;
    HandlesUpdate(u, k, d);
    HandlesAppend(found, d);
    OneMoreAt(Handles(u), Handles(devs), Handles(found), HandleOf(d), Handles(u[k := d]));
  }

  lemma FillsOne(devs: seq<Device>, found: seq<Device>, u: seq<Device>, d: Device, k: nat)
    requires Adds(devs, found, u) && Fits(devs, found) && !Holds(devs, Key(d)) && d.address != -1
    requires d.handle != 0 && !Holds(u, Key(d)) && k < |u| && u[k].handle == 0
    ensures Occupied(u[k := d]) == AtMost(Occupied(devs) + |OpenKeys(found + [d])|)
    ensures AllHeld(u[k := d], found + [d])
  {
    hide *;
    AddsCount(devs, found, u);
    OpenKeysAppend(found, d);
    OccupiedOneMore(u, k, d);
    OccupiedBelow(u, k);
    BelowMost(Occupied(devs) + |OpenKeys(found)|);
    HeldIff(devs, found, u, d);
    FilledHeld(devs, u, found, d, k);
    assert Key(d) !in OpenKeys(found);
    OneLarger(OpenKeys(found), Key(d));
    BelowMost(Occupied(devs) + |OpenKeys(found + [d])|);
  }

  lemma BelowMost(n: nat)
    ensures AtMost(n) < MAX_DEVS ==> n < MAX_DEVS
    ensures n <= MAX_DEVS ==> AtMost(n) == n
  {
  }

  lemma OneLarger<T>(a: set<T>, x: T)
    requires x !in a
    ensures |a + {x}| == |a| + 1
  {
  }

  lemma OccupiedOneMore(u: seq<Device>, k: nat, d: Device)
    requires k < |u| && u[k].handle == 0 && d.handle != 0
    ensures Occupied(u[k := d]) == Occupied(u) + 1
  {
    OccupiedUpdate(u, k, d);
    hide Occupied;
  }

  lemma OccupiedBelow(u: seq<Device>, k: nat)
    requires k < |u| && u[k].handle == 0
    ensures Occupied(u) < |u|
  {
    FullIff(u);
    hide Occupied;
  }

  lemma FillsSlots(devs: seq<Device>, found: seq<Device>, u: seq<Device>, d: Device, k: nat)
    requires Adds(devs, found, u) && d.address != -1
    requires d.handle != 0 && !Holds(u, Key(d)) && k < |u| && u[k].handle == 0
    ensures AddsSlots(devs, found + [d], u[k := d])
  {
    assert forall m | 0 <= m < |u| :: Key(u[m]) != Key(d);
    hide Handles, Occupied, OpenKeys, AllHeld;
    assert (found + [d])[|found|] == d;
    assert forall e | e in found :: e in found + [d];
  }

  lemma FilledHeld(devs: seq<Device>, u: seq<Device>, found: seq<Device>, d: Device, k: nat)
    requires k < |u| && u[k].handle == 0 && Adds(devs, found, u) && Fits(devs, found)
    ensures AllHeld(u, found) ==> AllHeld(u[k := d], found + [d])
  {
    var v := u[k := d];
    assert SlotValid(u[k]);
    hide Handles, Occupied, OpenKeys, SlotsValid;
    if AllHeld(u, found) {
      assert Holds(v, Key(d)) by { assert Key(v[k]) == Key(d); }
      forall i | 0 <= i < |found| && found[i].handle != 0
        ensures Holds(v, Key(found[i]))
      {
        var m :| 0 <= m < |u| && Key(u[m]) == Key(found[i]);
        assert Key(v[m]) == Key(found[i]);
      }
      HeldAppend(v, found, d);
    }
  }

  lemma AddedAdds(devs: seq<Device>, found: seq<Device>, u: seq<Device>, d: Device)
    requires Fits(devs, found + [d]) && Adds(devs, found, u)
    ensures Adds(devs, found + [d], Added(u, d))
  {
    var k := FirstFree(u);
    AddsCount(devs, found, u);
    hide Fits, Adds;
    if Holds(u, Key(d)) || d.handle == 0 || k == |u| {
      AddsNothing(devs, found, u, d);
    } else {
      Fills(devs, found, u, d, k);
    }
  }

  lemma AddsNone(devs: seq<Device>)
    requires SlotsValid(devs)
    ensures Adds(devs, [], devs)
  {
    assert OpenKeys([]) == {} && Handles([]) == multiset{};
    FullIff(devs);
    hide Occupied, Handles;
  }

  lemma {:induction false} UpdatedAdds(devs: seq<Device>, found: seq<Device>, j: nat)
    requires Fits(devs, found) && j <= |found|
    ensures Adds(devs, found[..j], Updated(devs, found, j))
  {
    if j == 0 {
      assert found[..0] == [];
      AddsNone(devs);
    } else {
      UpdatedAdds(devs, found, j - 1);
      assert Updated(devs, found, j) == Added(Updated(devs, found, j - 1), found[j - 1]);
      hide *;
      assert found[..j] == found[..j - 1] + [found[j - 1]];
      FitsPrefix(devs, found, j);
      AddedAdds(devs, found[..j - 1], Updated(devs, found, j - 1), found[j - 1]);
    }
  }

  lemma FitsPrefix(devs: seq<Device>, found: seq<Device>, j: nat)
    requires Fits(devs, found) && j <= |found|
    ensures Fits(devs, found[..j])
  {
    assert forall i | 0 <= i < j :: found[..j][i] == found[i];
  }

  // ---------- polls ----------

  predicate RepresentsAll(found: seq<Device>, seen: seq<Usb>, table: seq<Device>) {
    |found| == |seen| && forall i | 0 <= i < |seen| :: Represents(found[i], seen[i], table)
  }

  // c is the table cleaned, r is c with what was found added.
  predicate Steps(table: seq<Device>, c: seq<Device>, r: seq<Device>, found: seq<Device>, seen: seq<Usb>) {
    && SlotsValid(table) && Fits(c, found) && Adds(c, found, r) && RepresentsAll(found, seen, table)
    && (forall k | 0 <= k < |table| :: c[k] == if Gone(table[k], found) then EMPTY else table[k])
  }

  lemma SeenProper(scan: Scan)
    requires Proper(scan)
    ensures |Controllers(scan)| <= MAX_DEVS
    ensures forall u | u in Controllers(scan) :: scan.Listed? && u in scan.devs
    ensures forall u | u in Controllers(scan) :: u.bus < 256 && 1 <= u.address <= 127
  {
    if scan.Listed? { SeenInScan(scan.devs); }
    hide Seen, Reads;
  }

  lemma ScanRepresents(s: Table, scan: Scan)
    requires s.next > 0
    ensures RepresentsAll(ScanFound(s, scan).list, Controllers(scan), s.devices)
    ensures ScanFound(s, scan).next >= s.next
    ensures Handles(ScanFound(s, scan).list) + Issued(s.next) == Issued(ScanFound(s, scan).next)
  {
    if scan.Listed? {
      var devs, seen := Reads(scan.devs), Controllers(scan);
      var f := ScanFound(s, scan);
      ScannedAreSeen(s.devices, devs, [], s.next);
      ScannedHandles(s.devices, devs, [], s.next);
      assert forall i | 0 <= i < |seen| :: Represents(f.list[0 + i], seen[i], s.devices);
      assert Handles([]) == multiset{};
      hide Seen, Scanned, Handles, Issued, Reads, Represents;
    }
  }

  lemma CleanedFits(table: seq<Device>, c: seq<Device>, found: seq<Device>, seen: seq<Usb>)
    requires SlotsValid(table) && SlotsValid(c) && RepresentsAll(found, seen, table)
    requires forall u | u in seen :: 1 <= u.address <= 127
    requires forall k | 0 <= k < |table| :: c[k] == if Gone(table[k], found) then EMPTY else table[k]
    ensures Fits(c, found)
  {
    forall i | 0 <= i < |found|
      ensures found[i].address != -1 && (found[i].handle != 0 ==> !Holds(c, Key(found[i])))
    {
      assert Represents(found[i], seen[i], table) && seen[i] in seen;
      if found[i].handle != 0 {
        forall k | 0 <= k < |c|
          ensures Key(c[k]) != Key(found[i])
        {
          assert Key(table[k]) != Key(found[i]);
        }
      }
    }
  }

  lemma PollParts(s: Table, scan: Scan)
    requires Sound(s)
    ensures |s.devices| == MAX_DEVS && s.next > 0 && SlotsValid(s.devices)
    ensures var r, f := Polled(s, scan), ScanFound(s, scan);
      var c := Cleaned(s.(next := f.next), f.list, MAX_DEVS);
      r.next == c.next && r.closed == c.closed && r.devices == Updated(c.devices, f.list, |f.list|)
  {
    hide Cleaned, ScanFound, Handles, Issued, Updated, DistinctKeys, SlotValid;
  }

  lemma PollSteps(s: Table, scan: Scan)
    requires Sound(s) && Proper(scan)
    ensures var f := ScanFound(s, scan);
      Steps(s.devices, Cleaned(s.(next := f.next), f.list, MAX_DEVS).devices, Polled(s, scan).devices, f.list, Controllers(scan))
  {
    hide Cleaned, Updated, Fits, Adds, RepresentsAll, Controllers, ScanFound, SlotsValid, Gone, Polled, Sound, Proper;
    PollParts(s, scan);
    var f, seen := ScanFound(s, scan), Controllers(scan);
    var c := Cleaned(s.(next := f.next), f.list, MAX_DEVS);
    ScanRepresents(s, scan);
    SeenProper(scan);
    CleanedValid(s.(next := f.next), f.list);
    CleanedFits(s.devices, c.devices, f.list, seen);
    UpdatedAdds(c.devices, f.list, |f.list|);
    assert f.list[..|f.list|] == f.list;
  }

  lemma StepsCount(table: seq<Device>, c: seq<Device>, r: seq<Device>, found: seq<Device>, seen: seq<Usb>)
    requires Steps(table, c, r, found, seen)
    ensures Occupied(found) == Opening(table, seen) && Occupied(c) == Staying(table, seen)
    ensures Occupied(r) == AtMost(Staying(table, seen) + |OpeningKeys(table, seen)|)
  {
    OpenedAre(table, seen, found);
    OpenKeysAre(table, seen, found);
    ReportedIffFound(table, found, seen);
    hide Occupied, Handles, Staying, Opening, OpeningKeys, OpenKeys, Represents, Reported, Holds, AllHeld;
    forall k | 0 <= k < |c|
      ensures c[k].handle != 0 <==> Stays(table[k], seen)
    {
      assert SlotValid(table[k]);
    }
    StayingAre(table, seen, c);
  }

  lemma WithinIssued(r: multiset<nat>, c: multiset<nat>, closed: multiset<nat>, before: multiset<nat>,
                     found: multiset<nat>, issued: multiset<nat>, next: multiset<nat>)
    requires r <= c + found && c + closed == before && before <= issued && found + issued == next
    ensures r + closed <= next
  {
  }

  lemma CleanedSize(s: Table, found: seq<Device>)
    requires |s.devices| == MAX_DEVS
    ensures var c := Cleaned(s, found, MAX_DEVS);
      c.next == s.next && Occupied(c.devices) + |c.closed| == Occupied(s.devices) + |s.closed|
  {
    var c := Cleaned(s, found, MAX_DEVS);
    CleanedSlots(s, found, MAX_DEVS, 0);
    CleanedHandles(s, found, MAX_DEVS);
    hide *;
    HandlesSize(s.devices);
    HandlesSize(c.devices);
    assert |Handles(c.devices) + multiset(c.closed)| == |Handles(s.devices) + multiset(s.closed)|;
  }

  lemma ScannedSize(s: Table, scan: Scan)
    requires s.next > 0
    ensures Occupied(ScanFound(s, scan).list) == ScanFound(s, scan).next - s.next
  {
    hide *;
    var f := ScanFound(s, scan);
    ScanRepresents(s, scan);
    HandlesSize(f.list);
    IssuedSize(s.next);
    IssuedSize(f.next);
    assert |Handles(f.list) + Issued(s.next)| == |Issued(f.next)|;
  }

  lemma PollSound(s: Table, scan: Scan)
    requires Sound(s) && Proper(scan)
    ensures Sound(Polled(s, scan))
  {
    var f, seen, r := ScanFound(s, scan), Controllers(scan), Polled(s, scan);
    var c := Cleaned(s.(next := f.next), f.list, MAX_DEVS);
    ScanRepresents(s, scan);
    PollSteps(s, scan);
    CleanedHandles(s.(next := f.next), f.list, MAX_DEVS);
    CleanedSlots(s.(next := f.next), f.list, MAX_DEVS, 0);
    assert SlotsValid(r.devices) && Handles(r.devices) <= Handles(c.devices) + Handles(f.list);
    hide Cleaned, Updated, Steps, ScanFound, Controllers, Handles, Issued, SlotsValid, Staying,
         Opening, OpeningKeys, RepresentsAll, Occupied;
    WithinIssued(Handles(r.devices), Handles(c.devices), multiset(c.closed), Handles(s.devices) + multiset(s.closed),
                 Handles(f.list), Issued(s.next), Issued(f.next));
  }

  lemma PollOccupied(s: Table, scan: Scan)
    requires Sound(s) && Proper(scan)
    ensures var f, seen := ScanFound(s, scan), Controllers(scan);
      && Occupied(f.list) == Opening(s.devices, seen)
      && Occupied(Cleaned(s.(next := f.next), f.list, MAX_DEVS).devices) == Staying(s.devices, seen)
      && Occupied(Polled(s, scan).devices) == AtMost(Staying(s.devices, seen) + |OpeningKeys(s.devices, seen)|)
  {
    hide *;
    PollParts(s, scan);
    var f, seen := ScanFound(s, scan), Controllers(scan);
    var c := Cleaned(s.(next := f.next), f.list, MAX_DEVS);
    PollSteps(s, scan);
    StepsCount(s.devices, c.devices, Polled(s, scan).devices, f.list, seen);
  }

  lemma PollCounts(s: Table, scan: Scan)
    requires Sound(s) && Proper(scan)
    ensures var r, seen := Polled(s, scan), Controllers(scan);
      && r.next == s.next + Opening(s.devices, seen)
      && Staying(s.devices, seen) + |r.closed| == Occupied(s.devices) + |s.closed|
  {
    hide *;
    PollParts(s, scan);
    var f := ScanFound(s, scan);
    PollOccupied(s, scan);
    ScannedSize(s, scan);
    CleanedSize(s.(next := f.next), f.list);
  }

  lemma Excesses(n: nat)
    ensures n == AtMost(n) + Excess(n)
  {
  }

  /** Any poll keeps the table sound; the handles that are then neither in a slot nor closed are those
      that were missing before, and those Lost. */
  lemma PollLoses(s: Table, scan: Scan)
    requires Sound(s) && Proper(scan)
    ensures Sound(Polled(s, scan)) && Polled(s, scan).next >= s.next
    ensures Missing(Polled(s, scan)) == Missing(s) + Lost(s, scan)
  {
    hide Sound, Proper, Polled, Controllers, Staying, Opening, OpeningKeys, Occupied, AtMost, Excess;
    PollSound(s, scan);
    PollCounts(s, scan);
    PollOccupied(s, scan);
    var seen := Controllers(scan);
    Excesses(Staying(s.devices, seen) + |OpeningKeys(s.devices, seen)|);
  }

  // ---------- the table after a poll ----------

  lemma OnlyReported(table: seq<Device>, c: seq<Device>, r: seq<Device>, found: seq<Device>, seen: seq<Usb>, k: nat)
    requires Steps(table, c, r, found, seen) && k < |r| && r[k].handle != 0
    ensures Reported(seen, Key(r[k])) || (r[k] == table[k] && r[k].bus == -1)
  {
    ReportedIffFound(table, found, seen);
    hide Occupied, Handles, OpenKeys, AllHeld, Reported, Represents;
    if r[k] == c[k] {
      assert SlotValid(table[k]);
    } else {
      assert r[k] in found;
    }
  }

  lemma Keeps(table: seq<Device>, c: seq<Device>, r: seq<Device>, found: seq<Device>, seen: seq<Usb>, k: nat)
    requires Steps(table, c, r, found, seen) && k < |table| && Stays(table[k], seen)
    ensures r[k] == table[k]
  {
    ReportedIffFound(table, found, seen);
    hide Occupied, Handles, OpenKeys, AllHeld, Reported, Represents;
  }

  lemma SeenHeld(table: seq<Device>, c: seq<Device>, r: seq<Device>, found: seq<Device>, seen: seq<Usb>, i: nat)
    requires Steps(table, c, r, found, seen) && i < |seen| && seen[i].address < 128
    requires AllHeld(r, found) && (Holds(table, KeyOf(seen[i])) || seen[i].opens)
    ensures Holds(r, KeyOf(seen[i]))
  {
    assert Represents(found[i], seen[i], table);
    hide Occupied, Handles, OpenKeys;
    if Holds(table, KeyOf(seen[i])) {
      var k :| 0 <= k < |table| && Key(table[k]) == KeyOf(seen[i]);
      assert SlotValid(table[k]) && Stays(table[k], seen);
      Keeps(table, c, r, found, seen, k);
      assert Key(r[k]) == KeyOf(seen[i]);
    }
  }

  lemma NotHeld(table: seq<Device>, c: seq<Device>, r: seq<Device>, found: seq<Device>, seen: seq<Usb>, i: nat)
    requires Steps(table, c, r, found, seen) && i < |seen| && seen[i].address < 128
    requires forall m | 0 <= m < |seen| && KeyOf(seen[m]) == KeyOf(seen[i]) :: seen[m] == seen[i]
    requires !Holds(table, KeyOf(seen[i])) && !seen[i].opens
    ensures !Holds(r, KeyOf(seen[i]))
  {
    var key := KeyOf(seen[i]);
    assert Represents(found[i], seen[i], table);
    hide Occupied, Handles, OpenKeys, AllHeld;
    forall k | 0 <= k < |r|
      ensures Key(r[k]) != key
    {
      assert SlotValid(r[k]);
      if r[k] == c[k] {
        assert Key(table[k]) != key;
      } else if r[k].handle != 0 {
        var m :| 0 <= m < |found| && found[m] == r[k];
        assert Represents(found[m], seen[m], table);
      }
    }
  }

  lemma SameUsb(devs: seq<Usb>, u: Usb, v: Usb)
    requires DistinctUsb(devs) && u in devs && v in devs && KeyOf(u) == KeyOf(v)
    ensures u == v
  {
    var a :| 0 <= a < |devs| && devs[a] == u;
    var b :| 0 <= b < |devs| && devs[b] == v;
    assert a == b;
  }

  lemma SameController(scan: Scan, i: nat, m: nat)
    requires Proper(scan) && i < |Controllers(scan)| && m < |Controllers(scan)|
    requires KeyOf(Controllers(scan)[m]) == KeyOf(Controllers(scan)[i])
    ensures Controllers(scan)[m] == Controllers(scan)[i]
  {
    var seen := Controllers(scan);
    SeenProper(scan);
    assert seen[i] in seen && seen[m] in seen;
    SameUsb(scan.devs, seen[m], seen[i]);
    hide Seen, Reads, Controllers;
  }

  /** After a poll the table holds only controllers scanned, apart from those on bus 255; what was there,
      and is scanned again or on bus 255, keeps its slot (its id) and its handle; and, as long as there
      is room, it holds exactly the controllers scanned, minus the new ones whose open failed. */
  lemma PollTable(s: Table, scan: Scan)
    requires Sound(s) && Proper(scan)
    ensures var r, seen := Polled(s, scan), Controllers(scan);
      && |r.devices| == MAX_DEVS
      && (forall k | 0 <= k < MAX_DEVS && r.devices[k].handle != 0 ::
            Reported(seen, Key(r.devices[k])) || (r.devices[k] == s.devices[k] && r.devices[k].bus == -1))
      && (forall k | 0 <= k < MAX_DEVS && Stays(s.devices[k], seen) :: r.devices[k] == s.devices[k])
      && (forall i | 0 <= i < |seen| && Holds(r.devices, KeyOf(seen[i])) :: Holds(s.devices, KeyOf(seen[i])) || seen[i].opens)
      && (Staying(s.devices, seen) + |OpeningKeys(s.devices, seen)| <= MAX_DEVS ==>
            forall i | 0 <= i < |seen| && (Holds(s.devices, KeyOf(seen[i])) || seen[i].opens) :: Holds(r.devices, KeyOf(seen[i])))
  {
    var f, seen, r := ScanFound(s, scan), Controllers(scan), Polled(s, scan).devices;
    PollParts(s, scan);
    var c := Cleaned(s.(next := f.next), f.list, MAX_DEVS).devices;
    PollSteps(s, scan);
    StepsLengths(s.devices, c, r, f.list, seen);
    SeenProper(scan);
    hide *;
    assert forall i | 0 <= i < |seen| :: seen[i] in seen;
    forall k: nat | k < MAX_DEVS && r[k].handle != 0
      ensures Reported(seen, Key(r[k])) || (r[k] == s.devices[k] && r[k].bus == -1)
    {
      OnlyReported(s.devices, c, r, f.list, seen, k);
    }
    forall k: nat | k < MAX_DEVS && Stays(s.devices[k], seen)
      ensures r[k] == s.devices[k]
    {
      Keeps(s.devices, c, r, f.list, seen, k);
    }
    forall i: nat | i < |seen| && Holds(r, KeyOf(seen[i]))
      ensures Holds(s.devices, KeyOf(seen[i])) || seen[i].opens
    {
      if !Holds(s.devices, KeyOf(seen[i])) && !seen[i].opens {
        forall m: nat | m < |seen| && KeyOf(seen[m]) == KeyOf(seen[i])
          ensures seen[m] == seen[i]
        {
          SameController(scan, i, m);
        }
        NotHeld(s.devices, c, r, f.list, seen, i);
      }
    }
    if Staying(s.devices, seen) + |OpeningKeys(s.devices, seen)| <= MAX_DEVS {
      StepsHeld(s.devices, c, r, f.list, seen);
      forall i: nat | i < |seen| && (Holds(s.devices, KeyOf(seen[i])) || seen[i].opens)
        ensures Holds(r, KeyOf(seen[i]))
      {
        SeenHeld(s.devices, c, r, f.list, seen, i);
      }
    }
  }

  lemma StepsLengths(table: seq<Device>, c: seq<Device>, r: seq<Device>, found: seq<Device>, seen: seq<Usb>)
    requires Steps(table, c, r, found, seen)
    ensures |table| == |c| == |r| == MAX_DEVS && |found| == |seen|
  {
    hide Occupied, Handles, OpenKeys, AllHeld, Represents, SlotValid, DistinctKeys;
  }

  lemma StepsHeld(table: seq<Device>, c: seq<Device>, r: seq<Device>, found: seq<Device>, seen: seq<Usb>)
    requires Steps(table, c, r, found, seen) && Staying(table, seen) + |OpeningKeys(table, seen)| <= MAX_DEVS
    ensures AllHeld(r, found)
  {
    StepsCount(table, c, r, found, seen);
    OpenKeysAre(table, seen, found);
    hide Occupied, Handles, Staying, OpeningKeys, OpenKeys, AllHeld, Represents, SlotValid, DistinctKeys, Gone, AddsSlots, Fits;
  }

  // ---------- what is lost ----------

  lemma OpeningCons(table: seq<Device>, seen: seq<Usb>)
    requires seen != []
    ensures OpeningKeys(table, seen)
         == OpeningKeys(table, seen[1..]) + if Opens(table, seen[0]) then {KeyOf(seen[0])} else {}
  {
    assert seen == [seen[0]] + seen[1..];
    assert forall u | u in seen[1..] :: u in seen;
    hide Opens;
  }

  // No controller is opened twice.
  predicate OpensOnce(table: seq<Device>, seen: seq<Usb>) {
    forall i, j | 0 <= i < j < |seen| && Opens(table, seen[i]) && Opens(table, seen[j]) :: KeyOf(seen[i]) != KeyOf(seen[j])
  }

  lemma OpensOnceCons(table: seq<Device>, seen: seq<Usb>)
    requires seen != []
    ensures OpensOnce(table, seen) <==>
      OpensOnce(table, seen[1..]) && (Opens(table, seen[0]) ==> KeyOf(seen[0]) !in OpeningKeys(table, seen[1..]))
  {
    var rest := seen[1..];
    assert forall i | 0 <= i < |rest| :: rest[i] == seen[i + 1];
    hide Opens;
    if OpensOnce(table, seen) {
      forall i, j | 0 <= i < j < |rest| && Opens(table, rest[i]) && Opens(table, rest[j])
        ensures KeyOf(rest[i]) != KeyOf(rest[j])
      {
        assert rest[i] == seen[i + 1] && rest[j] == seen[j + 1];
      }
      forall j | 0 <= j < |rest| && Opens(table, seen[0]) && Opens(table, rest[j])
        ensures KeyOf(seen[0]) != KeyOf(rest[j])
      {
        assert rest[j] == seen[j + 1];
      }
    }
    if OpensOnce(table, rest) && (Opens(table, seen[0]) ==> KeyOf(seen[0]) !in OpeningKeys(table, rest)) {
      forall i, j | 0 <= i < j < |seen| && Opens(table, seen[i]) && Opens(table, seen[j])
        ensures KeyOf(seen[i]) != KeyOf(seen[j])
      {
        assert seen[j] == rest[j - 1] && seen[j] in rest;
        if i > 0 { assert seen[i] == rest[i - 1]; }
      }
    }
  }

  lemma MaybeLarger<T>(a: set<T>, x: T, more: bool)
    ensures |a + if more then {x} else {}| == |a| + One(more && x !in a)
  {
    assert x in a ==> a + {x} == a;
    assert a + {} == a;
  }

  lemma {:induction false} OpeningSize(table: seq<Device>, seen: seq<Usb>)
    ensures |OpeningKeys(table, seen)| <= Opening(table, seen)
    ensures |OpeningKeys(table, seen)| == Opening(table, seen) <==> OpensOnce(table, seen)
  {
    if seen != [] {
      OpeningSize(table, seen[1..]);
      OpeningCons(table, seen);
      OpensOnceCons(table, seen);
      MaybeLarger(OpeningKeys(table, seen[1..]), KeyOf(seen[0]), Opens(table, seen[0]));
      hide OpeningKeys, OpensOnce, Opens;
    }
  }

  /** A poll loses no handle exactly when it opens no controller twice and has room for those it opens. */
  lemma LosesNoneIff(s: Table, scan: Scan)
    ensures var seen := Controllers(scan);
      && Lost(s, scan) >= 0
      && (Lost(s, scan) == 0 <==>
            OpensOnce(s.devices, seen) && Staying(s.devices, seen) + Opening(s.devices, seen) <= MAX_DEVS)
  {
    OpeningSize(s.devices, Controllers(scan));
    hide Controllers, OpensOnce, OpeningKeys, Opening, Staying;
  }

  // ---------- room for all ----------

  function SeenKeys(seen: seq<Usb>): set<(int, int)> {
    set u | u in seen :: KeyOf(u)
  }

  function StayingKeys(table: seq<Device>, seen: seq<Usb>): set<(int, int)> {
    set d | d in table && Stays(d, seen) :: Key(d)
  }

  lemma {:induction false} SeenKeysSize(seen: seq<Usb>)
    ensures |SeenKeys(seen)| <= |seen|
  {
    if seen != [] {
      var rest := seen[1..];
      SeenKeysSize(rest);
      assert seen == [seen[0]] + rest;
      assert SeenKeys(seen) == SeenKeys(rest) + {KeyOf(seen[0])};
      UnionSize(SeenKeys(rest), {KeyOf(seen[0])});
    }
  }

  lemma UnionSize<T>(a: set<T>, b: set<T>)
    ensures |a + b| <= |a| + |b|
    ensures a !! b ==> |a + b| == |a| + |b|
  {
    var c := b - a;
    assert a + b == a + c && a !! c;
    Grows(c, b);
    assert a !! b ==> c == b;
  }

  lemma StayingCons(table: seq<Device>, seen: seq<Usb>)
    requires table != []
    ensures StayingKeys(table, seen)
         == StayingKeys(table[1..], seen) + if Stays(table[0], seen) then {Key(table[0])} else {}
  {
    assert table == [table[0]] + table[1..];
    assert forall d | d in table[1..] :: d in table;
    hide Stays;
  }

  lemma DistinctCons(table: seq<Device>, seen: seq<Usb>)
    requires table != [] && DistinctKeys(table)
    ensures DistinctKeys(table[1..])
    ensures Stays(table[0], seen) ==> Key(table[0]) !in StayingKeys(table[1..], seen)
  {
    var rest := table[1..];
    assert forall i | 0 <= i < |rest| :: rest[i] == table[i + 1];
    hide Reported;
    forall d | d in rest && Stays(d, seen) && table[0].handle != 0
      ensures Key(d) != Key(table[0])
    {
      var i :| 0 <= i < |rest| && rest[i] == d;
      assert table[i + 1] == d;
    }
  }

  lemma {:induction false} StayingSize(table: seq<Device>, seen: seq<Usb>)
    requires DistinctKeys(table)
    ensures |StayingKeys(table, seen)| == Staying(table, seen)
  {
    if table != [] {
      DistinctCons(table, seen);
      StayingSize(table[1..], seen);
      StayingCons(table, seen);
      MaybeLarger(StayingKeys(table[1..], seen), Key(table[0]), Stays(table[0], seen));
      hide Stays, StayingKeys, DistinctKeys;
    }
  }

  /** The slots of controllers that are still there and the new controllers are together at most as many
      as the controllers scanned: so there is room, unless a slot is stuck. */
  lemma Pigeonhole(table: seq<Device>, seen: seq<Usb>)
    requires DistinctKeys(table) && StuckFree(table)
    ensures Staying(table, seen) + |OpeningKeys(table, seen)| <= |seen|
  {
    var kept, added := StayingKeys(table, seen), OpeningKeys(table, seen);
    StayingSize(table, seen);
    SeenKeysSize(seen);
    assert kept !! added by {
      forall key | key in kept
        ensures key !in added
      {
        var d :| d in table && Stays(d, seen) && Key(d) == key;
        assert Holds(table, key);
      }
    }
    assert kept + added <= SeenKeys(seen) by {
      forall key | key in kept
        ensures key in SeenKeys(seen)
      {
        var d :| d in table && Stays(d, seen) && Key(d) == key;
        assert Reported(seen, key);
        var i :| 0 <= i < |seen| && KeyOf(seen[i]) == key;
        assert seen[i] in seen;
      }
    }
    hide *;
    UnionSize(kept, added);
    Grows(kept + added, SeenKeys(seen));
  }

  /** No poll of a list that is read once, with no controller on bus 255, loses a handle. */
  lemma AttachedLosesNone(s: Table, scan: Scan)
    requires Sound(s) && StuckFree(s.devices) && Attached(scan)
    ensures Lost(s, scan) == 0
  {
    var seen := Controllers(scan);
    LosesNoneIff(s, scan);
    Pigeonhole(s.devices, seen);
    OpeningSize(s.devices, seen);
    SeenProper(scan);
    if scan.Listed? {
      ReadsOnceEnds(scan.devs);
      SeenDistinctIff(scan.devs);
      assert DistinctUsb(seen);
    }
    hide Controllers, Proper, Opening, OpeningKeys, Staying, Sound, StuckFree, Attached, Opens;
  }
}