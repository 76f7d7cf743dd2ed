/** devices.c of the xbc daemon: a table of game controllers, reconciled with each scan of the USB. */
module Devices {

  import opened Prelude

  const MAX_DEVS: nat := 4

  // The index into libusb's list is of type uint8_t.
  const INDEX_RANGE: nat := 256

  // A slot: bus and address are of type int8_t; handle 0 is NULL.
  datatype Device = Device(bus: int, address: int, handle: nat)

  const EMPTY := Device(-1, -1, 0)

  // What libusb reports of one attached device: whether it is a controller, and whether reading its
  // descriptor and opening it succeed.
  datatype Usb = Usb(bus: nat, address: nat, controller: bool, readable: bool, opens: bool)

  datatype Scan = ListFails | Listed(devs: seq<Usb>)

  // Conversion of uint8_t to int8_t.
  function ToInt8(x: nat): int {
    if x < 128 then x else x - 256
  }

  /** The value of an int8_t that is the same modulo 256. */
  lemma Int8Wraps(x: nat)
    requires x < 256
    ensures -128 <= ToInt8(x) < 128 && (x - ToInt8(x)) % 256 == 0
  {
  }

  function Key(d: Device): (int, int) {
    (d.bus, d.address)
  }

  function KeyOf(u: Usb): (int, int) {
    (ToInt8(u.bus), ToInt8(u.address))
  }

  predicate Holds(devs: seq<Device>, key: (int, int)) {
    exists k :: 0 <= k < |devs| && Key(devs[k]) == key
  }

  predicate DistinctKeys(devs: seq<Device>) {
    forall i, j | 0 <= i < j < |devs| && devs[i].handle != 0 && devs[j].handle != 0 :: Key(devs[i]) != Key(devs[j])
  }

  // The table: its slots, the next handle libusb will give out, and the handles closed so far.
  datatype Table = Table(devices: seq<Device>, next: nat, closed: seq<nat>)

  // Bus 255 becomes -1, so an occupied slot may have bus -1; addresses end at 127.
  predicate SlotValid(d: Device) {
    && (d.handle == 0 <==> Key(d) == (-1, -1))
    && (d.handle != 0 ==> d.address != -1)
  }

  predicate SlotsValid(devs: seq<Device>) {
    && |devs| == MAX_DEVS
    && (forall k | 0 <= k < |devs| :: SlotValid(devs[k]))
    && DistinctKeys(devs)
  }

  function HandleOf(d: Device): multiset<nat> {
    if d.handle == 0 then multiset{} else multiset{d.handle}
  }

  function Handles(devs: seq<Device>): multiset<nat> {
    if devs == [] then multiset{} else HandleOf(devs[0]) + Handles(devs[1..])
  }

  function Occupied(devs: seq<Device>): nat {
    if devs == [] then 0 else One(devs[0].handle != 0) + Occupied(devs[1..])
  }

  // All the handles libusb has given out.
  function Issued(next: nat): multiset<nat> {
    if next <= 1 then multiset{} else Issued(next - 1) + multiset{next - 1}
  }

  // Slots are well formed, and no handle is in two places.
  predicate Sound(s: Table) {
    && s.next > 0
    && SlotsValid(s.devices)
    && Handles(s.devices) + multiset(s.closed) <= Issued(s.next)
  }

  // How many of the handles issued are neither in the table nor closed.
  function Missing(s: Table): int {
    s.next - 1 - Occupied(s.devices) - |s.closed|
  }

  // No controller on bus 255 is in the table.
  predicate StuckFree(devs: seq<Device>) {
    forall k | 0 <= k < |devs| && devs[k].handle != 0 :: devs[k].bus != -1
  }

  // Every handle issued is in one slot or closed, once; and nothing is in the table for good.
  predicate Valid(s: Table) {
    && s.next > 0
    && SlotsValid(s.devices)
    && Handles(s.devices) + multiset(s.closed) == Issued(s.next)
    && StuckFree(s.devices)
  }

  function Start(): Table {
    Table(seq(MAX_DEVS, _ => EMPTY), 1, [])
  }

  // ---------- one poll ----------

  /** The controllers of a scan: at most room, and none after a descriptor that cannot be read. */
  function Seen(devs: seq<Usb>, room: nat): (r: seq<Usb>)
    ensures |r| <= room
  {
    if devs == [] || room == 0 || !devs[0].readable then []
    else if devs[0].controller then [devs[0]] + Seen(devs[1..], room - 1)
    else Seen(devs[1..], room)
  }

  // The first n reads of a list that is too long for its index.
  function FirstReads(devs: seq<Usb>, n: nat): seq<Usb>
    requires |devs| >= INDEX_RANGE
  {
    seq(n, j requires 0 <= j < n => devs[j % INDEX_RANGE])
  }

  /** The entries that getDevices() may come to read, in order. The end of a list of 256 entries or more
      is never met: the index starts again at 0, and each time round counts the same controllers again. */
  function Reads(devs: seq<Usb>): seq<Usb> {
    if |devs| < INDEX_RANGE then devs else FirstReads(devs, MAX_DEVS * INDEX_RANGE)
  }

  function Controllers(scan: Scan): seq<Usb> {
    match scan
    case ListFails => []
    case Listed(devs) => Seen(Reads(devs), MAX_DEVS)
  }

  predicate DistinctUsb(devs: seq<Usb>) {
    forall i, j | 0 <= i < j < |devs| :: KeyOf(devs[i]) != KeyOf(devs[j])
  }

  // USB addresses are 1 to 127, and no two devices share bus and address (nor, then, their int8_t
  // forms: KeyInjective).
  predicate Proper(scan: Scan) {
    scan.Listed? ==>
      && (forall i | 0 <= i < |scan.devs| :: scan.devs[i].bus < 256 && 1 <= scan.devs[i].address <= 127)
      && DistinctUsb(scan.devs)
  }

  // The list ends before the index wraps, or the scan stops earlier.
  predicate ReadsOnce(devs: seq<Usb>) {
    || |devs| < INDEX_RANGE
    || (exists i :: 0 <= i < INDEX_RANGE && !devs[i].readable)
    || |Seen(devs[..INDEX_RANGE], MAX_DEVS)| == MAX_DEVS
  }

  // What the table is made for: no controller on bus 255, and every list read once.
  predicate Attached(scan: Scan) {
    && Proper(scan)
    && (scan.Listed? ==> ReadsOnce(scan.devs) && forall i | 0 <= i < |scan.devs| :: scan.devs[i].bus != 255)
  }

  datatype Found = Found(list: seq<Device>, next: nat)

  /** getDevices(): the controllers found, with a handle for those that are new and can be opened. */
  function Scanned(table: seq<Device>, devs: seq<Usb>, acc: seq<Device>, next: nat): Found {
    if devs == [] || !devs[0].readable then Found(acc, next)
    else if !devs[0].controller then Scanned(table, devs[1..], acc, next)
    else
      var open := !Holds(table, KeyOf(devs[0])) && devs[0].opens;
      var found := acc + [Device(KeyOf(devs[0]).0, KeyOf(devs[0]).1, if open then next else 0)];
      var after := if open then next + 1 else next;
      if |found| == MAX_DEVS then Found(found, after) else Scanned(table, devs[1..], found, after)
  }

  function ScanFound(s: Table, scan: Scan): Found {
    match scan
    case ListFails => Found([], s.next)
    case Listed(devs) => Scanned(s.devices, Reads(devs), [], s.next)
  }

  predicate Gone(d: Device, found: seq<Device>) {
    d.bus != -1 && d.address != -1 && !Holds(found, Key(d))
  }

  /** listClean(), after its first i rounds. */
  function Cleaned(s: Table, found: seq<Device>, i: nat): (r: Table)
    requires i <= |s.devices|
    ensures |r.devices| == |s.devices|
  {
    if i == 0 then s
    else
      var t := Cleaned(s, found, i - 1);
      var d := t.devices[i - 1];
      if !Gone(d, found) then t
      else Table(t.devices[i - 1 := EMPTY], t.next, if d.handle == 0 then t.closed else t.closed + [d.handle])
  }

  function FirstFree(devs: seq<Device>): (k: nat)
    ensures k <= |devs|
    ensures k < |devs| ==> devs[k].handle == 0
    ensures forall j | 0 <= j < k :: devs[j].handle != 0
  {
    if devs == [] || devs[0].handle == 0 then 0 else 1 + FirstFree(devs[1..])
  }

  /** listTryAdd(): when there is no free slot the device, and its handle, are dropped. */
  function Added(devs: seq<Device>, d: Device): seq<Device> {
    var k := FirstFree(devs);
    if Holds(devs, Key(d)) || d.handle == 0 || k == |devs| then devs else devs[k := d]
  }

  /** listUpdateDevices(), after its first j rounds. */
  function Updated(devs: seq<Device>, found: seq<Device>, j: nat): (r: seq<Device>)
    requires j <= |found|
    ensures |r| == |devs|
  {
    if j == 0 then devs else Added(Updated(devs, found, j - 1), found[j - 1])
  }

  function Polled(s: Table, scan: Scan): Table {
    var f := ScanFound(s, scan);
    var c := Cleaned(s.(next := f.next), f.list, |s.devices|);
    c.(devices := Updated(c.devices, f.list, |f.list|))
  }

  // closeDevices(), after its first i rounds; bus and address stay.
  function Closed(s: Table, i: nat): (r: Table)
    requires i <= |s.devices|
    ensures |r.devices| == |s.devices|
  {
    if i == 0 then s
    else
      var t := Closed(s, i - 1);
      var d := t.devices[i - 1];
      if d.handle == 0 then t else Table(t.devices[i - 1 := d.(handle := 0)], t.next, t.closed + [d.handle])
  }

  // ---------- counting handles ----------

  lemma Beside(x: multiset<nat>, a: multiset<nat>, b: multiset<nat>, c: multiset<nat>, d: multiset<nat>)
    requires a + b == c + d
    ensures (x + a) + b == (x + c) + d
  {
    assert (x + a) + b == x + (a + b);
    assert (x + c) + d == x + (c + d);
  }

  lemma Around(x: multiset<nat>, a: multiset<nat>, y: multiset<nat>)
    ensures (x + a) + y == (y + a) + x
  {
  }

  lemma {:induction false} HandlesUpdate(devs: seq<Device>, k: nat, d: Device)
    requires k < |devs|
    ensures Handles(devs[k := d]) + HandleOf(devs[k]) == Handles(devs) + HandleOf(d)
  {
    var moved := devs[k := d];
    assert Handles(moved) == HandleOf(moved[0]) + Handles(moved[1..]);
    assert Handles(devs) == HandleOf(devs[0]) + Handles(devs[1..]);
    if k == 0 {
      assert moved[1..] == devs[1..];
      hide *;
      Around(HandleOf(d), Handles(devs[1..]), HandleOf(devs[0]));
    } else {
      assert moved[1..] == devs[1..][k - 1 := d];
      assert devs[1..][k - 1] == devs[k] && moved[0] == devs[0];
      HandlesUpdate(devs[1..], k - 1, d);
      hide *;
      Beside(HandleOf(devs[0]), Handles(moved[1..]), HandleOf(devs[k]), Handles(devs[1..]), HandleOf(d));
    }
  }

  lemma {:induction false} HandlesAppend(devs: seq<Device>, d: Device)
    ensures Handles(devs + [d]) == Handles(devs) + HandleOf(d)
  {
    if devs == [] {
      assert [d][1..] == [];
      assert [] + [d] == [d];
    } else {
      assert (devs + [d])[1..] == devs[1..] + [d];
      HandlesAppend(devs[1..], d);
    }
  }

  /** libusb never gives out a handle twice. */
  lemma {:induction false} IssuedOnce(next: nat, h: nat)
    ensures Issued(next)[h] == if 0 < h < next then 1 else 0
  {
    if next > 1 { IssuedOnce(next - 1, h); }
  }

  lemma {:induction false} NoHandles(devs: seq<Device>)
    requires forall k | 0 <= k < |devs| :: devs[k].handle == 0
    ensures Handles(devs) == multiset{}
  {
    if devs != [] { NoHandles(devs[1..]); }
  }

  lemma {:induction false} HandlesSize(devs: seq<Device>)
    ensures |Handles(devs)| == Occupied(devs)
  {
    if devs != [] { HandlesSize(devs[1..]); }
  }

  lemma {:induction false} IssuedSize(next: nat)
    ensures next > 0 ==> |Issued(next)| == next - 1
  {
    if next > 1 { IssuedSize(next - 1); }
  }

  lemma {:induction false} OccupiedUpdate(devs: seq<Device>, k: nat, d: Device)
    requires k < |devs|
    ensures Occupied(devs[k := d]) + One(devs[k].handle != 0) == Occupied(devs) + One(d.handle != 0)
  {
    if k == 0 {
      assert devs[k := d][1..] == devs[1..];
    } else {
      assert devs[k := d][1..] == devs[1..][k - 1 := d];
      OccupiedUpdate(devs[1..], k - 1, d);
    }
  }

  /** The table is full exactly when listTryAdd() finds no free slot. */
  lemma {:induction false} FullIff(devs: seq<Device>)
    ensures Occupied(devs) <= |devs|
    ensures Occupied(devs) == |devs| <==> FirstFree(devs) == |devs|
  {
    if devs != [] { FullIff(devs[1..]); }
  }

  lemma SameSize(a: multiset<nat>, b: multiset<nat>)
    requires a <= b
    ensures |a| <= |b| && (|a| == |b| <==> a == b)
  {
    assert b == a + (b - a);
  }

  /** A sound table misses a handle exactly when some handle issued is neither in a slot nor closed. */
  lemma MissingIff(s: Table)
    requires Sound(s)
    ensures Missing(s) >= 0
    ensures Missing(s) == 0 <==> Handles(s.devices) + multiset(s.closed) == Issued(s.next)
  {
    HandlesSize(s.devices);
    IssuedSize(s.next);
    SameSize(Handles(s.devices) + multiset(s.closed), Issued(s.next));
  }

  lemma KeyInjective(u: Usb, v: Usb)
    requires u.bus < 256 && v.bus < 256 && u.address < 256 && v.address < 256 && KeyOf(u) == KeyOf(v)
    ensures u.bus == v.bus && u.address == v.address
  {
  }

  // ---------- what the scan finds ----------

  // The controllers of a list.
  function Matching(devs: seq<Usb>): seq<Usb> {
    if devs == [] then [] else (if devs[0].controller then [devs[0]] else []) + Matching(devs[1..])
  }

  /** A scan goes through its list up to the first descriptor that cannot be read, or until room controllers
      are counted; it counts all the controllers up to there. */
  lemma {:induction false} SeenAre(devs: seq<Usb>, room: nat) returns (n: nat)
    ensures n <= |devs| && (forall i | 0 <= i < n :: devs[i].readable)
    ensures Seen(devs, room) == Matching(devs[..n])
    ensures n == |devs| || !devs[n].readable || |Seen(devs, room)| == room
  {
    n := 0;
    if devs != [] && room > 0 && devs[0].readable {
      var k := SeenAre(devs[1..], if devs[0].controller then room - 1 else room);
      n := k + 1;
      assert devs[..n][1..] == devs[1..][..k];
    }
  }

  // d is what the scan makes of u.
  predicate Represents(d: Device, u: Usb, table: seq<Device>) {
    Key(d) == KeyOf(u) && (d.handle != 0 <==> u.opens && !Holds(table, KeyOf(u)))
  }

  lemma {:induction false} ScannedAreSeen(table: seq<Device>, devs: seq<Usb>, acc: seq<Device>, next: nat)
    requires |acc| < MAX_DEVS && next > 0
    ensures var f, seen := Scanned(table, devs, acc, next), Seen(devs, MAX_DEVS - |acc|);
      && f.next >= next && |f.list| == |acc| + |seen| && f.list[..|acc|] == acc
      && forall i | 0 <= i < |seen| :: Represents(f.list[|acc| + i], seen[i], table)
    decreases |devs|
  {
    if devs != [] && devs[0].readable {
      if !devs[0].controller {
        ScannedAreSeen(table, devs[1..], acc, next);
      } else {
        var open := !Holds(table, KeyOf(devs[0])) && devs[0].opens;
        var d := Device(KeyOf(devs[0]).0, KeyOf(devs[0]).1, if open then next else 0);
        var found := acc + [d];
        assert Represents(d, devs[0], table);
        if |found| < MAX_DEVS {
          ScannedAreSeen(table, devs[1..], found, if open then next + 1 else next);
          var f, rest := Scanned(table, devs, acc, next), Seen(devs[1..], MAX_DEVS - |found|);
          assert f.list[|acc|] == f.list[..|found|][|acc|] == d;
          assert f.list[..|acc|] == f.list[..|found|][..|acc|];
          forall i | 0 <= i < |rest|
            ensures Represents(f.list[|acc| + (i + 1)], rest[i], table)
          {
            assert f.list[|acc| + (i + 1)] == f.list[|found| + i];
          }
        } else {
          assert Seen(devs[1..], 0) == [];
        }
      }
    }
  }

  lemma OneMore(a: multiset<nat>, issued: multiset<nat>, b: multiset<nat>, before: multiset<nat>, h: multiset<nat>)
    requires (a + h) + issued == b + (before + h)
    ensures a + issued == b + before
  {
    forall x: nat
      ensures (a + issued)[x] == (b + before)[x]
    {
      assert ((a + h) + issued)[x] == (b + (before + h))[x];
    }
  }

  lemma {:induction false} ScannedHandles(table: seq<Device>, devs: seq<Usb>, acc: seq<Device>, next: nat)
    requires next > 0
    ensures Scanned(table, devs, acc, next).next > 0
    ensures Handles(acc) + Issued(Scanned(table, devs, acc, next).next)
         == Handles(Scanned(table, devs, acc, next).list) + Issued(next)
    decreases |devs|
  {
    if devs != [] && devs[0].readable {
      if !devs[0].controller {
        ScannedHandles(table, devs[1..], acc, next);
      } else {
        var f := Scanned(table, devs, acc, next);
        var open := !Holds(table, KeyOf(devs[0])) && devs[0].opens;
        var d := Device(KeyOf(devs[0]).0, KeyOf(devs[0]).1, if open then next else 0);
        var after := if open then next + 1 else next;
        assert Issued(after) == Issued(next) + HandleOf(d);
        HandlesAppend(acc, d);
        if |acc + [d]| != MAX_DEVS {
          assert f == Scanned(table, devs[1..], acc + [d], after);
          ScannedHandles(table, devs[1..], acc + [d], after);
        }
        hide *;
        assert Handles(acc + [d]) + Issued(f.next) == Handles(f.list) + Issued(after);
        OneMore(Handles(acc), Issued(f.next), Handles(f.list), Issued(next), HandleOf(d));
      }
    }
  }

  lemma {:induction false} SeenAreListed(devs: seq<Usb>, room: nat)
    requires DistinctUsb(devs)
    ensures |Seen(devs, room)| <= room && DistinctUsb(Seen(devs, room))
    ensures forall u | u in Seen(devs, room) :: u in devs
  {
    if devs != [] && room > 0 && devs[0].readable {
      if devs[0].controller {
        var rest := Seen(devs[1..], room - 1);
        SeenAreListed(devs[1..], room - 1);
        forall j | 0 <= j < |rest|
          ensures KeyOf(devs[0]) != KeyOf(rest[j])
        {
          assert rest[j] in devs[1..];
        }
      } else {
        SeenAreListed(devs[1..], room);
      }
    }
  }

  // ---------- cleaning ----------

  lemma {:induction false} CleanedSlots(s: Table, found: seq<Device>, i: nat, k: nat)
    requires i <= |s.devices| && k < |s.devices|
    ensures var r := Cleaned(s, found, i);
      && r.next == s.next
      && r.devices[k] == if k < i && Gone(s.devices[k], found) then EMPTY else s.devices[k]
  {
    if i > 0 {
      CleanedSlots(s, found, i - 1, k);
      CleanedSlots(s, found, i - 1, i - 1);
    }
  }

  lemma {:induction false} CleanedHandles(s: Table, found: seq<Device>, i: nat)
    requires i <= |s.devices|
    ensures Handles(Cleaned(s, found, i).devices) + multiset(Cleaned(s, found, i).closed)
         == Handles(s.devices) + multiset(s.closed)
  {
    if i > 0 {
      CleanedHandles(s, found, i - 1);
      CleanedStep(s, found, i);
    }
    hide Handles, Gone;
  }

  lemma CleanedStep(s: Table, found: seq<Device>, i: nat)
    requires 0 < i <= |s.devices|
    ensures var t, r := Cleaned(s, found, i - 1), Cleaned(s, found, i);
      Handles(r.devices) + multiset(r.closed) == Handles(t.devices) + multiset(t.closed)
  {
    var t, r := Cleaned(s, found, i - 1), Cleaned(s, found, i);
    var d := t.devices[i - 1];
    if Gone(d, found) {
      assert r == Table(t.devices[i - 1 := EMPTY], t.next, if d.handle == 0 then t.closed else t.closed + [d.handle]);
      assert EMPTY.handle == 0;
      hide *;
      ClearedHandles(t, i - 1, EMPTY);
    } else {
      assert r == t;
    }
  }

  lemma ClearedHandles(t: Table, k: nat, empty: Device)
    requires k < |t.devices| && empty.handle == 0
    ensures var d := t.devices[k];
      Handles(t.devices[k := empty]) + multiset(if d.handle == 0 then t.closed else t.closed + [d.handle])
      == Handles(t.devices) + multiset(t.closed)
  {
    var d := t.devices[k];
    HandlesUpdate(t.devices, k, empty);
    ClosedAppend(t.closed, d);
    MovedToClosed(Handles(t.devices[k := empty]), HandleOf(d), Handles(t.devices), multiset(t.closed));
  }

  lemma ClosedAppend(closed: seq<nat>, d: Device)
    ensures multiset(if d.handle == 0 then closed else closed + [d.handle]) == multiset(closed) + HandleOf(d)
  {
  }

  // Closing a handle moves it from the table to the closed ones.
  lemma MovedToClosed(after: multiset<nat>, h: multiset<nat>, before: multiset<nat>, closed: multiset<nat>)
    requires after + h == before + multiset{}
    ensures after + (closed + h) == before + closed
  {
    assert after + (closed + h) == (after + h) + closed;
  }

  lemma CleanedValid(s: Table, found: seq<Device>)
    requires SlotsValid(s.devices)
    ensures SlotsValid(Cleaned(s, found, |s.devices|).devices)
    ensures forall k | 0 <= k < |s.devices| ::
      Cleaned(s, found, |s.devices|).devices[k] == if Gone(s.devices[k], found) then EMPTY else s.devices[k]
  {
    forall k | 0 <= k < |s.devices|
      ensures Cleaned(s, found, |s.devices|).devices[k] == if Gone(s.devices[k], found) then EMPTY else s.devices[k]
    {
      CleanedSlots(s, found, |s.devices|, k);
    }
    hide Cleaned;
  }
}
