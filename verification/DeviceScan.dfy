/** The loop of getDevices() over libusb's list, whose index is of type uint8_t: when it ends, and when
    it reads no entry twice. */
module DeviceScan {

  import opened Prelude
  import opened Devices

  // The entry that read number j gets, counted from 0; None is the NULL at the end of the list.
  function ReadAt(devs: seq<Usb>, j: nat): Option<Usb> {
    var i := j % INDEX_RANGE;
    if i < |devs| then Some(devs[i]) else None
  }

  // How many controllers the loop has counted when it goes on after n reads; None once it has ended.
  function After(devs: seq<Usb>, n: nat): Option<nat> {
    if n == 0 then Some(0)
    else if After(devs, n - 1).None? || ReadAt(devs, n - 1).None? || !ReadAt(devs, n - 1).value.readable then None
    else
      var id := After(devs, n - 1).value + One(ReadAt(devs, n - 1).value.controller);
      if id == MAX_DEVS then None else Some(id)
  }

  predicate Ends(devs: seq<Usb>) {
    |devs| < INDEX_RANGE || exists i :: 0 <= i < INDEX_RANGE && (devs[i].controller || !devs[i].readable)
  }

  lemma {:induction false} EndedStays(devs: seq<Usb>, n: nat, m: nat)
    requires n <= m && After(devs, n).None?
    ensures After(devs, m).None?
  {
    if n < m { EndedStays(devs, n, m - 1); }
  }

  // What ends the loop at read j, if nothing did before.
  lemma EndsAt(devs: seq<Usb>, j: nat, m: nat)
    requires j < m && (ReadAt(devs, j).None? || !ReadAt(devs, j).value.readable)
    ensures After(devs, m).None?
  {
    assert After(devs, j + 1).None?;
    EndedStays(devs, j + 1, m);
  }

  // ---------- counting controllers ----------

  function Total(devs: seq<Usb>): nat {
    if devs == [] then 0 else One(devs[0].controller) + Total(devs[1..])
  }

  lemma {:induction false} TotalAppend(a: seq<Usb>, b: seq<Usb>)
    ensures Total(a + b) == Total(a) + Total(b)
  {
    if a == [] {
      assert a + b == b;
    } else {
      assert (a + b)[1..] == a[1..] + b;
      TotalAppend(a[1..], b);
    }
  }

  lemma {:induction false} SomeController(devs: seq<Usb>)
    ensures Total(devs) > 0 <==> exists i :: 0 <= i < |devs| && devs[i].controller
  {
    if devs != [] {
      SomeController(devs[1..]);
      if i :| 0 <= i < |devs| && devs[i].controller {
        assert i == 0 || devs[1..][i - 1].controller;
      }
      if i :| 0 <= i < |devs[1..]| && devs[1..][i].controller {
        assert devs[i + 1].controller;
      }
    }
  }

  predicate AllReadable(devs: seq<Usb>) {
    forall i | 0 <= i < |devs| :: devs[i].readable
  }

  lemma {:induction false} SeenTotal(devs: seq<Usb>, room: nat)
    requires AllReadable(devs)
    ensures |Seen(devs, room)| == if Total(devs) < room then Total(devs) else room
  {
    if devs != [] && room > 0 {
      SeenTotal(devs[1..], if devs[0].controller then room - 1 else room);
    }
  }

  // ---------- lists that are too long for the index ----------

  lemma OneMoreRead(devs: seq<Usb>, n: nat)
    requires |devs| >= INDEX_RANGE
    ensures FirstReads(devs, n + 1) == FirstReads(devs, n) + [devs[n % INDEX_RANGE]]
  {
  }

  lemma OneMoreRound(devs: seq<Usb>, n: nat)
    requires |devs| >= INDEX_RANGE
    ensures FirstReads(devs, INDEX_RANGE + n) == devs[..INDEX_RANGE] + FirstReads(devs, n)
  {
    forall j: nat | j < INDEX_RANGE + n
      ensures FirstReads(devs, INDEX_RANGE + n)[j] == (devs[..INDEX_RANGE] + FirstReads(devs, n))[j]
    {
      if j >= INDEX_RANGE { assert j % INDEX_RANGE == (j - INDEX_RANGE) % INDEX_RANGE; }
    }
  }

  lemma {:induction false} RoundTotals(devs: seq<Usb>, rounds: nat)
    requires |devs| >= INDEX_RANGE
    ensures Total(FirstReads(devs, rounds * INDEX_RANGE)) == rounds * Total(devs[..INDEX_RANGE])
  {
    if rounds > 0 {
      RoundTotals(devs, rounds - 1);
      assert rounds * INDEX_RANGE == INDEX_RANGE + (rounds - 1) * INDEX_RANGE;
      OneMoreRound(devs, (rounds - 1) * INDEX_RANGE);
      TotalAppend(devs[..INDEX_RANGE], FirstReads(devs, (rounds - 1) * INDEX_RANGE));
    }
  }

  // The loop counts what it has read, and goes on until it has counted MAX_DEVS.
  lemma {:induction false} AfterIs(devs: seq<Usb>, n: nat)
    requires |devs| >= INDEX_RANGE && AllReadable(devs[..INDEX_RANGE])
    ensures var total := Total(FirstReads(devs, n)); After(devs, n) == if total < MAX_DEVS then Some(total) else None
  {
    if n > 0 {
      AfterIs(devs, n - 1);
      OneMoreRead(devs, n - 1);
      var u := devs[(n - 1) % INDEX_RANGE];
      assert ReadAt(devs, n - 1) == Some(u) && u == devs[..INDEX_RANGE][(n - 1) % INDEX_RANGE];
      TotalAppend(FirstReads(devs, n - 1), [u]);
      assert Total([u]) == One(u.controller) by { assert [u][1..] == []; }
      hide Total, FirstReads, ReadAt;
    }
  }

  /** getDevices() returns if and only if its list has at most 255 entries or, among the first 256,
      a controller or an unreadable descriptor. */
  lemma ScanEndsIff(devs: seq<Usb>)
    ensures (exists n :: After(devs, n).None?) <==> Ends(devs)
  {
    if |devs| < INDEX_RANGE {
      EndsAt(devs, |devs|, INDEX_RANGE);
    } else if i :| 0 <= i < INDEX_RANGE && !devs[i].readable {
      EndsAt(devs, i, INDEX_RANGE);
    } else {
      var round := devs[..INDEX_RANGE];
      assert AllReadable(round);
      SomeController(round);
      assert Ends(devs) <==> Total(round) > 0 by {
        assert forall i | 0 <= i < INDEX_RANGE :: round[i] == devs[i];
      }
      if Total(round) > 0 {
        EndsAfterRounds(devs);
      } else {
        forall n: nat
          ensures After(devs, n).Some?
        {
          NeverEnds(devs, n);
        }
      }
    }
  }

  lemma EndsAfterRounds(devs: seq<Usb>)
    requires |devs| >= INDEX_RANGE && AllReadable(devs[..INDEX_RANGE]) && Total(devs[..INDEX_RANGE]) > 0
    ensures After(devs, MAX_DEVS * INDEX_RANGE).None?
  {
    RoundTotals(devs, MAX_DEVS);
    AfterIs(devs, MAX_DEVS * INDEX_RANGE);
    hide FirstReads, After;
  }

  // A scan that ends does so within the reads that Reads lists.
  lemma EndsWithin(devs: seq<Usb>)
    requires Ends(devs) && |devs| >= INDEX_RANGE
    ensures After(devs, MAX_DEVS * INDEX_RANGE).None?
  {
    if i :| 0 <= i < INDEX_RANGE && !devs[i].readable {
      EndsAt(devs, i, MAX_DEVS * INDEX_RANGE);
    } else {
      var i :| 0 <= i < INDEX_RANGE && devs[i].controller;
      assert devs[..INDEX_RANGE][i].controller;
      SomeController(devs[..INDEX_RANGE]);
      EndsAfterRounds(devs);
    }
  }

  lemma NeverEnds(devs: seq<Usb>, n: nat)
    requires |devs| >= INDEX_RANGE && AllReadable(devs[..INDEX_RANGE]) && Total(devs[..INDEX_RANGE]) == 0
    ensures After(devs, n).Some?
  {
    AfterIs(devs, n);
    SomeController(devs[..INDEX_RANGE]);
    var met := FirstReads(devs, n);
    SomeController(met);
    assert forall i | 0 <= i < |met| :: met[i] == devs[..INDEX_RANGE][i % INDEX_RANGE];
    hide Total, After;
  }

  /** It ends within its first 256 reads, so that it reads no entry twice, if and only if ReadsOnce. */
  lemma ReadsOnceIff(devs: seq<Usb>)
    ensures After(devs, INDEX_RANGE).None? <==> ReadsOnce(devs)
  {
    if |devs| < INDEX_RANGE {
      EndsAt(devs, |devs|, INDEX_RANGE);
    } else if i :| 0 <= i < INDEX_RANGE && !devs[i].readable {
      EndsAt(devs, i, INDEX_RANGE);
    } else {
      assert AllReadable(devs[..INDEX_RANGE]);
      AfterIs(devs, INDEX_RANGE);
      OneMoreRound(devs, 0);
      assert FirstReads(devs, INDEX_RANGE) == devs[..INDEX_RANGE];
      SeenTotal(devs[..INDEX_RANGE], MAX_DEVS);
    }
  }

  lemma ReadsOnceEnds(devs: seq<Usb>)
    requires ReadsOnce(devs)
    ensures Ends(devs)
  {
    ReadsOnceIff(devs);
    ScanEndsIff(devs);
    hide After;
  }

  // ---------- what is seen ----------

  lemma {:induction false} SeenAppend(a: seq<Usb>, b: seq<Usb>, room: nat)
    ensures Seen(a + b, room)
         == Seen(a, room) + if AllReadable(a) then Seen(b, room - |Seen(a, room)|) else []
  {
    if a == [] {
      assert a + b == b;
      assert [] + Seen(b, room) == Seen(b, room);
    } else if a[0].readable && room > 0 {
      assert (a + b)[1..] == a[1..] + b;
      assert AllReadable(a) <==> AllReadable(a[1..]) by {
        if AllReadable(a[1..]) {
          assert forall i | 1 <= i < |a| :: a[i] == a[1..][i - 1];
        }
      }
      SeenAppend(a[1..], b, if a[0].controller then room - 1 else room);
    }
  }

  lemma {:induction false} FirstSeen(devs: seq<Usb>, m: nat, n: nat)
    requires m > 0 && n > 0
    ensures Seen(devs, m) == [] <==> Seen(devs, n) == []
    ensures Seen(devs, m) != [] ==> Seen(devs, m)[0] == Seen(devs, n)[0]
  {
    if devs != [] && devs[0].readable && !devs[0].controller { FirstSeen(devs[1..], m, n); }
  }

  // The first round, and what the later ones add to it.
  lemma SeenRounds(devs: seq<Usb>)
    requires |devs| >= INDEX_RANGE
    ensures var round := devs[..INDEX_RANGE];
      Seen(Reads(devs), MAX_DEVS)
      == Seen(round, MAX_DEVS)
         + if AllReadable(round) then Seen(FirstReads(devs, 3 * INDEX_RANGE), MAX_DEVS - |Seen(round, MAX_DEVS)|) else []
  {
    OneMoreRound(devs, 3 * INDEX_RANGE);
    SeenAppend(devs[..INDEX_RANGE], FirstReads(devs, 3 * INDEX_RANGE), MAX_DEVS);
  }

  /** In a list that is read once the controllers seen are those of one pass. */
  lemma SeenOnce(devs: seq<Usb>)
    requires ReadsOnce(devs) && |devs| >= INDEX_RANGE
    ensures Seen(Reads(devs), MAX_DEVS) == Seen(devs[..INDEX_RANGE], MAX_DEVS)
  {
    SeenRounds(devs);
    if i :| 0 <= i < INDEX_RANGE && !devs[i].readable {
      assert !devs[..INDEX_RANGE][i].readable;
    } else {
      assert Seen(FirstReads(devs, 3 * INDEX_RANGE), 0) == [];
    }
  }

  // A second round meets the first controller again.
  lemma SeenTwice(devs: seq<Usb>)
    requires !ReadsOnce(devs) && Ends(devs)
    ensures var seen, k := Seen(Reads(devs), MAX_DEVS), |Seen(devs[..INDEX_RANGE], MAX_DEVS)|;
      0 < k < |seen| && seen[k] == seen[0]
  {
    var round := devs[..INDEX_RANGE];
    var later, k := FirstReads(devs, 2 * INDEX_RANGE), |Seen(round, MAX_DEVS)|;
    assert AllReadable(round);
    SeenTotal(round, MAX_DEVS);
    SomeController(round);
    assert Total(round) > 0 by {
      var i :| 0 <= i < INDEX_RANGE && devs[i].controller;
      assert round[i].controller;
    }
    SeenRounds(devs);
    OneMoreRound(devs, 2 * INDEX_RANGE);
    SeenAppend(round, later, MAX_DEVS - k);
    SeenTotal(round, MAX_DEVS - k);
    FirstSeen(round, MAX_DEVS, MAX_DEVS - k);
    hide Seen, Total, FirstReads;
  }

  /** A scan that ends counts no controller twice if and only if it reads its list once. */
  lemma SeenDistinctIff(devs: seq<Usb>)
    requires DistinctUsb(devs) && Ends(devs)
    ensures DistinctUsb(Seen(Reads(devs), MAX_DEVS)) <==> ReadsOnce(devs)
  {
    if !ReadsOnce(devs) {
      SeenTwice(devs);
    } else if |devs| < INDEX_RANGE {
      SeenAreListed(devs, MAX_DEVS);
    } else {
      SeenOnce(devs);
      SeenAreListed(devs[..INDEX_RANGE], MAX_DEVS);
    }
  }

  lemma {:induction false} SeenComeFrom(devs: seq<Usb>, room: nat)
    ensures forall u | u in Seen(devs, room) :: u in devs && u.controller
  {
    if devs != [] && room > 0 && devs[0].readable {
      SeenComeFrom(devs[1..], if devs[0].controller then room - 1 else room);
    }
  }

  lemma SeenInScan(devs: seq<Usb>)
    ensures forall u | u in Seen(Reads(devs), MAX_DEVS) :: u in devs && u.controller
  {
    SeenComeFrom(Reads(devs), MAX_DEVS);
    assert forall u | u in Reads(devs) :: u in devs;
  }
}
