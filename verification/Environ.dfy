/** setenv.c: unsetenv() shifts the array environ in place, setenv() removes and appends. */
module Environ {

  import opened Prelude

  datatype Errno = NoError | EINVAL | ENOMEM

  // ---------- the environment as a list of strings ----------

  predicate Defines(entry: string, name: string) {
    |entry| > |name| && entry[..|name|] == name && entry[|name|] == '='
  }

  predicate ValidName(name: string) {
    name != "" && '=' !in name
  }

  // What getenv() finds: the value in the first entry that defines name.
  function Lookup(entries: seq<string>, name: string): Option<string> {
    if entries == [] then None
    else if Defines(entries[0], name) then Some(entries[0][|name| + 1..])
    else Lookup(entries[1..], name)
  }

  // Entry k is the first that defines name, and gives it value.
  predicate DefinedFirst(entries: seq<string>, name: string, value: string, k: nat)
    requires k < |entries|
  {
    entries[k] == name + "=" + value && forall j | 0 <= j < k :: !Defines(entries[j], name)
  }

  function Without(entries: seq<string>, name: string): seq<string> {
    if entries == [] then []
    else (if Defines(entries[0], name) then [] else [entries[0]]) + Without(entries[1..], name)
  }

  function Definitions(entries: seq<string>, name: string): nat {
    if entries == [] then 0 else (if Defines(entries[0], name) then 1 else 0) + Definitions(entries[1..], name)
  }

  // putenv(): an existing definition is replaced, a new one goes to the end.
  function Put(entries: seq<string>, name: string, entry: string): seq<string> {
    if entries == [] then [entry]
    else if Defines(entries[0], name) then [entry] + entries[1..]
    else [entries[0]] + Put(entries[1..], name, entry)
  }

  /** An entry defines a name when it is the name, '=', and a value. */
  lemma DefinesIff(entry: string, name: string)
    ensures Defines(entry, name) <==> exists value :: entry == name + "=" + value
  {
    if Defines(entry, name) {
      assert entry == name + "=" + entry[|name| + 1..];
    }
  }

  /** An entry defines at most one name without '='. */
  lemma DefinesOne(entry: string, a: string, b: string)
    requires '=' !in a && '=' !in b && Defines(entry, a) && Defines(entry, b)
    ensures a == b
  {
    FirstEquals(entry, a);
    FirstEquals(entry, b);
    assert entry[|a|] == '=' && entry[|b|] == '=';
  }

  lemma FirstEquals(entry: string, name: string)
    requires '=' !in name && Defines(entry, name)
    ensures forall i | 0 <= i < |name| :: entry[i] != '='
  {
    assert forall i | 0 <= i < |name| :: entry[i] == name[i] && name[i] in name;
  }

  lemma {:induction false} NoneDefines(entries: seq<string>, name: string)
    requires forall i | 0 <= i < |entries| :: !Defines(entries[i], name)
    ensures Without(entries, name) == entries && Definitions(entries, name) == 0 && Lookup(entries, name) == None
    ensures forall entry :: Put(entries, name, entry) == entries + [entry]
  {
    if entries != [] {
      NoneDefines(entries[1..], name);
      forall entry
        ensures Put(entries, name, entry) == entries + [entry]
      {
        assert Put(entries[1..], name, entry) == entries[1..] + [entry];
      }
    }
  }

  lemma {:induction false} WithoutOne(entries: seq<string>, k: nat, name: string)
    requires k < |entries| && Defines(entries[k], name)
    ensures Without(entries[..k] + entries[k + 1..], name) == Without(entries, name)
  {
    var shifted := entries[..k] + entries[k + 1..];
    if k == 0 {
      assert shifted == entries[1..];
    } else {
      WithoutOne(entries[1..], k - 1, name);
      assert shifted[1..] == entries[1..][..k - 1] + entries[1..][k..];
    }
  }

  /** unsetenv() leaves no definition of its name, and every other lookup as it was. */
  lemma {:induction false} WithoutMeaning(entries: seq<string>, name: string, other: string)
    requires ValidName(name) && ValidName(other)
    ensures forall entry | entry in Without(entries, name) :: entry in entries && !Defines(entry, name)
    ensures Lookup(Without(entries, name), other) == if other == name then None else Lookup(entries, other)
  {
    if entries != [] {
      WithoutMeaning(entries[1..], name, other);
      if Defines(entries[0], name) {
        assert Without(entries, name) == Without(entries[1..], name);
        if Defines(entries[0], other) { DefinesOne(entries[0], name, other); }
      } else {
        assert Without(entries, name)[1..] == Without(entries[1..], name);
      }
    }
  }

  lemma WithoutClears(entries: seq<string>, name: string)
    requires ValidName(name)
    ensures var kept := Without(entries, name);
      && (forall i | 0 <= i < |kept| :: !Defines(kept[i], name))
      && forall entry :: Put(kept, name, entry) == kept + [entry]
  {
    var kept := Without(entries, name);
    WithoutMeaning(entries, name, name);
    assert forall i | 0 <= i < |kept| :: kept[i] in kept;
    NoneDefines(kept, name);
  }

  lemma {:induction false} LookupAppend(entries: seq<string>, entry: string, name: string)
    ensures Lookup(entries + [entry], name)
         == if Lookup(entries, name).Some? then Lookup(entries, name) else Lookup([entry], name)
    ensures Definitions(entries + [entry], name) == Definitions(entries, name) + Definitions([entry], name)
  {
    if entries == [] {
      assert entries + [entry] == [entry];
    } else {
      assert (entries + [entry])[1..] == entries[1..] + [entry];
      LookupAppend(entries[1..], entry, name);
    }
  }

  /** After a successful setenv() there is exactly one definition of name, looking name up gives value,
      and every other lookup is unchanged. */
  lemma SetMeaning(entries: seq<string>, name: string, value: string, other: string)
    requires ValidName(name) && ValidName(other)
    ensures var r := Without(entries, name) + [name + "=" + value];
      && Definitions(r, name) == 1
      && Lookup(r, other) == if other == name then Some(value) else Lookup(entries, other)
  {
    var kept, entry := Without(entries, name), name + "=" + value;
    WithoutMeaning(entries, name, other);
    WithoutMeaning(entries, name, name);
    LookupAppend(kept, entry, name);
    LookupAppend(kept, entry, other);
    assert entry[..|name|] == name && entry[|name|] == '=' && entry[|name| + 1..] == value;
    assert forall i | 0 <= i < |kept| :: kept[i] in kept;
    NoneDefines(kept, name);
    OneEntry(entry, name);
    OneEntry(entry, other);
    if other != name && Defines(entry, other) { DefinesOne(entry, name, other); }
  }

  lemma OneEntry(entry: string, name: string)
    ensures Lookup([entry], name) == if Defines(entry, name) then Some(entry[|name| + 1..]) else None
    ensures Definitions([entry], name) == if Defines(entry, name) then 1 else 0
  {
    assert [entry][1..] == [];
  }

  // ---------- the array environ ----------

  // The array holds the entries, then NULL; what follows does not matter.
  ghost predicate Represents(environ: seq<Option<string>>, entries: seq<string>) {
    && |entries| < |environ|
    && (forall i | 0 <= i < |entries| :: environ[i] == Some(entries[i]))
    && environ[|entries|] == None
  }

  class Process {
    var environ: array<Option<string>>
    var errno: Errno
    ghost var entries: seq<string>

    ghost predicate Valid()
      reads this, environ
    {
      Represents(environ[..], entries)
    }

    constructor (entries: seq<string>)
      ensures Valid() && this.entries == entries && fresh(environ) && errno == NoError
    {
      environ := new Option<string>[|entries| + 1](i => if 0 <= i < |entries| then Some(entries[i]) else None);
      errno := NoError;
      this.entries := entries;
    }

    method Getenv(name: string) returns (value: Option<string>)
      requires Valid()
      ensures value == Lookup(entries, name)
      ensures value.Some? ==> exists k :: 0 <= k < |entries| && DefinedFirst(entries, name, value.value, k)
      ensures value.None? <==> forall k | 0 <= k < |entries| :: !Defines(entries[k], name)
    {
      var i := 0;
      while environ[i].Some?
        invariant 0 <= i <= |entries| && forall j | 0 <= j < i :: !Defines(entries[j], name)
        invariant Lookup(entries, name) == Lookup(entries[i..], name)
        decreases |entries| - i
      {
        var entry := environ[i].value;
        assert entries[i..][0] == entry && entries[i..][1..] == entries[i + 1..];
        if Defines(entry, name) {
          assert DefinedFirst(entries, name, entry[|name| + 1..], i);
          return Some(entry[|name| + 1..]);
        }
        i := i + 1;
      }
      return None;
    }

    // Shifts all entries after ep back by one.
    method RemoveAt(ep: nat)
      requires Valid() && ep < |entries|
      modifies environ, this`entries
      ensures Valid() && entries == old(entries[..ep] + entries[ep + 1..])
    {
      var sp := ep;
      while environ[sp].Some?
        invariant ep <= sp <= |entries| && entries == old(entries)
        invariant forall i | 0 <= i < ep :: environ[i] == old(environ[i])
        invariant forall i | ep <= i < sp :: environ[i] == old(environ[i + 1])
        invariant forall i | sp <= i < environ.Length :: environ[i] == old(environ[i])
        decreases |entries| - sp
      {
        environ[sp] := environ[sp + 1];
        sp := sp + 1;
      }
      ghost var after := entries[..ep] + entries[ep + 1..];
      assert forall i | 0 <= i < |after| :: environ[i] == Some(after[i]);
      entries := after;
    }

    /** unsetenv() */
    method Unsetenv(name: Option<string>) returns (r: int)
      requires Valid()
      modifies this`errno, this`entries, environ
      ensures Valid() && environ == old(environ)
      ensures r == 0 <==> name.Some? && ValidName(name.value)
      ensures r == 0 ==> entries == Without(old(entries), name.value) && errno == old(errno)
      ensures r != 0 ==> r == -1 && errno == EINVAL && entries == old(entries) && environ[..] == old(environ[..])
    {
      if name.None? || name.value == "" || '=' in name.value {
        errno := EINVAL;
        return -1;
      }
      var ep := 0;
      while environ[ep].Some?
        invariant Valid() && 0 <= ep <= |entries| && errno == old(errno)
        invariant forall i | 0 <= i < ep :: !Defines(entries[i], name.value)
        invariant Without(entries, name.value) == Without(old(entries), name.value)
        decreases |entries| - ep
      {
        if Defines(environ[ep].value, name.value) {
          WithoutOne(entries, ep, name.value);
          RemoveAt(ep);
        } else {
          ep := ep + 1;
        }
      }
      NoneDefines(entries, name.value);
      return 0;
    }

    // putenv(), which may move the array.
    method Putenv(name: string, entry: string, fails: bool) returns (r: int)
      requires Valid() && (forall i | 0 <= i < |entries| :: !Defines(entries[i], name))
      modifies this
      ensures Valid() && (environ == old(environ) || fresh(environ))
      ensures r == if fails then -1 else 0
      ensures errno == if fails then ENOMEM else old(errno)
      ensures entries == if fails then old(entries) else Put(old(entries), name, entry)
    {
      if fails {
        errno := ENOMEM;
        return -1;
      }
      NoneDefines(entries, name);
      var n := 0;
      while environ[n].Some?
        invariant 0 <= n <= |entries|
        decreases |entries| - n
      {
        n := n + 1;
      }
      var moved := new Option<string>[n + 2](i reads this, environ =>
        if 0 <= i < n && i < environ.Length then environ[i] else if i == n then Some(entry) else None);
      environ := moved;
      entries := entries + [entry];
      r := 0;
    }

    /** setenv(): when malloc() or putenv() fails, the old definitions are already gone. */
    method Setenv(name: Option<string>, value: Option<string>, overwrite: int, mallocFails: bool, putenvFails: bool)
      returns (r: int)
      requires Valid()
      modifies this, environ
      ensures Valid()
      ensures var valid := name.Some? && ValidName(name.value) && value.Some?;
        && (!valid ==> r == -1 && errno == EINVAL && entries == old(entries))
        && (valid ==>
              if overwrite == 0 && Lookup(old(entries), name.value).Some? then r == 0 && entries == old(entries)
              else if mallocFails || putenvFails then
                r == -1 && errno == ENOMEM && entries == Without(old(entries), name.value)
              else r == 0 && entries == Without(old(entries), name.value) + [name.value + "=" + value.value])
      ensures r == 0 ==> errno == old(errno)
    {
      if name.None? || name.value == "" || '=' in name.value || value.None? {
        errno := EINVAL;
        return -1;
      }
      var present := Getenv(name.value);
      if present.Some? && overwrite == 0 { return 0; }
      WithoutClears(entries, name.value);
      assert ValidName(name.value);
      hide *;
      var u := Unsetenv(name);
      if mallocFails {
        errno := ENOMEM;
        return -1;
      }
      var es := name.value + "=" + value.value;
      r := Putenv(name.value, es, putenvFails);
    }
  }
}
