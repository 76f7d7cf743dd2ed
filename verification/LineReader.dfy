/** read_line.c and read_line_buf.c: reading lines byte by byte, and in blocks through a buffer. */
module LineReader {

  newtype byte = x: int | 0 <= x < 256

  const NEWLINE: byte := 10

  const RL_MAX_BUF: nat := 10

  datatype Errno = EINTR | EINVAL | EOTHER

  // What a read() does: deliver at least one byte and at most so many, or fail.
  datatype Outcome = Gives(most: nat) | Fails(errno: Errno)

  // ---------- lines ----------

  // The length of the first line, newline included; what ends without newline is a line too.
  function LineEnd(s: seq<byte>): (k: nat)
    ensures k <= |s|
  {
    if s == [] then 0 else if s[0] == NEWLINE then 1 else 1 + LineEnd(s[1..])
  }

  function Min(a: nat, b: nat): nat {
    if a < b then a else b
  }

  // The first line, cut off after n bytes.
  function Line(s: seq<byte>, n: nat): seq<byte> {
    s[..Min(LineEnd(s), n)]
  }

  function Rest(s: seq<byte>): seq<byte> {
    s[LineEnd(s)..]
  }

  /** LineEnd is the one place where a line ends: after the first newline, or at the end of the input. */
  lemma {:induction false} LineEndIff(s: seq<byte>, k: nat)
    requires k <= |s|
    ensures LineEnd(s) == k <==>
      && (forall i | 0 <= i < k - 1 :: s[i] != NEWLINE)
      && (k == |s| || (k > 0 && s[k - 1] == NEWLINE))
  {
    if s != [] && s[0] != NEWLINE && k > 0 {
      LineEndIff(s[1..], k - 1);
    }
  }

  // What n calls with these buffer sizes return.
  function Lines(s: seq<byte>, sizes: seq<nat>): seq<seq<byte>> {
    if sizes == [] then [] else [Line(s, sizes[0])] + Lines(Rest(s), sizes[1..])
  }

  function RestAfter(s: seq<byte>, calls: nat): seq<byte> {
    if calls == 0 then s else RestAfter(Rest(s), calls - 1)
  }

  function Concat(lines: seq<seq<byte>>): seq<byte> {
    if lines == [] then [] else lines[0] + Concat(lines[1..])
  }

  /** With buffers that are large enough, the lines and what is left make up the input. */
  lemma {:induction false} NothingLost(s: seq<byte>, sizes: seq<nat>)
    requires forall i | 0 <= i < |sizes| :: sizes[i] >= |s|
    ensures Concat(Lines(s, sizes)) + RestAfter(s, |sizes|) == s
  {
    if sizes != [] {
      NothingLost(Rest(s), sizes[1..]);
      var rest := Concat(Lines(Rest(s), sizes[1..]));
      assert Line(s, sizes[0]) == s[..LineEnd(s)];
      assert Lines(s, sizes)[1..] == Lines(Rest(s), sizes[1..]);
      assert Concat(Lines(s, sizes)) == s[..LineEnd(s)] + rest;
      assert RestAfter(s, |sizes|) == RestAfter(Rest(s), |sizes| - 1);
      assert rest + RestAfter(Rest(s), |sizes| - 1) == s[LineEnd(s)..];
      hide *;
      Glue(s, LineEnd(s), rest, RestAfter(s, |sizes|));
    }
  }

  lemma Glue(s: seq<byte>, k: nat, a: seq<byte>, b: seq<byte>)
    requires k <= |s| && a + b == s[k..]
    ensures (s[..k] + a) + b == s
  {
    assert (s[..k] + a) + b == s[..k] + (a + b);
  }

  // One more call: what is still to come of lines and input.
  lemma LinesFrom(s: seq<byte>, sizes: seq<nat>, i: nat, lines: seq<seq<byte>>)
    requires i < |sizes|
    ensures lines + Lines(s, sizes[i..]) == (lines + [Line(s, sizes[i])]) + Lines(Rest(s), sizes[i + 1..])
    ensures RestAfter(s, |sizes| - i) == RestAfter(Rest(s), |sizes| - i - 1)
  {
    assert sizes[i..][1..] == sizes[i + 1..];
    assert Lines(s, sizes[i..]) == [Line(s, sizes[i])] + Lines(Rest(s), sizes[i + 1..]);
    hide *;
  }

  // ---------- files ----------

  /** An open file: the bytes not read yet, and what the next calls of read() do. */
  class File {
    var rest: seq<byte>
    var script: seq<Outcome>

    constructor (content: seq<byte>, script: seq<Outcome>)
      ensures rest == content && this.script == script
    {
      rest, this.script := content, script;
    }

    method Read(count: nat) returns (r: int, data: seq<byte>, errno: Errno)
      requires count > 0
      modifies this
      ensures script == if old(script) == [] then [] else old(script[1..])
      ensures r == -1 <==> old(script) != [] && old(script[0]).Fails?
      ensures r == -1 ==> rest == old(rest) && data == [] && errno == old(script[0]).errno
      ensures r != -1 ==> r == |data| <= count && data + rest == old(rest) && (r == 0 <==> old(rest) == [])
    {
      var k: nat := count;
      r, data, errno := -1, [], EOTHER;
      if script != [] {
        var outcome := script[0];
        script := script[1..];
        match outcome {
          case Fails(e) => errno := e; return;
          case Gives(most) => if 0 < most < k { k := most; }
        }
      }
      if k > |rest| { k := |rest|; }
      r, data := k, rest[..k];
      rest := rest[k..];
    }
  }

  predicate NoError(script: seq<Outcome>) {
    forall i | 0 <= i < |script| :: script[i].Gives?
  }

  predicate OnlyInterrupts(script: seq<Outcome>) {
    forall i | 0 <= i < |script| :: script[i].Fails? ==> script[i].errno == EINTR
  }

  // after is what is left of before when some bytes of its first line are gone.
  ghost predicate PartLost(before: seq<byte>, after: seq<byte>) {
    exists k :: 0 <= k <= |before| && (forall i | 0 <= i < k :: before[i] != NEWLINE) && after == before[k..]
  }

  // ---------- read_line.c ----------

  predicate NoNewline(s: seq<byte>, k: nat) {
    k <= |s| && forall i | 0 <= i < k :: s[i] != NEWLINE
  }

  // k bytes of s are seen, and as many stored as fit into n, over what the buffer held before.
  predicate Stored(s: seq<byte>, k: nat, n: nat, cnt: nat, was: seq<byte>, now: seq<byte>) {
    k <= |s| && cnt == Min(k, n) && n <= |was| && now == s[..cnt] + was[cnt..]
  }

  lemma NothingStored(s: seq<byte>, n: nat, was: seq<byte>)
    requires n <= |was|
    ensures Stored(s, 0, n, 0, was, was) && NoNewline(s, 0)
  {
  }

  lemma StoreNext(s: seq<byte>, k: nat, n: nat, cnt: nat, was: seq<byte>, now: seq<byte>)
    requires Stored(s, k, n, cnt, was, now) && k < |s|
    ensures |now| == |was| && if cnt < n then cnt < |now| && Stored(s, k + 1, n, cnt + 1, was, now[cnt := s[k]])
                              else Stored(s, k + 1, n, cnt, was, now)
  {
    if cnt < n { assert now[cnt := s[k]] == s[..cnt + 1] + was[cnt + 1..]; }
  }

  lemma StoredLine(s: seq<byte>, k: nat, n: nat, cnt: nat, was: seq<byte>, now: seq<byte>)
    requires Stored(s, k, n, cnt, was, now) && LineEnd(s) == k
    ensures cnt == |Line(s, n)| <= n && |now| == |was| >= n && now[..cnt] == Line(s, n) && now[cnt..] == was[cnt..]
    ensures cnt == 0 ==> now == was
  {
  }

  lemma OneDropped(s: seq<byte>, k: nat, data: seq<byte>, rest: seq<byte>)
    requires k <= |s| && |data| == 1 && data + rest == s[k..]
    ensures k < |s| && s[k] == data[0] && rest == s[k + 1..]
  {
    assert (data + rest)[0] == data[0] && (data + rest)[1..] == rest;
  }

  lemma NoNewlineNext(s: seq<byte>, k: nat)
    requires NoNewline(s, k) && k < |s|
    ensures s[k] != NEWLINE ==> NoNewline(s, k + 1)
    ensures s[k] == NEWLINE ==> LineEnd(s) == k + 1 && Rest(s) == s[k + 1..] && NEWLINE in s
  {
    LineEndIff(s, k + 1);
  }

  lemma LineEndsHere(s: seq<byte>, k: nat)
    requires NoNewline(s, k) && k == |s|
    ensures LineEnd(s) == k && Rest(s) == s[k..] && NEWLINE !in s
  {
    LineEndIff(s, k);
  }

  lemma HeldLine(held: seq<byte>, s: seq<byte>, k: nat)
    requires held <= s && NoNewline(s, k)
    ensures NEWLINE in held ==> k < |held|
  {
    if i :| 0 <= i < |held| && held[i] == NEWLINE { assert s[i] == NEWLINE; }
  }

  lemma LostPart(s: seq<byte>, k: nat)
    requires NoNewline(s, k)
    ensures PartLost(s, s[k..])
  {
  }

  // How much of the script has been taken after one more read().
  function Taken(script: seq<Outcome>, used: nat): nat {
    if used < |script| then used + 1 else used
  }

  lemma TakenNext(script: seq<Outcome>, used: nat)
    requires used <= |script|
    ensures Taken(script, used) <= |script|
    ensures script[Taken(script, used)..] == if script[used..] == [] then [] else script[used..][1..]
    ensures script[used..] != [] ==> Taken(script, used) == used + 1 && script[used] == script[used..][0]
  {
  }

  // A read() that fails other than by an interrupt.
  predicate Breaks(outcome: Outcome) {
    outcome.Fails? && outcome.errno != EINTR
  }

  // Stores a byte, if there is room.
  method PutChar(buffer: array<byte>, ghost s: seq<byte>, ghost k: nat, n: nat, cnt0: nat, ghost was: seq<byte>, ch: byte)
    returns (cnt: nat)
    requires Stored(s, k, n, cnt0, was, buffer[..]) && k < |s| && ch == s[k]
    modifies buffer
    ensures Stored(s, k + 1, n, cnt, was, buffer[..])
  {
    StoreNext(s, k, n, cnt0, was, buffer[..]);
    hide Stored;
    cnt := cnt0;
    if cnt < n {
      ghost var now := buffer[..];
      buffer[cnt] := ch;
      assert buffer[..] == now[cnt := ch];
      cnt := cnt + 1;
    }
  }

  // read() of one byte, where k bytes of s have been read, and used outcomes of the script taken.
  method ReadChar(fd: File, ghost s: seq<byte>, ghost k: nat, ghost script: seq<Outcome>, ghost used: nat)
    returns (numRead: int, ch: byte, errno: Errno, ghost taken: nat)
    requires k <= |s| && fd.rest == s[k..] && used <= |script| && fd.script == script[used..]
    modifies fd
    ensures used <= taken <= |script| && taken <= used + 1 && fd.script == script[taken..]
    ensures numRead == -1 || numRead == 0 || numRead == 1
    ensures numRead == -1 ==> taken == used + 1 && script[used] == Fails(errno) && fd.rest == s[k..]
    ensures numRead != -1 ==> forall i | used <= i < taken :: script[i].Gives?
    ensures numRead == 0 ==> k == |s| && fd.rest == s[k..]
    ensures numRead == 1 ==> k < |s| && ch == s[k] && fd.rest == s[k + 1..]
  {
    TakenNext(script, used);
    taken := Taken(script, used);
    var data;
    numRead, data, errno := fd.Read(1);
    ch := 0;
    if numRead == 1 {
      ch := data[0];
      OneDropped(s, k, data, fd.rest);
    }
  }

  /** readLine(): a line of at most n - 1 bytes. It is null-terminated, unless nothing has been stored
      when the file ends. An interrupted read() is repeated; the first other error is returned. used is
      how many outcomes of the script the read() calls have taken. */
  method ReadLine(fd: File, buffer: array?<byte>, n: nat) returns (r: int, errno: Errno, ghost used: nat)
    requires buffer != null ==> buffer.Length >= n
    modifies fd, buffer
    ensures used <= |old(fd.script)| && fd.script == old(fd.script)[used..]
    ensures n == 0 || buffer == null ==> r == -1 && errno == EINVAL && used == 0 && fd.rest == old(fd.rest)
    ensures n > 0 && buffer != null ==> (r == -1 <==> used > 0 && Breaks(old(fd.script)[used - 1]))
    ensures forall i | 0 <= i < used - 1 :: !Breaks(old(fd.script)[i])
    ensures n > 0 && buffer != null && r == -1 ==>
      errno == old(fd.script)[used - 1].errno && PartLost(old(fd.rest), fd.rest)
    ensures r != -1 ==> n > 0 && buffer != null && r == |Line(old(fd.rest), n - 1)| && fd.rest == Rest(old(fd.rest))
    ensures r != -1 ==> buffer[..r] == Line(old(fd.rest), n - 1)
    ensures r > 0 || (r == 0 && NEWLINE in old(fd.rest)) ==> buffer[r] == 0
    ensures r != -1 ==> buffer[r + 1..] == old(buffer[r + 1..])
    ensures r == 0 && NEWLINE !in old(fd.rest) ==> buffer[..] == old(buffer[..])
  {
    r, errno, used := -1, EINVAL, 0;
    if n == 0 || buffer == null { return; }
    ghost var was := buffer[..];
    var atEnd;
    r, atEnd, errno, used := ReadBytes(fd, buffer, n);
    if r == -1 || (r == 0 && atEnd) { return; }
    ghost var now := buffer[..];
    Terminated(was, now, r);
    hide *;
    buffer[r] := 0;
    assert buffer[..] == now[r := 0];
  }

  // The loop of readLine(): it ends at a newline, at the end of the file, or with an error.
  method ReadBytes(fd: File, buffer: array<byte>, n: nat) returns (r: int, atEnd: bool, errno: Errno, ghost used: nat)
    requires 0 < n <= buffer.Length
    modifies fd, buffer
    ensures used <= |old(fd.script)| && fd.script == old(fd.script)[used..]
    ensures forall i | 0 <= i < used - 1 :: !Breaks(old(fd.script)[i])
    ensures r == -1 <==> used > 0 && Breaks(old(fd.script)[used - 1])
    ensures r == -1 ==> errno == old(fd.script)[used - 1].errno && PartLost(old(fd.rest), fd.rest)
    ensures r != -1 ==> 0 <= r < n && r == |Line(old(fd.rest), n - 1)| && fd.rest == Rest(old(fd.rest))
    ensures r != -1 ==> buffer[..r] == Line(old(fd.rest), n - 1) && buffer[r..] == old(buffer[r..])
    ensures r == 0 ==> buffer[..] == old(buffer[..])
    ensures r != -1 ==> (atEnd <==> NEWLINE !in old(fd.rest))
  {
    var totRead: nat := 0;
    ghost var s, k: nat, script, was := fd.rest, 0, fd.script, buffer[..];
    NothingStored(s, n - 1, was);
    assert script[0..] == script && s[0..] == s;
    used, atEnd := 0, false;
    hide Stored, Line, Rest, PartLost, NoNewline, LineEnd;
    while true
      invariant k <= |s| && fd.rest == s[k..] && NoNewline(s, k) && Stored(s, k, n - 1, totRead, was, buffer[..])
      invariant used <= |script| && fd.script == script[used..] && forall i | 0 <= i < used :: !Breaks(script[i])
      decreases |fd.rest|, |fd.script|
    {
      var numRead, ch;
      numRead, ch, errno, used := ReadChar(fd, s, k, script, used);
      if numRead == -1 {
        if errno == EINTR { continue; }
        LostPart(s, k);
        return -1, false, errno, used;
      } else if numRead == 0 {
        LineEndsHere(s, k);
        atEnd := true;
        break;
      } else {
        NoNewlineNext(s, k);
        totRead := PutChar(buffer, s, k, n - 1, totRead, was, ch);
        k := k + 1;
        if ch == NEWLINE { break; }
      }
    }
    StoredLine(s, k, n - 1, totRead, was, buffer[..]);
    r := totRead;
  }

  lemma Terminated(was: seq<byte>, now: seq<byte>, k: nat)
    requires k < |now| == |was| && now[k..] == was[k..]
    ensures var end := now[k := 0]; end[..k] == now[..k] && end[k] == 0 && end[k + 1..] == was[k + 1..]
  {
    assert now[k + 1..] == now[k..][1..];
  }

  // ---------- read_line_buf.c ----------

  class ReadLineBuf {
    const fd: File
    const buf: array<byte>
    var next: nat
    var len: int

    ghost predicate Valid()
      reads this
    {
      buf.Length == RL_MAX_BUF && -1 <= len <= RL_MAX_BUF
    }

    // What has not been returned yet: the rest of the buffer, then the rest of the file.
    ghost function Pending(): seq<byte>
      requires Valid()
      reads this, buf, fd
    {
      (if next < len then buf[next..len] else []) + fd.rest
    }

    constructor (fd: File)
      ensures Valid() && this.fd == fd && Pending() == fd.rest && fresh(buf)
    {
      this.fd := fd;
      buf := new byte[RL_MAX_BUF];
      next, len := 0, 0;
    }

    // Makes sure that the buffer is not empty, by one read() if need be; r is -1 exactly when that fails,
    // and 0 at the end of the file.
    method Fill() returns (r: int, errno: Errno)
      requires Valid()
      modifies this`next, this`len, buf, fd
      ensures Valid() && Pending() == old(Pending())
      ensures old(next < len) ==>
        r == 1 && fd.script == old(fd.script) && fd.rest == old(fd.rest) && next == old(next) && len == old(len)
      ensures old(next >= len) ==> fd.script == old(if fd.script == [] then [] else fd.script[1..])
      ensures r == -1 <==> old(next >= len && fd.script != [] && fd.script[0].Fails?)
      ensures r == -1 ==> errno == old(fd.script)[0].errno
      ensures r == 0 ==> Pending() == []
      ensures r != -1 && r != 0 ==> next < len
    {
      r, errno := 1, EOTHER;
      if next < len { return; }
      var count, data;
      count, data, errno := fd.Read(RL_MAX_BUF);
      r := count;
      len := count;
      if len == -1 || len == 0 { return; }
      forall i | 0 <= i < |data| {
        buf[i] := data[i];
      }
      next := 0;
      assert buf[0..len] == data;
    }

    // The same where k bytes of s have been returned, and used outcomes of the script taken.
    method FillAt(ghost s: seq<byte>, ghost k: nat, ghost script: seq<Outcome>, ghost used: nat)
      returns (r: int, errno: Errno, ghost taken: nat)
      requires Valid() && k <= |s| && Pending() == s[k..] && used <= |script| && fd.script == script[used..]
      modifies this`next, this`len, buf, fd
      ensures Valid() && Pending() == s[k..] && used <= taken <= |script| && taken <= used + 1 && fd.script == script[taken..]
      ensures old(next < len) ==> r == 1 && taken == used && fd.rest == old(fd.rest) && next == old(next) && len == old(len)
      ensures r == -1 ==> taken == used + 1 && script[used] == Fails(errno)
      ensures r != -1 ==> forall i | used <= i < taken :: script[i].Gives?
      ensures r == 0 ==> k == |s|
      ensures r != -1 && r != 0 ==> next < len
    {
      TakenNext(script, used);
      taken := if next < len then used else Taken(script, used);
      r, errno := Fill();
    }

    method NextByte() returns (c: byte)
      requires Valid() && next < len
      modifies this`next
      ensures Valid() && old(Pending()) == [c] + Pending() && next == old(next) + 1
    {
      c := buf[next];
      assert buf[next..len] == [c] + buf[next + 1..len];
      next := next + 1;
    }

    // The next byte; r is 1, or as for Fill.
    method TakeByte(ghost s: seq<byte>, ghost k: nat, ghost script: seq<Outcome>, ghost used: nat)
      returns (r: int, c: byte, errno: Errno, ghost taken: nat)
      requires Valid() && k <= |s| && Pending() == s[k..] && used <= |script| && fd.script == script[used..]
      modifies this`next, this`len, buf, fd
      ensures Valid() && used <= taken <= |script| && taken <= used + 1 && fd.script == script[taken..]
      ensures r == -1 || r == 0 || r == 1
      ensures r == -1 ==> taken == used + 1 && script[used] == Fails(errno)
      ensures r != -1 ==> forall i | used <= i < taken :: script[i].Gives?
      ensures if r == 1 then k < |s| && c == s[k] && Pending() == s[k + 1..] else Pending() == s[k..]
      ensures r == 0 ==> k == |s|
      ensures old(next < len) ==>
        r == 1 && taken == used && fd.rest == old(fd.rest) && next == old(next) + 1 && len == old(len)
    {
      c := 0;
      r, errno, taken := FillAt(s, k, script, used);
      if r != -1 && r != 0 {
        r := 1;
        c := NextByte();
        OneDropped(s, k, [c], Pending());
      }
    }

    /** readLineBuf(): a line of at most n bytes. It fails exactly when one of its read() calls fails, an
        interrupted one included, and then loses what has been read of the line. used is how many outcomes
        of the script those calls have taken: none while the buffer still holds the end of a line. */
    method Read(buffer: array?<byte>, n: nat) returns (r: int, errno: Errno, ghost used: nat)
      requires Valid() && buffer != buf && (buffer != null ==> buffer.Length >= n)
      modifies this`next, this`len, buf, fd, buffer
      ensures Valid() && used <= |old(fd.script)| && fd.script == old(fd.script)[used..]
      ensures n == 0 || buffer == null ==> r == -1 && errno == EINVAL && used == 0 && Pending() == old(Pending())
      ensures n > 0 && buffer != null ==> (r == -1 <==> used > 0 && old(fd.script)[used - 1].Fails?)
      ensures forall i | 0 <= i < used - 1 :: old(fd.script)[i].Gives?
      ensures n > 0 && buffer != null && r == -1 ==>
        errno == old(fd.script)[used - 1].errno && PartLost(old(Pending()), Pending())
      ensures r != -1 ==> n > 0 && buffer != null && r == |Line(old(Pending()), n)| && Pending() == Rest(old(Pending()))
      ensures r != -1 ==> buffer[..r] == Line(old(Pending()), n) && buffer[r..] == old(buffer[r..])
      ensures old(next < len && NEWLINE in buf[next..len]) ==> used == 0 && fd.rest == old(fd.rest)
    {
      r, errno, used := -1, EINVAL, 0;
      if n == 0 || buffer == null { return; }
      r, errno, used := ReadBytes(buffer, n);
    }

    // The loop of readLineBuf().
    method ReadBytes(buffer: array<byte>, n: nat) returns (r: int, errno: Errno, ghost used: nat)
      requires Valid() && buffer != buf && 0 < n <= buffer.Length
      modifies this`next, this`len, buf, fd, buffer
      ensures Valid() && used <= |old(fd.script)| && fd.script == old(fd.script)[used..]
      ensures r == -1 <==> used > 0 && old(fd.script)[used - 1].Fails?
      ensures forall i | 0 <= i < used - 1 :: old(fd.script)[i].Gives?
      ensures r == -1 ==> errno == old(fd.script)[used - 1].errno && PartLost(old(Pending()), Pending())
      ensures r != -1 ==> r == |Line(old(Pending()), n)| <= n && Pending() == Rest(old(Pending()))
      ensures r != -1 ==> buffer[..r] == Line(old(Pending()), n) && buffer[r..] == old(buffer[r..])
      ensures old(next < len && NEWLINE in buf[next..len]) ==> used == 0 && fd.rest == old(fd.rest)
    {
      used := 0;
      var cnt: nat := 0;
      ghost var s, k: nat, was, script, rest := Pending(), 0, buffer[..], fd.script, fd.rest;
      ghost var held := if next < len then buf[next..len] else [];
      NothingStored(s, n, was);
      assert script[0..] == script && s[0..] == s;
      hide Stored, Line, Rest, PartLost, NoNewline, Taken, LineEnd;
      while true
        invariant Valid() && k <= |s| && Pending() == s[k..] && NoNewline(s, k) && Stored(s, k, n, cnt, was, buffer[..])
        invariant used <= |script| && fd.script == script[used..] && forall i | 0 <= i < used :: script[i].Gives?
        invariant NEWLINE in held ==> k <= |held| && used == 0 && fd.rest == rest && len - next == |held| - k
        decreases |s| - k
      {
        HeldLine(held, s, k);
        var c;
        r, c, errno, used := TakeByte(s, k, script, used);
        if r == -1 {
          LostPart(s, k);
          return;
        }
        if r == 0 {
          LineEndsHere(s, k);
          break;
        }
        NoNewlineNext(s, k);
        cnt := PutChar(buffer, s, k, n, cnt, was, c);
        k := k + 1;
        if c == NEWLINE { break; }
      }
      StoredLine(s, k, n, cnt, was, buffer[..]);
      r := cnt;
    }
  }

  // ---------- sequences of calls ----------

  method ReadOneBuffered(reader: ReadLineBuf, size: nat) returns (line: seq<byte>)
    requires reader.Valid() && NoError(reader.fd.script) && size > 0
    modifies reader`next, reader`len, reader.buf, reader.fd
    ensures reader.Valid() && NoError(reader.fd.script)
    ensures line == Line(old(reader.Pending()), size) && reader.Pending() == Rest(old(reader.Pending()))
  {
    var buffer := new byte[size];
    var r, e, used := reader.Read(buffer, size);
    line := buffer[..r];
  }

  /** Without read errors, calling readLineBuf() with sizes n and readLine() with sizes n + 1 gives the
      same lines and leaves the same input, however read() splits it: both give Lines and RestAfter. */
  method ReadAllBuffered(file: File, sizes: seq<nat>) returns (lines: seq<seq<byte>>, ghost rest: seq<byte>)
    requires NoError(file.script) && forall i | 0 <= i < |sizes| :: sizes[i] > 0
    modifies file
    ensures lines == Lines(old(file.rest), sizes) && rest == RestAfter(old(file.rest), |sizes|)
  {
    var reader := new ReadLineBuf(file);
    lines := [];
    hide Line, Lines, Rest, RestAfter;
    var i := 0;
    ghost var s := file.rest;
    assert sizes[0..] == sizes;
    while i < |sizes|
      invariant 0 <= i <= |sizes| && reader.Valid() && reader.fd == file && fresh(reader) && fresh(reader.buf)
      invariant NoError(file.script)
      invariant lines + Lines(reader.Pending(), sizes[i..]) == Lines(s, sizes)
      invariant RestAfter(reader.Pending(), |sizes| - i) == RestAfter(s, |sizes|)
    {
      LinesFrom(reader.Pending(), sizes, i, lines);
      var line := ReadOneBuffered(reader, sizes[i]);
      lines := lines + [line];
      i := i + 1;
    }
    rest := reader.Pending();
    Ended(rest);
    assert sizes[i..] == [] && lines + [] == lines;
  }

  method ReadOne(file: File, size: nat) returns (line: seq<byte>)
    requires OnlyInterrupts(file.script) && size > 0
    modifies file
    ensures OnlyInterrupts(file.script)
    ensures line == Line(old(file.rest), size) && file.rest == Rest(old(file.rest))
  {
    var buffer := new byte[size + 1];
    var r, e, used := ReadLine(file, buffer, size + 1);
    line := buffer[..r];
  }

  method ReadAll(file: File, sizes: seq<nat>) returns (lines: seq<seq<byte>>)
    requires OnlyInterrupts(file.script) && forall i | 0 <= i < |sizes| :: sizes[i] > 0
    modifies file
    ensures lines == Lines(old(file.rest), sizes) && file.rest == RestAfter(old(file.rest), |sizes|)
  {
    lines := [];
    hide Line, Lines, Rest, RestAfter;
    var i := 0;
    ghost var s := file.rest;
    assert sizes[0..] == sizes;
    while i < |sizes|
      invariant 0 <= i <= |sizes| && OnlyInterrupts(file.script)
      invariant lines + Lines(file.rest, sizes[i..]) == Lines(s, sizes)
      invariant RestAfter(file.rest, |sizes| - i) == RestAfter(s, |sizes|)
    {
      LinesFrom(file.rest, sizes, i, lines);
      var line := ReadOne(file, sizes[i]);
      lines := lines + [line];
      i := i + 1;
    }
    Ended(file.rest);
    assert sizes[i..] == [] && lines + [] == lines;
  }

  lemma Ended(s: seq<byte>)
    ensures Lines(s, []) == [] && RestAfter(s, 0) == s
  {
  }
}
