/** clocks.c, commaprint(): a number with separators, written backwards into a static buffer. */
module CommaPrint {

  import opened Prelude

  const BUFFER_SIZE: nat := 30

  // Values of type unsigned long.
  const ULONG: nat := 0x1_0000_0000_0000_0000

  // The character commaprint() settles on: the first of the locale's thousands_sep, or a comma.
  function Separator(thousandsSep: string): char {
    if thousandsSep == "" then ',' else thousandsSep[0]
  }

  // ---------- what the output means ----------

  // The number that remains when the separators are dropped.
  function Value(s: string): nat {
    if s == "" then 0
    else
      var front, last := Value(s[..|s| - 1]), s[|s| - 1];
      if IsDigit(last) then 10 * front + DigitValue(last) else front
  }

  // With off further characters to the right of s, every fourth from the right is the separator.
  predicate Grouped(s: string, sep: char, off: nat) {
    forall i | 0 <= i < |s| :: if (off + |s| - 1 - i) % 4 == 3 then s[i] == sep else IsDigit(s[i])
  }

  // The decimal form of n: no leading separator, no leading zero; nothing at all for 0.
  predicate IsForm(s: string, sep: char, off: nat, n: nat) {
    && Grouped(s, sep, off) && Value(s) == n
    && (s == "" <==> n == 0)
    && (s != "" ==> IsDigit(s[0]) && s[0] != '0')
  }

  predicate IsCommaForm(s: string, sep: char, n: nat) {
    if n == 0 then s == "0" else IsForm(s, sep, 0, n)
  }

  function Form(n: nat, sep: char, off: nat): string
    decreases n, off % 4 == 3
  {
    if n == 0 then ""
    else if off % 4 == 3 then Form(n, sep, off + 1) + [sep]
    else Form(n / 10, sep, off + 1) + [Digit(n % 10)]
  }

  lemma {:induction false} FormIsForm(n: nat, sep: char, off: nat)
    requires !IsDigit(sep)
    ensures IsForm(Form(n, sep, off), sep, off, n)
    decreases n, off % 4 == 3
  {
    if n > 0 {
      if off % 4 == 3 {
        FormIsForm(n, sep, off + 1);
        FormExtends(Form(n, sep, off + 1), sep, sep, off, n);
      } else {
        FormIsForm(n / 10, sep, off + 1);
        FormExtends(Form(n / 10, sep, off + 1), Digit(n % 10), sep, off, n);
      }
    }
  }

  // front is the form of what is left of n before its last character.
  lemma FormExtends(front: string, last: char, sep: char, off: nat, n: nat)
    requires n > 0 && !IsDigit(sep) && IsForm(front, sep, off + 1, if off % 4 == 3 then n else n / 10)
    requires last == if off % 4 == 3 then sep else Digit(n % 10)
    ensures IsForm(front + [last], sep, off, n)
  {
    var s := front + [last];
    ValueExtends(front, last);
    GroupedExtends(front, last, sep, off);
    hide Value, Grouped;
    assert s[0] == if front == "" then last else front[0];
  }

  lemma GroupedExtends(front: string, last: char, sep: char, off: nat)
    requires Grouped(front, sep, off + 1) && if off % 4 == 3 then last == sep else IsDigit(last)
    ensures Grouped(front + [last], sep, off)
  {
    var s := front + [last];
    forall i | 0 <= i < |s|
      ensures if (off + |s| - 1 - i) % 4 == 3 then s[i] == sep else IsDigit(s[i])
    {
      if i < |front| {
        assert s[i] == front[i] && off + |s| - 1 - i == off + 1 + |front| - 1 - i;
      } else {
        assert s[i] == last && off + |s| - 1 - i == off;
      }
    }
  }

  lemma GroupedShortens(front: string, last: char, sep: char, off: nat)
    requires Grouped(front + [last], sep, off)
    ensures Grouped(front, sep, off + 1) && if off % 4 == 3 then last == sep else IsDigit(last)
  {
    var s := front + [last];
    assert s[|front|] == last;
    forall i | 0 <= i < |front|
      ensures if (off + 1 + |front| - 1 - i) % 4 == 3 then front[i] == sep else IsDigit(front[i])
    {
      assert s[i] == front[i] && off + |s| - 1 - i == off + 1 + |front| - 1 - i;
    }
  }

  lemma ValueExtends(front: string, last: char)
    ensures Value(front + [last]) == if IsDigit(last) then 10 * Value(front) + DigitValue(last) else Value(front)
  {
    assert (front + [last])[..|front|] == front;
  }

  // FormExtends the other way round.
  lemma FormShortens(front: string, last: char, sep: char, off: nat, n: nat)
    requires !IsDigit(sep) && IsForm(front + [last], sep, off, n)
    ensures n > 0 && last == if off % 4 == 3 then sep else Digit(n % 10)
    ensures IsForm(front, sep, off + 1, if off % 4 == 3 then n else n / 10)
  {
    var s := front + [last];
    assert s[0] == if front == "" then last else front[0];
    GroupedShortens(front, last, sep, off);
    ValueExtends(front, last);
    ValueEmpty();
    if front != "" { LeadingNonzero(front); }
    hide Value, Grouped;
  }

  lemma ValueEmpty()
    ensures Value("") == 0
  {
  }

  /** There is just one such form of a number. */
  lemma {:induction false} FormIsUnique(s: string, sep: char, off: nat, n: nat)
    requires !IsDigit(sep) && IsForm(s, sep, off, n)
    ensures s == Form(n, sep, off)
    decreases |s|
  {
    if s != "" {
      var front, last := s[..|s| - 1], s[|s| - 1];
      assert s == front + [last];
      FormShortens(front, last, sep, off, n);
      FormIsUnique(front, sep, off + 1, if off % 4 == 3 then n else n / 10);
    }
    hide Value, Grouped;
  }

  lemma {:induction false} LeadingNonzero(s: string)
    requires s != "" && IsDigit(s[0]) && s[0] != '0'
    ensures Value(s) > 0
  {
    if |s| > 1 { LeadingNonzero(s[..|s| - 1]); }
  }

  // ---------- the program ----------

  function Pow10(i: nat): (p: nat)
    ensures p >= 1
  {
    if i == 0 then 1 else 10 * Pow10(i - 1)
  }

  lemma {:induction false} Pow10Grows(i: nat, j: nat)
    requires i <= j
    ensures Pow10(i) <= Pow10(j)
  {
    if i < j { Pow10Grows(i, j - 1); }
  }

  lemma Pow20()
    ensures Pow10(20) == 1_0000_0000_0000_0000_0000 > ULONG
  {
    assert Pow10(5) == 100000;
    assert Pow10(10) == 100000_00000;
    assert Pow10(15) == 100000_00000_00000;
  }

  lemma AtLeast(a: nat, p: nat)
    requires a >= 1
    ensures a * p >= p
  {
  }

  // An unsigned long has at most 20 digits.
  lemma DigitsLeft(n: nat, left: nat, i: nat)
    requires n < ULONG && left >= 1 && left * Pow10(i) <= n
    ensures i <= 19
  {
    Pow20();
    AtLeast(left, Pow10(i));
    hide Pow10;
    if i >= 20 { Pow10Grows(20, i); }
  }

  lemma NextDigit(n: nat, left: nat, i: nat)
    requires left * Pow10(i) <= n
    ensures (left / 10) * Pow10(i + 1) <= n
  {
    var q, r := left / 10, left % 10;
    assert left == 10 * q + r;
    assert (10 * q + r) * Pow10(i) == q * (10 * Pow10(i)) + r * Pow10(i);
  }

  // out is the end of the form of n, left the number still to print before it.
  predicate Printing(n: nat, sep: char, left: nat, out: string) {
    Form(n, sep, 0) == Form(left, sep, |out|) + out
  }

  lemma PutSeparator(n: nat, sep: char, left: nat, out: string)
    requires Printing(n, sep, left, out) && left > 0 && |out| % 4 == 3
    ensures Printing(n, sep, left, [sep] + out)
  {
    var front := Form(left, sep, |out| + 1);
    assert Form(left, sep, |out|) == front + [sep];
    hide Form;
    assert (front + [sep]) + out == front + ([sep] + out);
  }

  lemma PutDigit(n: nat, sep: char, left: nat, out: string)
    requires Printing(n, sep, left, out) && left > 0 && |out| % 4 != 3
    ensures Printing(n, sep, left / 10, [Digit(left % 10)] + out)
  {
    var front, c := Form(left / 10, sep, |out| + 1), Digit(left % 10);
    assert Form(left, sep, |out|) == front + [c];
    hide Form;
    assert (front + [c]) + out == front + ([c] + out);
  }

  lemma Printed(n: nat, sep: char, out: string)
    requires !IsDigit(sep) && if n == 0 then out == "0" else Printing(n, sep, 0, out)
    ensures IsCommaForm(out, sep, n)
  {
    FormIsForm(n, sep, 0);
    assert "" + out == out;
  }

  lemma FormNonempty(n: nat, sep: char, s: string)
    requires IsCommaForm(s, sep, n)
    ensures s != ""
  {
  }

  // The characters printed for i digits.
  function Size(i: nat): nat {
    if i == 0 then 0 else i + (i - 1) / 3
  }

  lemma SizeStep(i: nat)
    ensures Size(i + 1) == Size(i) + 1 + if i % 3 == 0 && i != 0 then 1 else 0
    ensures Size(i) % 4 == 3 <==> i % 3 == 0 && i != 0
    ensures i <= 19 ==> Size(i + 1) <= 26
  {
    if i > 0 {
      var q, r := (i - 1) / 3, (i - 1) % 3;
      assert i == 3 * q + r + 1 && Size(i) == 4 * q + r + 1;
      assert i / 3 == if r == 2 then q + 1 else q;
    }
  }

  // i digits are printed, and left is what is left of n.
  predicate Counted(n: nat, sep: char, left: nat, i: nat, out: string) {
    && |out| == Size(i) && left * Pow10(i) <= n && Printing(n, sep, left, out)
    && (n > 0 ==> left > 0) && (n == 0 ==> left == i == 0)
  }

  lemma Beginning(n: nat, sep: char)
    ensures Counted(n, sep, n, 0, "")
  {
    assert Form(n, sep, 0) + "" == Form(n, sep, 0);
  }

  // What the loop writes before out: the next digit, and the separator that may come first.
  function Written(sep: char, left: nat, i: nat): string {
    [Digit(left % 10)] + if i % 3 == 0 && i != 0 then [sep] else ""
  }

  lemma OneDigit(n: nat, sep: char, left: nat, i: nat, out: string)
    requires n < ULONG && !IsDigit(sep) && Counted(n, sep, left, i, out)
    ensures var next := Written(sep, left, i) + out;
      && |next| <= 26
      && (left / 10 > 0 ==> Counted(n, sep, left / 10, i + 1, next))
      && (left / 10 == 0 ==> IsCommaForm(next, sep, n))
  {
    var next := Written(sep, left, i) + out;
    hide Size, Pow10, Printing, IsCommaForm;
    SizeStep(i);
    NextDigit(n, left, i);
    if n == 0 {
      assert i == 0 && next == [Digit(0)] + out == "0" by { NoDigits(); }
    } else {
      DigitsLeft(n, left, i);
      var first := out;
      if i % 3 == 0 && i != 0 {
        PutSeparator(n, sep, left, out);
        first := [sep] + out;
      }
      PutDigit(n, sep, left, first);
      assert next == [Digit(left % 10)] + first;
    }
    if left / 10 == 0 { Printed(n, sep, next); }
  }

  lemma NoDigits()
    ensures Size(0) == 0 && [Digit(0)] == "0"
  {
  }

  lemma WrittenParts(sep: char, left: nat, i: nat, out: string)
    ensures Written(sep, left, i) + out == [Digit(left % 10)] + if i % 3 == 0 && i != 0 then [sep] + out else out
  {
  }

  // The buffer once out, with its terminator, stands at its end.
  function Buffer(was: seq<char>, p: nat, out: string): seq<char>
    requires p <= |was|
  {
    was[..p] + out + ['\0']
  }

  lemma Terminated(was: seq<char>)
    requires was != []
    ensures was[|was| - 1 := '\0'] == Buffer(was, |was| - 1, "")
  {
  }

  lemma Pushed(was: seq<char>, p: nat, out: string, c: char)
    requires 0 < p <= |was|
    ensures Buffer(was, p, out)[p - 1 := c] == Buffer(was, p - 1, [c] + out)
  {
  }

  lemma BufferParts(was: seq<char>, p: nat, out: string)
    requires p <= |was|
    ensures var s := Buffer(was, p, out);
      s[..p] == was[..p] && s[p..|s| - 1] == out && s[|s| - 1] == '\0'
  {
  }

  // *--p = c
  method Push(retbuf: array<char>, p: nat, c: char, ghost was: seq<char>, ghost out: string) returns (q: nat)
    requires 0 < p <= |was| == retbuf.Length && retbuf[..] == Buffer(was, p, out)
    modifies retbuf
    ensures q == p - 1 && retbuf[..] == Buffer(was, q, [c] + out)
  {
    Pushed(was, p, out, c);
    q := p - 1;
    retbuf[q] := c;
  }

  // The loop of commaprint().
  method PrintDigits(retbuf: array<char>, n: nat, sep: char) returns (p: nat, ghost out: string)
    requires retbuf.Length == BUFFER_SIZE && n < ULONG && !IsDigit(sep)
    modifies retbuf
    ensures p + |out| == BUFFER_SIZE - 1 && |out| <= 26 && IsCommaForm(out, sep, n)
    ensures retbuf[..] == Buffer(old(retbuf[..]), p, out)
  {
    ghost var was := retbuf[..];
    p, out := BUFFER_SIZE - 1, "";
    retbuf[p] := '\0';
    var left, i := n, 0;
    Beginning(n, sep);
    Terminated(was);
    hide *;
    while true
      invariant p + |out| == BUFFER_SIZE - 1 && retbuf[..] == Buffer(was, p, out)
      invariant Counted(n, sep, left, i, out)
      decreases left, i == 0
    {
      OneDigit(n, sep, left, i, out);
      WrittenParts(sep, left, i, out);
      if i % 3 == 0 && i != 0 {
        p := Push(retbuf, p, sep, was, out);
        out := [sep] + out;
      }
      p := Push(retbuf, p, Digit(left % 10), was, out);
      out := [Digit(left % 10)] + out;
      left := left / 10;
      i := i + 1;
      if left == 0 { break; }
    }
  }

  /** commaprint(): the output, null-terminated, starts at retbuf[p]; with the terminator it takes at
      most 27 of the 30 bytes. */
  method CommaPrint(retbuf: array<char>, n: nat, thousandsSep: string) returns (p: nat)
    requires retbuf.Length == BUFFER_SIZE && n < ULONG && (thousandsSep != "" ==> !IsDigit(thousandsSep[0]))
    modifies retbuf
    ensures p + 27 >= BUFFER_SIZE && p < BUFFER_SIZE - 1 && retbuf[BUFFER_SIZE - 1] == '\0'
    ensures IsCommaForm(retbuf[p..BUFFER_SIZE - 1], if thousandsSep == "" then ',' else thousandsSep[0], n)
    ensures retbuf[..p] == old(retbuf[..p])
  {
    ghost var was, out := retbuf[..], "";
    p, out := PrintDigits(retbuf, n, Separator(thousandsSep));
    BufferParts(was, p, out);
    FormNonempty(n, Separator(thousandsSep), out);
    assert Separator(thousandsSep) == if thousandsSep == "" then ',' else thousandsSep[0];
    hide *;
  }
}
