/** commands.c: a command goes through the message queue as text, "id,command,value". */
module Commands {

  import opened CStrings
  import opened Prelude

  const MAX_CMD_LEN: nat := 50

  // ---------- decimal numbers ----------

  function Digits(n: nat): (s: string)
    ensures s != "" && forall i | 0 <= i < |s| :: IsDigit(s[i])
  {
    if n < 10 then [Digit(n)] else Digits(n / 10) + [Digit(n % 10)]
  }

  // sprintf("%d")
  function Decimal(i: int): string {
    if i < 0 then "-" + Digits(-i) else Digits(i)
  }

  predicate IsSpace(c: char) {
    c == ' ' || '\t' <= c <= '\r'
  }

  function Leading(s: string, acc: nat): nat {
    if s == "" || !IsDigit(s[0]) then acc else Leading(s[1..], 10 * acc + DigitValue(s[0]))
  }

  // atoi(): blanks, a sign, and as many digits as follow.
  function Atoi(s: string): int {
    if s == "" then 0
    else if IsSpace(s[0]) then Atoi(s[1..])
    else if s[0] == '-' then 0 - Leading(s[1..], 0) as int
    else if s[0] == '+' then Leading(s[1..], 0)
    else Leading(s, 0)
  }

  function ToUint8(i: int): nat {
    i % 256
  }

  function ToInt16(i: int): int {
    var r := i % 0x1_0000;
    if r < 0x8000 then r else r - 0x1_0000
  }

  predicate AllDigits(s: string) {
    forall i | 0 <= i < |s| :: IsDigit(s[i])
  }

  /** The conversions to uint8_t and int16_t drop whole multiples of the range of the type. */
  lemma ConversionsWrap(i: int)
    ensures 0 <= ToUint8(i) < 256 && (i - ToUint8(i)) % 256 == 0
    ensures -0x8000 <= ToInt16(i) < 0x8000 && (i - ToInt16(i)) % 0x1_0000 == 0
  {
    assert i == 256 * (i / 256) + i % 256;
    assert i == 0x1_0000 * (i / 0x1_0000) + i % 0x1_0000;
  }

  // The number that digits denote.
  function Number(digits: string): nat
    requires AllDigits(digits)
  {
    if digits == "" then 0 else 10 * Number(digits[..|digits| - 1]) + DigitValue(digits[|digits| - 1])
  }

  lemma {:induction false} LeadingIs(digits: string, rest: string, acc: nat)
    requires AllDigits(digits) && (rest == "" || !IsDigit(rest[0]))
    ensures Leading(digits + rest, acc) == Leading(digits, acc) && Leading(digits, 0) == Number(digits)
    decreases |digits|
  {
    if digits == "" {
      assert digits + rest == rest;
    } else {
      var s := digits + rest;
      assert s[0] == digits[0] && s[1..] == digits[1..] + rest;
      LeadingIs(digits[1..], rest, 10 * acc + DigitValue(digits[0]));
      var front, last := digits[..|digits| - 1], digits[|digits| - 1];
      assert AllDigits(front) && digits == front + [last];
      LeadingIs(front, "", 0);
      LeadingAppend(front, last, 0);
    }
  }

  /** atoi() skips blanks, takes a sign, and reads as many digits as follow. */
  lemma {:induction false} AtoiReads(blanks: string, sign: string, digits: string, rest: string)
    requires forall i | 0 <= i < |blanks| :: blanks[i] == ' ' || '\t' <= blanks[i] <= '\r'
    requires (sign == "" || sign == "+" || sign == "-") && AllDigits(digits) && (rest == "" || !IsDigit(rest[0]))
    requires sign == digits == "" ==> rest == "" || (rest[0] != '+' && rest[0] != '-' && !IsSpace(rest[0]))
    ensures Atoi(blanks + sign + digits + rest) == if sign == "-" then 0 - Number(digits) as int else Number(digits)
    decreases |blanks|
  {
    var s := blanks + sign + digits + rest;
    LeadingIs(digits, rest, 0);
    if blanks != "" {
      assert s[0] == blanks[0] && s[1..] == blanks[1..] + sign + digits + rest;
      AtoiReads(blanks[1..], sign, digits, rest);
    } else if sign != "" {
      assert s[0] == sign[0] && s[1..] == digits + rest;
    } else {
      assert s == digits + rest;
      if digits != "" { assert s[0] == digits[0]; }
    }
  }

  lemma {:induction false} LeadingAppend(s: string, c: char, acc: nat)
    requires AllDigits(s) && IsDigit(c)
    ensures Leading(s + [c], acc) == 10 * Leading(s, acc) + DigitValue(c)
  {
    if s == "" {
      assert (s + [c])[1..] == "";
    } else {
      assert (s + [c])[1..] == s[1..] + [c];
      LeadingAppend(s[1..], c, 10 * acc + DigitValue(s[0]));
    }
  }

  lemma {:induction false} DigitsValue(n: nat)
    ensures Leading(Digits(n), 0) == n
  {
    if n < 10 {
      assert [Digit(n)][1..] == "";
    } else {
      DigitsValue(n / 10);
      LeadingAppend(Digits(n / 10), Digit(n % 10), 0);
    }
  }

  /** atoi() undoes sprintf("%d"), and a further digit c shifts the number by one place. */
  lemma AtoiDecimal(i: int, c: char)
    requires IsDigit(c)
    ensures Atoi(Decimal(i)) == i
    ensures Atoi(Decimal(i) + [c]) == if i < 0 then 10 * i - DigitValue(c) else 10 * i + DigitValue(c)
  {
    var n: nat := if i < 0 then -i else i;
    var s := Digits(n);
    DigitsValue(n);
    LeadingAppend(s, c, 0);
    assert IsDigit(s[0]);
    if i < 0 {
      assert Decimal(i)[1..] == s;
      assert (Decimal(i) + [c])[1..] == s + [c];
    } else {
      assert (s + [c])[0] == s[0];
    }
  }

  // The decimal form of n: no leading zero, and no sign.
  predicate IsNumeral(s: string, n: nat) {
    s != "" && AllDigits(s) && Leading(s, 0) == n && (|s| > 1 ==> s[0] != '0')
  }

  // A sign stands before negative numbers only.
  predicate IsDecimal(s: string, i: int) {
    if i < 0 then s != "" && s[0] == '-' && IsNumeral(s[1..], -i) else IsNumeral(s, i)
  }

  lemma {:induction false} DigitsAreNumeral(n: nat)
    ensures IsNumeral(Digits(n), n) && (n > 0 ==> Digits(n)[0] != '0')
  {
    DigitsValue(n);
    if n >= 10 {
      DigitsAreNumeral(n / 10);
    } else if n > 0 {
      assert DigitValue(Digit(n)) != 0;
    }
    hide Leading;
  }

  lemma {:induction false} LeadingPositive(s: string, acc: nat)
    requires AllDigits(s) && (acc > 0 || (s != "" && s[0] != '0'))
    ensures Leading(s, acc) > 0
  {
    if s != "" { LeadingPositive(s[1..], 10 * acc + DigitValue(s[0])); }
  }

  lemma {:induction false} NumeralIsDigits(s: string, n: nat)
    requires IsNumeral(s, n)
    ensures s == Digits(n)
    decreases |s|
  {
    var front, c := s[..|s| - 1], s[|s| - 1];
    assert s == front + [c] && AllDigits(front);
    LeadingAppend(front, c, 0);
    if front == "" {
      assert Leading("", 0) == 0;
    } else {
      assert front[0] == s[0];
      LeadingPositive(front, 0);
      NumeralIsDigits(front, Leading(front, 0));
    }
    hide Leading;
  }

  /** What sprintf("%d") prints is the one decimal form of the number. */
  lemma DecimalIff(i: int, s: string)
    ensures s == Decimal(i) <==> IsDecimal(s, i)
  {
    var n: nat := if i < 0 then -i else i;
    DigitsAreNumeral(n);
    hide IsNumeral;
    if i < 0 {
      assert Decimal(i)[1..] == Digits(n);
      if s != "" && s[0] == '-' && IsNumeral(s[1..], n) {
        NumeralIsDigits(s[1..], n);
        assert s == "-" + s[1..];
      }
    } else if IsNumeral(s, n) {
      NumeralIsDigits(s, n);
    }
  }

  lemma DigitsLength(n: nat)
    ensures |Digits(n)| == 1 <==> n < 10
    ensures |Digits(n)| <= 2 <==> n < 100
    ensures n < 1000 ==> |Digits(n)| <= 3
  {
    if n >= 10 && n / 10 >= 10 {
      assert |Digits(n)| == |Digits(n / 10 / 10)| + 2;
    }
  }

  // ---------- messages ----------

  function Encoded(id: int, text: string, val: int): string {
    Decimal(id) + "," + text + "," + Decimal(val)
  }

  function FirstComma(s: string): (k: nat)
    ensures k <= |s| && (k < |s| ==> s[k] == ',') && forall i | 0 <= i < k :: s[i] != ','
  {
    if s == "" || s[0] == ',' then 0 else 1 + FirstComma(s[1..])
  }

  // |s| if there is none.
  function LastComma(s: string): (k: nat)
    ensures k <= |s| && (k < |s| ==> s[k] == ',' && forall i | k < i < |s| :: s[i] != ',')
    ensures k == |s| ==> forall i | 0 <= i < |s| :: s[i] != ','
  {
    if s == "" then 0
    else if s[|s| - 1] == ',' then |s| - 1
    else
      var k := LastComma(s[..|s| - 1]);
      if k == |s| - 1 then |s| else k
  }

  // Two commas, and short enough for the buffers.
  predicate WellFormed(m: string) {
    NoNull(m) && |m| < MAX_CMD_LEN && FirstComma(m) < LastComma(m) < |m|
  }

  datatype Content = Content(id: nat, text: string, val: int)

  // What atoi() gets to see of the value: the terminator stands one place too far, and the place
  // before it may still hold a digit of the id.
  function ValueSeen(m: string): string
    requires WellFormed(m)
  {
    var value := m[LastComma(m) + 1..];
    value + if |value| < FirstComma(m) then [m[|value|]] else ""
  }

  function Decoded(m: string): Content
    requires WellFormed(m)
  {
    Content(ToUint8(Atoi(m[..FirstComma(m)])), m[FirstComma(m) + 1..LastComma(m)], ToInt16(Atoi(ValueSeen(m))))
  }

  lemma NoComma(i: int)
    ensures forall k | 0 <= k < |Decimal(i)| :: Decimal(i)[k] != ',' && Decimal(i)[k] != '\0'
  {
    var s := Digits(if i < 0 then -i else i);
    assert forall k | 0 <= k < |s| :: IsDigit(s[k]);
  }

  lemma CommasAt(s: string, a: nat, b: nat)
    requires a <= b < |s| && s[a] == ',' == s[b]
    requires (forall i | 0 <= i < a :: s[i] != ',') && (forall i | b < i < |s| :: s[i] != ',')
    ensures FirstComma(s) == a && LastComma(s) == b
  {
    var first, last := FirstComma(s), LastComma(s);
    hide *;
  }

  lemma Pieces(x: string, text: string, y: string)
    ensures var m, a, b := x + "," + text + "," + y, |x|, |x| + 1 + |text|;
      && b < |m| && m[..a] == x && m[a] == ',' && m[a + 1..b] == text && m[b] == ',' && m[b + 1..] == y
  {
  }

  lemma EncodedShape(id: int, text: string, val: int)
    ensures var m, a, b := Encoded(id, text, val), |Decimal(id)|, |Decimal(id)| + 1 + |text|;
      && FirstComma(m) == a && LastComma(m) == b < |m|
      && m[..a] == Decimal(id) && m[a + 1..b] == text && m[b + 1..] == Decimal(val)
  {
    NoComma(id);
    NoComma(val);
    assert Encoded(id, text, val) == Decimal(id) + "," + text + "," + Decimal(val);
    hide *;
    Pieces(Decimal(id), text, Decimal(val));
    PiecesFound(Decimal(id), text, Decimal(val));
  }

  lemma PiecesFound(x: string, text: string, y: string)
    requires (forall k | 0 <= k < |x| :: x[k] != ',') && (forall k | 0 <= k < |y| :: y[k] != ',')
    ensures var m := x + "," + text + "," + y; FirstComma(m) == |x| && LastComma(m) == |x| + 1 + |text|
  {
    hide *;
    var m, a, b := x + "," + text + "," + y, |x|, |x| + 1 + |text|;
    forall k | b < k < |m| ensures m[k] != ',' { assert m[k] == y[k - b - 1]; }
    CommasAt(m, a, b);
  }

  lemma EncodedWellFormed(id: int, text: string, val: int)
    requires NoNull(text) && |Encoded(id, text, val)| < MAX_CMD_LEN
    ensures WellFormed(Encoded(id, text, val))
  {
    EncodedShape(id, text, val);
    NoComma(id);
    NoComma(val);
    assert NoNull(Decimal(id)) && NoNull(Decimal(val));
    hide Decimal, FirstComma, LastComma;
  }

  lemma EncodedValueSeen(id: int, text: string, val: int)
    requires WellFormed(Encoded(id, text, val))
    ensures var n := |Decimal(val)|;
      ValueSeen(Encoded(id, text, val)) == Decimal(val) + if n < |Decimal(id)| then [Decimal(id)[n]] else ""
  {
    var m, n := Encoded(id, text, val), |Decimal(val)|;
    EncodedShape(id, text, val);
    if n < |Decimal(id)| { assert m[n] == m[..|Decimal(id)|][n]; }
    hide Decimal, FirstComma, LastComma, Encoded;
  }

  /** retreiveCommand() undoes makeCommand() for id and text always, and for the value exactly when
      the id has no more characters than the value, or the value is 0 and a 0 follows the id's first digit. */
  lemma RoundTripIff(id: nat, text: string, val: int)
    requires id < 256 && -0x8000 <= val < 0x8000 && NoNull(text) && |Encoded(id, text, val)| < MAX_CMD_LEN
    ensures WellFormed(Encoded(id, text, val))
    ensures var c := Decoded(Encoded(id, text, val));
      && c.id == id && c.text == text
      && (c.val == val <==> |Decimal(id)| <= |Decimal(val)| || (val == 0 && Decimal(id)[1] == '0'))
  {
    EncodedWellFormed(id, text, val);
    EncodedShape(id, text, val);
    EncodedValueSeen(id, text, val);
    ValueReadIff(id, val);
    AtoiDecimal(id, '0');
    hide *;
    DecodedParts(Encoded(id, text, val));
  }

  lemma DecodedParts(m: string)
    requires WellFormed(m)
    ensures var c := Decoded(m);
      && (0 <= Atoi(m[..FirstComma(m)]) < 256 ==> c.id == Atoi(m[..FirstComma(m)]))
      && c.text == m[FirstComma(m) + 1..LastComma(m)] && c.val == ToInt16(Atoi(ValueSeen(m)))
  {
    hide Atoi, FirstComma, LastComma, ValueSeen, ToInt16;
  }

  // What is read of the value, with the digit of the id that may follow it.
  lemma ValueReadIff(id: nat, val: int)
    requires id < 256 && -0x8000 <= val < 0x8000
    ensures var n := |Decimal(val)|;
      ToInt16(Atoi(Decimal(val) + if n < |Decimal(id)| then [Decimal(id)[n]] else "")) == val
      <==> |Decimal(id)| <= n || (val == 0 && Decimal(id)[1] == '0')
  {
    var n := |Decimal(val)|;
    if n < |Decimal(id)| {
      var d := Decimal(id)[n];
      IdDigits(id);
      AtoiDecimal(val, d);
      Shorter(id, val);
      hide Decimal, Atoi, Digits;
      ShiftedValue(val, DigitValue(d));
    } else {
      AtoiDecimal(val, '0');
      assert Decimal(val) + "" == Decimal(val);
      hide Decimal, Atoi, Digits;
    }
  }

  lemma ShiftedValue(val: int, d: nat)
    requires -10 < val < 100 && d < 10
    ensures ToInt16(if val < 0 then 10 * val - d else 10 * val + d) == val <==> val == 0 && d == 0
  {
  }

  lemma IdDigits(id: nat)
    ensures forall k | 0 <= k < |Decimal(id)| :: IsDigit(Decimal(id)[k])
  {
  }

  // A value with fewer characters than an id has at most two.
  lemma Shorter(id: nat, val: int)
    requires id < 256 && |Decimal(val)| < |Decimal(id)|
    ensures -10 < val < 100 && (val == 0 ==> |Decimal(val)| == 1)
  {
    DigitsLength(id);
    DigitsLength(if val < 0 then -val else val);
  }

  /** In particular every command with an id below 10 arrives unchanged. */
  lemma SmallIdsRoundTrip(id: nat, text: string, val: int)
    requires id < 10 && -0x8000 <= val < 0x8000 && NoNull(text) && |Encoded(id, text, val)| < MAX_CMD_LEN
    ensures WellFormed(Encoded(id, text, val)) && Decoded(Encoded(id, text, val)) == Content(id, text, val)
  {
    RoundTripIff(id, text, val);
    DigitsLength(id);
  }

  lemma LongId()
    ensures Decimal(255) == "255" && Decimal(1) == "1" && Encoded(255, "led", 1) == "255,led,1"
  {
    assert Digits(2) == "2";
    assert Digits(25) == "25";
    assert Digits(255) == "255";
  }

  /** "255,led,1" is read as the value 15. */
  lemma LongIdSpoilsValue()
    ensures WellFormed("255,led,1") && Decoded("255,led,1") == Content(255, "led", 15)
  {
    LongId();
    RoundTripIff(255, "led", 1);
    EncodedValueSeen(255, "led", 1);
    AtoiDecimal(1, '5');
    hide *;
    SpoiledValue("255,led,1");
  }

  lemma SpoiledValue(m: string)
    requires WellFormed(m) && ValueSeen(m) == "1" + ['5'] && Atoi("1" + ['5']) == 15
    ensures Decoded(m).val == 15
  {
    hide ValueSeen, WellFormed, Atoi;
  }

  // ---------- the program ----------

  class Command {
    var id: nat
    const cmd: array<char>
    var val: int

    constructor ()
      ensures cmd.Length == MAX_CMD_LEN && fresh(cmd)
    {
      id, val := 0, 0;
      cmd := new char[MAX_CMD_LEN];
    }
  }

  /** makeCommand() */
  method MakeCommand(strCmd: array<char>, id: nat, text: string, val: int)
    requires strCmd.Length == MAX_CMD_LEN && NoNull(text) && |Encoded(id, text, val)| < MAX_CMD_LEN
    modifies strCmd
    ensures Holds(strCmd, Encoded(id, text, val))
  {
    NoComma(id);
    NoComma(val);
    var idbuffer, valbuffer := Decimal(id), Decimal(val);
    assert NoNull(idbuffer) && NoNull(valbuffer);
    StrCpy(strCmd, idbuffer);
    StrCat(strCmd, idbuffer, ",");
    StrCat(strCmd, idbuffer + ",", text);
    StrCat(strCmd, idbuffer + "," + text, ",");
    StrCat(strCmd, idbuffer + "," + text + ",", valbuffer);
  }

  // The null-terminated string at the start of a buffer.
  function CString(buffer: seq<char>): string {
    if buffer == [] || buffer[0] == '\0' then "" else [buffer[0]] + CString(buffer[1..])
  }

  lemma {:induction false} CStringAt(buffer: seq<char>, s: string)
    requires |s| < |buffer| && buffer[..|s|] == s && buffer[|s|] == '\0' && NoNull(s)
    ensures CString(buffer) == s
  {
    if s != "" {
      assert buffer[0] == s[0];
      assert buffer[1..][..|s| - 1] == s[1..];
      CStringAt(buffer[1..], s[1..]);
    }
  }

  /** retreiveCommand() */
  method RetrieveCommand(cmd: Command, msg: array<char>, m: string)
    requires Holds(msg, m) && WellFormed(m) && cmd.cmd.Length == MAX_CMD_LEN && cmd.cmd != msg
    modifies cmd, cmd.cmd
    ensures cmd.id == Decoded(m).id && cmd.val == Decoded(m).val && Holds(cmd.cmd, Decoded(m).text)
  {
    var substr := new char[50](_ => '\0');
    var index1, index2 := FirstComma(m), LastComma(m);
    var idText := CopyId(substr, m, index1);
    cmd.id := ToUint8(Atoi(idText));
    var valText := CopyValue(substr, m, index2);
    cmd.val := ToInt16(Atoi(valText));
    StrNCpy(cmd.cmd, m[index1 + 1..], index2 - index1 - 1);
    cmd.cmd[index2 - index1 - 1] := '\0';
  }

  method CopyId(substr: array<char>, m: string, index1: nat) returns (idText: string)
    requires WellFormed(m) && index1 == FirstComma(m) && substr.Length == 50
    requires forall i | 0 <= i < 50 :: substr[i] == '\0'
    modifies substr
    ensures idText == m[..index1] && substr[..index1] == m[..index1]
    ensures forall i | index1 <= i < 50 :: substr[i] == '\0'
  {
    StrNCpy(substr, m, index1);
    assert substr[index1] == '\0';
    substr[index1 + 1] := '\0';
    CStringAt(substr[..], m[..index1]);
    idText := CString(substr[..]);
  }

  method CopyValue(substr: array<char>, m: string, index2: nat) returns (valText: string)
    requires WellFormed(m) && index2 == LastComma(m) && substr.Length == 50
    requires var index1 := FirstComma(m);
      substr[..index1] == m[..index1] && forall i | index1 <= i < 50 :: substr[i] == '\0'
    modifies substr
    ensures valText == ValueSeen(m)
  {
    hide FirstComma, LastComma, ValueSeen, CString;
    var n := |m| - index2 - 1;
    ghost var was := substr[..];
    assert was[n] == if n < FirstComma(m) then m[n] else '\0' by {
      if n < FirstComma(m) { assert was[n] == was[..FirstComma(m)][n] == m[..FirstComma(m)][n]; }
    }
    StrNCpy(substr, m[index2 + 1..], n);
    ghost var copied := substr[..];
    assert copied == m[index2 + 1..] + was[n..];
    substr[n + 1] := '\0';
    assert substr[..] == copied[n + 1 := '\0'];
    Overwritten(m[index2 + 1..], was, n);
    SubstrHolds(substr[..], m);
    valText := CString(substr[..]);
  }

  lemma Overwritten(value: string, was: string, n: nat)
    requires |value| == n && n + 1 < |was|
    ensures var now := (value + was[n..])[n + 1 := '\0'];
      now[..n] == value && now[n] == was[n] && now[n + 1] == '\0'
  {
  }

  lemma SubstrHolds(substr: seq<char>, m: string)
    requires WellFormed(m) && |substr| == 50
    requires var n := |m| - LastComma(m) - 1;
      && substr[..n] == m[LastComma(m) + 1..] && substr[n + 1] == '\0'
      && substr[n] == if n < FirstComma(m) then m[n] else '\0'
    ensures CString(substr) == ValueSeen(m)
  {
    var value := m[LastComma(m) + 1..];
    var extra := if |value| < FirstComma(m) then [m[|value|]] else "";
    assert ValueSeen(m) == value + extra;
    hide FirstComma, LastComma, CString, ValueSeen;
    TextAt(substr, value, extra);
  }

  // A text that a character may follow, and then a null byte.
  lemma TextAt(buffer: seq<char>, text: string, extra: string)
    requires |text| + 1 < |buffer| && |extra| <= 1 && buffer[..|text|] == text && buffer[|text| + 1] == '\0'
    requires buffer[|text|] == (if extra == "" then '\0' else extra[0]) && NoNull(text) && NoNull(extra)
    ensures CString(buffer) == text + extra
  {
    hide CString;
    if extra == "" {
      assert text + extra == text;
      CStringAt(buffer, text);
    } else {
      assert buffer[..|text| + 1] == text + extra;
      CStringAt(buffer, text + extra);
    }
  }
}
