/** What several of the models need. */
module Prelude {

  datatype Option<T> = None | Some(value: T)

  function One(b: bool): nat {
    if b then 1 else 0
  }

  // Two sets that differ at most in i.
  lemma OneApart<T>(a: set<T>, b: set<T>, i: T)
    requires a - {i} == b - {i}
    ensures |a| + One(i in b) == |b| + One(i in a)
  {
    var rest := a - {i};
    assert a == if i in a then rest + {i} else rest;
    assert b == if i in b then rest + {i} else rest;
  }

  lemma AtMostOne<T>(a: set<T>, i: T, j: T)
    requires |a| <= 1 && i in a && j in a
    ensures i == j
  {
    var rest := a - {i};
    assert |rest| == 0;
    assert j !in rest;
  }

  // ---------- decimal digits ----------

  predicate IsDigit(c: char) {
    '0' <= c <= '9'
  }

  function DigitValue(c: char): (d: nat)
    requires IsDigit(c)
    ensures d < 10
  {
    c as int - '0' as int
  }

  function Digit(d: nat): (c: char)
    requires d < 10
    ensures IsDigit(c) && DigitValue(c) == d
  {
    '0' + d as char
  }
}
