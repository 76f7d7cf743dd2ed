/** Null-terminated strings in arrays, and the functions of string.h that the modelled programs call. */
module CStrings {

  predicate NoNull(s: string) {
    forall i | 0 <= i < |s| :: s[i] != '\0'
  }

  // buffer holds the string s, null-terminated.
  ghost predicate Holds(buffer: array<char>, s: string)
    reads buffer
  {
    |s| < buffer.Length && buffer[..|s|] == s && buffer[|s|] == '\0' && NoNull(s)
  }

  method StrLen(buffer: array<char>, ghost s: string) returns (n: nat)
    requires Holds(buffer, s)
    ensures n == |s|
  {
    assert forall i | 0 <= i < |s| :: buffer[i] == s[i];
    n := 0;
    while buffer[n] != '\0'
      invariant n <= |s|
      decreases |s| - n
    {
      n := n + 1;
    }
  }

  method StrCat(buffer: array<char>, ghost s: string, t: string)
    requires Holds(buffer, s) && |s| + |t| < buffer.Length && NoNull(t)
    modifies buffer
    ensures Holds(buffer, s + t)
  {
    var n := StrLen(buffer, s);
    forall i | 0 <= i <= |t| {
      buffer[n + i] := if i < |t| then t[i] else '\0';
    }
  }

  method StrCpy(buffer: array<char>, t: string)
    requires |t| < buffer.Length && NoNull(t)
    modifies buffer
    ensures Holds(buffer, t)
  {
    forall i | 0 <= i <= |t| {
      buffer[i] := if i < |t| then t[i] else '\0';
    }
  }

  // strncpy() of count characters of t, which has at least so many: it adds no terminator.
  method StrNCpy(buffer: array<char>, t: string, count: nat)
    requires count <= |t| && count <= buffer.Length
    modifies buffer
    ensures buffer[..] == t[..count] + old(buffer[count..])
  {
    forall i | 0 <= i < count {
      buffer[i] := t[i];
    }
  }
}
