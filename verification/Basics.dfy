/** What several parts use: optional values, decimal numbers, and searching in texts. */
module Basics {

  datatype Option<+T> = None | Some(value: T)

  predicate EndsWith(s: string, part: string) {
    |s| >= |part| && s[|s| - |part|..] == part
  }

  /** Where a character stands first, from an index on: the length of the text when it does not. */
  function IndexFrom(s: string, c: char, i: nat): (k: nat)
    requires i <= |s|
    ensures i <= k <= |s| && (k < |s| ==> s[k] == c)
    ensures forall j :: i <= j < k ==> s[j] != c
    decreases |s| - i
  {
    if i == |s| || s[i] == c then i else IndexFrom(s, c, i + 1)
  }

  lemma IndexAfter(before: string, c: char, rest: string)
    requires c !in before
    ensures IndexFrom(before + [c] + rest, c, 0) == |before|
  {
    var s := before + [c] + rest;
    assert s[|before|] == c;
    assert forall i :: 0 <= i < |before| ==> s[i] == before[i];
  }

  function Digit(n: nat): char
    requires n < 10
  {
    "0123456789"[n]
  }

  function Decimal(n: nat): (s: string)
    ensures s != ""
  {
    if n < 10 then [Digit(n)] else Decimal(n / 10) + [Digit(n % 10)]
  }

  /** The number that the digits of a text stand for. */
  function Value(s: string): nat {
    if s == "" then 0
    else
      var c := s[|s| - 1];
      10 * Value(s[..|s| - 1]) + if '0' <= c <= '9' then c as int - '0' as int else 0
  }

  /** A decimal number is read back, and is written with digits only. */
  lemma {:induction false} DecimalReads(n: nat)
    ensures Value(Decimal(n)) == n
    ensures forall i :: 0 <= i < |Decimal(n)| ==> '0' <= Decimal(n)[i] <= '9'
  {
    ValueMore(if n < 10 then "" else Decimal(n / 10), n % 10);
    if n >= 10 {
      DecimalReads(n / 10);
    }
  }

  lemma ValueMore(s: string, d: nat)
    requires d < 10
    ensures Value(s + [Digit(d)]) == 10 * Value(s) + d && '0' <= Digit(d) <= '9'
  {
    assert (s + [Digit(d)])[..|s|] == s;
  }
}
