/** Decimal numerals: Python's `str` and `int` on integers. */
module Numerals {
  import opened Prelude

  predicate Digit(c: char) {
    '0' <= c <= '9'
  }

  function Decimal(s: string, acc: nat): (r: (nat, string))
    ensures |r.1| <= |s|
  {
    if s != "" && Digit(s[0]) then Decimal(s[1..], 10 * acc + (s[0] as int - '0' as int)) else (acc, s)
  }

  function Digits(n: nat): string {
    if n < 10 then [(n + '0' as int) as char] else Digits(n / 10) + [(n % 10 + '0' as int) as char]
  }

  /** `str` of an integer. */
  function Str(n: int): string {
    if n < 0 then "-" + Digits(-n) else Digits(n)
  }

  /** The inverse of `str` on integers. */
  function ReadInt(s: string): Option<int> {
    if s != "" && s[0] == '-' then
      var (n: int, rest) := Decimal(s[1..], 0);
      if rest == "" && |s| > 1 then Some(0 - n) else None
    else
      var (n, rest) := Decimal(s, 0);
      if rest == "" && s != "" then Some(n) else None
  }

  lemma DecimalStops(s: string, acc: nat)
    requires s == "" || !Digit(s[0])
    ensures Decimal(s, acc) == (acc, s)
  {
  }

  lemma {:induction false} DecimalReads(n: nat, rest: string)
    ensures Decimal(Digits(n) + rest, 0) == Decimal(rest, n)
    ensures Digits(n) != "" && Digit(Digits(n)[0]) && forall i :: 0 <= i < |Digits(n)| ==> Digit(Digits(n)[i])
  {
    var last := [(n % 10 + '0' as int) as char];
    if n < 10 {
      assert (last + rest)[1..] == rest;
    } else {
      DecimalReads(n / 10, last + rest);
      assert Digits(n) + rest == Digits(n / 10) + (last + rest);
      assert (last + rest)[1..] == rest;
    }
  }

  lemma IntReadsBack(n: int)
    ensures ReadInt(Str(n)) == Some(n)
    ensures Str(n) != "" && forall i :: 0 <= i < |Str(n)| ==> Str(n)[i] == '-' || Digit(Str(n)[i])
  {
    var m := if n < 0 then -n else n;
    DecimalReads(m, "");
    assert Digits(m) + "" == Digits(m);
    if n < 0 {
      assert Str(n)[1..] == Digits(m);
    }
  }
}
