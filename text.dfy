/**
 * The two pieces of Python string behaviour the pull-request URLs rely on:
 * `str.rstrip` with a single character, and the decimal rendering of an
 * `int` inside an f-string.
 */
module Text {

  /** The `min_length`/`max_length` constraint of a string field, in characters. */
  predicate LengthBetween(s: string, lo: nat, hi: nat) {
    lo <= |s| <= hi
  }

  /** Every character of `s` is `c`. */
  predicate AllAre(s: string, c: char) {
    forall i :: 0 <= i < |s| ==> s[i] == c
  }

  /** `s.rstrip(c)`: remove every trailing occurrence of `c`. */
  function RStrip(s: string, c: char): (r: string)
    ensures r <= s
    ensures AllAre(s[|r|..], c)
    ensures r == [] || r[|r| - 1] != c
  {
    if s != [] && s[|s| - 1] == c then RStrip(s[..|s| - 1], c) else s
  }

  /** The three properties of `RStrip` single it out: no other prefix has them. */
  lemma {:induction false} RStripIsUnique(s: string, c: char, t: string)
    requires t <= s
    requires AllAre(s[|t|..], c)
    requires t == [] || t[|t| - 1] != c
    ensures t == RStrip(s, c)
  {
    var r := RStrip(s, c);
    assert t == s[..|t|] && r == s[..|r|];
  }

  /** Stripping twice strips nothing more. */
  lemma RStripIdempotent(s: string, c: char)
    ensures RStrip(RStrip(s, c), c) == RStrip(s, c)
  {
  }

  predicate IsDigits(s: string) {
    forall i :: 0 <= i < |s| ==> '0' <= s[i] <= '9'
  }

  function DigitChar(d: nat): (ch: char)
    requires d < 10
    ensures '0' <= ch <= '9'
  {
    ('0' as int + d) as char
  }

  /** Decimal rendering of a natural number, without leading zeros. */
  function NatToString(n: nat): (r: string)
    ensures |r| >= 1 && IsDigits(r)
    ensures r[0] == '0' ==> n == 0
  {
    if n < 10 then [DigitChar(n)] else NatToString(n / 10) + [DigitChar(n % 10)]
  }

  /** Python's `str(i)` for an `int`: a minus sign for negative numbers. */
  function IntToString(i: int): string {
    if i < 0 then "-" + NatToString(-i) else NatToString(i)
  }

  /** Reads a string of decimal digits back as a number. */
  function ParseNat(s: string): nat
    requires IsDigits(s)
  {
    if s == [] then 0 else ParseNat(s[..|s| - 1]) * 10 + (s[|s| - 1] as int - '0' as int)
  }

  function ParseInt(s: string): int
    requires s != [] && (if s[0] == '-' then IsDigits(s[1..]) else IsDigits(s))
  {
    if s[0] == '-' then -(ParseNat(s[1..]) as int) else ParseNat(s)
  }

  lemma {:induction false} ParseNatToString(n: nat)
    ensures ParseNat(NatToString(n)) == n
  {
    if n >= 10 {
      var r := NatToString(n);
      assert r[..|r| - 1] == NatToString(n / 10);
      ParseNatToString(n / 10);
    }
  }

  /** The rendering of an `int` is a decimal numeral that reads back as the same `int`. */
  lemma IntToStringRoundTrip(i: int)
    ensures var r := IntToString(i);
      && r != [] && (if r[0] == '-' then IsDigits(r[1..]) else IsDigits(r))
      && ParseInt(r) == i
  {
    if i < 0 {
      assert IntToString(i)[1..] == NatToString(-i);
      ParseNatToString(-i);
    } else {
      ParseNatToString(i);
    }
  }
}
