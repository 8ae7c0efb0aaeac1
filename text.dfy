/**
 * Character and string helpers shared by the components: decimal
 * rendering as JavaScript's `String(n)` and `padStart` do it, decimal
 * parsing (the inverse used to state round trips), ASCII lower-casing
 * and the substring test of `String.prototype.includes`.
 */
module Text {

  predicate IsDigit(c: char) {
    '0' <= c <= '9'
  }

  predicate AllDigits(s: string) {
    forall i :: 0 <= i < |s| ==> IsDigit(s[i])
  }

  function DigitValue(c: char): (v: int)
    requires IsDigit(c)
    ensures 0 <= v < 10
  {
    c as int - '0' as int
  }

  function DigitChar(d: int): (c: char)
    requires 0 <= d < 10
    ensures IsDigit(c) && DigitValue(c) == d
  {
    ('0' as int + d) as char
  }

  /** Decimal digits of a natural number, without leading zeros (`String(n)` for n >= 0). */
  function NatToString(n: nat): (s: string)
    ensures 1 <= |s| && AllDigits(s)
    ensures |s| > 1 ==> s[0] != '0'
    decreases n
  {
    if n < 10 then [DigitChar(n)] else NatToString(n / 10) + [DigitChar(n % 10)]
  }

  /** `String(n)` for any integer: a minus sign, then the digits of the magnitude. */
  function IntToString(n: int): (s: string)
    ensures n >= 0 ==> s == NatToString(n)
    ensures n < 0 ==> s == "-" + NatToString(-n)
  {
    if n < 0 then "-" + NatToString(-n) else NatToString(n)
  }

  /** The value of a string of decimal digits (leading zeros allowed). */
  function ParseNat(s: string): nat
    requires AllDigits(s)
    decreases |s|
  {
    if s == [] then 0 else 10 * ParseNat(s[..|s| - 1]) + DigitValue(s[|s| - 1])
  }

  /** Parsing undoes printing: `NatToString` is injective and `ParseNat` is its left inverse. */
  lemma {:induction false} ParseNatToString(n: nat)
    ensures ParseNat(NatToString(n)) == n
    decreases n
  {
    if n >= 10 {
      ParseNatToString(n / 10);
      var s := NatToString(n);
      assert s[..|s| - 1] == NatToString(n / 10);
    }
  }

  function Pow10(n: nat): nat
  {
    if n == 0 then 1 else 10 * Pow10(n - 1)
  }

  /** A string of `k` digits reads as a number below 10^k. */
  lemma {:induction false} ParseNatBelow(s: string)
    requires AllDigits(s)
    ensures ParseNat(s) < Pow10(|s|)
    decreases |s|
  {
    if s != [] {
      ParseNatBelow(s[..|s| - 1]);
    }
  }

  /** A digit string without a leading zero is the printed form of its value. */
  lemma {:induction false} NatToStringParse(s: string)
    requires 1 <= |s| && AllDigits(s) && (|s| > 1 ==> s[0] != '0')
    ensures NatToString(ParseNat(s)) == s
    decreases |s|
  {
    var p, c := s[..|s| - 1], s[|s| - 1];
    if |s| == 1 {
      assert s == [c];
    } else {
      assert AllDigits(p);
      NatToStringParse(p);
      ParseNatAtLeastOne(p);
      var n := ParseNat(s);
      assert n == 10 * ParseNat(p) + DigitValue(c);
      assert n / 10 == ParseNat(p) && n % 10 == DigitValue(c);
      assert s == p + [c];
    }
  }

  /** A digit string that starts with a non-zero digit has a positive value. */
  lemma {:induction false} ParseNatAtLeastOne(s: string)
    requires 1 <= |s| && AllDigits(s) && s[0] != '0'
    ensures ParseNat(s) >= 1
    decreases |s|
  {
    if |s| > 1 {
      ParseNatAtLeastOne(s[..|s| - 1]);
    }
  }

  /** How many digits `NatToString` prints for numbers below 10000. */
  lemma NatToStringWidth(n: nat)
    ensures n < 10 ==> |NatToString(n)| == 1
    ensures 10 <= n < 100 ==> |NatToString(n)| == 2
    ensures 100 <= n < 1000 ==> |NatToString(n)| == 3
    ensures 1000 <= n < 10000 ==> |NatToString(n)| == 4
  {
    if n >= 10 {
      NatToStringWidth(n / 10);
    }
  }

  /** `s.padStart(width, fill)`: prefix copies of `fill` until the length reaches `width`. */
  function PadStart(s: string, width: nat, fill: char): (r: string)
    ensures |r| == if |s| >= width then |s| else width
    ensures r[|r| - |s|..] == s
    ensures forall i :: 0 <= i < |r| - |s| ==> r[i] == fill
  {
    if |s| >= width then s else seq(width - |s|, _ => fill) + s
  }

  /** `String(n).padStart(2, '0')`, the two-digit field of dates and times. */
  function Pad2(n: int): string
  {
    PadStart(IntToString(n), 2, '0')
  }

  /** For 0 <= n < 100 the two-digit field is exactly two digits and reads back as n. */
  lemma Pad2Spec(n: int)
    requires 0 <= n < 100
    ensures |Pad2(n)| == 2 && AllDigits(Pad2(n)) && ParseNat(Pad2(n)) == n
  {
    NatToStringWidth(n);
    ParseNatToString(n);
    var s := NatToString(n);
    if n < 10 {
      assert Pad2(n) == ['0'] + s;
      assert Pad2(n)[..1] == ['0'];
    } else {
      assert Pad2(n) == s;
    }
  }

  /** Every two-digit string is the two-digit field of its value. */
  lemma Pad2Parse(t: string)
    requires |t| == 2 && AllDigits(t)
    ensures Pad2(ParseNat(t)) == t
  {
    var n := ParseNat(t);
    assert t[..1] == [t[0]];
    if t[0] == '0' {
      NatToStringParse([t[1]]);
      assert t[..1][..0] == [] && [t[1]][..0] == [];
      assert ParseNat(t[..1]) == 0;
      assert n == ParseNat([t[1]]);
      assert t == ['0'] + [t[1]];
    } else {
      NatToStringParse(t);
      ParseNatAtLeastOne(t);
      NatToStringWidth(n);
    }
  }

  /** ASCII-only lower-casing of one character. */
  function LowerChar(c: char): char
  {
    if 'A' <= c <= 'Z' then (c as int + 32) as char else c
  }

  /** `s.toLowerCase()`, restricted to ASCII letters. */
  function ToLower(s: string): (r: string)
    ensures |r| == |s|
    ensures forall i :: 0 <= i < |r| ==> !('A' <= r[i] <= 'Z')
    ensures forall i :: 0 <= i < |s| && 'A' <= s[i] <= 'Z' ==> r[i] == (s[i] as int + 32) as char
    ensures forall i :: 0 <= i < |s| && !('A' <= s[i] <= 'Z') ==> r[i] == s[i]
  {
    seq(|s|, i requires 0 <= i < |s| => LowerChar(s[i]))
  }

  /** Lower-casing leaves a character that is not an upper-case letter where it was, and creates no new one. */
  lemma LowerKeeps(s: string, c: char)
    requires !('A' <= c <= 'Z') && !('a' <= c <= 'z')
    ensures c in ToLower(s) <==> c in s
  {
    var r := ToLower(s);
    if c in r {
      var i :| 0 <= i < |r| && r[i] == c;
      assert s[i] == c;
    }
    if c in s {
      var i :| 0 <= i < |s| && s[i] == c;
      assert r[i] == c;
    }
  }

  /** `hay.includes(needle)`: `needle` occurs as a contiguous block of `hay`. */
  predicate Contains(hay: string, needle: string) {
    exists i :: 0 <= i <= |hay| && OccursAt(hay, needle, i)
  }

  /** `needle` occurs in `hay` starting at index `i`. */
  predicate OccursAt(hay: string, needle: string, i: int) {
    0 <= i <= |hay| - |needle| && hay[i..i + |needle|] == needle
  }

  /** The empty string occurs in every string. */
  lemma ContainsEmpty(hay: string)
    ensures Contains(hay, "")
  {
    assert OccursAt(hay, "", 0);
  }

  /** Every character of an occurring block is a character of the whole string. */
  lemma ContainsChar(hay: string, needle: string, c: char)
    requires Contains(hay, needle) && c in needle
    ensures c in hay
  {
    var i :| 0 <= i <= |hay| && OccursAt(hay, needle, i);
    var j :| 0 <= j < |needle| && needle[j] == c;
    assert hay[i..i + |needle|][j] == c;
  }
}
