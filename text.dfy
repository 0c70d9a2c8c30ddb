/**
 * Character and string helpers shared by the Java services and the TypeScript
 * utilities: ASCII case mapping, trimming, searching, and decimal rendering.
 */
module Text {
  import opened Wrappers

  // ---------------------------------------------------------------- case

  function LowerChar(c: char): (r: char)
    ensures 'A' <= c <= 'Z' ==> r as int == c as int + 32
    ensures !('A' <= c <= 'Z') ==> r == c
  {
    if 'A' <= c <= 'Z' then (c as int + 32) as char else c
  }

  function UpperChar(c: char): (r: char)
    ensures 'a' <= c <= 'z' ==> r as int == c as int - 32
    ensures !('a' <= c <= 'z') ==> r == c
  {
    if 'a' <= c <= 'z' then (c as int - 32) as char else c
  }

  /** ASCII lower-casing, the model of SQL `lower()` and Java `toLowerCase()`. */
  function Lower(s: string): (r: string)
    ensures |r| == |s|
    ensures forall i :: 0 <= i < |s| ==> r[i] == LowerChar(s[i])
  {
    if s == [] then [] else [LowerChar(s[0])] + Lower(s[1..])
  }

  /** ASCII upper-casing, the model of JavaScript `toUpperCase()`. */
  function Upper(s: string): (r: string)
    ensures |r| == |s|
    ensures forall i :: 0 <= i < |s| ==> r[i] == UpperChar(s[i])
  {
    if s == [] then [] else [UpperChar(s[0])] + Upper(s[1..])
  }

  lemma LowerIdempotent(s: string)
    ensures Lower(Lower(s)) == Lower(s)
  {
  }

  // ---------------------------------------------------------------- trimming

  /** Java `String.trim` strips every character at or below U+0020. */
  predicate JavaTrimmed(c: char) { c <= ' ' }

  /** Whitespace as JavaScript `String.prototype.trim` sees it (by code point). */
  predicate JsSpace(c: char)
  {
    var n := c as int;
    (9 <= n <= 13) || n == 32 || n == 0xA0 || n == 0x1680 || (0x2000 <= n <= 0x200A)
    || n == 0x2028 || n == 0x2029 || n == 0x202F || n == 0x205F || n == 0x3000 || n == 0xFEFF
  }

  /** Whitespace as Java `Character.isWhitespace` sees it (used by `isBlank`). */
  predicate JavaSpace(c: char)
  {
    var n := c as int;
    (9 <= n <= 13) || (0x1C <= n <= 0x1F) || n == 32 || n == 0x1680
    || (0x2000 <= n <= 0x2006) || (0x2008 <= n <= 0x200A)
    || n == 0x2028 || n == 0x2029 || n == 0x205F || n == 0x3000
  }

  /** Java `String.isBlank`: empty or only whitespace. */
  predicate IsBlank(s: string)
  {
    forall i :: 0 <= i < |s| ==> JavaSpace(s[i])
  }

  function TrimStart(s: string, space: char -> bool): (r: string)
    ensures |r| <= |s| && r == s[|s| - |r|..]
    ensures r != [] ==> !space(r[0])
    ensures forall i :: 0 <= i < |s| - |r| ==> space(s[i])
  {
    if s != [] && space(s[0]) then
      var t := s[1..];
      var r := TrimStart(t, space);
      assert t[|t| - |r|..] == s[|s| - |r|..];
      assert forall i :: 1 <= i < |s| - |r| ==> s[i] == t[i - 1];
      r
    else
      s
  }

  function TrimEnd(s: string, space: char -> bool): (r: string)
    ensures |r| <= |s| && r == s[..|r|]
    ensures r != [] ==> !space(r[|r| - 1])
    ensures forall i :: |r| <= i < |s| ==> space(s[i])
  {
    if s != [] && space(s[|s| - 1]) then
      var t := s[..|s| - 1];
      var r := TrimEnd(t, space);
      assert t[..|r|] == s[..|r|];
      assert forall i :: |r| <= i < |t| ==> s[i] == t[i];
      r
    else
      s
  }

  /**
   * Removes the leading and trailing characters that `space` accepts: the
   * result sits in `s` with only such characters before and after it, and it
   * neither starts nor ends with one, so nothing more could be removed.
   */
  function Trim(s: string, space: char -> bool): (r: string)
    ensures |r| <= |s| && Contains(s, r)
    ensures r != [] ==> !space(r[0]) && !space(r[|r| - 1])
    ensures exists a :: OccursAt(s, r, a) && TrimmedAround(s, a, a + |r|, space)
  {
    var t := TrimStart(s, space);
    var r := TrimEnd(t, space);
    TrimSits(s, t, r, space);
    r
  }

  /** A front part `r` of a tail `t` of `s`, with only `space` characters cut off around it, sits in `s`. */
  lemma TrimSits(s: string, t: string, r: string, space: char -> bool)
    requires |t| <= |s| && t == s[|s| - |t|..] && forall i :: 0 <= i < |s| - |t| ==> space(s[i])
    requires |r| <= |t| && r == t[..|r|] && forall i :: |r| <= i < |t| ==> space(t[i])
    ensures OccursAt(s, r, |s| - |t|) && TrimmedAround(s, |s| - |t|, |s| - |t| + |r|, space)
  {
    var a := |s| - |t|;
    assert s[a..a + |r|] == t[..|r|];
    assert forall i :: a + |r| <= i < |s| ==> s[i] == t[i - a];
  }

  /** Every character of `s` outside positions `lo` to `hi` is one `space` accepts. */
  predicate TrimmedAround(s: string, lo: int, hi: int, space: char -> bool)
  {
    (forall i :: 0 <= i < lo && i < |s| ==> space(s[i]))
    && (forall i :: 0 <= hi <= i < |s| ==> space(s[i]))
  }

  /** A text that neither starts nor ends with white space is its own trimming. */
  lemma TrimUntouched(s: string, space: char -> bool)
    requires s != [] && !space(s[0]) && !space(s[|s| - 1])
    ensures Trim(s, space) == s
  {
    var t := Trim(s, space);
    var a :| OccursAt(s, t, a) && TrimmedAround(s, a, a + |t|, space);
    assert a == 0 && a + |t| == |s|;
    assert s[0..|s|] == s;
  }

  /** Trimming removes exactly the surrounding white space: an all-space text trims to nothing. */
  lemma TrimAllSpace(s: string, space: char -> bool)
    requires forall i :: 0 <= i < |s| ==> space(s[i])
    ensures Trim(s, space) == []
  {
  }

  // ---------------------------------------------------------------- searching

  /** The substring `t` occurs in `s` at position `k`. */
  predicate OccursAt(s: string, t: string, k: int)
  {
    0 <= k && k + |t| <= |s| && s[k..k + |t|] == t
  }

  /** Java/JavaScript `indexOf`: the first position of `t` in `s`, or -1. */
  function IndexOf(s: string, t: string): (r: int)
    ensures -1 <= r <= |s|
    ensures r == -1 <==> forall k :: 0 <= k <= |s| ==> !OccursAt(s, t, k)
    ensures r >= 0 ==> OccursAt(s, t, r) && forall k :: 0 <= k < r ==> !OccursAt(s, t, k)
  {
    IndexFrom(s, t, 0)
  }

  function IndexFrom(s: string, t: string, from: nat): (r: int)
    requires from <= |s| + 1
    ensures -1 <= r <= |s|
    ensures r == -1 <==> forall k :: from <= k <= |s| ==> !OccursAt(s, t, k)
    ensures r >= 0 ==> from <= r && OccursAt(s, t, r) && forall k :: from <= k < r ==> !OccursAt(s, t, k)
    decreases |s| + 1 - from
  {
    if from + |t| > |s| then
      assert forall k :: from <= k <= |s| ==> !OccursAt(s, t, k);
      -1
    else if s[from..from + |t|] == t then
      assert OccursAt(s, t, from);
      from
    else IndexFrom(s, t, from + 1)
  }

  /** `s.startsWith(p)` */
  predicate StartsWith(s: string, p: string)
  {
    |p| <= |s| && s[..|p|] == p
  }

  /** `s.contains(t)` */
  predicate Contains(s: string, t: string)
  {
    exists k :: 0 <= k <= |s| && OccursAt(s, t, k)
  }

  // ---------------------------------------------------------------- decimals

  function DigitChar(d: nat): (c: char)
    requires d < 10
    ensures '0' <= c <= '9'
  {
    ('0' as int + d) as char
  }

  function DigitValue(c: char): (d: nat)
    requires '0' <= c <= '9'
    ensures d < 10 && DigitChar(d) == c
  {
    c as int - '0' as int
  }

  predicate AllDigits(s: string)
  {
    forall i :: 0 <= i < |s| ==> '0' <= s[i] <= '9'
  }

  /** The shortest decimal rendering of `n` (Java `Long.toString`, `%d`). */
  function NatToString(n: nat): (r: string)
    ensures |r| >= 1 && AllDigits(r)
    ensures |r| > 1 ==> r[0] != '0'
    decreases n
  {
    if n < 10 then [DigitChar(n)] else NatToString(n / 10) + [DigitChar(n % 10)]
  }

  /** The decimal rendering of a possibly negative integer. */
  function IntToString(i: int): (r: string)
    ensures i < 0 ==> |r| >= 2 && r[0] == '-' && AllDigits(r[1..])
    ensures i >= 0 ==> AllDigits(r)
  {
    if i < 0 then "-" + NatToString(-i) else NatToString(i)
  }

  /** The number a string of decimal digits denotes (leading zeros allowed). */
  function DigitsValue(s: string): nat
    requires AllDigits(s)
  {
    if s == [] then 0 else DigitsValue(s[..|s| - 1]) * 10 + DigitValue(s[|s| - 1])
  }

  /** Parses a non-empty string of decimal digits; anything else is rejected. */
  function ParseNat(s: string): (r: Option<nat>)
    ensures r.Some? <==> s != [] && AllDigits(s)
  {
    if s != [] && AllDigits(s) then Some(DigitsValue(s)) else None
  }

  lemma {:induction false} DigitsValueOfNatToString(n: nat)
    ensures DigitsValue(NatToString(n)) == n
    decreases n
  {
    var r := NatToString(n);
    if n >= 10 {
      DigitsValueOfNatToString(n / 10);
      assert r[..|r| - 1] == NatToString(n / 10);
    }
  }

  /** Rendering a natural number and parsing it back gives the number. */
  lemma ParseNatToString(n: nat)
    ensures ParseNat(NatToString(n)) == Some(n)
  {
    DigitsValueOfNatToString(n);
  }

  /** Distinct numbers are written differently. */
  lemma NatToStringInjective(a: nat, b: nat)
    requires a != b
    ensures NatToString(a) != NatToString(b)
  {
    ParseNatToString(a);
    ParseNatToString(b);
  }

  /** A common prefix keeps distinct texts distinct. */
  lemma PrefixKeepsDistinct(p: string, s: string, t: string)
    requires s != t
    ensures p + s != p + t
  {
    assert (p + s)[|p|..] == s;
    assert (p + t)[|p|..] == t;
  }

  /** Distinct integers, signs included, are written differently. */
  lemma IntToStringInjective(a: int, b: int)
    requires a != b
    ensures IntToString(a) != IntToString(b)
  {
    if a >= 0 && b >= 0 {
      NatToStringInjective(a, b);
    } else if a < 0 && b < 0 {
      NatToStringInjective(-a, -b);
      PrefixKeepsDistinct("-", NatToString(-a), NatToString(-b));
    } else {
      assert IntToString(a)[0] != IntToString(b)[0];
    }
  }

  lemma {:induction false} DigitsValueLeadingZeros(z: string, s: string)
    requires forall i :: 0 <= i < |z| ==> z[i] == '0'
    requires AllDigits(s)
    ensures AllDigits(z + s) && DigitsValue(z + s) == DigitsValue(s)
    decreases |s|
  {
    if s == [] {
      assert z + s == z;
      ZerosValue(z);
    } else {
      var w := z + s;
      assert w[..|w| - 1] == z + s[..|s| - 1];
      DigitsValueLeadingZeros(z, s[..|s| - 1]);
    }
  }

  lemma {:induction false} ZerosValue(z: string)
    requires forall i :: 0 <= i < |z| ==> z[i] == '0'
    ensures AllDigits(z) && DigitsValue(z) == 0
    decreases |z|
  {
    if z != [] {
      ZerosValue(z[..|z| - 1]);
    }
  }

  function Zeros(k: nat): (r: string)
    ensures |r| == k && forall i :: 0 <= i < k ==> r[i] == '0'
  {
    if k == 0 then [] else Zeros(k - 1) + ['0']
  }

  /** Left-pads with zeros to at least `width` characters. */
  function PadZeros(s: string, width: nat): (r: string)
    ensures |r| == if |s| >= width then |s| else width
    ensures |s| >= width ==> r == s
    ensures r[|r| - |s|..] == s
    ensures forall i :: 0 <= i < |r| - |s| ==> r[i] == '0'
  {
    if |s| >= width then s else Zeros(width - |s|) + s
  }

  /**
   * Java `String.format("%0wd", i)`: zero-padded to at least `width` characters,
   * counting the minus sign of a negative number.
   */
  function FormatZeroPadded(i: int, width: nat): (r: string)
    ensures i >= 0 ==> AllDigits(r) && |r| >= width && |r| >= |NatToString(i)|
    ensures i >= 0 ==> ParseNat(r) == Some(i)
    ensures i >= 0 && |NatToString(i)| >= width ==> r == NatToString(i)
    ensures i >= 0 && |NatToString(i)| < width ==> |r| == width
    ensures i < 0 ==> |r| >= width && |r| >= 2 && r[0] == '-'
  {
    if i >= 0 then
      PaddedValue(i, width);
      PadZeros(NatToString(i), width)
    else "-" + PadZeros(NatToString(-i), if width >= 1 then width - 1 else 0)
  }

  lemma PaddedValue(n: nat, width: nat)
    ensures AllDigits(PadZeros(NatToString(n), width)) && DigitsValue(PadZeros(NatToString(n), width)) == n
  {
    var d := NatToString(n);
    var r := PadZeros(d, width);
    DigitsValueOfNatToString(n);
    assert r == r[..|r| - |d|] + d;
    DigitsValueLeadingZeros(r[..|r| - |d|], d);
  }

  /** Numbers below 1000 take at most three digits; from 1000 on, at least four. */
  lemma ThreeDigits(n: nat)
    ensures n < 1000 <==> |NatToString(n)| <= 3
  {
    if n >= 10 {
      var m := n / 10;
      assert |NatToString(n)| == |NatToString(m)| + 1;
      if m >= 10 {
        var q := m / 10;
        assert |NatToString(m)| == |NatToString(q)| + 1;
        if q >= 10 {
          assert |NatToString(q)| == |NatToString(q / 10)| + 1;
          assert n >= 1000;
        } else {
          assert n < 1000;
        }
      }
    }
  }
}
