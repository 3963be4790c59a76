/** The pieces of Rust's `std::fmt` that the modelled `format!`/`write!`
    calls use: `{}` on integers, `{:x}`/`{:X}` hex digits and `{:>w}` /
    `{:0>w}` left padding. */
module Format {
  import opened Common

  predicate IsDigit(c: char) { '0' <= c <= '9' }

  predicate AllDigits(s: string) { forall i :: 0 <= i < |s| ==> IsDigit(s[i]) }

  function DigitChar(d: nat): (c: char)
    requires d < 10
    ensures IsDigit(c)
  {
    (d + '0' as int) as char
  }

  function DigitValue(c: char): (d: nat)
    requires IsDigit(c)
    ensures d < 10 && DigitChar(d) == c
  {
    c as int - '0' as int
  }

  /** `{}` on an unsigned integer: its decimal digits, most significant first. */
  function NatToString(n: nat): (s: string)
    ensures 1 <= |s| && AllDigits(s)
    ensures s[0] == '0' ==> n == 0
    decreases n
  {
    if n < 10 then [DigitChar(n)] else NatToString(n / 10) + [DigitChar(n % 10)]
  }

  /** `{}` on a signed integer: a minus sign before the magnitude. */
  function IntToString(i: int): (s: string)
    ensures i < 0 <==> (|s| > 0 && s[0] == '-')
  {
    if i < 0 then "-" + NatToString(-i) else NatToString(i)
  }

  /** The value of a string of decimal digits, most significant first. */
  function DecimalValue(s: string): nat
    requires AllDigits(s)
  {
    if s == [] then 0 else DecimalValue(s[..|s| - 1]) * 10 + DigitValue(s[|s| - 1])
  }

  /** Reading back what `{}` wrote gives the number: the decimal form is exact. */
  lemma {:induction false} NatToStringRoundTrip(n: nat)
    ensures DecimalValue(NatToString(n)) == n
    decreases n
  {
    var s := NatToString(n);
    if n >= 10 {
      NatToStringRoundTrip(n / 10);
      assert s[..|s| - 1] == NatToString(n / 10);
    }
  }

  /** Distinct numbers print differently. */
  lemma NatToStringInjective(m: nat, n: nat)
    requires NatToString(m) == NatToString(n)
    ensures m == n
  {
    NatToStringRoundTrip(m);
    NatToStringRoundTrip(n);
  }

  /** `{:>width$}` with fill character `fill`: right-aligns `s`. */
  function PadLeft(s: string, width: nat, fill: char): (r: string)
    ensures |r| == if |s| < width then width else |s|
    ensures r[|r| - |s|..] == s
    ensures forall i :: 0 <= i < |r| - |s| ==> r[i] == fill
  {
    if |s| < width then seq(width - |s|, _ => fill) + s else s
  }

  /** An upper-case hex digit: `0`-`9`, then `A`-`F`. */
  function HexDigitUpper(d: nat): (c: char)
    requires d < 16
    ensures d < 10 ==> c == DigitChar(d)
    ensures d >= 10 ==> 'A' <= c <= 'F' && c as int - 'A' as int == d - 10
  {
    if d < 10 then DigitChar(d) else (d - 10 + 'A' as int) as char
  }

  /** A lower-case hex digit: the upper-case digit, its letter lowered. */
  function HexDigitLower(d: nat): (c: char)
    requires d < 16
    ensures d < 10 ==> c == DigitChar(d)
    ensures d >= 10 ==> 'a' <= c <= 'f' && c as int - 'a' as int == d - 10
  {
    var u := HexDigitUpper(d);
    if 'A' <= u <= 'F' then (u as int + ('a' as int - 'A' as int)) as char else u
  }

  /** `{:X}` on an unsigned integer: upper-case hex digits, no leading zeros. */
  function UpperHex(n: nat): (s: string)
    ensures 1 <= |s|
    decreases n
  {
    if n < 16 then [HexDigitUpper(n)] else UpperHex(n / 16) + [HexDigitUpper(n % 16)]
  }

  /** `{:0>2X}` on a `u8` is always exactly two upper-case hex digits. */
  lemma PaddedUpperHexByte(b: byte)
    ensures PadLeft(UpperHex(b), 2, '0') == [HexDigitUpper(b / 16), HexDigitUpper(b % 16)]
  {
    if b >= 16 {
      assert UpperHex(b / 16) == [HexDigitUpper(b / 16)];
    }
  }

  /** `{:02x}` on one byte. */
  function LowerHexByte(b: byte): (s: string)
    ensures |s| == 2
  {
    [HexDigitLower(b / 16), HexDigitLower(b % 16)]
  }

  /** `{:x}` on a byte array (a digest): two lower-case hex digits per byte, in order. */
  function LowerHexBytes(bs: seq<byte>): (s: string)
    ensures |s| == 2 * |bs|
    ensures forall k :: 0 <= k < |bs| ==> s[2 * k..2 * k + 2] == LowerHexByte(bs[k])
  {
    if bs == [] then [] else LowerHexByte(bs[0]) + LowerHexBytes(bs[1..])
  }

  /** The text before and after the first `c`. */
  function SplitFirst(s: string, c: char): (r: Option<(string, string)>)
    ensures r.Some? ==> s == r.value.0 + [c] + r.value.1 && c !in r.value.0
    ensures r.None? <==> c !in s
    decreases |s|
  {
    if |s| == 0 then None
    else if s[0] == c then
      assert s == [] + [c] + s[1..];
      Some(([], s[1..]))
    else match SplitFirst(s[1..], c)
      case None => None
      case Some(p) =>
        assert s == ([s[0]] + p.0) + [c] + p.1;
        Some(([s[0]] + p.0, p.1))
  }

  lemma SplitFirstOf(a: string, c: char, b: string)
    requires c !in a
    ensures SplitFirst(a + [c] + b, c) == Some((a, b))
  {
    var s := a + [c] + b;
    assert s[|a|] == c;
    var r := SplitFirst(s, c);
    var a', b' := r.value.0, r.value.1;
    assert s[|a'|] == c;
    assert forall i :: 0 <= i < |a| ==> s[i] == a[i];
    assert forall i :: 0 <= i < |a'| ==> s[i] == a'[i];
    assert |a'| == |a|;
    assert a' == s[..|a'|] && a == s[..|a|];
    assert b' == s[|a'| + 1..] && b == s[|a| + 1..];
  }

  /** Reads back the text `{}` writes for a signed integer. */
  function ParseInt(s: string): Option<int>
  {
    if |s| > 1 && s[0] == '-' && AllDigits(s[1..]) then Some(-(DecimalValue(s[1..]) as int))
    else if |s| > 0 && AllDigits(s) then Some(DecimalValue(s))
    else None
  }

  /** `{}` on a signed integer loses nothing. */
  lemma IntToStringRoundTrip(i: int)
    ensures ParseInt(IntToString(i)) == Some(i)
  {
    var s := IntToString(i);
    if i < 0 {
      NatToStringRoundTrip(-i);
      assert s[1..] == NatToString(-i);
    } else {
      NatToStringRoundTrip(i);
    }
  }

  /** Only digits and a leading minus sign: never a `,` or a space. */
  lemma IntToStringChars(i: int)
    ensures ',' !in IntToString(i) && ' ' !in IntToString(i)
  {
    var s := IntToString(i);
    if i < 0 {
      var d := NatToString(-i);
      assert forall k :: 1 <= k < |s| ==> s[k] == d[k - 1];
    }
  }
}
