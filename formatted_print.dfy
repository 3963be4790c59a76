/** The `Display` and `UpperHex` implementations of rbe/chp01/src/print.rs.
    Writes into the formatter are taken not to fail; the `Complex`
    formatter (floating point) is not modelled. */
module FormattedPrint {
  import opened Common
  import Format

  // ---------------------------------------------------------------------
  // DispalyPrintable and MinMax

  /** `Display for DispalyPrintable`: the decimal form of the number,
      from which the number can be read back. */
  function DisplayPrintable(n: i32): (s: string)
    ensures Format.ParseInt(s) == Some(n as int)
  {
    Format.IntToStringRoundTrip(n);
    Format.IntToString(n)
  }

  datatype MinMax = MinMax(0: i64, 1: i64)

  /** `Display for MinMax`: `(a, b)`. */
  function DisplayMinMax(m: MinMax): (s: string)
    ensures |s| >= 6 && s[0] == '(' && s[|s| - 1] == ')'
  {
    "(" + Format.IntToString(m.0) + ", " + Format.IntToString(m.1) + ")"
  }

  /** Reads a pair written as `(a, b)`. */
  function ParseMinMax(s: string): Option<(int, int)>
  {
    if |s| < 2 || s[0] != '(' || s[|s| - 1] != ')' then None
    else match Format.SplitFirst(s[1..|s| - 1], ',')
      case None => None
      case Some(p) =>
        if |p.1| == 0 || p.1[0] != ' ' then None
        else match (Format.ParseInt(p.0), Format.ParseInt(p.1[1..]))
          case (Some(a), Some(b)) => Some((a, b))
          case _ => None
  }

  /** Both numbers can be read back from the text, so distinct pairs
      display differently. */
  lemma MinMaxRoundTrip(m: MinMax)
    ensures ParseMinMax(DisplayMinMax(m)) == Some((m.0 as int, m.1 as int))
  {
    var a, b := Format.IntToString(m.0), Format.IntToString(m.1);
    var s := DisplayMinMax(m);
    assert s[1..|s| - 1] == a + [','] + (" " + b);
    Format.IntToStringChars(m.0);
    Format.SplitFirstOf(a, ',', " " + b);
    assert (" " + b)[1..] == b;
    Format.IntToStringRoundTrip(m.0);
    Format.IntToStringRoundTrip(m.1);
  }

  // ---------------------------------------------------------------------
  // List

  /** One entry of the list: `i: n`. */
  function Entry(i: nat, n: int): string
  {
    Format.NatToString(i) + ": " + Format.IntToString(n)
  }

  /** The entries of a list, one per element, in index order. */
  function Rendered(v: seq<int>): (es: seq<string>)
    ensures |es| == |v|
    ensures forall k :: 0 <= k < |v| ==> es[k] == Entry(k, v[k])
  {
    seq(|v|, k requires 0 <= k < |v| => Entry(k, v[k]))
  }

  /** What goes before the entry at position i. */
  function Separator(i: nat): string
  {
    if i == 0 then "" else ", "
  }

  /** The entries from position i to the end, each after its separator. */
  function JoinedFrom(es: seq<string>, i: nat): string
    requires i <= |es|
    decreases |es| - i
  {
    if i == |es| then "" else Separator(i) + es[i] + JoinedFrom(es, i + 1)
  }

  /** The text of a list: `[`, the entries joined by `, `, `]`. */
  function ListText(v: seq<int>): string
  {
    "[" + JoinedFrom(Rendered(v), 0) + "]"
  }

  /** `Display for List`: writes `[`, then for each element, in index
      order, a separator (except before the first) and the entry, then `]`. */
  method FmtList(v: seq<i32>) returns (s: string)
    ensures s == ListText(v)
  {
    ghost var es := Rendered(v);
    s := "[";
    var i := 0;
    while i < |v|
      invariant 0 <= i <= |v|
      invariant s + JoinedFrom(es, i) == "[" + JoinedFrom(es, 0)
    {
      ghost var before := s;
      if i != 0 {
        s := s + ", ";
      }
      s := s + Entry(i, v[i]);
      assert s == before + Separator(i) + es[i];
      JoinedStep(before, es, i);
      i := i + 1;
    }
    s := s + "]";
  }

  /** Writing the entry at position i moves it from the pending text to the written one. */
  lemma JoinedStep(s: string, es: seq<string>, i: nat)
    requires i < |es|
    ensures s + Separator(i) + es[i] + JoinedFrom(es, i + 1) == s + JoinedFrom(es, i)
  {
    Associate(s, Separator(i), es[i], JoinedFrom(es, i + 1));
  }

  lemma Associate(s: string, a: string, b: string, c: string)
    ensures s + a + b + c == s + (a + b + c)
  {
  }

  /** An empty list displays as `[]`. */
  lemma EmptyList()
    ensures ListText([]) == "[]"
  {
  }

  /** One more element renders one more entry, at the end. */
  lemma RenderedSnoc(v: seq<int>, x: int)
    ensures Rendered(v + [x]) == Rendered(v) + [Entry(|v|, x)]
  {
  }

  lemma {:induction false} JoinedFromSnoc(es: seq<string>, e: string, i: nat)
    requires i <= |es|
    ensures JoinedFrom(es + [e], i) == JoinedFrom(es, i) + Separator(|es|) + e
    decreases |es| - i
  {
    var w := es + [e];
    if i == |es| {
      assert JoinedFrom(w, i + 1) == "";
    } else {
      JoinedFromSnoc(es, e, i + 1);
      assert w[i] == es[i];
    }
  }

  /** One more element adds exactly one entry, numbered with its index,
      at the end: the entries are in index order, one per element. */
  lemma ListTextSnoc(v: seq<int>, x: int)
    ensures var t := ListText(v);
            ListText(v + [x]) == t[..|t| - 1] + Separator(|v|) + Entry(|v|, x) + "]"
  {
    var es, e := Rendered(v), Entry(|v|, x);
    var joined, sep := JoinedFrom(es, 0), Separator(|v|);
    RenderedSnoc(v, x);
    JoinedFromSnoc(es, e, 0);
    var t := ListText(v);
    assert t == ("[" + joined) + "]";
    assert t[..|t| - 1] == "[" + joined;
    assert ListText(v + [x]) == "[" + (joined + sep + e) + "]";
    Associate("[", joined, sep, e);
  }

  /** The list of `print_plg`. */
  lemma ListExample()
    ensures ListText([5, 2, 3]) == "[0: 5, 1: 2, 2: 3]"
  {
    RenderedExample();
    JoinedExample();
  }

  lemma RenderedExample()
    ensures Rendered([5, 2, 3]) == ["0: 5", "1: 2", "2: 3"]
  {
    SmallEntry(0, 5);
    SmallEntry(1, 2);
    SmallEntry(2, 3);
  }

  lemma JoinedExample()
    ensures JoinedFrom(["0: 5", "1: 2", "2: 3"], 0) == "0: 5, 1: 2, 2: 3"
  {
    var es := ["0: 5", "1: 2", "2: 3"];
    assert JoinedFrom(es, 2) == ", 2: 3";
    assert JoinedFrom(es, 1) == ", 1: 2, 2: 3";
  }

  /** An entry whose index and value are single digits. */
  lemma SmallEntry(i: nat, n: nat)
    requires i < 10 && n < 10
    ensures Entry(i, n) == [Format.DigitChar(i), ':', ' ', Format.DigitChar(n)]
  {
    assert Format.IntToString(n) == Format.NatToString(n);
  }

  // ---------------------------------------------------------------------
  // Color

  datatype Color = Color(red: byte, green: byte, blue: byte)

  /** A `u8` has at most three decimal digits. */
  lemma ByteDigits(b: byte)
    ensures 1 <= |Format.NatToString(b)| <= 3
  {
    if b >= 10 {
      assert |Format.NatToString(b / 10)| <= 2 by {
        if b / 10 >= 10 {
          assert Format.NatToString(b / 10 / 10) == [Format.DigitChar(b / 10 / 10)];
        }
      }
    }
  }

  /** `{:>3}` on a `u8`: exactly three characters. */
  function Padded3(b: byte): (s: string)
    ensures |s| == 3
  {
    ByteDigits(b);
    Format.PadLeft(Format.NatToString(b), 3, ' ')
  }

  /** `Display for Color`: `RGB (r, g, b)` with each component
      right-aligned in three columns, so always 19 characters. */
  function DisplayColor(c: Color): (s: string)
    ensures |s| == 19
    ensures s[..5] == "RGB (" && s[8..10] == ", " && s[13..15] == ", " && s[18] == ')'
  {
    var x, y, z := Padded3(c.red), Padded3(c.green), Padded3(c.blue);
    DisplayColumns(x, y, z);
    "RGB (" + x + ", " + y + ", " + z + ")"
  }

  /** The three columns of a `Display` text sit at fixed offsets between
      the fixed parts. */
  lemma DisplayColumns(x: string, y: string, z: string)
    requires |x| == 3 && |y| == 3 && |z| == 3
    ensures var s := "RGB (" + x + ", " + y + ", " + z + ")";
            && |s| == 19 && s[5..8] == x && s[10..13] == y && s[15..18] == z
            && s[..5] == "RGB (" && s[8..10] == ", " && s[13..15] == ", " && s[18] == ')'
  {
  }

  function DropSpaces(s: string): (r: string)
    decreases |s|
  {
    if s != [] && s[0] == ' ' then DropSpaces(s[1..]) else s
  }

  lemma {:induction false} DropPadding(pad: string, d: string)
    requires forall k :: 0 <= k < |pad| ==> pad[k] == ' '
    requires d != [] && d[0] != ' '
    ensures DropSpaces(pad + d) == d
    decreases |pad|
  {
    if pad == [] {
      assert pad + d == d;
    } else {
      assert (pad + d)[1..] == pad[1..] + d;
      DropPadding(pad[1..], d);
    }
  }

  /** Reads a right-aligned decimal number. */
  function ReadPadded(s: string): Option<nat>
  {
    var d := DropSpaces(s);
    if d != [] && Format.AllDigits(d) then Some(Format.DecimalValue(d)) else None
  }

  lemma ReadPadded3(b: byte)
    ensures ReadPadded(Padded3(b)) == Some(b as nat)
  {
    var d, r := Format.NatToString(b), Padded3(b);
    ByteDigits(b);
    assert Format.IsDigit(d[0]);
    var pad := r[..3 - |d|];
    assert r == pad + d;
    DropPadding(pad, d);
    Format.NatToStringRoundTrip(b);
  }

  /** Reads a color back from its `Display` text. */
  function ParseDisplayColor(s: string): Option<(nat, nat, nat)>
  {
    if |s| != 19 then None
    else match (ReadPadded(s[5..8]), ReadPadded(s[10..13]), ReadPadded(s[15..18]))
      case (Some(r), Some(g), Some(b)) => Some((r, g, b))
      case _ => None
  }

  /** The three components can be read back from the `Display` text. */
  lemma DisplayColorRoundTrip(c: Color)
    ensures ParseDisplayColor(DisplayColor(c)) == Some((c.red as nat, c.green as nat, c.blue as nat))
  {
    var x, y, z := Padded3(c.red), Padded3(c.green), Padded3(c.blue);
    DisplayColumns(x, y, z);
    ReadPadded3(c.red);
    ReadPadded3(c.green);
    ReadPadded3(c.blue);
  }

  /** `{:0>2X}` on a `u8`: the two upper-case hex digits of the byte. */
  function Hex2(b: byte): (s: string)
    ensures |s| == 2 && IsUpperHexDigit(s[0]) && IsUpperHexDigit(s[1])
  {
    [Format.HexDigitUpper(b / 16), Format.HexDigitUpper(b % 16)]
  }

  /** `Hex2` is what `{:0>2X}` writes: `{:X}` left-padded with `0` to two columns. */
  lemma Hex2IsPaddedUpperHex(b: byte)
    ensures Format.PadLeft(Format.UpperHex(b), 2, '0') == Hex2(b)
  {
    Format.PaddedUpperHexByte(b);
  }

  /** `UpperHex for Color`: `0x` and two upper-case hex digits per
      component, always 8 characters. */
  function UpperHexColor(c: Color): (s: string)
    ensures |s| == 8 && s[..2] == "0x"
    ensures forall k :: 2 <= k < 8 ==> IsUpperHexDigit(s[k])
  {
    var r, g, b := Hex2(c.red), Hex2(c.green), Hex2(c.blue);
    var s := "0x" + r + g + b;
    assert s[2] == r[0] && s[3] == r[1] && s[4] == g[0] && s[5] == g[1] && s[6] == b[0] && s[7] == b[1];
    s
  }

  predicate IsUpperHexDigit(ch: char)
  {
    '0' <= ch <= '9' || 'A' <= ch <= 'F'
  }

  /** The value of an upper-case hex digit. */
  function HexValue(ch: char): nat
  {
    if '0' <= ch <= '9' then ch as int - '0' as int
    else if 'A' <= ch <= 'F' then ch as int - 'A' as int + 10
    else 0
  }

  lemma HexValueOfDigit(d: nat)
    requires d < 16
    ensures HexValue(Format.HexDigitUpper(d)) == d
  {
  }

  /** Reads a color back from its `UpperHex` text. */
  function ParseUpperHexColor(s: string): (nat, nat, nat)
    requires |s| == 8
  {
    (16 * HexValue(s[2]) + HexValue(s[3]),
     16 * HexValue(s[4]) + HexValue(s[5]),
     16 * HexValue(s[6]) + HexValue(s[7]))
  }

  /** The three components can be read back from the hex text. */
  lemma UpperHexColorRoundTrip(c: Color)
    ensures ParseUpperHexColor(UpperHexColor(c)) == (c.red as nat, c.green as nat, c.blue as nat)
  {
    HexValueOfDigit(c.red / 16);
    HexValueOfDigit(c.red % 16);
    HexValueOfDigit(c.green / 16);
    HexValueOfDigit(c.green % 16);
    HexValueOfDigit(c.blue / 16);
    HexValueOfDigit(c.blue % 16);
  }

  /** The first color of `print_plg`, in hex. */
  lemma UpperHexExample()
    ensures UpperHexColor(Color(128, 255, 90)) == "0x80FF5A"
  {
  }

  lemma DecimalExamples()
    ensures Format.NatToString(128) == "128"
    ensures Format.NatToString(255) == "255"
    ensures Format.NatToString(90) == "90"
  {
  }

  /** A component with three digits fills its column. */
  lemma FullColumn(b: byte, digits: string)
    requires Format.NatToString(b) == digits && |digits| == 3
    ensures Padded3(b) == digits
  {
  }

  /** A component with two digits gets one space in front. */
  lemma PaddedColumn(b: byte, digits: string)
    requires Format.NatToString(b) == digits && |digits| == 2
    ensures Padded3(b) == " " + digits
  {
    var r := Padded3(b);
    assert r[1..] == digits;
  }

  /** The first color of `print_plg`, in decimal. */
  lemma DisplayColorExample()
    ensures DisplayColor(Color(128, 255, 90)) == "RGB (128, 255,  90)"
  {
    DecimalExamples();
    FullColumn(128, "128");
    FullColumn(255, "255");
    PaddedColumn(90, "90");
  }
}
