/** Base 64 with the standard alphabet of section 4 of RFC 4648, over
    ASCII bytes: the encoding `basic_authentication` undoes when it reads
    the credentials of an HTTP `Basic` Authorization header. Decoding is
    the strict form: the input is a whole number of 4-character groups,
    padding `=` appears only at the end (section 3.2 of RFC 4648), and
    the unused low bits of a padded last group are zero (section 3.5 of
    RFC 4648). */
module Base64 {
  import opened Common

  /** `=` */
  const PAD: byte := 61

  /** The 6-bit value of an alphabet character (Table 1 of RFC 4648). */
  function SextetOf(c: byte): (v: Option<nat>)
    ensures v.Some? ==> v.value < 64
    ensures v.Some? ==> c != PAD
  {
    if 65 <= c <= 90 then Some(c - 65)        // A-Z
    else if 97 <= c <= 122 then Some(c - 71)  // a-z
    else if 48 <= c <= 57 then Some(c + 4)    // 0-9
    else if c == 43 then Some(62)             // +
    else if c == 47 then Some(63)             // /
    else None
  }

  /** The alphabet character for a 6-bit value. */
  function CharOf(v: nat): (c: byte)
    requires v < 64
    ensures SextetOf(c) == Some(v)
  {
    if v < 26 then v + 65 else if v < 52 then v + 71 else if v < 62 then v - 4
    else if v == 62 then 43 else 47
  }

  /** The alphabet and its values are in one-to-one correspondence. */
  lemma CharOfSextet(c: byte)
    requires SextetOf(c).Some?
    ensures CharOf(SextetOf(c).value) == c
  {
  }

  /** Every character of an encoding is in the alphabet or is `=`. */
  predicate IsEncodingChar(c: byte) { c == PAD || SextetOf(c).Some? }

  /** The four 6-bit groups of three bytes, most significant first. */
  function Split(b0: byte, b1: byte, b2: byte): (s: seq<nat>)
    ensures |s| == 4 && forall i :: 0 <= i < 4 ==> s[i] < 64
  {
    [b0 / 4, (b0 % 4) * 16 + b1 / 16, (b1 % 16) * 4 + b2 / 64, b2 % 64]
  }

  /** The three bytes that four 6-bit groups make up. */
  function Join(s0: nat, s1: nat, s2: nat, s3: nat): (b: seq<byte>)
    requires s0 < 64 && s1 < 64 && s2 < 64 && s3 < 64
    ensures |b| == 3
  {
    [s0 * 4 + s1 / 16, (s1 % 16) * 16 + s2 / 4, (s2 % 4) * 64 + s3]
  }

  lemma HighLow4(hi: nat, lo: nat)
    requires lo < 4
    ensures (hi * 4 + lo) / 4 == hi && (hi * 4 + lo) % 4 == lo
  {
  }

  lemma HighLow16(hi: nat, lo: nat)
    requires lo < 16
    ensures (hi * 16 + lo) / 16 == hi && (hi * 16 + lo) % 16 == lo
  {
  }

  lemma HighLow64(hi: nat, lo: nat)
    requires lo < 64
    ensures (hi * 64 + lo) / 64 == hi && (hi * 64 + lo) % 64 == lo
  {
  }

  lemma JoinSplit(b0: byte, b1: byte, b2: byte)
    ensures var s := Split(b0, b1, b2); Join(s[0], s[1], s[2], s[3]) == [b0, b1, b2]
  {
    HighLow16(b0 % 4, b1 / 16);
    HighLow4(b1 % 16, b2 / 64);
  }

  lemma SplitJoin(s0: nat, s1: nat, s2: nat, s3: nat)
    requires s0 < 64 && s1 < 64 && s2 < 64 && s3 < 64
    ensures var b := Join(s0, s1, s2, s3); Split(b[0], b[1], b[2]) == [s0, s1, s2, s3]
  {
    var b0: byte, b1: byte, b2: byte := s0 * 4 + s1 / 16, (s1 % 16) * 16 + s2 / 4, (s2 % 4) * 64 + s3;
    assert Join(s0, s1, s2, s3) == [b0, b1, b2];
    assert b0 / 4 == s0 && b0 % 4 == s1 / 16 by { HighLow4(s0, s1 / 16); }
    assert b1 / 16 == s1 % 16 && b1 % 16 == s2 / 4 by { HighLow16(s1 % 16, s2 / 4); }
    assert b2 / 64 == s2 % 4 && b2 % 64 == s3 by { HighLow64(s2 % 4, s3); }
  }

  /** Three bytes as four characters. */
  function EncodeTriple(b0: byte, b1: byte, b2: byte): (q: seq<byte>)
    ensures |q| == 4 && forall i :: 0 <= i < 4 ==> SextetOf(q[i]).Some?
  {
    var s := Split(b0, b1, b2);
    [CharOf(s[0]), CharOf(s[1]), CharOf(s[2]), CharOf(s[3])]
  }

  /** `A`, the character of value zero, which stands in for padding when a
      padded group is decoded as a full one. */
  const ZERO_CHAR: byte := 65

  function Encode(bs: seq<byte>): (cs: seq<byte>)
    ensures |cs| == 4 * ((|bs| + 2) / 3)
    ensures forall i :: 0 <= i < |cs| ==> IsEncodingChar(cs[i])
    decreases |bs|
  {
    if |bs| == 0 then []
    else if |bs| == 1 then EncodeTriple(bs[0], 0, 0)[..2] + [PAD, PAD]
    else if |bs| == 2 then EncodeTriple(bs[0], bs[1], 0)[..3] + [PAD]
    else EncodeTriple(bs[0], bs[1], bs[2]) + Encode(bs[3..])
  }

  predicate AllInAlphabet(q: seq<byte>) { forall i :: 0 <= i < |q| ==> SextetOf(q[i]).Some? }

  /** Four alphabet characters as three bytes. */
  function DecodeQuad(q: seq<byte>): (r: Option<seq<byte>>)
    requires |q| == 4
    ensures r.Some? <==> AllInAlphabet(q)
    ensures r.Some? ==> |r.value| == 3
  {
    if AllInAlphabet(q) then
      Some(Join(SextetOf(q[0]).value, SextetOf(q[1]).value, SextetOf(q[2]).value, SextetOf(q[3]).value))
    else None
  }

  /** The last group, which may end in one or two `=`. A padded group is
      decoded as if the padding were zero-valued characters, and is accepted
      only when the bytes the padding stands for come out zero, that is when
      the unused bits are zero (section 3.5 of RFC 4648). */
  function DecodeLast(q: seq<byte>): (r: Option<seq<byte>>)
    requires |q| == 4
    ensures r.Some? ==> 1 <= |r.value| <= 3
  {
    if q[3] != PAD then DecodeQuad(q)
    else if q[2] == PAD then
      var g := DecodeQuad(q[..2] + [ZERO_CHAR, ZERO_CHAR]);
      if g.Some? && g.value[1] == 0 && g.value[2] == 0 then Some([g.value[0]]) else None
    else
      var g := DecodeQuad(q[..3] + [ZERO_CHAR]);
      if g.Some? && g.value[2] == 0 then Some([g.value[0], g.value[1]]) else None
  }

  function Decode(cs: seq<byte>): (r: Option<seq<byte>>)
    decreases |cs|
  {
    if |cs| == 0 then Some([])
    else if |cs| < 4 then None
    else if |cs| == 4 then DecodeLast(cs)
    else if DecodeQuad(cs[..4]).None? then None
    else if Decode(cs[4..]).None? then None
    else Some(DecodeQuad(cs[..4]).value + Decode(cs[4..]).value)
  }

  lemma TripleRoundTrip(b0: byte, b1: byte, b2: byte)
    ensures DecodeQuad(EncodeTriple(b0, b1, b2)) == Some([b0, b1, b2])
  {
    JoinSplit(b0, b1, b2);
  }

  lemma QuadRoundTrip(q: seq<byte>)
    requires |q| == 4 && AllInAlphabet(q)
    ensures var g := DecodeQuad(q).value; EncodeTriple(g[0], g[1], g[2]) == q
  {
    SplitJoin(SextetOf(q[0]).value, SextetOf(q[1]).value, SextetOf(q[2]).value, SextetOf(q[3]).value);
    CharOfSextet(q[0]); CharOfSextet(q[1]); CharOfSextet(q[2]); CharOfSextet(q[3]);
  }

  lemma DecodeEncodeOne(b0: byte)
    ensures Decode(Encode([b0])) == Some([b0])
  {
    var q := EncodeTriple(b0, 0, 0);
    assert Split(b0, 0, 0)[2] == 0 && Split(b0, 0, 0)[3] == 0;
    TripleRoundTrip(b0, 0, 0);
    var cs := Encode([b0]);
    assert cs[..2] + [ZERO_CHAR, ZERO_CHAR] == q;
  }

  lemma DecodeEncodeTwo(b0: byte, b1: byte)
    ensures Decode(Encode([b0, b1])) == Some([b0, b1])
  {
    var q := EncodeTriple(b0, b1, 0);
    assert Split(b0, b1, 0)[3] == 0;
    TripleRoundTrip(b0, b1, 0);
    var cs := Encode([b0, b1]);
    assert cs[..3] + [ZERO_CHAR] == q;
  }

  /** Decoding a full group followed by more groups. */
  lemma DecodeCons(q: seq<byte>, rest: seq<byte>)
    requires |q| == 4 && AllInAlphabet(q) && |rest| > 0
    ensures Decode(q + rest) ==
      if Decode(rest).None? then None else Some(DecodeQuad(q).value + Decode(rest).value)
  {
    var cs := q + rest;
    assert cs[..4] == q && cs[4..] == rest;
  }

  lemma ThreeThenRest<T>(s: seq<T>)
    requires |s| >= 3
    ensures [s[0], s[1], s[2]] + s[3..] == s
  {
  }

  lemma DecodeEncodeStep(bs: seq<byte>)
    requires |bs| > 3 && Decode(Encode(bs[3..])) == Some(bs[3..])
    ensures Decode(Encode(bs)) == Some(bs)
  {
    TripleRoundTrip(bs[0], bs[1], bs[2]);
    var tail := Encode(bs[3..]);
    var q := EncodeTriple(bs[0], bs[1], bs[2]);
    DecodeCons(q, tail);
    assert Decode(q + tail) == Some([bs[0], bs[1], bs[2]] + bs[3..]);
    ThreeThenRest(bs);
    assert Encode(bs) == q + tail;
  }

  /** Decoding undoes encoding, for every byte string. */
  lemma {:induction false} DecodeEncode(bs: seq<byte>)
    ensures Decode(Encode(bs)) == Some(bs)
    decreases |bs|
  {
    if |bs| == 1 {
      assert bs == [bs[0]];
      DecodeEncodeOne(bs[0]);
    } else if |bs| == 2 {
      assert bs == [bs[0], bs[1]];
      DecodeEncodeTwo(bs[0], bs[1]);
    } else if |bs| == 3 {
      TripleRoundTrip(bs[0], bs[1], bs[2]);
      assert bs == [bs[0], bs[1], bs[2]];
      assert Encode(bs) == EncodeTriple(bs[0], bs[1], bs[2]);
    } else if |bs| > 3 {
      DecodeEncode(bs[3..]);
      DecodeEncodeStep(bs);
    }
  }

  /** Only canonical encodings decode: whatever decodes re-encodes to exactly the input. */
  lemma {:induction false} EncodeDecode(cs: seq<byte>)
    requires Decode(cs).Some?
    ensures Encode(Decode(cs).value) == cs
    decreases |cs|
  {
    if |cs| == 4 {
      if cs[3] != PAD {
        QuadRoundTrip(cs);
      } else if cs[2] == PAD {
        var q := cs[..2] + [ZERO_CHAR, ZERO_CHAR];
        QuadRoundTrip(q);
        assert cs == q[..2] + [PAD, PAD];
      } else {
        var q := cs[..3] + [ZERO_CHAR];
        QuadRoundTrip(q);
        assert cs == q[..3] + [PAD];
      }
    } else if |cs| > 4 {
      var g := DecodeQuad(cs[..4]).value;
      var rest := Decode(cs[4..]).value;
      QuadRoundTrip(cs[..4]);
      EncodeDecode(cs[4..]);
      var bs := g + rest;
      assert bs[3..] == rest;
      assert |rest| > 0;
      assert cs == cs[..4] + cs[4..];
    }
  }
}
