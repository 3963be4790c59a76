/** Well-formed UTF-8 (section 4 of RFC 3629), the check `String::from_utf8`
    makes on the bytes that come out of the base 64 decoder. Text is kept
    as its UTF-8 bytes, so a Rust `String` is a byte string this predicate
    accepts. */
module Utf8 {
  import opened Common

  predicate IsContinuation(b: byte) { 0x80 <= b <= 0xBF }

  /** The length of the well-formed character that starts `s`, or 0 when
      no well-formed character starts it. */
  function FirstCharLength(s: seq<byte>): (n: nat)
    requires |s| > 0
    ensures n <= 4 && n <= |s|
    ensures n >= 2 ==> IsContinuation(s[1])
    ensures n >= 3 ==> IsContinuation(s[2])
    ensures n == 4 ==> IsContinuation(s[3])
  {
    var b0 := s[0];
    if b0 <= 0x7F then 1
    else if 0xC2 <= b0 <= 0xDF then
      if |s| >= 2 && IsContinuation(s[1]) then 2 else 0
    else if b0 == 0xE0 then
      if |s| >= 3 && 0xA0 <= s[1] <= 0xBF && IsContinuation(s[2]) then 3 else 0
    else if 0xE1 <= b0 <= 0xEC || 0xEE <= b0 <= 0xEF then
      if |s| >= 3 && IsContinuation(s[1]) && IsContinuation(s[2]) then 3 else 0
    else if b0 == 0xED then
      if |s| >= 3 && 0x80 <= s[1] <= 0x9F && IsContinuation(s[2]) then 3 else 0
    else if b0 == 0xF0 then
      if |s| >= 4 && 0x90 <= s[1] <= 0xBF && IsContinuation(s[2]) && IsContinuation(s[3]) then 4 else 0
    else if 0xF1 <= b0 <= 0xF3 then
      if |s| >= 4 && IsContinuation(s[1]) && IsContinuation(s[2]) && IsContinuation(s[3]) then 4 else 0
    else if b0 == 0xF4 then
      if |s| >= 4 && 0x80 <= s[1] <= 0x8F && IsContinuation(s[2]) && IsContinuation(s[3]) then 4 else 0
    else 0
  }

  /** `s` is a sequence of well-formed UTF-8 characters. */
  predicate IsValid(s: seq<byte>)
    decreases |s|
  {
    s == [] || (FirstCharLength(s) > 0 && IsValid(s[FirstCharLength(s)..]))
  }

  /** Whether a character is well formed depends only on its own bytes. */
  lemma FirstCharLengthOfPrefix(s: seq<byte>, t: seq<byte>)
    requires |s| > 0 && FirstCharLength(s) > 0
    ensures |s + t| > 0 && FirstCharLength(s + t) == FirstCharLength(s)
  {
    var st := s + t;
    assert st[0] == s[0];
    if |s| >= 2 { assert st[1] == s[1]; }
    if |s| >= 3 { assert st[2] == s[2]; }
    if |s| >= 4 { assert st[3] == s[3]; }
  }

  /** A well-formed character in front of well-formed text. */
  lemma PrependChar(s: seq<byte>, t: seq<byte>, n: nat)
    requires |s| > 0 && 0 < n == FirstCharLength(s) && IsValid(s[n..] + t)
    ensures IsValid(s + t)
  {
    FirstCharLengthOfPrefix(s, t);
    assert (s + t)[n..] == s[n..] + t;
  }

  /** Well-formed text followed by well-formed text is well formed. */
  lemma {:induction false} ConcatValid(s: seq<byte>, t: seq<byte>)
    requires IsValid(s) && IsValid(t)
    ensures IsValid(s + t)
    decreases |s|
  {
    if s != [] {
      var n := FirstCharLength(s);
      ConcatValid(s[n..], t);
      PrependChar(s, t, n);
    } else {
      assert s + t == t;
    }
  }

  /** An ASCII byte always stands for itself: it is one whole character. */
  lemma AsciiIsValid(b: byte)
    requires b <= 0x7F
    ensures IsValid([b])
  {
    assert FirstCharLength([b]) == 1;
    assert [b][1..] == [];
  }

  lemma FirstCharOfItself(s: seq<byte>)
    requires |s| > 0 && FirstCharLength(s) > 0
    ensures FirstCharLength(s[..FirstCharLength(s)]) == FirstCharLength(s)
  {
  }

  /** An ASCII byte is never inside a longer character, so cutting well-formed
      text around one leaves well-formed text on both sides. */
  lemma {:induction false} SplitAtAscii(u: seq<byte>, c: byte, p: seq<byte>)
    requires c <= 0x7F && IsValid(u + [c] + p)
    ensures IsValid(u) && IsValid(p)
    decreases |u|
  {
    var s := u + [c] + p;
    if u == [] {
      assert s[0] == c && FirstCharLength(s) == 1;
      assert s[1..] == p;
    } else {
      var n := FirstCharLength(s);
      assert s[|u|] == c;
      assert n <= |u|;
      FirstCharOfItself(s);
      assert s[..n] == u[..n];
      FirstCharLengthOfPrefix(u[..n], u[n..]);
      assert u[..n] + u[n..] == u;
      assert s[n..] == u[n..] + [c] + p;
      SplitAtAscii(u[n..], c, p);
    }
  }
}
