/** The two facts about UTF-8 text that the protocol relies on: which octet strings `str::from_utf8`
    accepts (section 4 of RFC 3629), and what `str::trim_end` removes from an accepted one. */
module Utf8 {
  import opened Bytes

  predicate Continuation(b: byte) {
    0x80 <= b <= 0xBF
  }

  /** The length of the well-formed sequence at the front, or 0 when there is none. */
  function FirstLength(s: seq<byte>): (n: nat)
    ensures n <= |s|
  {
    if s == [] then 0
    else if s[0] < 0x80 then 1
    else if 0xC2 <= s[0] <= 0xDF && |s| >= 2 && Continuation(s[1]) then 2
    else if |s| >= 3 && Continuation(s[2]) &&
            (|| (s[0] == 0xE0 && 0xA0 <= s[1] <= 0xBF)
             || ((0xE1 <= s[0] <= 0xEC || 0xEE <= s[0] <= 0xEF) && Continuation(s[1]))
             || (s[0] == 0xED && 0x80 <= s[1] <= 0x9F)) then 3
    else if |s| >= 4 && Continuation(s[2]) && Continuation(s[3]) &&
            (|| (s[0] == 0xF0 && 0x90 <= s[1] <= 0xBF)
             || (0xF1 <= s[0] <= 0xF3 && Continuation(s[1]))
             || (s[0] == 0xF4 && 0x80 <= s[1] <= 0x8F)) then 4
    else 0
  }

  predicate Valid(s: seq<byte>) {
    s == [] || (FirstLength(s) > 0 && Valid(s[FirstLength(s)..]))
  }

  predicate AsciiSpace(b: byte) {
    9 <= b <= 13 || b == 0x20
  }

  /** The length of the white space character at the end, or 0 when the last character is none. */
  function LastSpace(s: seq<byte>): (n: nat)
    ensures n <= |s|
  {
    var k := |s|;
    if k >= 1 && AsciiSpace(s[k - 1]) then 1
    else if k >= 2 && s[k - 2] == 0xC2 && (s[k - 1] == 0x85 || s[k - 1] == 0xA0) then 2
    else if k >= 3 &&
            (|| s[k - 3..] == [0xE1, 0x9A, 0x80]
             || (s[k - 3..k - 1] == [0xE2, 0x80] &&
                 (0x80 <= s[k - 1] <= 0x8A || s[k - 1] == 0xA8 || s[k - 1] == 0xA9 || s[k - 1] == 0xAF))
             || s[k - 3..] == [0xE2, 0x81, 0x9F]
             || s[k - 3..] == [0xE3, 0x80, 0x80]) then 3
    else 0
  }

  function TrimEnd(s: seq<byte>): (r: seq<byte>)
    ensures r <= s
  {
    if LastSpace(s) > 0 then TrimEnd(s[..|s| - LastSpace(s)]) else s
  }

  lemma {:induction false} AsciiIsValid(s: seq<byte>)
    requires forall i :: 0 <= i < |s| ==> s[i] < 0x80
    ensures Valid(s)
  {
    if s != [] {
      AsciiIsValid(s[1..]);
    }
  }

  // ---- What is valid, by the encoding of section 3 of RFC 3629 ----

  predicate IsScalar(c: int) {
    0 <= c < 0xD800 || 0xE000 <= c < 0x11_0000
  }

  /** The octets of one character. */
  function Encode(c: int): (s: seq<byte>)
    requires IsScalar(c)
    ensures |s| >= 1
  {
    if c < 0x80 then [c]
    else if c < 0x800 then [0xC0 + c / 0x40, 0x80 + c % 0x40]
    else if c < 0x1_0000 then [0xE0 + c / 0x1000, 0x80 + c / 0x40 % 0x40, 0x80 + c % 0x40]
    else [0xF0 + c / 0x4_0000, 0x80 + c / 0x1000 % 0x40, 0x80 + c / 0x40 % 0x40, 0x80 + c % 0x40]
  }

  ghost predicate AreScalars(cs: seq<int>) {
    forall i :: 0 <= i < |cs| ==> IsScalar(cs[i])
  }

  function EncodeAll(cs: seq<int>): seq<byte>
    requires forall i :: 0 <= i < |cs| ==> IsScalar(cs[i])
  {
    if cs == [] then [] else Encode(cs[0]) + EncodeAll(cs[1..])
  }

  ghost predicate IsText(s: seq<byte>, cs: seq<int>) {
    AreScalars(cs) && s == EncodeAll(cs)
  }

  /** A character at the front is found with its length. */
  lemma EncodedIsFirst(c: int, rest: seq<byte>)
    requires IsScalar(c)
    ensures FirstLength(Encode(c) + rest) == |Encode(c)|
  {
    var e := Encode(c);
    var s := e + rest;
    assert forall i :: 0 <= i < |e| ==> s[i] == e[i];
    if 0x800 <= c < 0x1_0000 {
      var high := c / 0x40;
      assert c / 0x1000 == high / 0x40;
      assert high == 0x40 * (high / 0x40) + high % 0x40;
    } else if c >= 0x1_0000 {
      var high := c / 0x1000;
      assert c / 0x4_0000 == high / 0x40;
      assert high == 0x40 * (high / 0x40) + high % 0x40;
    }
  }

  lemma TwoOctets(a: int, b: int) returns (c: int)
    requires 0xC2 <= a <= 0xDF && 0x80 <= b <= 0xBF
    ensures 0x80 <= c < 0x800 && a == 0xC0 + c / 0x40 && b == 0x80 + c % 0x40
  {
    c := 0x40 * (a - 0xC0) + (b - 0x80);
  }

  lemma ThreeOctets(a: int, b: int, d: int) returns (c: int)
    requires 0xE0 <= a <= 0xEF && 0x80 <= b <= 0xBF && 0x80 <= d <= 0xBF && (a == 0xE0 ==> b >= 0xA0)
    ensures 0x800 <= c < 0x1_0000 && ((a == 0xED ==> b <= 0x9F) ==> IsScalar(c))
    ensures a == 0xE0 + c / 0x1000 && b == 0x80 + c / 0x40 % 0x40 && d == 0x80 + c % 0x40
  {
    c := 0x1000 * (a - 0xE0) + 0x40 * (b - 0x80) + (d - 0x80);
    assert c / 0x40 == 0x40 * (a - 0xE0) + (b - 0x80);
  }

  lemma FourOctets(a: int, b: int, d: int, e: int) returns (c: int)
    requires 0xF0 <= a <= 0xF4 && 0x80 <= b <= 0xBF && 0x80 <= d <= 0xBF && 0x80 <= e <= 0xBF
    requires (a == 0xF0 ==> b >= 0x90) && (a == 0xF4 ==> b <= 0x8F)
    ensures 0x1_0000 <= c < 0x11_0000 && a == 0xF0 + c / 0x4_0000 && b == 0x80 + c / 0x1000 % 0x40
    ensures d == 0x80 + c / 0x40 % 0x40 && e == 0x80 + c % 0x40
  {
    c := 0x4_0000 * (a - 0xF0) + 0x1000 * (b - 0x80) + 0x40 * (d - 0x80) + (e - 0x80);
    assert c / 0x40 == 0x1000 * (a - 0xF0) + 0x40 * (b - 0x80) + (d - 0x80);
    assert c / 0x1000 == 0x40 * (a - 0xF0) + (b - 0x80);
  }

  /** A well-formed sequence at the front is a character. */
  lemma FirstIsEncoded(s: seq<byte>) returns (c: int)
    requires FirstLength(s) > 0
    ensures IsScalar(c) && Encode(c) == s[..FirstLength(s)]
  {
    var n := FirstLength(s);
    if n == 1 {
      c := s[0];
    } else if n == 2 {
      c := TwoOctets(s[0], s[1]);
    } else if n == 3 {
      c := ThreeOctets(s[0], s[1], s[2]);
    } else {
      c := FourOctets(s[0], s[1], s[2], s[3]);
    }
  }

  lemma {:induction false} EncodedIsValid(cs: seq<int>)
    requires AreScalars(cs)
    ensures Valid(EncodeAll(cs))
  {
    if cs != [] {
      var e, rest := Encode(cs[0]), EncodeAll(cs[1..]);
      EncodedIsFirst(cs[0], rest);
      EncodedIsValid(cs[1..]);
      assert (e + rest)[|e|..] == rest;
    }
  }

  lemma {:induction false} ValidIsEncoded(s: seq<byte>) returns (cs: seq<int>)
    requires Valid(s)
    ensures IsText(s, cs)
  {
    cs := [];
    if s != [] {
      var n := FirstLength(s);
      var c := FirstIsEncoded(s);
      var more := ValidIsEncoded(s[n..]);
      cs := [c] + more;
      assert cs[1..] == more && s == s[..n] + s[n..];
    }
  }

  /** Octets are valid text exactly when they are the encoding of some characters. */
  lemma ValidExact(s: seq<byte>)
    ensures Valid(s) <==> exists cs :: IsText(s, cs)
  {
    if Valid(s) {
      var cs := ValidIsEncoded(s);
    }
    if cs :| IsText(s, cs) {
      EncodedIsValid(cs);
    }
  }
}
