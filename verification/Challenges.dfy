/** What the parts of the challenge-response exchange compute, stated without naming how: the clock in minutes,
    hexadecimal text, the lines of a message, and why an answer fits no challenge but its own. */
module Challenges {
  import opened Bytes
  import opened Options
  import opened Auth
  import Decimal
  import Utf8

  /** The minute is the whole minutes since the epoch. */
  lemma MinutesExact(seconds: int)
    ensures seconds >= 0 ==> 60 * ElapsedMinutes(seconds) <= seconds < 60 * ElapsedMinutes(seconds) + 60
    ensures seconds < 0 ==> ElapsedMinutes(seconds) == 0
  {
  }

  /** The texts of the protocol, octet by octet. */
  lemma TextsExact()
    ensures HAPPY == [72, 65, 80, 80, 89, 10] && BAD == [66, 65, 68, 10]
    ensures Prompt() == [87, 72, 79, 32, 84, 72, 69, 32, 72, 69, 67, 75, 32, 65, 82, 69, 32, 89, 79, 85, 63]
  {
  }

  // ---- Hexadecimal ----

  /** The number a lower-case hexadecimal digit stands for. */
  function Nibble(b: byte): int {
    if 48 <= b <= 57 then b - 48 else b - 87
  }

  /** The octets that hexadecimal text stands for, high digit first. */
  function Unhex(s: seq<byte>): seq<int> {
    if |s| < 2 then [] else [16 * Nibble(s[0]) + Nibble(s[1])] + Unhex(s[2..])
  }

  lemma {:induction false} HexRoundTrip(s: seq<byte>)
    ensures Unhex(Hex(s)) == s
  {
    if s != [] {
      HexRoundTrip(s[1..]);
      assert Hex(s)[2..] == Hex(s[1..]);
      assert 16 * (s[0] / 16) + s[0] % 16 == s[0];
      assert s == [s[0]] + s[1..];
    }
  }

  // ---- Challenges ----

  lemma SplitEqual(a: seq<byte>, b: seq<byte>, c: seq<byte>, d: seq<byte>)
    requires a + b == c + d && |a| == |c|
    ensures a == c && b == d
  {
    assert a == (a + b)[..|a|] && c == (c + d)[..|c|] && b == (a + b)[|a|..] && d == (c + d)[|c|..];
  }

  lemma AsciiInjective(s: string, t: string)
    requires IsAscii(s) && IsAscii(t) && Ascii(s) == Ascii(t)
    ensures s == t
  {
    assert |s| == |t|;
    assert forall i :: 0 <= i < |s| ==> Ascii(s)[i] == s[i] as int && Ascii(t)[i] == t[i] as int;
  }

  /** The layout of a challenge: 22 octets, the random octets in hexadecimal, 4 octets, the minute, 6 octets. */
  lemma Layout(random: seq<byte>, minutes: nat)
    ensures var c, m, n := Challenge(random, minutes), Ascii(Decimal.Print(minutes)), 22 + 2 * |random|;
            && |c| == n + 4 + |m| + 6 && c[22..n] == Hex(random) && c[n + 4..n + 4 + |m|] == m
            && c[..22] == Ascii("this-is-the-challenge-") && c[n..n + 4] == Ascii("-at-")
            && c[n + 4 + |m|..] == Ascii("-pr-v1")
  {
    var a, h, b, m, d := Ascii("this-is-the-challenge-"), Hex(random), Ascii("-at-"), Ascii(Decimal.Print(minutes)),
        Ascii("-pr-v1");
    FiveParts(a, h, b, m, d);
  }

  lemma FiveParts(a: seq<byte>, h: seq<byte>, b: seq<byte>, m: seq<byte>, d: seq<byte>)
    ensures var c, n := a + h + b + m + d, |a| + |h|;
            && c[..|a|] == a && c[|a|..n] == h && c[n..n + |b|] == b && c[n + |b|..n + |b| + |m|] == m
            && c[n + |b| + |m|..] == d
  {
  }

  /** Two challenges are equal only if their random octets and their minutes are. */
  lemma ChallengeInjective(r1: seq<byte>, m1: nat, r2: seq<byte>, m2: nat)
    requires |r1| == |r2| && Challenge(r1, m1) == Challenge(r2, m2)
    ensures r1 == r2 && m1 == m2
  {
    Layout(r1, m1);
    Layout(r2, m2);
    HexRoundTrip(r1);
    HexRoundTrip(r2);
    AsciiInjective(Decimal.Print(m1), Decimal.Print(m2));
    Decimal.PrintInjective(m1, m2);
  }

  /** An answer to one challenge is accepted for another, under the same key and without a collision of the digest,
      only if their random octets and their minutes are equal: a recorded answer does not fit a later challenge. */
  lemma AnswerFitsOnlyItsChallenge(hash: Hash, key: seq<byte>, r1: seq<byte>, m1: nat, r2: seq<byte>, m2: nat)
    requires |r1| == |r2| == 32
    requires NoCollision(hash, Challenge(r1, m1) + key, Challenge(r2, m2) + key)
    ensures Judge(Expected(hash, Challenge(r1, m1), key) + [NEWLINE], Expected(hash, Challenge(r2, m2), key)) == Happy
            <==> r1 == r2 && m1 == m2
  {
    var c1, c2 := Challenge(r1, m1), Challenge(r2, m2);
    ServerSatisfied(hash, c1, key, c2, key);
    if c1 + key == c2 + key {
      assert |c1| == |c2|;
      SplitEqual(c1, key, c2, key);
      ChallengeInjective(r1, m1, r2, m2);
    }
  }

  // ---- Lines ----

  /** A line ends at the first line feed, and a carriage return before it belongs to the line's end. */
  lemma LineExact(text: seq<byte>, rest: seq<byte>)
    requires NEWLINE !in text
    ensures NextLine(text + [CARRIAGE_RETURN, NEWLINE] + rest) == Some((text, rest))
    ensures text == [] || text[|text| - 1] != CARRIAGE_RETURN ==>
            NextLine(text + [NEWLINE] + rest) == Some((text, rest))
    ensures text != [] ==> NextLine(text) == Some((text, []))
  {
    var s, t := text + [CARRIAGE_RETURN, NEWLINE] + rest, text + [NEWLINE] + rest;
    FoundAt(text + [CARRIAGE_RETURN], rest);
    assert text + [CARRIAGE_RETURN] + [NEWLINE] + rest == s;
    assert s[..|text|] == text && s[|text| + 2..] == rest;
    FoundAt(text, rest);
    assert t[..|text|] == text && t[|text| + 1..] == rest;
    assert text != [] ==> t[|text| - 1] == text[|text| - 1];
    FoundNowhere(text);
  }

  lemma FoundAt(text: seq<byte>, rest: seq<byte>)
    requires NEWLINE !in text
    ensures IndexOf(text + [NEWLINE] + rest, NEWLINE) == |text|
  {
    Regroup(text, [NEWLINE], rest);
    IndexOfConcat(text, [NEWLINE] + rest, NEWLINE);
  }

  lemma FoundNowhere(text: seq<byte>)
    requires NEWLINE !in text
    ensures IndexOf(text, NEWLINE) == |text|
  {
  }

  /** A challenge is found only in text whose first line is the prompt, and it is the next line. */
  lemma FoundOnlyAfterPrompt(message: seq<byte>)
    ensures ParseRequest(message).Found? <==>
              && Utf8.Valid(message) && NextLine(message).Some? && NextLine(message).value.0 == Prompt()
              && NextLine(NextLine(message).value.1).Some?
    ensures ParseRequest(message).Found? ==>
              && message[..PROMPT_LENGTH] == Prompt() && |message| > PROMPT_LENGTH + 1
              && (message[PROMPT_LENGTH] == NEWLINE || message[PROMPT_LENGTH] == CARRIAGE_RETURN)
              && NextLine(NextLine(message).value.1).value.0 == ParseRequest(message).challenge
  {
    if message != [] && IndexOf(message, NEWLINE) < |message| {
      var line, rest := NextLine(message).value.0, NextLine(message).value.1;
      assert line <= message;
      if line == Prompt() {
        assert message[..PROMPT_LENGTH] == Prompt();
      }
    }
  }
}
