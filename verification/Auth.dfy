/** The challenge-response exchange: how the challenge is built and parsed, what answer is accepted,
    and when the two ends agree. SHA-512 is a parameter: any function to 64 octet digests. */
module Auth {
  import opened Bytes
  import opened Options
  import Decimal
  import Utf8

  type Digest = d: seq<byte> | |d| == 64 witness seq(64, i => 0)
  type Hash = seq<byte> -> Digest

  const CHALLENGE_REQUEST_BUFFER_LENGTH: nat := 256
  const RESPONSE_LENGTH: nat := 129
  const VERDICT_BUFFER_LENGTH: nat := 16
  const PROMPT_LENGTH: nat := 21

  const HAPPY: seq<byte> := Ascii("HAPPY\n")
  const BAD: seq<byte> := Ascii("BAD\n")

  function Prompt(): (p: seq<byte>)
    ensures |p| == PROMPT_LENGTH && NEWLINE !in p && CARRIAGE_RETURN !in p
    ensures forall b :: b in p ==> b < 0x80
  {
    Ascii("WHO THE HECK ARE YOU?")
  }

  function HexDigit(n: nat): (b: byte)
    requires n < 16
    ensures 48 <= b <= 57 || 97 <= b <= 102
  {
    if n < 10 then 48 + n else 87 + n
  }

  /** Lower-case hexadecimal, two octets for each octet. */
  function Hex(s: seq<byte>): (r: seq<byte>)
    ensures |r| == 2 * |s|
    ensures forall b :: b in r ==> 48 <= b <= 57 || 97 <= b <= 102
  {
    if s == [] then [] else [HexDigit(s[0] / 16), HexDigit(s[0] % 16)] + Hex(s[1..])
  }

  /** Minutes since the epoch; a clock set before the epoch counts as zero. */
  function ElapsedMinutes(seconds: int): nat {
    if seconds < 0 then 0 else seconds / 60
  }

  /** Octets of challenge text: never a line terminator, never a capital letter. */
  predicate Plain(b: byte) {
    b == 45 || 48 <= b <= 57 || 97 <= b <= 122
  }

  function Text(s: string): (r: seq<byte>)
    requires forall i :: 0 <= i < |s| ==> s[i] as int < 128 && Plain(s[i] as int)
    ensures |r| == |s|
    ensures forall b :: b in r ==> Plain(b)
  {
    Ascii(s)
  }

  function Challenge(random: seq<byte>, minutes: nat): (c: seq<byte>)
    ensures forall b :: b in c ==> Plain(b)
    ensures |c| == 32 + 2 * |random| + |Decimal.Print(minutes)|
  {
    Text("this-is-the-challenge-") + Hex(random) + Text("-at-") + Text(Decimal.Print(minutes)) + Text("-pr-v1")
  }

  function Request(challenge: seq<byte>): (r: seq<byte>)
    ensures |r| == PROMPT_LENGTH + 1 + |challenge| + 1
  {
    Prompt() + [NEWLINE] + challenge + [NEWLINE]
  }

  /** The answer to a challenge: the digest of challenge and key in hexadecimal. */
  function Expected(hash: Hash, challenge: seq<byte>, psk: seq<byte>): (r: seq<byte>)
    ensures |r| == 128
    ensures forall b :: b in r ==> 48 <= b <= 57 || 97 <= b <= 102
  {
    Hex(hash(challenge + psk))
  }

  datatype Verdict = NotText | Happy | Bad

  /** The server's decision on the 129 octets it read. */
  function Judge(response: seq<byte>, expected: seq<byte>): Verdict {
    if !Utf8.Valid(response) then NotText
    else if Utf8.TrimEnd(response) == expected then Happy
    else Bad
  }

  /** The next line of a text and what follows it, as `str::lines` yields them. */
  function NextLine(s: seq<byte>): Option<(seq<byte>, seq<byte>)> {
    if s == [] then None
    else
      var i := IndexOf(s, NEWLINE);
      if i == |s| then Some((s, []))
      else if i > 0 && s[i - 1] == CARRIAGE_RETURN then Some((s[..i - 1], s[i + 1..]))
      else Some((s[..i], s[i + 1..]))
  }

  datatype ClientError = PromptNotText | UnexpectedPrompt | MissingChallenge

  datatype ChallengeResult = Found(challenge: seq<byte>) | Refused(error: ClientError)

  /** The client's reading of whatever its single 256 octet read returned. */
  function ParseRequest(message: seq<byte>): ChallengeResult {
    if !Utf8.Valid(message) then Refused(PromptNotText)
    else
      match NextLine(message)
      case None => Refused(UnexpectedPrompt)
      case Some((line, rest)) =>
        if line != Prompt() then Refused(UnexpectedPrompt)
        else
          match NextLine(rest)
          case None => Refused(MissingChallenge)
          case Some((challenge, _)) => Found(challenge)
  }

  predicate ClientAccepts(reply: seq<byte>) {
    Utf8.Valid(reply) && StartsWith(reply, HAPPY[..5])
  }

  // ---- The accepted answers, exactly ----

  /** Of all 129 octet answers exactly those are accepted that are the expected digest followed by one
      ASCII white space octet. */
  lemma JudgeExact(response: seq<byte>, expected: seq<byte>)
    requires |response| == RESPONSE_LENGTH && |expected| == 128
    requires forall b :: b in expected ==> 48 <= b <= 57 || 97 <= b <= 102
    ensures Judge(response, expected) == Happy <==>
            response[..128] == expected && Utf8.AsciiSpace(response[128])
  {
    var n := Utf8.LastSpace(response);
    if response[..128] == expected && Utf8.AsciiSpace(response[128]) {
      assert n == 1;
      assert response[127] == expected[127] && expected[127] in expected;
      assert Utf8.TrimEnd(response) == Utf8.TrimEnd(expected) == expected;
      forall i | 0 <= i < |response| ensures response[i] < 0x80 {
        if i < 128 {
          assert response[i] == expected[i] && expected[i] in expected;
        }
      }
      Utf8.AsciiIsValid(response);
    }
    if Utf8.TrimEnd(response) == expected {
      assert n > 0;
      assert Utf8.TrimEnd(response) <= response[..129 - n];
      assert n == 1;
    }
  }

  // ---- The challenge on the wire ----

  /** For every clock value and random octets the request stays within 137 octets, so the over-length
      branch is never taken and the client's buffer always holds it. */
  lemma RequestFits(random: seq<byte>, seconds: int)
    requires |random| == 32 && seconds < 0x1_0000_0000_0000_0000
    ensures |Request(Challenge(random, ElapsedMinutes(seconds)))| <= 137 < CHALLENGE_REQUEST_BUFFER_LENGTH
  {
    assert Decimal.Pow10(6) == 1_000_000;
    assert Decimal.Pow10(12) == 1_000_000_000_000;
    assert Decimal.Pow10(18) == 1_000_000_000_000_000_000;
    Decimal.PrintLength(ElapsedMinutes(seconds), 18);
  }

  /** What the client finds in the first k octets of a request: nothing usable up to the first line,
      then the challenge cut at the read boundary. */
  lemma ParsePrefix(challenge: seq<byte>, k: nat)
    requires k <= |Request(challenge)| && forall b :: b in challenge ==> Plain(b)
    ensures var message := Request(challenge)[..k];
            if k <= PROMPT_LENGTH + 1 then ParseRequest(message).Refused?
            else ParseRequest(message) == Found(challenge[..Min(k - PROMPT_LENGTH - 1, |challenge|)])
  {
    var request := Request(challenge);
    var message := request[..k];
    assert forall i :: 0 <= i < |request| ==> request[i] < 0x80 by {
      forall i | 0 <= i < |request| ensures request[i] < 0x80 {
        if PROMPT_LENGTH < i < |request| - 1 {
          assert request[i] == challenge[i - PROMPT_LENGTH - 1];
          assert Plain(challenge[i - PROMPT_LENGTH - 1]);
        } else if i < PROMPT_LENGTH {
          assert request[i] == Prompt()[i];
        }
      }
    }
    Utf8.AsciiIsValid(message);
    var i := IndexOf(message, NEWLINE);
    if k <= PROMPT_LENGTH {
      assert forall j :: 0 <= j < k ==> message[j] == Prompt()[j];
      assert i == |message|;
    } else {
      FirstLineOfRequest(challenge, k);
      if k > PROMPT_LENGTH + 1 {
        SecondLineOfRequest(challenge, k);
      }
    }
  }

  lemma FirstLineOfRequest(challenge: seq<byte>, k: nat)
    requires PROMPT_LENGTH < k <= |Request(challenge)|
    ensures NextLine(Request(challenge)[..k]) == Some((Prompt(), Request(challenge)[PROMPT_LENGTH + 1..k]))
  {
    var message := Request(challenge)[..k];
    assert forall j :: 0 <= j < PROMPT_LENGTH ==> message[j] == Prompt()[j];
    assert message[PROMPT_LENGTH] == NEWLINE;
    var i := IndexOf(message, NEWLINE);
    assert i == PROMPT_LENGTH;
    assert message[..i] == Prompt();
    assert message[i - 1] == Prompt()[i - 1];
    assert message[i + 1..] == Request(challenge)[i + 1..k];
  }

  lemma SecondLineOfRequest(challenge: seq<byte>, k: nat)
    requires PROMPT_LENGTH + 1 < k <= |Request(challenge)| && forall b :: b in challenge ==> Plain(b)
    ensures var line := NextLine(Request(challenge)[PROMPT_LENGTH + 1..k]);
            line.Some? && line.value.0 == challenge[..Min(k - PROMPT_LENGTH - 1, |challenge|)]
  {
    var n := k - PROMPT_LENGTH - 1;
    var rest := Request(challenge)[PROMPT_LENGTH + 1..k];
    assert forall j :: 0 <= j < n && j < |challenge| ==> rest[j] == challenge[j] && Plain(challenge[j]);
    var i := IndexOf(rest, NEWLINE);
    assert n > |challenge| ==> rest[|challenge|] == NEWLINE;
    assert i == Min(n, |challenge|);
    assert rest[..i] == challenge[..i];
    if i == |rest| {
      assert rest == challenge[..i];
    } else {
      assert i > 0 ==> Plain(rest[i - 1]);
    }
  }

  /** The client recovers exactly the server's challenge from a request read whole. */
  lemma ChallengeRoundTrip(random: seq<byte>, seconds: int)
    requires |random| == 32 && seconds < 0x1_0000_0000_0000_0000
    ensures var challenge := Challenge(random, ElapsedMinutes(seconds));
            ParseRequest(Request(challenge)) == Found(challenge)
  {
    var challenge := Challenge(random, ElapsedMinutes(seconds));
    var request := Request(challenge);
    ParsePrefix(challenge, |request|);
    assert request[..|request|] == request;
    assert challenge[..|challenge|] == challenge;
  }

  // ---- What makes the two ends agree ----

  /** The two different inputs x and y do not happen to have the same digest. */
  ghost predicate NoCollision(hash: Hash, x: seq<byte>, y: seq<byte>) {
    hash(x) == hash(y) ==> x == y
  }

  lemma {:induction false} HexInjective(x: seq<byte>, y: seq<byte>)
    requires |x| == |y| && Hex(x) == Hex(y)
    ensures x == y
  {
    if x != [] {
      assert Hex(x)[0] == HexDigit(x[0] / 16) && Hex(y)[0] == HexDigit(y[0] / 16);
      assert Hex(x)[1] == HexDigit(x[0] % 16) && Hex(y)[1] == HexDigit(y[0] % 16);
      assert x[0] == y[0];
      assert Hex(x)[2..] == Hex(x[1..]) && Hex(y)[2..] == Hex(y[1..]);
      HexInjective(x[1..], y[1..]);
      assert x == [x[0]] + x[1..] && y == [y[0]] + y[1..];
    }
  }

  /** The server is satisfied exactly when the digests agree. */
  lemma ServerSatisfied(hash: Hash, seen: seq<byte>, clientKey: seq<byte>, challenge: seq<byte>, serverKey: seq<byte>)
    ensures Judge(Expected(hash, seen, clientKey) + [NEWLINE], Expected(hash, challenge, serverKey)) == Happy
            <==> hash(seen + clientKey) == hash(challenge + serverKey)
  {
    var answer := Expected(hash, seen, clientKey);
    var expected := Expected(hash, challenge, serverKey);
    JudgeExact(answer + [NEWLINE], expected);
    assert (answer + [NEWLINE])[..128] == answer;
    if answer == expected {
      HexInjective(hash(seen + clientKey), hash(challenge + serverKey));
    }
  }

  /** Reading m octets of a verdict: only a HAPPY read up to its fifth octet is accepted. */
  lemma VerdictReads(m: nat)
    ensures m <= |HAPPY| ==> (ClientAccepts(HAPPY[..m]) <==> m >= 5)
    ensures m <= |BAD| ==> !ClientAccepts(BAD[..m])
  {
    if m <= |HAPPY| {
      Utf8.AsciiIsValid(HAPPY[..m]);
      if m >= 5 {
        assert HAPPY[..m][..5] == HAPPY[..5];
      }
    }
  }
}
