/** The authentication of the two ends together (protocol/auth.rs): the server's stage and the client's stage run
    against each other on one ordered stream in each direction, whatever their reads return. */
module Agreement {
  import opened Bytes
  import opened Channels
  import opened Auth
  import opened ServerStages
  import opened ClientStages
  import Utf8

  datatype Keys = Keys(hash: Hash, challenge: seq<byte>, server: seq<byte>, client: seq<byte>)

  /** What the environment chooses: how many messages each end can write, how each direction ends, and how much of
      what the server writes reaches the client's reads. The first read returns `first`, then `rest` is still to come,
      of which the second read returns m octets. */
  datatype Reads = Reads(first: seq<byte>, rest: seq<byte>, m: nat, toClient: Ending, toServer: Ending,
                         serverWrites: nat, clientWrites: nat)

  ghost function ClientRun(k: Keys, e: Reads): Stage<ClientAuthOutcome>
    requires e.m <= |e.rest|
  {
    ClientAuthSpec(k.hash, k.client, e.first, e.rest, e.toClient, e.clientWrites, e.m)
  }

  /** The server reads whatever the client wrote. */
  ghost function ServerRun(k: Keys, e: Reads): Stage<AuthOutcome>
    requires e.m <= |e.rest|
  {
    AuthSpec(Request(k.challenge), response => Judge(response, Expected(k.hash, k.challenge, k.server)),
             ClientRun(k, e).effect.replies, e.toServer, e.serverWrites)
  }

  /** The first read returns before the client has answered, and so holds octets of the request only. */
  ghost predicate Begins(k: Keys, e: Reads) {
    e.m <= |e.rest| && e.m <= VERDICT_BUFFER_LENGTH && e.first <= Request(k.challenge)
  }

  /** The octets the client meets are a prefix of what the server writes, in order. What the first read leaves of the
      request comes before the verdict. */
  ghost predicate Possible(k: Keys, e: Reads) {
    Begins(k, e) && e.first + e.rest <= ServerRun(k, e).effect.replies
  }

  /** The part of the challenge that a first read of that many octets covers. */
  ghost function Seen(challenge: seq<byte>, length: nat): seq<byte> {
    if length <= PROMPT_LENGTH + 1 then [] else challenge[..Min(length - PROMPT_LENGTH - 1, |challenge|)]
  }

  /** The client writes the answer to the part of the challenge it saw, or nothing. */
  lemma ClientWrites(k: Keys, e: Reads)
    requires Begins(k, e) && forall b :: b in k.challenge ==> Plain(b)
    ensures var answered := |e.first| > PROMPT_LENGTH + 1 && e.clientWrites > 0;
            var client := ClientRun(k, e);
            && client.effect.replies ==
               (if answered then Expected(k.hash, Seen(k.challenge, |e.first|), k.client) + [NEWLINE] else [])
            && (client.outcome == Accepted ==> answered)
            && (answered ==> client.outcome == ReadVerdict(e.rest[..e.m], e.toClient))
  {
    ParsePrefix(k.challenge, |e.first|);
    assert e.first == Request(k.challenge)[..|e.first|];
    EmptyRequest();
  }

  lemma EmptyRequest()
    ensures ParseRequest([]) == Refused(UnexpectedPrompt)
  {
  }

  /** The server is satisfied exactly by the answer to its own challenge under its own key; it writes HAPPY exactly
      then. */
  lemma ServerDecides(k: Keys, e: Reads)
    requires Begins(k, e) && forall b :: b in k.challenge ==> Plain(b)
    ensures var server, request := ServerRun(k, e), Request(k.challenge);
            && (server.outcome == Authenticated <==>
                  && |e.first| > PROMPT_LENGTH + 1 && e.clientWrites > 0 && e.serverWrites >= 2
                  && k.hash(Seen(k.challenge, |e.first|) + k.client) == k.hash(k.challenge + k.server))
            && (server.outcome == Authenticated ==> server.effect.replies == request + HAPPY)
            && (server.outcome != Authenticated ==> server.effect.replies in {[], request, request + BAD})
  {
    ClientWrites(k, e);
    var answer := ClientRun(k, e).effect.replies;
    AuthDecides(Request(k.challenge), response => Judge(response, Expected(k.hash, k.challenge, k.server)), answer,
                e.toServer, e.serverWrites);
    if answer != [] {
      assert answer[..RESPONSE_LENGTH] == answer;
      ServerSatisfied(k.hash, Seen(k.challenge, |e.first|), k.client, k.challenge, k.server);
    }
  }

  /** What the server writes, by its judgement. */
  lemma AuthDecides(request: seq<byte>, judge: seq<byte> -> Verdict, input: seq<byte>, ending: Ending, writable: nat)
    ensures var server := AuthSpec(request, judge, input, ending, writable);
            && (server.outcome == Authenticated <==>
                  writable >= 2 && |input| >= RESPONSE_LENGTH && judge(input[..RESPONSE_LENGTH]) == Happy)
            && (server.outcome == Authenticated ==> server.effect.replies == request + HAPPY)
            && (server.outcome != Authenticated ==> server.effect.replies in {[], request, request + BAD})
  {
  }

  lemma NotHappy(reply: seq<byte>)
    requires reply != [] && reply[0] != HAPPY[0]
    ensures !StartsWith(reply, HAPPY[..5])
  {
    assert HAPPY[..5][0] == HAPPY[0];
    assert |reply| >= 5 ==> reply[..5][0] == reply[0];
  }

  /** The client's decision on its second read, by what the first read left of the request. */
  lemma ClientDecides(request: seq<byte>, verdict: seq<byte>, first: seq<byte>, rest: seq<byte>, m: nat, ending: Ending)
    requires first <= request && first + rest <= request + verdict && m <= |rest|
    requires verdict in {[], HAPPY, BAD}
    requires |first| < |request| ==> request[|first|] != HAPPY[0]
    ensures ReadVerdict(rest[..m], ending) == Accepted <==> first == request && verdict == HAPPY && m >= 5
  {
    var reply := rest[..m];
    assert forall i :: 0 <= i < |rest| ==> (request + verdict)[|first| + i] == (first + rest)[|first| + i] == rest[i];
    if |first| < |request| {
      if m > 0 {
        assert reply[0] == request[|first|];
        NotHappy(reply);
      }
    } else {
      assert first == request;
      assert reply == verdict[..m];
      VerdictReads(m);
    }
  }

  /** No capital letter follows in a request after its first line. */
  lemma NoCapital(challenge: seq<byte>, i: nat)
    requires PROMPT_LENGTH < i < |Request(challenge)| && forall b :: b in challenge ==> Plain(b)
    ensures Request(challenge)[i] != HAPPY[0]
  {
    if PROMPT_LENGTH < i < |Request(challenge)| - 1 {
      var b := challenge[i - PROMPT_LENGTH - 1];
      assert Request(challenge)[i] == b;
      assert Plain(b);
    }
  }

  /** No accidental collision between the digests the two ends compare. */
  ghost predicate Collisionless(k: Keys) {
    forall j :: 0 <= j <= |k.challenge| ==> NoCollision(k.hash, k.challenge[..j] + k.client, k.challenge + k.server)
  }

  /** Agreement and completeness, for any keys and whatever the two reads return. The server is satisfied exactly when
      both ends could write and what the client saw of the challenge, followed by its key, is the challenge followed
      by the server's key. The client is satisfied exactly when, besides, its first read returned the whole request
      and its second read at least five octets: what the first read left of the request would come before the
      verdict. */
  lemma Agreement(k: Keys, e: Reads)
    requires k.challenge != [] && Collisionless(k) && forall b :: b in k.challenge ==> Plain(b)
    requires Possible(k, e)
    ensures var server := ServerRun(k, e).outcome == Authenticated;
            var client := ClientRun(k, e).outcome == Accepted;
            && (server <==> && e.serverWrites >= 2 && e.clientWrites >= 1
                            && Seen(k.challenge, |e.first|) + k.client == k.challenge + k.server
                            && |e.first| > PROMPT_LENGTH + 1)
            && (client <==> server && e.first == Request(k.challenge) && e.m >= 5)
  {
    ClientWrites(k, e);
    ServerDecides(k, e);
    var request, n := Request(k.challenge), |e.first|;
    if n > PROMPT_LENGTH + 1 {
      assert NoCollision(k.hash, Seen(k.challenge, n) + k.client, k.challenge + k.server);
      if n < |request| {
        NoCapital(k.challenge, n);
      }
      var replies := ServerRun(k, e).effect.replies;
      var verdict := if replies == [] then [] else replies[|request|..];
      assert verdict in {[], HAPPY, BAD} && e.first + e.rest <= request + verdict;
      ClientDecides(request, verdict, e.first, e.rest, e.m, e.toClient);
    }
  }

  /** With equal keys the server is satisfied exactly when the first read covered the challenge; with the whole
      request read, exactly when the keys are equal. */
  lemma KeysAndReads(k: Keys, e: Reads)
    requires k.challenge != [] && Collisionless(k) && forall b :: b in k.challenge ==> Plain(b)
    requires Possible(k, e) && e.serverWrites >= 2 && e.clientWrites >= 1
    ensures var server := ServerRun(k, e).outcome == Authenticated;
            && (k.client == k.server ==> (server <==> |e.first| >= |Request(k.challenge)| - 1))
            && (|e.first| >= |Request(k.challenge)| - 1 ==> (server <==> k.client == k.server))
  {
    Agreement(k, e);
    var seen := Seen(k.challenge, |e.first|);
    if seen + k.client == k.challenge + k.server {
      if k.client == k.server {
        assert |seen| == |k.challenge|;
      }
      if |seen| == |k.challenge| {
        assert k.client == (seen + k.client)[|seen|..] == (k.challenge + k.server)[|seen|..] == k.server;
      }
    }
  }

  /** The first read may leave the last newline of the request behind. Then, with equal keys, the server says HAPPY
      and the client refuses it, however much its second read returns: the reply it sees starts with that newline. */
  lemma NewlineLeftBehind(k: Keys, e: Reads)
    requires k.challenge != [] && Collisionless(k) && k.client == k.server && forall b :: b in k.challenge ==> Plain(b)
    requires Possible(k, e) && e.serverWrites >= 2 && e.clientWrites >= 1
    requires |e.first| == |Request(k.challenge)| - 1 && e.m >= 1
    ensures ServerRun(k, e).outcome == Authenticated && ClientRun(k, e).outcome == RejectedWith(e.rest[..e.m])
  {
    KeysAndReads(k, e);
    ClientWrites(k, e);
    ServerDecides(k, e);
    NewlineFirst(Request(k.challenge), e.first, e.rest, e.m, e.toClient);
  }

  lemma NewlineFirst(request: seq<byte>, first: seq<byte>, rest: seq<byte>, m: nat, ending: Ending)
    requires |request| == |first| + 1 && request[|first|] == NEWLINE
    requires first + rest <= request + HAPPY && 1 <= m <= |rest|
    ensures ReadVerdict(rest[..m], ending) == RejectedWith(rest[..m])
  {
    var reply := rest[..m];
    forall i | 0 <= i < |rest| ensures rest[i] == if i == 0 then NEWLINE else HAPPY[i - 1] {
      assert rest[i] == (first + rest)[|first| + i] == (request + HAPPY)[|first| + i];
    }
    Utf8.AsciiIsValid(reply);
    NotHappy(reply);
  }

  /** Such an exchange is possible: its second read returns the newline and the whole verdict. */
  lemma NewlineCanBeLeftBehind(k: Keys) returns (e: Reads)
    requires k.challenge != [] && Collisionless(k) && k.client == k.server && forall b :: b in k.challenge ==> Plain(b)
    ensures Possible(k, e) && e.serverWrites >= 2 && e.clientWrites >= 1 && e.m == 7
    ensures |e.first| == |Request(k.challenge)| - 1
  {
    var request := Request(k.challenge);
    var first := request[..|request| - 1];
    e := Reads(first, [NEWLINE] + HAPPY, 7, Silent, Silent, 2, 1);
    assert Seen(k.challenge, |first|) == k.challenge;
    ServerDecides(k, e);
    assert first + e.rest == request + HAPPY;
  }

  // ---- Every ending of the server's stage ----

  /** The response that proves the key: the digest in hexadecimal, and one white space octet. */
  predicate Proves(hash: Hash, challenge: seq<byte>, key: seq<byte>, response: seq<byte>) {
    |response| == RESPONSE_LENGTH && response[..128] == Expected(hash, challenge, key) && Utf8.AsciiSpace(response[128])
  }

  /** What the server's stage comes to, for any octets of any client: a response cut short, one that is not text, one
      that proves the key, one that does not, or a message that could not be written; and what it has written then. */
  lemma ServerExact(hash: Hash, challenge: seq<byte>, key: seq<byte>, input: seq<byte>, ending: Ending, writable: nat)
    ensures var judge := (response: seq<byte>) => Judge(response, Expected(hash, challenge, key));
            var run, request := AuthSpec(Request(challenge), judge, input, ending, writable), Request(challenge);
            if writable == 0 then run == Stage(AuthWriteFailed, NO_EFFECT)
            else if |input| < RESPONSE_LENGTH then run == Stage(AuthCut(After(ending)), Effect(request, |input|, 1))
            else if !Utf8.Valid(input[..RESPONSE_LENGTH]) then
              run == Stage(ResponseNotText, Effect(request, RESPONSE_LENGTH, 1))
            else if writable == 1 then run == Stage(AuthWriteFailed, Effect(request, RESPONSE_LENGTH, 1))
            else if Proves(hash, challenge, key, input[..RESPONSE_LENGTH]) then
              run == Stage(Authenticated, Effect(request + HAPPY, RESPONSE_LENGTH, 2))
            else run == Stage(Mismatch, Effect(request + BAD, RESPONSE_LENGTH, 2))
  {
    var expected := Expected(hash, challenge, key);
    var judge := (response: seq<byte>) => Judge(response, expected);
    if |input| >= RESPONSE_LENGTH {
      var response := input[..RESPONSE_LENGTH];
      JudgeExact(response, expected);
      NotTextExact(response, expected);
    }
  }

  lemma NotTextExact(response: seq<byte>, expected: seq<byte>)
    ensures Judge(response, expected) == NotText <==> !Utf8.Valid(response)
  {
  }

  /** A different digest, as it is sent, is judged bad. */
  lemma WrongDigestIsBad(hash: Hash, seen: seq<byte>, clientKey: seq<byte>, challenge: seq<byte>, serverKey: seq<byte>)
    requires hash(seen + clientKey) != hash(challenge + serverKey)
    ensures Judge(Expected(hash, seen, clientKey) + [NEWLINE], Expected(hash, challenge, serverKey)) == Bad
  {
    var digits := Expected(hash, seen, clientKey);
    forall i | 0 <= i < |digits + [NEWLINE]| ensures (digits + [NEWLINE])[i] < 0x80 {
      assert i < 128 ==> digits[i] in digits;
    }
    Utf8.AsciiIsValid(digits + [NEWLINE]);
    ServerSatisfied(hash, seen, clientKey, challenge, serverKey);
    NotTextExact(digits + [NEWLINE], Expected(hash, challenge, serverKey));
  }

  lemma BadIsTold(request: seq<byte>, judge: seq<byte> -> Verdict, answer: seq<byte>, ending: Ending, writable: nat)
    requires writable >= 2 && |answer| == RESPONSE_LENGTH && judge(answer) == Bad
    ensures AuthSpec(request, judge, answer, ending, writable)
            == Stage(Mismatch, Effect(request + BAD, RESPONSE_LENGTH, 2))
  {
    assert answer[..RESPONSE_LENGTH] == answer;
  }

  /** A client that answers with another digest, because of its key or of a challenge cut short, is told BAD. */
  lemma WrongAnswerGetsBad(k: Keys, e: Reads)
    requires Begins(k, e) && forall b :: b in k.challenge ==> Plain(b)
    requires |e.first| > PROMPT_LENGTH + 1 && e.clientWrites >= 1 && e.serverWrites >= 2
    requires k.hash(Seen(k.challenge, |e.first|) + k.client) != k.hash(k.challenge + k.server)
    ensures ServerRun(k, e).outcome == Mismatch && ServerRun(k, e).effect.replies == Request(k.challenge) + BAD
  {
    ClientWrites(k, e);
    WrongDigestIsBad(k.hash, Seen(k.challenge, |e.first|), k.client, k.challenge, k.server);
    BadIsTold(Request(k.challenge), response => Judge(response, Expected(k.hash, k.challenge, k.server)),
              ClientRun(k, e).effect.replies, e.toServer, e.serverWrites);
  }
}
