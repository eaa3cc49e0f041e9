/** How a session can end, by the octets of the client: the decision on a line, the stages that can fail and the
    reason the connection is closed for, and the client's reading of what it is sent. */
module Outcomes {
  import opened Bytes
  import opened Options
  import opened Channels
  import opened PortSpecs
  import opened Auth
  import opened Challenges
  import opened ServerStages
  import opened ClientStages
  import opened Handler
  import Utf8

  /** The messages, octet by octet. */
  lemma MessagesExact()
    ensures PING == [80, 73, 78, 71, 10] && PONG == [80, 79, 78, 71, 10] && BYE == [66, 89, 69, 10]
    ensures LISTENPORT == [76, 73, 83, 84, 69, 78, 80, 79, 82, 84]
  {
  }

  // ---- The control loop ----

  /** A complete line decides by its text. */
  lemma LineDecides(line: seq<byte>, rest: seq<byte>, ending: Ending)
    requires NEWLINE !in line
    ensures Decide(line + [NEWLINE] + rest, ending)
            == (if line == [66, 89, 69] then SaidBye else Unexpected(line + [NEWLINE]), |line| + 1)
  {
    FirstLine(line, rest);
    assert BYE == [66, 89, 69] + [NEWLINE];
    assert line + [NEWLINE] == BYE ==> line == BYE[..3];
  }

  /** Without a complete line, the way the stream ends decides. */
  lemma EndDecides(line: seq<byte>)
    requires NEWLINE !in line
    ensures Decide(line, Fin) == (if line == [] then ClosedByRemote else Unexpected(line), |line|)
    ensures Decide(line, Broken) == (ReadFailed, |line|) && Decide(line, Silent) == (TimedOut, |line|)
  {
    FoundNowhere(line);
  }

  lemma MorePings(input: seq<byte>, n: nat, ending: Ending, writable: nat)
    requires LeadingPings(input) == n > writable
    ensures ControlSpec(input, ending, writable)
            == Stage(PongFailed, Effect(Repeat(PONG, writable), 5 * writable + 5, writable))
  {
  }

  /** With more PING lines than PONGs that can be written, as many as can are answered, and the next one ends the
      loop. */
  lemma PongCannotBeWritten(n: nat, rest: seq<byte>, ending: Ending, writable: nat)
    requires n > writable && !StartsWith(rest, PING)
    ensures ControlSpec(Repeat(PING, n) + rest, ending, writable)
            == Stage(PongFailed, Effect(Repeat(PONG, writable), 5 * writable + 5, writable))
  {
    var input := Repeat(PING, n) + rest;
    assert input[..5 * n] == Repeat(PING, n) && input[5 * n..] == rest;
    LeadingPingsExact(input, n);
    MorePings(input, n, ending, writable);
  }

  // ---- Why the connection is closed ----

  /** The configuration has begun and not come to its end. */
  predicate ConfigurationUnfinished(rest: seq<byte>) {
    |rest| < 10 || (|rest| < 12 && rest[..10] == LISTENPORT)
  }

  predicate AsksFor(rest: seq<byte>, port: u16) {
    StartsWith(rest, ConfigMessage(port))
  }

  lemma AskedPort(rest: seq<byte>, ending: Ending, port: u16)
    ensures AsksFor(rest, port) <==> ConfigSpec(rest, ending).outcome == Requested(port)
  {
    ConfigExact(rest, ending, port);
  }

  lemma ConfigurationCutExactly(rest: seq<byte>, ending: Ending)
    ensures ConfigSpec(rest, ending).outcome == ConfigCut(After(ending)) <==> ConfigurationUnfinished(rest)
    ensures ConfigSpec(rest, ending).outcome.ConfigCut? ==> ConfigSpec(rest, ending).outcome.why == After(ending)
  {
    ListenPortIsText();
  }

  /** A whole header that is not the right one: not text, or another text. */
  lemma HeaderExact(rest: seq<byte>, ending: Ending)
    ensures ConfigSpec(rest, ending).outcome == HeaderNotText <==> |rest| >= 10 && !Utf8.Valid(rest[..10])
    ensures ConfigSpec(rest, ending).outcome == HeaderUnknown
            <==> |rest| >= 10 && Utf8.Valid(rest[..10]) && rest[..10] != [76, 73, 83, 84, 69, 78, 80, 79, 82, 84]
  {
    MessagesExact();
    ListenPortIsText();
  }

  /** The reason of a session whose authentication failed: a timeout if the stream did not open in time or the
      response did not arrive, and otherwise a failure. */
  lemma UnverifiedReason(d: Decisions, host: Host, input: seq<byte>, ending: Ending, writable: nat)
    requires !AuthSucceeds(d, host, input, writable)
    ensures HandlerSpec(d, host, input, ending, writable).outcome
            == Report(if host.opening.Hangs?
                         || (host.opening == Opens && writable > 0 && |input| < RESPONSE_LENGTH && ending == Silent)
                      then AuthenticationTimedOut else FailedAuthentication, None, None)
  {
    AuthDecided(d, host, input, ending, writable);
  }

  lemma ConfiguredReason(d: Decisions, host: Host, rest: seq<byte>, ending: Ending, left: nat, port: u16)
    ensures var reason := ConfiguredSpec(d, host, rest, ending, left).outcome.reason;
            && (ConfigurationUnfinished(rest) ==>
                  reason == if ending == Silent then ConfigurationTimedOut else FailedConfiguration)
            && (AsksFor(rest, port) ==>
                  reason == if !d.allows(port) then PortNotAllowed
                            else if host.bindSucceeds then NormalShutdown else FailedBinding)
            && (!ConfigurationUnfinished(rest) && (forall p :: !AsksFor(rest, p)) ==> reason == FailedConfiguration)
  {
    var config := ConfigSpec(rest, ending);
    ConfigurationCutExactly(rest, ending);
    AskedPort(rest, ending, port);
    if config.outcome.Requested? {
      AskedPort(rest, ending, config.outcome.port);
    }
  }

  /** The reason of a verified session, by the octets after its response: unfinished, a port that is or is not
      allowed, or something else. */
  lemma VerifiedReason(d: Decisions, host: Host, input: seq<byte>, ending: Ending, writable: nat, port: u16)
    requires AuthSucceeds(d, host, input, writable)
    ensures var reason, rest := HandlerSpec(d, host, input, ending, writable).outcome.reason, input[RESPONSE_LENGTH..];
            && (ConfigurationUnfinished(rest) ==>
                  reason == if ending == Silent then ConfigurationTimedOut else FailedConfiguration)
            && (AsksFor(rest, port) ==>
                  reason == if !d.allows(port) then PortNotAllowed
                            else if host.bindSucceeds then NormalShutdown else FailedBinding)
            && (!ConfigurationUnfinished(rest) && (forall p :: !AsksFor(rest, p)) ==> reason == FailedConfiguration)
  {
    var left := writable - 2;
    AfterHappy(d, host, input, ending, writable, left);
    ConfiguredReason(d, host, input[RESPONSE_LENGTH..], ending, left, port);
  }

  // ---- What the client makes of what it reads ----

  /** Why a request is refused: it is not text, its first line is not the prompt, or no line follows. */
  lemma RequestErrorsExact(message: seq<byte>)
    ensures var prompted := NextLine(message).Some? && NextLine(message).value.0 == Prompt();
            && (ParseRequest(message) == Refused(PromptNotText) <==> !Utf8.Valid(message))
            && (ParseRequest(message) == Refused(UnexpectedPrompt) <==> Utf8.Valid(message) && !prompted)
            && (ParseRequest(message) == Refused(MissingChallenge)
                <==> Utf8.Valid(message) && prompted && NextLine(message).value.1 == [])
  {
  }

  /** How the client takes a reply: nothing came, it is not text, it begins with HAPPY, or it does not. */
  lemma ReplyExact(reply: seq<byte>, ending: Ending)
    ensures reply == [] ==>
              ReadVerdict(reply, ending) == match ending
                                            case Fin => RejectedWith([])
                                            case Broken => AuthReadError
                                            case Silent => ClientAuthOutcome.Hangs
    ensures reply != [] ==>
              ReadVerdict(reply, ending) == if !Utf8.Valid(reply) then ReplyNotText
                                            else if StartsWith(reply, [72, 65, 80, 80, 89]) then Accepted
                                            else RejectedWith(reply)
    ensures ReadVerdict(reply, Fin) == Accepted <==> ClientAccepts(reply)
  {
    assert HAPPY[..5] == [72, 65, 80, 80, 89];
  }

  lemma AfterRead(n: nat, stage: Stage<ClientAuthOutcome>)
    ensures Following(Effect([], n, 0), stage)
            == Stage(stage.outcome, Effect(stage.effect.replies, n + stage.effect.used, stage.effect.writes))
  {
    var none: seq<byte> := [];
    assert none + stage.effect.replies == stage.effect.replies;
  }

  lemma NothingRead()
    ensures ParseRequest([]) == Refused(UnexpectedPrompt)
  {
  }

  /** What the client's stage comes to when nothing comes before the stream fails or falls silent. */
  lemma ClientHearsNothing(hash: Hash, key: seq<byte>, rest: seq<byte>, ending: Ending, writable: nat, m: nat)
    requires m <= |rest| && ending != Fin
    ensures ClientAuthSpec(hash, key, [], rest, ending, writable, m)
            == Stage(if ending == Broken then AuthReadError else ClientAuthOutcome.Hangs, NO_EFFECT)
  {
  }

  /** What it comes to when it refuses the request. */
  lemma ClientRefuses(hash: Hash, key: seq<byte>, first: seq<byte>, rest: seq<byte>, ending: Ending, writable: nat,
                      m: nat, error: ClientError)
    requires m <= |rest| && ParseRequest(first) == Refused(error) && (first == [] ==> ending == Fin)
    ensures ClientAuthSpec(hash, key, first, rest, ending, writable, m)
            == Stage(Unusable(error), Effect([], |first|, 0))
  {
    AfterRead(|first|, Stage(Unusable(error), NO_EFFECT));
  }

  /** What it comes to when a challenge is found: a response that cannot be sent, or one whose reply is taken as
      above. */
  lemma ClientAnswers(hash: Hash, key: seq<byte>, first: seq<byte>, rest: seq<byte>, ending: Ending, writable: nat,
                      m: nat)
    requires m <= |rest| && ParseRequest(first).Found?
    ensures ClientAuthSpec(hash, key, first, rest, ending, writable, m)
            == if writable == 0 then Stage(SendFailed, Effect([], |first|, 0))
               else Stage(ReadVerdict(rest[..m], ending),
                          Effect(Expected(hash, ParseRequest(first).challenge, key) + [NEWLINE], |first| + m, 1))
  {
    NothingRead();
    assert first != [];
    AfterRead(|first|, AnswerSpec(hash, key, ParseRequest(first), rest, ending, writable, m));
  }
}
