/** The client's sequential stages on the control stream (protocol/auth.rs, protocol/keepalive.rs). Unlike
    the server's, their outcome depends on how the server's octets are cut into chunks; the chunks are
    therefore part of what each method reports. */
module ClientStages {
  import opened Bytes
  import opened Options
  import opened Channels
  import opened Auth
  import opened ServerStages
  import Utf8

  datatype ClientAuthOutcome =
    | Accepted
    | Unusable(error: ClientError)
    | ReplyNotText
    | RejectedWith(reply: seq<byte>)
    | AuthReadError
    | Hangs
    | SendFailed

  /** What the client does with a request, when its second read returns m octets. */
  function AnswerSpec(hash: Hash, psk: seq<byte>, request: ChallengeResult, input: seq<byte>, ending: Ending,
                      writable: nat, m: nat)
    : Stage<ClientAuthOutcome>
    requires m <= |input|
  {
    match request
    case Refused(error) => Stage(Unusable(error), NO_EFFECT)
    case Found(challenge) =>
      if writable == 0 then Stage(SendFailed, NO_EFFECT)
      else Stage(ReadVerdict(input[..m], ending), Effect(Expected(hash, challenge, psk) + [NEWLINE], m, 1))
  }

  /** Authentication of the client when its first read returns the octets `first`, the octets `rest` are still to come,
      and its second read returns m of them. A read at the end of the stream returns no octets. */
  function ClientAuthSpec(hash: Hash, psk: seq<byte>, first: seq<byte>, rest: seq<byte>, ending: Ending,
                          writable: nat, m: nat)
    : Stage<ClientAuthOutcome>
    requires m <= |rest|
  {
    if first == [] && ending != Fin then Stage(if ending == Broken then AuthReadError else Hangs, NO_EFFECT)
    else Following(Effect([], |first|, 0), AnswerSpec(hash, psk, ParseRequest(first), rest, ending, writable, m))
  }

  /** A read that may return nothing: its octets and whether the stream ended otherwise than normally. */
  method ReadOnce(ch: Channel, capacity: nat) returns (data: seq<byte>, fault: bool)
    requires capacity > 0
    modifies ch`incoming
    ensures old(ch.incoming) == data + ch.incoming && |data| <= capacity
    ensures data == [] <==> old(ch.incoming) == []
    ensures fault <==> data == [] && ch.ending != Fin
  {
    var r := ch.Read(capacity);
    data := if r.Got? then r.data else [];
    fault := r.Nothing? && r.why != EndOfStream;
  }

  method ClientAuthenticate(ch: Channel, hash: Hash, psk: seq<byte>)
    returns (r: ClientAuthOutcome, ghost first: seq<byte>, ghost rest: seq<byte>, ghost m: nat)
    modifies ch
    ensures old(ch.incoming) == first + rest && |first| <= CHALLENGE_REQUEST_BUFFER_LENGTH
    ensures m <= |rest| && m <= VERDICT_BUFFER_LENGTH
    ensures first == [] ==> rest == []
    ensures var spec := ClientAuthSpec(hash, psk, first, rest, ch.ending, old(ch.writable), m);
            r == spec.outcome && ch.Went(spec.effect)
    ensures r == Accepted || r.RejectedWith? ==> (m == 0 <==> rest == [])
  {
    var message, fault := ReadOnce(ch, CHALLENGE_REQUEST_BUFFER_LENGTH);
    first, rest, m := message, ch.incoming, 0;
    if fault { return if ch.ending == Broken then AuthReadError else Hangs, first, rest, m; }
    ghost var before := ch.State();
    r, m := Answer(ch, hash, psk, ParseRequest(message));
    ClientAnswered(hash, psk, old(ch.State()), ch.ending, message, before, ch.State(), r, m);
  }

  lemma ClientAnswered(hash: Hash, psk: seq<byte>, from: End, ending: Ending, first: seq<byte>, mid: End, to: End,
                       r: ClientAuthOutcome, m: nat)
    requires from.incoming == first + mid.incoming && mid.outgoing == from.outgoing && mid.writable == from.writable
    requires first == [] ==> ending == Fin
    requires m <= |mid.incoming| &&
             Ran(AnswerSpec(hash, psk, ParseRequest(first), mid.incoming, ending, mid.writable, m), mid, to, r)
    ensures Ran(ClientAuthSpec(hash, psk, first, mid.incoming, ending, from.writable, m), from, to, r)
  {
    TakePrefix(first, mid.incoming);
    var answer := AnswerSpec(hash, psk, ParseRequest(first), mid.incoming, ending, mid.writable, m);
    RanTwice(Effect([], |first|, 0), answer, from, mid, to, r);
  }

  /** Sends the response to a usable request and reads the verdict. */
  method Answer(ch: Channel, hash: Hash, psk: seq<byte>, request: ChallengeResult)
    returns (r: ClientAuthOutcome, ghost m: nat)
    modifies ch
    ensures m <= |old(ch.incoming)| && m <= VERDICT_BUFFER_LENGTH
    ensures var spec := AnswerSpec(hash, psk, request, old(ch.incoming), ch.ending, old(ch.writable), m);
            r == spec.outcome && ch.Went(spec.effect)
    ensures r == Accepted || r.RejectedWith? ==> (m == 0 <==> old(ch.incoming) == [])
  {
    m := 0;
    if request.Refused? { return Unusable(request.error), m; }
    var ok := ch.WriteAll(Expected(hash, request.challenge, psk) + [NEWLINE]);
    if !ok { return SendFailed, m; }
    var reply, _ := ReadOnce(ch, VERDICT_BUFFER_LENGTH);
    m := |reply|;
    TakePrefix(reply, ch.incoming);
    r := ReadVerdict(reply, ch.ending);
  }

  lemma TakePrefix(a: seq<byte>, b: seq<byte>)
    ensures (a + b)[..|a|] == a && (a + b)[|a|..] == b
  {
  }

  /** The client's decision on what its second read returned. */
  function ReadVerdict(reply: seq<byte>, ending: Ending): ClientAuthOutcome {
    if reply == [] && ending == Broken then AuthReadError
    else if reply == [] && ending == Silent then Hangs
    else if !Utf8.Valid(reply) then ReplyNotText
    else if StartsWith(reply, HAPPY[..5]) then Accepted
    else RejectedWith(reply)
  }

  // ---- The keepalive loop of the client ----

  datatype KeepaliveEnd = PingFailed | RemoteClosed | WrongReply(line: seq<byte>) | PongReadError | PongTimedOut

  /** One `read_until` on a fresh buffered reader: whole chunks are taken from the stream until one holds a
      newline; what the reader holds beyond that newline is lost with it. */
  method ReadReply(ch: Channel) returns (line: seq<byte>, stop: ReadResult, ghost lost: seq<byte>)
    modifies ch`incoming
    ensures old(ch.incoming) == line + lost + ch.incoming
    ensures stop.Got? ==> line != [] && IndexOf(line, NEWLINE) == |line| - 1
    ensures stop.Nothing? ==> NEWLINE !in line && lost == [] && ch.incoming == [] && stop.why == After(ch.ending)
  {
    line, lost := [], [];
    while true
      invariant old(ch.incoming) == line + ch.incoming && NEWLINE !in line
      decreases |ch.incoming|
    {
      stop := ch.Read(BUFFER_CAPACITY);
      if stop.Nothing? { return; }
      var i := IndexOf(stop.data, NEWLINE);
      if i < |stop.data| {
        CutAtNewline(line, stop.data, ch.incoming);
        line, lost := line + stop.data[..i + 1], stop.data[i + 1..];
        return;
      }
      Regroup(line, stop.data, ch.incoming);
      line := line + stop.data;
    }
  }

  /** A chunk that holds the first newline is cut after it. */
  lemma CutAtNewline(line: seq<byte>, data: seq<byte>, rest: seq<byte>)
    requires NEWLINE !in line && IndexOf(data, NEWLINE) < |data|
    ensures var i := IndexOf(data, NEWLINE);
            && line + (data + rest) == (line + data[..i + 1]) + data[i + 1..] + rest
            && IndexOf(line + data[..i + 1], NEWLINE) == |line| + i
  {
    var i := IndexOf(data, NEWLINE);
    var head, tail := data[..i + 1], data[i + 1..];
    assert data == head + tail && head == data[..i] + [NEWLINE];
    NewlineAtEnd(line, data[..i], head);
    CutTwice(line, head, tail, rest);
  }

  lemma NewlineAtEnd(line: seq<byte>, text: seq<byte>, head: seq<byte>)
    requires NEWLINE !in line && NEWLINE !in text && head == text + [NEWLINE]
    ensures IndexOf(line + head, NEWLINE) == |line| + |text|
  {
    IndexOfConcat(text, [NEWLINE], NEWLINE);
    IndexOfConcat(line, head, NEWLINE);
  }

  lemma CutTwice(line: seq<byte>, head: seq<byte>, tail: seq<byte>, rest: seq<byte>)
    ensures line + ((head + tail) + rest) == (line + head) + tail + rest
  {
  }

  /** What n accepted rounds take from the stream: each a PONG and whatever its reader lost. */
  ghost function Rounds(lost: seq<seq<byte>>): seq<byte> {
    if lost == [] then [] else Rounds(lost[..|lost| - 1]) + PONG + lost[|lost| - 1]
  }

  lemma RoundsGrow(lost: seq<seq<byte>>, dropped: seq<byte>, rest: seq<byte>)
    ensures Rounds(lost + [dropped]) + rest == Rounds(lost) + (PONG + dropped + rest)
  {
    assert (lost + [dropped])[..|lost|] == lost;
  }

  /** The loop sends one PING more than it accepts PONGs, unless a PING itself cannot be written, and
      everything it takes from the stream is accepted rounds and one last, unaccepted, reply. */
  method RunKeepaliveClientLoop(ch: Channel)
    returns (end: KeepaliveEnd, pongs: nat, ghost lost: seq<seq<byte>>, ghost last: seq<byte>)
    modifies ch
    ensures |lost| == pongs
    ensures old(ch.incoming) == Rounds(lost) + last + ch.incoming
    ensures ch.outgoing == old(ch.outgoing) + Repeat(PING, if end == PingFailed then pongs else pongs + 1)
    ensures end == PingFailed <==> old(ch.writable) == pongs
    ensures Stopped(end, last, ch.incoming, ch.ending)
  {
    pongs, lost, last := 0, [], [];
    while true
      invariant |lost| == pongs && old(ch.incoming) == Rounds(lost) + ch.incoming && last == []
      invariant pongs <= old(ch.writable) && ch.writable == old(ch.writable) - pongs
      invariant ch.outgoing == old(ch.outgoing) + Repeat(PING, pongs)
      decreases |ch.incoming|
    {
      var stop, dropped, taken := PingOnce(ch);
      if stop.Some? {
        end, last := stop.value, taken;
        Regroup(Rounds(lost), taken, ch.incoming);
        Regroup(old(ch.outgoing), Repeat(PING, pongs), PING);
        return;
      }
      RoundsGrow(lost, dropped, ch.incoming);
      Regroup(old(ch.outgoing), Repeat(PING, pongs), PING);
      lost, pongs := lost + [dropped], pongs + 1;
    }
  }

  /** One turn of the loop: a PING, and the reply to it. */
  method PingOnce(ch: Channel) returns (end: Option<KeepaliveEnd>, ghost lost: seq<byte>, ghost taken: seq<byte>)
    modifies ch
    ensures old(ch.incoming) == taken + ch.incoming
    ensures old(ch.writable) == 0 <==> end == Some(PingFailed)
    ensures end == Some(PingFailed) ==> taken == [] && ch.outgoing == old(ch.outgoing)
    ensures end != Some(PingFailed) ==> ch.outgoing == old(ch.outgoing) + PING && ch.writable == old(ch.writable) - 1
    ensures end.None? ==> taken == PONG + lost
    ensures end.Some? ==> Stopped(end.value, taken, ch.incoming, ch.ending)
  {
    taken, lost := [], [];
    var ok := ch.WriteAll(PING);
    if !ok { return Some(PingFailed), lost, taken; }
    var line, stop, dropped := ReadReply(ch);
    lost, taken := dropped, line + dropped;
    if stop.Nothing? && stop.why == ReadError { return Some(PongReadError), lost, taken; }
    if stop.Nothing? && stop.why == NeverArrived { return Some(PongTimedOut), lost, taken; }
    if line == [] { return Some(RemoteClosed), lost, taken; }
    end := if line == PONG then None else Some(WrongReply(line));
  }

  /** What the last, unaccepted, reply looks like by how the loop ends. */
  ghost predicate Stopped(end: KeepaliveEnd, last: seq<byte>, rest: seq<byte>, ending: Ending) {
    match end
    case PingFailed => last == []
    case RemoteClosed => last == [] && rest == [] && ending == Fin
    case WrongReply(line) => line != PONG && line != [] && StartsWith(last, line)
    case PongReadError => NEWLINE !in last && rest == [] && ending == Broken
    case PongTimedOut => NEWLINE !in last && rest == [] && ending == Silent
  }
}
