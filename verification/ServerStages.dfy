/** The server's sequential stages on the control stream. Every stage is specified as a function of the
    whole octet sequence the client sends, and implemented by the reads the program performs. */
module ServerStages {
  import opened Bytes
  import opened Options
  import opened Channels
  import opened Auth
  import opened PortSpecs
  import Utf8

  // ---- Authentication (protocol/auth.rs) ----

  datatype AuthOutcome =
    | Authenticated
    | StreamNotOpened
    | Mismatch
    | ResponseNotText
    | AuthCut(why: Shortfall)
    | AuthWriteFailed

  /** The authentication stage as a function of the client's octets, the request the server sends and its judgement
      of a response. */
  function AuthSpec(request: seq<byte>, judge: seq<byte> -> Verdict, input: seq<byte>, ending: Ending, writable: nat)
    : Stage<AuthOutcome>
  {
    if writable == 0 then Stage(AuthWriteFailed, NO_EFFECT)
    else if |input| < RESPONSE_LENGTH then Stage(AuthCut(After(ending)), Effect(request, |input|, 1))
    else
      match judge(input[..RESPONSE_LENGTH])
      case NotText => Stage(ResponseNotText, Effect(request, RESPONSE_LENGTH, 1))
      case Happy =>
        if writable == 1 then Stage(AuthWriteFailed, Effect(request, RESPONSE_LENGTH, 1))
        else Stage(Authenticated, Effect(request + HAPPY, RESPONSE_LENGTH, 2))
      case Bad =>
        if writable == 1 then Stage(AuthWriteFailed, Effect(request, RESPONSE_LENGTH, 1))
        else Stage(Mismatch, Effect(request + BAD, RESPONSE_LENGTH, 2))
  }

  /** Sends the request, reads the response, verifies it and sends the verdict. */
  method ServerAuthenticate(ch: Channel, request: seq<byte>, judge: seq<byte> -> Verdict) returns (r: AuthOutcome)
    modifies ch
    ensures var spec := AuthSpec(request, judge, old(ch.incoming), ch.ending, old(ch.writable));
            r == spec.outcome && ch.Went(spec.effect)
  {
    var ok := ch.WriteAll(request);
    if !ok { return AuthWriteFailed; }
    var response := ch.ReadExact(RESPONSE_LENGTH);
    if response.Nothing? { return AuthCut(response.why); }
    match judge(response.data) {
      case NotText => return ResponseNotText;
      case Happy =>
        ok := ch.WriteAll(HAPPY);
        return if ok then Authenticated else AuthWriteFailed;
      case Bad =>
        ok := ch.WriteAll(BAD);
        return if ok then Mismatch else AuthWriteFailed;
    }
  }

  // ---- Configuration (protocol/control.rs) ----

  const LISTENPORT: seq<byte> := Ascii("LISTENPORT")

  datatype ConfigOutcome = Requested(port: u16) | HeaderNotText | HeaderUnknown | ConfigCut(why: Shortfall)

  function FromBigEndian(hi: byte, lo: byte): u16 {
    256 * hi + lo
  }

  /** The configuration message for a port. */
  function ConfigMessage(port: u16): seq<byte> {
    LISTENPORT + [port / 256, port % 256]
  }

  function ConfigSpec(input: seq<byte>, ending: Ending): Stage<ConfigOutcome> {
    if |input| < 10 then Stage(ConfigCut(After(ending)), Effect([], |input|, 0))
    else if !Utf8.Valid(input[..10]) then Stage(HeaderNotText, Effect([], 10, 0))
    else if input[..10] != LISTENPORT then Stage(HeaderUnknown, Effect([], 10, 0))
    else if |input| < 12 then Stage(ConfigCut(After(ending)), Effect([], |input|, 0))
    else Stage(Requested(FromBigEndian(input[10], input[11])), Effect([], 12, 0))
  }

  method ConfigureQuicClient(ch: Channel) returns (r: ConfigOutcome)
    modifies ch
    ensures var spec := ConfigSpec(old(ch.incoming), ch.ending); r == spec.outcome && ch.Went(spec.effect)
  {
    var header := ch.ReadExact(10);
    if header.Nothing? { return ConfigCut(header.why); }
    if !Utf8.Valid(header.data) { return HeaderNotText; }
    if header.data != LISTENPORT { return HeaderUnknown; }
    var port := ch.ReadExact(2);
    if port.Nothing? { return ConfigCut(port.why); }
    return Requested(FromBigEndian(port.data[0], port.data[1]));
  }

  lemma BigEndianExact(hi: byte, lo: byte, port: u16)
    ensures FromBigEndian(hi, lo) == port <==> hi == port / 256 && lo == port % 256
  {
  }

  lemma SplitEqual(s: seq<byte>, head: seq<byte>, tail: seq<byte>)
    requires |s| == |head| + |tail|
    ensures s == head + tail <==> s[..|head|] == head && s[|head|..] == tail
  {
    assert s == s[..|head|] + s[|head|..];
  }

  /** A port is requested exactly by its configuration message, whatever follows it. */
  lemma ConfigExact(input: seq<byte>, ending: Ending, port: u16)
    ensures ConfigSpec(input, ending).outcome == Requested(port) <==> StartsWith(input, ConfigMessage(port))
  {
    if |input| >= 12 {
      var m := input[..12];
      assert m[..10] == input[..10];
      assert m[10..] == [input[10], input[11]];
      SplitEqual(m, LISTENPORT, [port / 256, port % 256]);
      BigEndianExact(input[10], input[11], port);
      if input[..10] == LISTENPORT {
        ListenPortIsText();
      }
    }
  }

  lemma ListenPortIsText()
    ensures Utf8.Valid(LISTENPORT)
  {
    Utf8.AsciiIsValid(LISTENPORT);
  }

  // ---- The control channel loop (protocol/keepalive.rs) ----

  const PING: seq<byte> := Ascii("PING\n")
  const PONG: seq<byte> := Ascii("PONG\n")
  const BYE: seq<byte> := Ascii("BYE\n")

  /** The capacity of a buffered reader. */
  const BUFFER_CAPACITY: nat := 8192

  datatype ControlOutcome =
    | SaidBye
    | Unexpected(line: seq<byte>)
    | ClosedByRemote
    | PongFailed
    | ReadFailed
    | TimedOut

  /** How many PING lines the input starts with. */
  function LeadingPings(input: seq<byte>): (n: nat)
    ensures 5 * n <= |input|
  {
    if StartsWith(input, PING) then 1 + LeadingPings(input[5..]) else 0
  }

  /** The decision taken on the input that follows the leading PINGs: its first line, or the partial
      line before the end of the stream. */
  function Decide(rest: seq<byte>, ending: Ending): (ControlOutcome, nat) {
    var i := IndexOf(rest, NEWLINE);
    if i < |rest| then
      (if rest[..i + 1] == BYE then SaidBye else Unexpected(rest[..i + 1]), i + 1)
    else
      (match ending
       case Fin => if rest == [] then ClosedByRemote else Unexpected(rest)
       case Broken => ReadFailed
       case Silent => TimedOut, |rest|)
  }

  /** The loop as a function of the client's octets: every leading PING is answered while writing works,
      then the next line decides. */
  function ControlSpec(input: seq<byte>, ending: Ending, writable: nat): Stage<ControlOutcome> {
    var n := LeadingPings(input);
    if n > writable then Stage(PongFailed, Effect(Repeat(PONG, writable), 5 * writable + 5, writable))
    else
      var (outcome, used) := Decide(input[5 * n..], ending);
      Stage(outcome, Effect(Repeat(PONG, n), 5 * n + used, n))
  }

  /** The number of leading PINGs is the n for which the input is n PING lines and then something that
      does not start with a PING line. */
  lemma {:induction false} LeadingPingsExact(input: seq<byte>, n: nat)
    requires 5 * n <= |input|
    ensures LeadingPings(input) == n <==> input[..5 * n] == Repeat(PING, n) && !StartsWith(input[5 * n..], PING)
    decreases n
  {
    if n == 0 {
      assert input[..0] == Repeat(PING, 0) && input[0..] == input;
    } else {
      RepeatFromLeft(PING, n);
      assert input[..5 * n] == input[..5] + input[5..][..5 * (n - 1)];
      assert input[5 * n..] == input[5..][5 * (n - 1)..];
      LeadingPingsExact(input[5..], n - 1);
      if input[..5 * n] == Repeat(PING, n) {
        assert input[..5] == input[..5 * n][..5] == PING;
        assert input[5..][..5 * (n - 1)] == input[..5 * n][5..] == Repeat(PING, n)[5..] == Repeat(PING, n - 1);
      }
    }
  }

  lemma {:induction false} RepeatFromLeft(m: seq<byte>, n: nat)
    requires n > 0
    ensures Repeat(m, n) == m + Repeat(m, n - 1)
  {
    if n == 1 {
      assert Repeat(m, 1) == Repeat(m, 0) + m == m + Repeat(m, 0);
    } else {
      RepeatFromLeft(m, n - 1);
      assert Repeat(m, n) == (m + Repeat(m, n - 2)) + m == m + (Repeat(m, n - 2) + m);
    }
  }

  lemma FirstLine(line: seq<byte>, rest: seq<byte>)
    requires NEWLINE !in line
    ensures var s := line + [NEWLINE] + rest;
            IndexOf(s, NEWLINE) == |line| && s[..|line| + 1] == line + [NEWLINE] && s[|line| + 1..] == rest
  {
    Regroup(line, [NEWLINE], rest);
    IndexOfConcat(line, [NEWLINE] + rest, NEWLINE);
  }

  /** Reads one line an octet at a time, stopping after the newline or at the end of the stream. */
  method ReadLine(ch: Channel) returns (line: seq<byte>, stop: ReadResult)
    modifies ch`incoming
    ensures var i := IndexOf(old(ch.incoming), NEWLINE);
            if i < |old(ch.incoming)| then
              stop.Got? && line == old(ch.incoming)[..i + 1] && ch.incoming == old(ch.incoming)[i + 1..]
            else
              stop == Nothing(After(ch.ending)) && line == old(ch.incoming) && ch.incoming == []
  {
    line := [];
    ghost var input := ch.incoming;
    while true
      invariant input == line + ch.incoming && NEWLINE !in line
      decreases |ch.incoming|
    {
      ghost var before := line;
      stop := ch.Read(1);
      if stop.Nothing? { return; }
      line := line + stop.data;
      Regroup(before, stop.data, ch.incoming);
      if stop.data[0] == NEWLINE {
        assert line == before + [NEWLINE];
        FirstLine(before, ch.incoming);
        return;
      }
    }
  }

  /** The first line is PING exactly when the octets start with the PING message. */
  lemma PingLine(rest: seq<byte>)
    ensures var i := IndexOf(rest, NEWLINE);
            StartsWith(rest, PING) <==> i < |rest| && rest[..i + 1] == PING
  {
    if StartsWith(rest, PING) {
      PingText();
      assert rest == PING + rest[5..];
      FirstLine(PING[..4], rest[5..]);
    }
  }

  lemma PingText()
    ensures NEWLINE !in PING[..4] && PING == PING[..4] + [NEWLINE]
  {
    assert PING[4] == NEWLINE;
  }

  /** One turn of the loop: either a PING was answered, or the loop is to end. */
  method AnswerLine(ch: Channel) returns (end: Option<ControlOutcome>)
    modifies ch
    ensures StartsWith(old(ch.incoming), PING) && old(ch.writable) > 0 ==>
              end == None && ch.Went(Effect(PONG, 5, 1))
    ensures StartsWith(old(ch.incoming), PING) && old(ch.writable) == 0 ==>
              end == Some(PongFailed) && ch.Went(Effect([], 5, 0))
    ensures !StartsWith(old(ch.incoming), PING) ==>
              var (outcome, used) := Decide(old(ch.incoming), ch.ending);
              end == Some(outcome) && ch.Went(Effect([], used, 0))
  {
    PingLine(ch.incoming);
    var line, stop := ReadLine(ch);
    if stop.Nothing? && stop.why == NeverArrived { return Some(TimedOut); }
    if stop.Nothing? && stop.why == ReadError { return Some(ReadFailed); }
    if line == [] { return Some(ClosedByRemote); }
    if line == PING {
      var ok := ch.WriteAll(PONG);
      return if ok then None else Some(PongFailed);
    } else if line == BYE {
      return Some(SaidBye);
    }
    return Some(Unexpected(line));
  }

  method RunControlChannelLoop(ch: Channel) returns (r: ControlOutcome, cancelled: bool)
    modifies ch
    ensures var spec := ControlSpec(old(ch.incoming), ch.ending, old(ch.writable));
            r == spec.outcome && ch.Went(spec.effect)
    ensures cancelled
  {
    ghost var n := 0;
    while true
      invariant ch.Went(Answered(n))
      invariant LeadingPings(old(ch.incoming)) == n + LeadingPings(ch.incoming)
      decreases |ch.incoming|
    {
      var end := AnswerLine(ch);
      if end.Some? {
        r := end.value;
        LoopStops(old(ch.State()), ch.ending, n);
        break;
      }
      LoopContinues(old(ch.State()), n);
      n := n + 1;
    }
    cancelled := true;
  }

  /** The effect of having answered n lines. */
  function Answered(n: nat): Effect {
    Effect(Repeat(PONG, n), 5 * n, n)
  }

  lemma LoopContinues(start: End, n: nat)
    requires Fits(Answered(n), start) && Fits(Effect(PONG, 5, 1), Advance(start, Answered(n)))
    ensures Fits(Answered(n + 1), start)
    ensures Advance(Advance(start, Answered(n)), Effect(PONG, 5, 1)) == Advance(start, Answered(n + 1))
  {
    AdvanceTwice(start, Answered(n), Effect(PONG, 5, 1));
  }

  /** The last effect of the loop, and the loop's whole effect: when it stops after answering n lines,
      the next line decides. */
  function LastEffect(rest: seq<byte>, ending: Ending): Effect {
    Effect([], if StartsWith(rest, PING) then 5 else Decide(rest, ending).1, 0)
  }

  lemma LoopStops(start: End, ending: Ending, n: nat)
    requires Fits(Answered(n), start)
    requires LeadingPings(start.incoming) == n + LeadingPings(start.incoming[5 * n..])
    requires StartsWith(start.incoming[5 * n..], PING) ==> n == start.writable
    ensures var rest := start.incoming[5 * n..];
            var last := LastEffect(rest, ending);
            var spec := ControlSpec(start.incoming, ending, start.writable);
            && spec.outcome == (if StartsWith(rest, PING) then PongFailed else Decide(rest, ending).0)
            && Fits(last, Advance(start, Answered(n))) && Fits(spec.effect, start)
            && Advance(Advance(start, Answered(n)), last) == Advance(start, spec.effect)
  {
    var rest := start.incoming[5 * n..];
    var last := LastEffect(rest, ending);
    AdvanceTwice(start, Answered(n), last);
    assert Repeat(PONG, n) + [] == Repeat(PONG, n);
  }
}
