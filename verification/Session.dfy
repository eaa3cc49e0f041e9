/** One session as a state machine: the server's control task, its listener task, the network in both
    directions, a clock, and a peer. The peer is anyone, or a client of the program: the conforming one
    sends the configuration message after authentication, the shipped one goes straight to its first PING.
    Every nondeterministic choice is carried by an action. */
module Session {
  import opened Bytes
  import opened Options
  import opened PortSpecs
  import opened Auth
  import opened ServerStages
  import opened Handler
  import L = Listeners

  const SECOND: nat := 1_000_000_000
  const KEEPALIVE_INTERVAL: nat := 30 * SECOND
  const READ_TIMEOUT: nat := 30 * SECOND
  const AUTHENTICATION_TIMEOUT: nat := 10 * SECOND
  const CONFIGURATION_TIMEOUT: nat := 10 * SECOND

  datatype ClientKind = Conforming(port: u16) | Shipped

  /** What a session is set up with: the request the server sends, and the decisions the two programs take on
      octets: the server's judgement of a response and of a port, the client's reading of a request, its
      answer to a challenge, and its acceptance of a verdict. */
  datatype Config = Config(request: seq<byte>, judge: seq<byte> -> Verdict, allows: u16 -> bool,
                           parse: seq<byte> -> ChallengeResult, answer: seq<byte> -> seq<byte>,
                               accepts: seq<byte> -> bool,
                           kind: ClientKind)

  /** The decisions of the actual programs. */
  ghost function Setup(server: ServerConfig, challenge: seq<byte>, clientKey: seq<byte>, kind: ClientKind): Config {
    Config(Request(challenge),
           response => Judge(response, Expected(server.hash, challenge, server.psk)),
           (port: u16) => Allows(server.allowed, port),
           message => ParseRequest(message),
           seen => Expected(server.hash, seen, clientKey) + [NEWLINE],
           reply => ClientAccepts(reply),
           kind)
  }

  // ---- States ----

  /** One direction of the control stream: everything written, how much of it has arrived, how much of that
      the reader has taken, and whether the writer ended the stream. */
  datatype Pipe = Pipe(sent: seq<byte>, arrived: nat, taken: nat, fin: bool)

  datatype Result = Failed(reason: CloseReason) | Served(ok: bool)

  datatype Phase =
    | Opening
    | AwaitResponse(buf: seq<byte>)
    | AwaitHeader(buf: seq<byte>)
    | AwaitPort(buf: seq<byte>)
    | Binding(port: u16)
    | InControl(line: seq<byte>)
    | Closing
    | Joining
    | Finished(result: Result)

  /** The control task: where it is, since when its current timeout runs, what it has written (the request,
      a verdict, PONGs), the port it tried to bind, the closes it issued, how its control loop ended, and
      how long its two timed stages took. */
  datatype Server = Server(phase: Phase, since: nat, asked: bool, verdict: seq<byte>, answered: nat, bind: Option<u16>,
                           closes: seq<CloseReason>, exit: Option<ControlOutcome>, authTook: int, configTook: int)

  datatype ClientEnd = AuthFailed | WrongReply | PongTimedOut | Lost

  datatype ClientPhase =
    | ReadingChallenge
    | ReadingVerdict
    | Starting
    | Ticking
    | AwaitingPong(buf: seq<byte>)
    | Ended(how: ClientEnd)

  /** The peer. A client of the program has a ticker started at t0, the times of the PINGs it sent, the number
      of PONGs it accepted, how many octets its verdict read returned, and the octets its readers lost. */
  datatype Peer =
    | Anyone
    | Client(phase: ClientPhase, t0: nat, pings: seq<nat>, pongs: nat, verdict: nat, lost: seq<byte>)

  datatype World = World(now: nat, up: Pipe, down: Pipe, server: Server, listener: L.Listener, counters: L.Counters,
                         cancelled: bool, closed: bool, peer: Peer)

  const EMPTY: Pipe := Pipe([], 0, 0, false)

  ghost function Initial(now: nat, peer: Peer): World {
    World(now, EMPTY, EMPTY, Server(Opening, now, false, [], 0, None, [], None, 0, 0), L.IDLE, L.NO_COUNTS, false,
        false, peer)
  }

  const NEW_CLIENT: Peer := Client(ReadingChallenge, 0, [], 0, 0, [])

  // ---- Actions ----

  /** Steps of the control task. */
  datatype ServerAct =
    | ServerOpen(ok: bool)
    | ServerRead(n: nat, ok: bool)
    | ServerEof
    | ServerFault
    | ServerTimeout
    | ServerCancelled
    | ServerBind(ok: bool)
    | ServerClose
    | ServerJoin

  /** Steps of an arbitrary peer, then those of a client of the program. */
  datatype PeerAct =
    | PeerWrite(data: seq<byte>)
    | PeerTake(n: nat)
    | PeerFin
    | ClientReadChallenge(n: nat)
    | ClientReadVerdict(n: nat)
    | ClientStart
    | ClientPing
    | ClientReadPong(n: nat)
    | ClientTimeout
    | ClientLost

  datatype Action =
    | Tick(to: nat)
    | DeliverUp(n: nat)
    | DeliverDown(n: nat)
    | Control(step: ServerAct)
    | Listen(act: L.Act)
    | Remote(move: PeerAct)

  ghost function Send(p: Pipe, data: seq<byte>): Pipe {
    p.(sent := p.sent + data)
  }

  ghost predicate PipeOk(p: Pipe) {
    p.taken <= p.arrived <= |p.sent|
  }

  ghost predicate CanTake(p: Pipe, n: nat, capacity: nat) {
    1 <= n <= capacity && p.taken + n <= p.arrived <= |p.sent|
  }

  ghost function Take(p: Pipe, n: nat): Pipe {
    p.(taken := p.taken + n)
  }

  ghost function Front(p: Pipe, n: nat): seq<byte>
    requires p.taken + n <= |p.sent|
  {
    p.sent[p.taken..p.taken + n]
  }

  // ---- The control task (server/client_handler.rs) ----

  /** How many octets the read of the current stage asks for; 0 when the stage does not read. */
  ghost function Wants(ph: Phase): nat {
    match ph
    case AwaitResponse(buf) => if |buf| < RESPONSE_LENGTH then RESPONSE_LENGTH - |buf| else 0
    case AwaitHeader(buf) => if |buf| < 10 then 10 - |buf| else 0
    case AwaitPort(buf) => if |buf| < 2 then 2 - |buf| else 0
    case InControl(_) => 1
    case _ => 0
  }

  /** The timeout around the current stage. */
  ghost function Allowance(ph: Phase): nat {
    match ph
    case AwaitHeader(_) => CONFIGURATION_TIMEOUT
    case AwaitPort(_) => CONFIGURATION_TIMEOUT
    case InControl(_) => KEEPALIVE_INTERVAL + READ_TIMEOUT
    case _ => AUTHENTICATION_TIMEOUT
  }

  ghost predicate UnderTimeout(ph: Phase) {
    ph.Opening? || Wants(ph) > 0
  }

  ghost predicate ServerEnabled(w: World, a: ServerAct) {
    var ph := w.server.phase;
    match a
    case ServerOpen(_) => ph.Opening?
    case ServerRead(n, _) => Wants(ph) > 0 && CanTake(w.up, n, Wants(ph))
    case ServerEof => Wants(ph) > 0 && w.up.fin && w.up.taken == |w.up.sent|
    case ServerFault => Wants(ph) > 0
    case ServerTimeout => UnderTimeout(ph) && w.now >= w.server.since + Allowance(ph)
    case ServerCancelled => ph.InControl? && w.cancelled
    case ServerBind(_) => ph.Binding?
    case ServerClose => ph.Closing?
    case ServerJoin => ph.Joining? && w.listener.pc.Ended?
  }

  /** Closes the connection with an error and ends the handler. */
  ghost function Refuse(w: World, reason: CloseReason): World {
    w.(closed := true,
       server := w.server.(phase := Finished(Failed(reason)), closes := w.server.closes + [reason]))
  }

  /** Leaves the control loop through its end, which cancels the token. */
  ghost function Exit(w: World, outcome: ControlOutcome): World {
    w.(cancelled := true, server := w.server.(phase := Closing, exit := Some(outcome)))
  }

  ghost function Goto(w: World, ph: Phase): World {
    w.(server := w.server.(phase := ph))
  }

  /** Verification of a complete response. */
  ghost function OnResponse(cfg: Config, w: World, response: seq<byte>, ok: bool): World {
    match cfg.judge(response)
    case NotText => Refuse(w, FailedAuthentication)
    case Happy =>
      if !ok then Refuse(w, FailedAuthentication)
      else w.(down := Send(w.down, HAPPY),
              server := w.server.(phase := AwaitHeader([]), verdict := HAPPY, since := w.now,
                                  authTook := w.now - w.server.since))
    case Bad =>
      if !ok then Refuse(w, FailedAuthentication)
      else Refuse(w.(down := Send(w.down, BAD), server := w.server.(verdict := BAD)), FailedAuthentication)
  }

  /** A header that is not text and a header that is another text are refused alike. */
  ghost function OnHeader(w: World, header: seq<byte>): World {
    if header != LISTENPORT then Refuse(w, FailedConfiguration)
    else Goto(w, AwaitPort([]))
  }

  ghost function OnPort(cfg: Config, w: World, hi: byte, lo: byte): World {
    var port := FromBigEndian(hi, lo);
    if !cfg.allows(port) then Refuse(w, PortNotAllowed)
    else w.(server := w.server.(phase := Binding(port), configTook := w.now - w.server.since))
  }

  /** A complete line in the control loop. */
  ghost function OnLine(w: World, line: seq<byte>, ok: bool): World {
    if line == PING then
      if !ok then Exit(w, PongFailed)
      else w.(down := Send(w.down, PONG),
              server := w.server.(phase := InControl([]), answered := w.server.answered + 1, since := w.now))
    else Exit(w, if line == BYE then SaidBye else Unexpected(line))
  }

  ghost function OnRead(cfg: Config, w: World, data: seq<byte>, ok: bool): World
    requires 1 <= |data| <= Wants(w.server.phase)
  {
    match w.server.phase
    case AwaitResponse(buf) =>
      var got := buf + data;
      if |got| < RESPONSE_LENGTH then Goto(w, AwaitResponse(got)) else OnResponse(cfg, w, got, ok)
    case AwaitHeader(buf) =>
      var got := buf + data;
      if |got| < 10 then Goto(w, AwaitHeader(got)) else OnHeader(w, got)
    case AwaitPort(buf) =>
      var got := buf + data;
      if |got| < 2 then Goto(w, AwaitPort(got)) else OnPort(cfg, w, got[0], got[1])
    case InControl(line) =>
      var got := line + data;
      if data[0] != NEWLINE then Goto(w, InControl(got)) else OnLine(w, got, ok)
  }

  /** What ends the current stage short of success: the stage's error, or the end of the control loop. */
  ghost function OnFailure(w: World, timedOut: bool, inLoop: ControlOutcome): World {
    match w.server.phase
    case InControl(_) => Exit(w, inLoop)
    case AwaitHeader(_) => Refuse(w, if timedOut then ConfigurationTimedOut else FailedConfiguration)
    case AwaitPort(_) => Refuse(w, if timedOut then ConfigurationTimedOut else FailedConfiguration)
    case _ => Refuse(w, if timedOut then AuthenticationTimedOut else FailedAuthentication)
  }

  ghost function ServerDo(cfg: Config, w: World, a: ServerAct): World
    requires ServerEnabled(w, a)
  {
    match a
    case ServerOpen(ok) =>
      if !ok then Refuse(w, FailedAuthentication)
      else w.(down := Send(w.down, cfg.request), server := w.server.(phase := AwaitResponse([]), asked := true))
    case ServerRead(n, ok) => OnRead(cfg, w.(up := Take(w.up, n)), Front(w.up, n), ok)
    case ServerEof =>
      var line := if w.server.phase.InControl? then w.server.phase.line else [];
      OnFailure(w, false, if line == [] then ClosedByRemote else Unexpected(line))
    case ServerFault => OnFailure(w, false, ReadFailed)
    case ServerTimeout => OnFailure(w, true, TimedOut)
    case ServerCancelled => Goto(w, Closing)
    case ServerBind(ok) =>
      var tried := w.(server := w.server.(bind := Some(w.server.phase.port)));
      if !ok then Refuse(tried, FailedBinding)
      else tried.(server := tried.server.(phase := InControl([]), since := w.now),
                       listener := L.IDLE.(pc := L.Starting))
    case ServerClose =>
      w.(closed := true, server := w.server.(phase := Joining, closes := w.server.closes + [NormalShutdown]))
    case ServerJoin => Goto(w, Finished(Served(w.listener.pc.ok)))
  }

  // ---- The peers (client/server_handler.rs) ----

  /** What a client sends before its first PING. */
  ghost function Preamble(kind: ClientKind): seq<byte> {
    match kind
    case Conforming(port) => ConfigMessage(port)
    case Shipped => []
  }

  /** When the ticker of a client fires next: immediately, then every interval from the start. */
  ghost function Due(c: Peer): nat
    requires c.Client?
  {
    c.t0 + KEEPALIVE_INTERVAL * |c.pings|
  }

  ghost predicate PeerEnabled(w: World, a: PeerAct) {
    var c := w.peer;
    match a
    case PeerWrite(_) => c.Anyone? && !w.up.fin
    case PeerTake(n) => c.Anyone? && w.down.taken + n <= w.down.arrived
    case PeerFin => c.Anyone?
    case ClientReadChallenge(n) => c.Client? && c.phase.ReadingChallenge? &&
        CanTake(w.down, n, CHALLENGE_REQUEST_BUFFER_LENGTH)
    case ClientReadVerdict(n) => c.Client? && c.phase.ReadingVerdict? && CanTake(w.down, n, VERDICT_BUFFER_LENGTH)
    case ClientStart => c.Client? && c.phase.Starting?
    case ClientPing => c.Client? && c.phase.Ticking? && w.now >= Due(c)
    case ClientReadPong(n) => c.Client? && c.phase.AwaitingPong? && CanTake(w.down, n, BUFFER_CAPACITY)
    case ClientTimeout =>
      c.Client? && c.phase.AwaitingPong? && |c.pings| > 0 && w.now >= c.pings[|c.pings| - 1] + READ_TIMEOUT
    case ClientLost => c.Client? && !c.phase.Ended?
  }

  /** The client task ends and drops the control stream. */
  ghost function EndClient(w: World, how: ClientEnd): World
    requires w.peer.Client?
  {
    w.(up := w.up.(fin := true), peer := w.peer.(phase := Ended(how)))
  }

  ghost function OnReply(w: World, got: seq<byte>): World
    requires w.peer.Client?
  {
    var i := IndexOf(got, NEWLINE);
    if i == |got| then w.(peer := w.peer.(phase := AwaitingPong(got)))
    else
      var w1 := w.(peer := w.peer.(lost := w.peer.lost + got[i + 1..]));
      if got[..i + 1] == PONG then w1.(peer := w1.peer.(phase := Ticking, pongs := w1.peer.pongs + 1))
      else EndClient(w1, WrongReply)
  }

  ghost function PeerDo(cfg: Config, w: World, a: PeerAct): World
    requires PeerEnabled(w, a)
  {
    match a
    case PeerWrite(data) => w.(up := Send(w.up, data))
    case PeerTake(n) => w.(down := Take(w.down, n))
    case PeerFin => w.(up := w.up.(fin := true))
    case ClientReadChallenge(n) => (
      var w1 := w.(down := Take(w.down, n));
      match cfg.parse(Front(w.down, n))
      case Refused(_) => EndClient(w1, AuthFailed)
      case Found(challenge) =>
        w1.(up := Send(w.up, cfg.answer(challenge)),
            peer := w.peer.(phase := ReadingVerdict)))
    case ClientReadVerdict(n) =>
      var w1 := w.(down := Take(w.down, n));
      if cfg.accepts(Front(w.down, n)) then w1.(peer := w.peer.(phase := Starting, verdict := n))
      else EndClient(w1, AuthFailed)
    case ClientStart =>
      w.(up := Send(w.up, Preamble(cfg.kind)), peer := w.peer.(phase := Ticking, t0 := w.now))
    case ClientPing =>
      w.(up := Send(w.up, PING), peer := w.peer.(phase := AwaitingPong([]), pings := w.peer.pings + [w.now]))
    case ClientReadPong(n) => OnReply(w.(down := Take(w.down, n)), w.peer.phase.buf + Front(w.down, n))
    case ClientTimeout => EndClient(w, PongTimedOut)
    case ClientLost => EndClient(w, Lost)
  }

  // ---- Steps and runs ----

  ghost predicate Enabled(w: World, a: Action) {
    match a
    case Tick(to) => to >= w.now
    case DeliverUp(n) => w.up.arrived + n <= |w.up.sent|
    case DeliverDown(n) => w.down.arrived + n <= |w.down.sent|
    case Listen(act) => L.Can(w.listener, w.cancelled, w.closed, act)
    case Control(step) => ServerEnabled(w, step)
    case Remote(move) => PeerEnabled(w, move)
  }

  ghost function Do(cfg: Config, w: World, a: Action): World
    requires Enabled(w, a)
  {
    match a
    case Tick(to) => w.(now := to)
    case DeliverUp(n) => w.(up := w.up.(arrived := w.up.arrived + n))
    case DeliverDown(n) => w.(down := w.down.(arrived := w.down.arrived + n))
    case Listen(act) => w.(listener := L.Step(w.listener, act), counters := L.Count(w.counters, act))
    case Control(step) => ServerDo(cfg, w, step)
    case Remote(move) => PeerDo(cfg, w, move)
  }

  /** A run: states and the actions between them, from an initial state with the given peer. */
  ghost predicate IsRun(cfg: Config, peer: Peer, ws: seq<World>, acts: seq<Action>) {
    && |ws| == |acts| + 1
    && ws[0] == Initial(ws[0].now, peer)
    && forall i :: 0 <= i < |acts| ==> Enabled(ws[i], acts[i]) && ws[i + 1] == Do(cfg, ws[i], acts[i])
  }
}
