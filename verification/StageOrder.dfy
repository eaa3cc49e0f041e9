/** Stage order, replies and closes over whole runs, for an arbitrary peer. */
module StageOrder {
  import opened Bytes
  import opened PortSpecs
  import opened Auth
  import opened ServerStages
  import opened Handler
  import opened Session
  import opened SessionSafety
  import L = Listeners

  lemma AdmittedIsAdmits(server: ServerConfig, challenge: seq<byte>, clientKey: seq<byte>, kind: ClientKind,
                         bytes: seq<byte>, port: u16)
    requires Admitted(Setup(server, challenge, clientKey, kind), bytes, port)
    ensures Admits(server, challenge, bytes, port)
  {
    var expected := Expected(server.hash, challenge, server.psk);
    JudgeExact(bytes[..129], expected);
    assert bytes[..129][..128] == bytes[..128];
    AllowsIsUnion(server.allowed, port);
    BigEndianExact(bytes[139], bytes[140], port);
    var m := bytes[129..141];
    assert m[..10] == bytes[129..139] && m[10..] == [bytes[139], bytes[140]];
    SplitEqual(m, LISTENPORT, [port / 256, port % 256]);
  }

  /** Stage-order safety. In every state of every run, with any peer, a port on which a bind was attempted is
      one that the octets of this very connection admit: the expected digest first, then the configuration
      message of that port, and the port is in the configured set. */
  lemma BindOnlyWhenAdmitted(server: ServerConfig, challenge: seq<byte>, clientKey: seq<byte>, kind: ClientKind,
                             peer: Peer, ws: seq<World>, acts: seq<Action>, i: nat)
    requires IsRun(Setup(server, challenge, clientKey, kind), peer, ws, acts) && i < |ws|
    ensures ws[i].server.bind.Some? ==> Admits(server, challenge, ws[i].up.sent, ws[i].server.bind.value)
    ensures !ws[i].listener.pc.NotStarted? ==> ws[i].server.bind.Some?
  {
    var cfg := Setup(server, challenge, clientKey, kind);
    RunKeepsInv(cfg, peer, ws, acts, i);
    if ws[i].server.bind.Some? {
      AdmittedIsAdmits(server, challenge, clientKey, kind, ws[i].up.sent, ws[i].server.bind.value);
    }
  }

  /** Every handler run that has ended has closed the connection exactly once, and none closes it twice. A run
      that was refused never had a listener, and tried a bind only if that bind is what failed. A run that was
      served closed normally, after its loop had cancelled the token, and its listener has ended. */
  lemma ClosedExactlyOnce(cfg: Config, peer: Peer, ws: seq<World>, acts: seq<Action>, i: nat)
    requires IsRun(cfg, peer, ws, acts) && i < |ws|
    ensures var w := ws[i];
            && |w.server.closes| <= 1
            && (w.closed <==> |w.server.closes| == 1)
            && match w.server.phase {
                 case Finished(Failed(reason)) =>
                   && w.server.closes == [reason] && reason != NormalShutdown && w.listener == L.IDLE
                   && (w.server.bind.Some? <==> reason == FailedBinding)
                 case Finished(Served(_)) =>
                   w.server.closes == [NormalShutdown] && w.cancelled && w.listener.pc.Ended? && w.server.exit.Some?
                 case _ => true
               }
  {
    RunKeepsInv(cfg, peer, ws, acts, i);
  }

  /** Replies are determined by the octets consumed: while the control loop runs, the server has written the
      request, HAPPY, and exactly one PONG for each of the PING lines the control octets start with. */
  lemma RepliesFollowInput(cfg: Config, peer: Peer, ws: seq<World>, acts: seq<Action>, i: nat)
    requires IsRun(cfg, peer, ws, acts) && i < |ws| && ws[i].server.phase.InControl?
    ensures var w := ws[i];
            && 141 <= w.up.taken <= |w.up.sent|
            && w.down.sent == cfg.request + HAPPY + Repeat(PONG, LeadingPings(w.up.sent[141..w.up.taken]))
  {
    RunKeepsInv(cfg, peer, ws, acts, i);
    var w := ws[i];
    var n, line := w.server.answered, w.server.phase.line;
    var input := w.up.sent[141..w.up.taken];
    assert input[..5 * n] == Repeat(PING, n) && input[5 * n..] == line;
    PingLine(line);
    LeadingPingsExact(input, n);
  }

  // ---- Timed stages ----

  /** Timers fire promptly: the clock does not run on past a moment at which a timeout can fire. */
  ghost predicate PromptTimers(w: World, a: Action) {
    a.Tick? ==> forall t: nat :: w.now <= t < a.to ==> !ServerEnabled(w.(now := t), ServerTimeout)
  }

  lemma PromptTicks(w: World, to: nat)
    requires InTime(w) && UnderTimeout(w.server.phase) && PromptTimers(w, Tick(to))
    ensures to <= w.server.since + Allowance(w.server.phase)
  {
    var deadline := w.server.since + Allowance(w.server.phase);
    assert ServerEnabled(w.(now := deadline), ServerTimeout);
  }

  ghost predicate InTime(w: World) {
    && w.now >= w.server.since
    && (UnderTimeout(w.server.phase) ==> w.now <= w.server.since + Allowance(w.server.phase))
    && w.server.authTook <= AUTHENTICATION_TIMEOUT && w.server.configTook <= CONFIGURATION_TIMEOUT
  }

  lemma CompleteInTime(cfg: Config, w: World, got: seq<byte>, hi: byte, lo: byte, ok: bool)
    requires InTime(w) && UnderTimeout(w.server.phase)
    ensures w.server.phase.AwaitResponse? ==> InTime(OnResponse(cfg, w, got, ok))
    ensures w.server.phase.AwaitHeader? ==> InTime(OnHeader(w, got))
    ensures w.server.phase.AwaitPort? ==> InTime(OnPort(cfg, w, hi, lo))
    ensures w.server.phase.InControl? ==> InTime(OnLine(w, got, ok))
  {
  }

  lemma ReadInTime(cfg: Config, w: World, data: seq<byte>, ok: bool)
    requires InTime(w) && 1 <= |data| <= Wants(w.server.phase)
    ensures InTime(OnRead(cfg, w, data, ok))
  {
    match w.server.phase {
      case AwaitPort(buf) =>
        var got := buf + data;
        if |got| == 2 { CompleteInTime(cfg, w, got, got[0], got[1], ok); }
      case AwaitResponse(buf) => CompleteInTime(cfg, w, buf + data, 0, 0, ok);
      case AwaitHeader(buf) => CompleteInTime(cfg, w, buf + data, 0, 0, ok);
      case InControl(line) => CompleteInTime(cfg, w, line + data, 0, 0, ok);
    }
  }

  lemma ServerInTime(cfg: Config, w: World, a: ServerAct)
    requires Inv(cfg, w) && ServerEnabled(w, a) && InTime(w)
    ensures InTime(ServerDo(cfg, w, a))
  {
    if a.ServerRead? {
      ReadInTime(cfg, w.(up := Take(w.up, a.n)), Front(w.up, a.n), a.ok);
    }
  }

  lemma StepInTime(cfg: Config, w: World, a: Action)
    requires Inv(cfg, w) && Enabled(w, a) && PromptTimers(w, a) && InTime(w)
    ensures InTime(Do(cfg, w, a))
  {
    match a {
      case Control(step) => ServerInTime(cfg, w, step);
      case Remote(move) => PeerFrame(cfg, w, move);
      case Tick(to) =>
        if UnderTimeout(w.server.phase) {
          PromptTicks(w, to);
        }
      case _ =>
    }
  }

  /** With prompt timers no stage overruns: authentication and configuration of every run that got past them
      took at most ten seconds each. */
  lemma {:induction false} StagesInTime(cfg: Config, peer: Peer, ws: seq<World>, acts: seq<Action>, i: nat)
    requires IsRun(cfg, peer, ws, acts) && i < |ws|
    requires forall j :: 0 <= j < |acts| ==> PromptTimers(ws[j], acts[j])
    ensures ws[i].server.authTook <= 10 * SECOND && ws[i].server.configTook <= 10 * SECOND
    ensures InTime(ws[i])
  {
    if i > 0 {
      StagesInTime(cfg, peer, ws, acts, i - 1);
      RunKeepsInv(cfg, peer, ws, acts, i - 1);
      StepInTime(cfg, ws[i - 1], acts[i - 1]);
    }
  }

  /** The stages up to and including the check of the port. */
  ghost predicate BeforeCheck(ph: Phase) {
    ph.Opening? || ph.AwaitResponse? || ph.AwaitHeader? || ph.AwaitPort?
  }

  /** The timeout of each stage started when the stage before it ended, the first at the start of the session. */
  ghost predicate Anchored(start: nat, w: World) {
    var s := w.server;
    && (s.phase.Opening? || s.phase.AwaitResponse? ==> s.since == start)
    && (s.phase.AwaitHeader? || s.phase.AwaitPort? ==> s.since == start + s.authTook)
  }

  lemma ResponseAnchors(cfg: Config, start: nat, w: World, got: seq<byte>, ok: bool)
    requires w.server.phase.AwaitResponse? && Anchored(start, w)
    ensures Anchored(start, OnResponse(cfg, w, got, ok)) && OnResponse(cfg, w, got, ok).now == w.now
  {
  }

  lemma ReadAnchors(cfg: Config, start: nat, w: World, data: seq<byte>, ok: bool)
    requires 1 <= |data| <= Wants(w.server.phase) && Anchored(start, w)
    ensures Anchored(start, OnRead(cfg, w, data, ok)) && OnRead(cfg, w, data, ok).now == w.now
  {
    if w.server.phase.AwaitResponse? {
      ResponseAnchors(cfg, start, w, w.server.phase.buf + data, ok);
    }
  }

  lemma ServerStaysAnchored(cfg: Config, start: nat, w: World, a: ServerAct)
    requires ServerEnabled(w, a) && Anchored(start, w)
    ensures Anchored(start, ServerDo(cfg, w, a)) && ServerDo(cfg, w, a).now == w.now
  {
    if a.ServerRead? {
      ReadAnchors(cfg, start, w.(up := Take(w.up, a.n)), Front(w.up, a.n), a.ok);
    }
  }

  lemma StepStaysAnchored(cfg: Config, start: nat, w: World, a: Action)
    requires Inv(cfg, w) && Enabled(w, a) && Anchored(start, w)
    ensures Anchored(start, Do(cfg, w, a))
    ensures !a.Tick? ==> Do(cfg, w, a).now == w.now
    ensures a.Tick? ==> Do(cfg, w, a).server == w.server
  {
    match a {
      case Control(step) => ServerStaysAnchored(cfg, start, w, step);
      case Remote(move) => PeerFrame(cfg, w, move);
      case _ =>
    }
  }

  /** A stage that is still under way before the check has a running timeout, and so ends in time. */
  lemma CheckSoon(cfg: Config, start: nat, w: World)
    requires Inv(cfg, w) && InTime(w) && Anchored(start, w) && BeforeCheck(w.server.phase)
    ensures w.now <= start + AUTHENTICATION_TIMEOUT + CONFIGURATION_TIMEOUT
    ensures w.server.phase.Opening? || w.server.phase.AwaitResponse? ==> w.now <= start + AUTHENTICATION_TIMEOUT
  {
  }

  lemma {:induction false} RunStaysAnchored(cfg: Config, peer: Peer, ws: seq<World>, acts: seq<Action>, i: nat)
    requires IsRun(cfg, peer, ws, acts) && i < |ws|
    ensures Anchored(ws[0].now, ws[i])
  {
    if i > 0 {
      RunStaysAnchored(cfg, peer, ws, acts, i - 1);
      RunKeepsInv(cfg, peer, ws, acts, i - 1);
      StepStaysAnchored(cfg, ws[0].now, ws[i - 1], acts[i - 1]);
    }
  }

  /** The timeouts compose. With prompt timers, at most ten seconds pass from the start of a session until its
      verdict, and at most twenty until its port has been checked or the session has been refused, for any peer. */
  lemma PortCheckInTime(cfg: Config, peer: Peer, ws: seq<World>, acts: seq<Action>, i: nat)
    requires IsRun(cfg, peer, ws, acts) && i < |ws|
    requires forall j :: 0 <= j < |acts| ==> PromptTimers(ws[j], acts[j])
    ensures i == 0 || BeforeCheck(ws[i - 1].server.phase) ==> ws[i].now <= ws[0].now + 20 * SECOND
    ensures ws[i].server.phase.Opening? || ws[i].server.phase.AwaitResponse? ==> ws[i].now <= ws[0].now + 10 * SECOND
  {
    SoonAt(cfg, peer, ws, acts, i);
    if i > 0 && BeforeCheck(ws[i - 1].server.phase) {
      SoonOver(cfg, peer, ws, acts, i);
    }
  }

  /** A step from a stage before the check. */
  lemma SoonOver(cfg: Config, peer: Peer, ws: seq<World>, acts: seq<Action>, i: nat)
    requires IsRun(cfg, peer, ws, acts) && 0 < i < |ws| && BeforeCheck(ws[i - 1].server.phase)
    requires forall j :: 0 <= j < |acts| ==> PromptTimers(ws[j], acts[j])
    requires BeforeCheck(ws[i].server.phase) ==> ws[i].now <= ws[0].now + 20 * SECOND
    ensures ws[i].now <= ws[0].now + 20 * SECOND
  {
    CheckedSoon(cfg, peer, ws, acts, i - 1);
    SoonNext(cfg, peer, ws, acts, i, ws[0].now + 20 * SECOND);
  }

  lemma SoonNext(cfg: Config, peer: Peer, ws: seq<World>, acts: seq<Action>, i: nat, end: nat)
    requires IsRun(cfg, peer, ws, acts) && 0 < i < |ws| && BeforeCheck(ws[i - 1].server.phase) && ws[i - 1].now <= end
    requires BeforeCheck(ws[i].server.phase) ==> ws[i].now <= end
    ensures ws[i].now <= end
  {
    RunKeepsInv(cfg, peer, ws, acts, i - 1);
    RunStaysAnchored(cfg, peer, ws, acts, i - 1);
    SoonAfter(cfg, ws[0].now, ws[i - 1], acts[i - 1], end);
  }

  /** Time only passes in a step that leaves the stage as it is. */
  lemma SoonAfter(cfg: Config, start: nat, w: World, a: Action, end: nat)
    requires Inv(cfg, w) && Enabled(w, a) && Anchored(start, w) && BeforeCheck(w.server.phase) && w.now <= end
    requires BeforeCheck(Do(cfg, w, a).server.phase) ==> Do(cfg, w, a).now <= end
    ensures Do(cfg, w, a).now <= end
  {
    StepStaysAnchored(cfg, start, w, a);
  }

  lemma CheckedSoon(cfg: Config, peer: Peer, ws: seq<World>, acts: seq<Action>, i: nat)
    requires IsRun(cfg, peer, ws, acts) && i < |ws| && BeforeCheck(ws[i].server.phase)
    requires forall j :: 0 <= j < |acts| ==> PromptTimers(ws[j], acts[j])
    ensures ws[i].now <= ws[0].now + 20 * SECOND
  {
    SoonAt(cfg, peer, ws, acts, i);
  }

  lemma SoonAt(cfg: Config, peer: Peer, ws: seq<World>, acts: seq<Action>, i: nat)
    requires IsRun(cfg, peer, ws, acts) && i < |ws|
    requires forall j :: 0 <= j < |acts| ==> PromptTimers(ws[j], acts[j])
    ensures BeforeCheck(ws[i].server.phase) ==> ws[i].now <= ws[0].now + 20 * SECOND
    ensures ws[i].server.phase.Opening? || ws[i].server.phase.AwaitResponse? ==> ws[i].now <= ws[0].now + 10 * SECOND
  {
    StagesInTime(cfg, peer, ws, acts, i);
    RunKeepsInv(cfg, peer, ws, acts, i);
    RunStaysAnchored(cfg, peer, ws, acts, i);
    if BeforeCheck(ws[i].server.phase) {
      CheckSoon(cfg, ws[0].now, ws[i]);
    }
  }
}
