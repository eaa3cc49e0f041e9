/** What every run of a session keeps, whoever the peer is: the order of the stages in terms of the octets on
    the wire, the replies, the closes, and the shutdown of the listener. */
module SessionSafety {
  import opened Bytes
  import opened PortSpecs
  import opened Auth
  import opened ServerStages
  import opened Handler
  import opened Session
  import L = Listeners

  // ---- The invariant ----

  ghost predicate Verified(cfg: Config, bytes: seq<byte>) {
    |bytes| >= 129 && cfg.judge(bytes[..129]) == Happy
  }

  ghost predicate Headed(bytes: seq<byte>) {
    |bytes| >= 139 && bytes[129..139] == LISTENPORT
  }

  ghost predicate Admitted(cfg: Config, bytes: seq<byte>, port: u16) {
    && Verified(cfg, bytes) && Headed(bytes)
    && |bytes| >= 141 && port == FromBigEndian(bytes[139], bytes[140])
    && cfg.allows(port)
  }

  /** The octets the control task has consumed, by where it is. */
  ghost predicate Consumed(cfg: Config, w: World) {
    var bytes, taken := w.up.sent, w.up.taken;
    taken <= |bytes| &&
    match w.server.phase
    case Opening => taken == 0
    case AwaitResponse(buf) => |buf| < 129 && bytes[..taken] == buf
    case AwaitHeader(buf) => Verified(cfg, bytes) && |buf| < 10 && taken == 129 + |buf| && bytes[129..taken] == buf
    case AwaitPort(buf) => Verified(cfg, bytes) && Headed(bytes) && |buf| < 2 && taken == 139 + |buf| &&
        bytes[139..taken] == buf
    case Binding(port) => taken == 141 && Admitted(cfg, bytes, port)
    case InControl(line) =>
      && taken == 141 + 5 * w.server.answered + |line|
      && bytes[141..taken] == Repeat(PING, w.server.answered) + line && NEWLINE !in line
    case _ => true
  }

  /** What the control task has written: the request, a verdict, one PONG for each line it answered. */
  ghost predicate Wrote(cfg: Config, w: World) {
    var s := w.server;
    && w.down.sent == (if s.asked then cfg.request else []) + s.verdict + Repeat(PONG, s.answered)
    && (s.phase.Opening? ==> !s.asked)
    && (s.phase.AwaitResponse? ==> s.asked)
    && (s.phase.Opening? || s.phase.AwaitResponse? ==> s.verdict == [])
    && (s.phase.AwaitHeader? || s.phase.AwaitPort? || s.phase.Binding? || s.phase.InControl? ==>
        s.asked && s.verdict == HAPPY)
    && (s.verdict == [] || ((s.verdict == HAPPY || s.verdict == BAD) && s.asked && w.up.taken >= 129))
    && (s.bind.None? ==> s.answered == 0)
    && (s.bind.Some? ==> s.asked && s.verdict == HAPPY)
  }

  /** Before the bind, and after it. */
  ghost predicate Early(ph: Phase) {
    ph.Opening? || ph.AwaitResponse? || ph.AwaitHeader? || ph.AwaitPort? || ph.Binding?
  }

  ghost predicate Late(ph: Phase) {
    ph.InControl? || ph.Closing? || ph.Joining? || (ph.Finished? && ph.result.Served?)
  }

  /** The connection, the token and the listener, by where the control task is. */
  ghost predicate Status(cfg: Config, w: World) {
    var s, ph := w.server, w.server.phase;
    && (Early(ph) ==> s.bind.None?)
    && (Late(ph) ==> s.bind.Some?)
    && (s.bind.Some? ==> Admitted(cfg, w.up.sent, s.bind.value))
    && (w.listener.pc.NotStarted? <==> !Late(ph))
    && (w.listener.pc.NotStarted? ==> w.listener == L.IDLE)
    && (w.cancelled <==> Late(ph) && !ph.InControl?)
    && (w.closed <==> ph.Joining? || ph.Finished?)
    && (!w.closed ==> s.closes == [])
    && (w.closed ==> s.closes == [if ph.Finished? && ph.result.Failed? then ph.result.reason else NormalShutdown])
    && (ph.Finished? && ph.result.Served? ==> w.listener.pc.Ended?)
    && (ph.Finished? && ph.result.Failed? ==> (s.bind.Some? <==> ph.result.reason == FailedBinding))
    && (s.exit.Some? <==> Late(ph) && !ph.InControl?)
    && (ph.Finished? && ph.result.Failed? ==> ph.result.reason != NormalShutdown)
  }

  ghost predicate Inv(cfg: Config, w: World) {
    PipeOk(w.up) && PipeOk(w.down) && Consumed(cfg, w) && Wrote(cfg, w) && Status(cfg, w)
  }

  // ---- Preservation ----

  lemma PrefixGrows(cfg: Config, a: seq<byte>, b: seq<byte>)
    requires a <= b
    ensures Verified(cfg, a) ==> Verified(cfg, b)
    ensures Headed(a) ==> Headed(b)
    ensures forall port :: Admitted(cfg, a, port) ==> Admitted(cfg, b, port)
  {
    assert |a| >= 129 ==> b[..129] == a[..129];
    assert |a| >= 139 ==> b[129..139] == a[129..139];
  }

  lemma ConsumedGrows(cfg: Config, w: World, w': World)
    requires Consumed(cfg, w) && w'.server == w.server && w.up.sent <= w'.up.sent && w'.up.taken == w.up.taken
    ensures Consumed(cfg, w')
  {
    PrefixGrows(cfg, w.up.sent, w'.up.sent);
    var taken := w.up.taken;
    assert w'.up.sent[..taken] == w.up.sent[..taken];
    assert taken >= 129 ==> w'.up.sent[129..taken] == w.up.sent[129..taken];
    assert taken >= 139 ==> w'.up.sent[139..taken] == w.up.sent[139..taken];
    assert taken >= 141 ==> w'.up.sent[141..taken] == w.up.sent[141..taken];
  }

  /** A peer only appends to what it sent, ends its direction, and takes what has arrived. */
  lemma PeerFrame(cfg: Config, w: World, a: PeerAct)
    requires PeerEnabled(w, a) && PipeOk(w.up) && PipeOk(w.down)
    ensures var w' := PeerDo(cfg, w, a);
            && w.up.sent <= w'.up.sent && w'.up.taken == w.up.taken && w'.up.arrived == w.up.arrived
            && w'.down.sent == w.down.sent && w'.down.arrived == w.down.arrived && PipeOk(w'.down)
            && w' == w.(up := w'.up, down := w'.down, peer := w'.peer)
  {
    if a.ClientReadPong? {
      ReplyFrame(w.(down := Take(w.down, a.n)), w.peer.phase.buf + Front(w.down, a.n));
    }
  }

  lemma ReplyFrame(w: World, got: seq<byte>)
    requires w.peer.Client?
    ensures var w' := OnReply(w, got);
            w' == w.(up := w'.up, peer := w'.peer) && w'.up == w.up.(fin := w'.up.fin)
  {
  }

  lemma PeerKeepsInv(cfg: Config, w: World, a: PeerAct)
    requires Inv(cfg, w) && PeerEnabled(w, a)
    ensures Inv(cfg, PeerDo(cfg, w, a))
  {
    var w' := PeerDo(cfg, w, a);
    PeerFrame(cfg, w, a);
    ConsumedGrows(cfg, w, w');
    PrefixGrows(cfg, w.up.sent, w'.up.sent);
  }

  lemma ListenerKeepsInv(cfg: Config, w: World, act: L.Act)
    requires Inv(cfg, w) && Enabled(w, Listen(act))
    ensures Inv(cfg, Do(cfg, w, Listen(act)))
  {
  }

  /** Reading the next octets extends what was consumed. */
  lemma TakenGrows(p: Pipe, n: nat, from: nat)
    requires p.taken + n <= |p.sent| && from <= p.taken
    ensures p.sent[from..p.taken + n] == p.sent[from..p.taken] + Front(p, n)
  {
  }

  /** The invariant apart from what was consumed. */
  ghost predicate Rest(cfg: Config, w: World) {
    PipeOk(w.up) && PipeOk(w.down) && Wrote(cfg, w) && Status(cfg, w)
  }

  lemma OnResponseKeepsInv(cfg: Config, w: World, got: seq<byte>, ok: bool)
    requires Rest(cfg, w) && w.server.phase.AwaitResponse? && w.up.taken == 129 && w.up.sent[..129] == got
    ensures Inv(cfg, OnResponse(cfg, w, got, ok))
  {
    assert w.down.sent == cfg.request by {
      assert cfg.request + [] + Repeat(PONG, 0) == cfg.request;
    }
    assert forall m: seq<byte> :: cfg.request + m + Repeat(PONG, 0) == cfg.request + m;
  }

  lemma OnHeaderKeepsInv(cfg: Config, w: World, got: seq<byte>)
    requires Rest(cfg, w) && w.server.phase.AwaitHeader? && Verified(cfg, w.up.sent)
    requires w.up.taken == 139 && w.up.sent[129..139] == got
    ensures Inv(cfg, OnHeader(w, got))
  {
  }

  lemma OnPortKeepsInv(cfg: Config, w: World, hi: byte, lo: byte)
    requires Rest(cfg, w) && w.server.phase.AwaitPort? && Verified(cfg, w.up.sent) && Headed(w.up.sent)
    requires w.up.taken == 141 && w.up.sent[139] == hi && w.up.sent[140] == lo
    ensures Inv(cfg, OnPort(cfg, w, hi, lo))
  {
  }

  lemma OnLineKeepsInv(cfg: Config, w: World, got: seq<byte>, ok: bool)
    requires Rest(cfg, w) && w.server.phase.InControl?
    requires w.up.taken == 141 + 5 * w.server.answered + |got|
    requires w.up.sent[141..w.up.taken] == Repeat(PING, w.server.answered) + got
    ensures Inv(cfg, OnLine(w, got, ok))
  {
    if got == PING && ok {
      var n := w.server.answered;
      Regroup(cfg.request + HAPPY, Repeat(PONG, n), PONG);
      assert w.up.sent[141..w.up.taken] == Repeat(PING, n + 1) + [];
    }
  }

  lemma ReadResponse(cfg: Config, w: World, n: nat, ok: bool)
    requires Inv(cfg, w) && w.server.phase.AwaitResponse? && ServerEnabled(w, ServerRead(n, ok))
    ensures Inv(cfg, OnRead(cfg, w.(up := Take(w.up, n)), Front(w.up, n), ok))
  {
    var w1, data := w.(up := Take(w.up, n)), Front(w.up, n);
    var got := w.server.phase.buf + data;
    TakenGrows(w.up, n, 0);
    assert w1.up.sent[..w1.up.taken] == got;
    if |got| == 129 { OnResponseKeepsInv(cfg, w1, got, ok); }
  }

  lemma ReadHeader(cfg: Config, w: World, n: nat, ok: bool)
    requires Inv(cfg, w) && w.server.phase.AwaitHeader? && ServerEnabled(w, ServerRead(n, ok))
    ensures Inv(cfg, OnRead(cfg, w.(up := Take(w.up, n)), Front(w.up, n), ok))
  {
    var w1, data := w.(up := Take(w.up, n)), Front(w.up, n);
    var got := w.server.phase.buf + data;
    TakenGrows(w.up, n, 129);
    assert w1.up.sent[129..w1.up.taken] == got;
    if |got| == 10 { OnHeaderKeepsInv(cfg, w1, got); }
  }

  lemma ReadPort(cfg: Config, w: World, n: nat, ok: bool)
    requires Inv(cfg, w) && w.server.phase.AwaitPort? && ServerEnabled(w, ServerRead(n, ok))
    ensures Inv(cfg, OnRead(cfg, w.(up := Take(w.up, n)), Front(w.up, n), ok))
  {
    var w1, data := w.(up := Take(w.up, n)), Front(w.up, n);
    var got := w.server.phase.buf + data;
    TakenGrows(w.up, n, 139);
    assert w1.up.sent[139..w1.up.taken] == got;
    if |got| == 2 {
      assert w1.up.taken == 141;
      OnPortKeepsInv(cfg, w1, got[0], got[1]);
    }
  }

  lemma ReadControl(cfg: Config, w: World, n: nat, ok: bool)
    requires Inv(cfg, w) && w.server.phase.InControl? && ServerEnabled(w, ServerRead(n, ok))
    ensures Inv(cfg, OnRead(cfg, w.(up := Take(w.up, n)), Front(w.up, n), ok))
  {
    var w1, data := w.(up := Take(w.up, n)), Front(w.up, n);
    var line := w.server.phase.line;
    TakenGrows(w.up, n, 141);
    Regroup(Repeat(PING, w.server.answered), line, data);
    assert w1.up.sent[141..w1.up.taken] == Repeat(PING, w.server.answered) + (line + data);
    if data[0] == NEWLINE { OnLineKeepsInv(cfg, w1, line + data, ok); }
  }

  lemma OpenKeepsInv(cfg: Config, w: World, ok: bool)
    requires Inv(cfg, w) && w.server.phase.Opening?
    ensures Inv(cfg, ServerDo(cfg, w, ServerOpen(ok)))
  {
    assert w.up.sent[..0] == [];
    assert w.down.sent + cfg.request == cfg.request + [] + Repeat(PONG, 0);
  }

  lemma BindKeepsInv(cfg: Config, w: World, ok: bool)
    requires Inv(cfg, w) && w.server.phase.Binding?
    ensures Inv(cfg, ServerDo(cfg, w, ServerBind(ok)))
  {
    assert w.up.sent[141..141] == Repeat(PING, 0) + [];
  }

  lemma FailureKeepsInv(cfg: Config, w: World, timedOut: bool, inLoop: ControlOutcome)
    requires Inv(cfg, w) && UnderTimeout(w.server.phase)
    ensures Inv(cfg, OnFailure(w, timedOut, inLoop))
  {
    if w.server.phase.InControl? {
      ExitKeepsInv(cfg, w, inLoop);
    } else {
      RefuseKeepsInv(cfg, w, OnFailure(w, timedOut, inLoop).server.phase.result.reason);
    }
  }

  lemma ExitKeepsInv(cfg: Config, w: World, outcome: ControlOutcome)
    requires Inv(cfg, w) && w.server.phase.InControl?
    ensures Inv(cfg, Exit(w, outcome))
  {
  }

  lemma RefuseKeepsInv(cfg: Config, w: World, reason: CloseReason)
    requires Inv(cfg, w) && Early(w.server.phase) && reason != NormalShutdown && reason != FailedBinding
    ensures Inv(cfg, Refuse(w, reason))
  {
  }

  lemma ShutdownKeepsInv(cfg: Config, w: World, a: ServerAct)
    requires Inv(cfg, w) && ServerEnabled(w, a) && (a.ServerCancelled? || a.ServerClose? || a.ServerJoin?)
    ensures Inv(cfg, ServerDo(cfg, w, a))
  {
  }

  lemma ServerKeepsInv(cfg: Config, w: World, a: ServerAct)
    requires Inv(cfg, w) && ServerEnabled(w, a)
    ensures Inv(cfg, ServerDo(cfg, w, a))
  {
    match a {
      case ServerRead(n, ok) =>
        match w.server.phase {
          case AwaitResponse(_) => ReadResponse(cfg, w, n, ok);
          case AwaitHeader(_) => ReadHeader(cfg, w, n, ok);
          case AwaitPort(_) => ReadPort(cfg, w, n, ok);
          case InControl(_) => ReadControl(cfg, w, n, ok);
        }
      case ServerOpen(ok) => OpenKeepsInv(cfg, w, ok);
      case ServerBind(ok) => BindKeepsInv(cfg, w, ok);
      case ServerEof =>
        var line := if w.server.phase.InControl? then w.server.phase.line else [];
        FailureKeepsInv(cfg, w, false, if line == [] then ClosedByRemote else Unexpected(line));
      case ServerFault => FailureKeepsInv(cfg, w, false, ReadFailed);
      case ServerTimeout => FailureKeepsInv(cfg, w, true, TimedOut);
      case _ => ShutdownKeepsInv(cfg, w, a);
    }
  }

  lemma StepKeepsInv(cfg: Config, w: World, a: Action)
    requires Inv(cfg, w) && Enabled(w, a)
    ensures Inv(cfg, Do(cfg, w, a))
  {
    match a {
      case Control(step) => ServerKeepsInv(cfg, w, step);
      case Listen(act) => ListenerKeepsInv(cfg, w, act);
      case Remote(move) => PeerKeepsInv(cfg, w, move);
      case _ => ConsumedGrows(cfg, w, Do(cfg, w, a));
    }
  }

  lemma InitialInv(cfg: Config, now: nat, peer: Peer)
    ensures Inv(cfg, Initial(now, peer))
  {
    assert Repeat(PONG, 0) == [];
  }

  lemma {:induction false} RunKeepsInv(cfg: Config, peer: Peer, ws: seq<World>, acts: seq<Action>, i: nat)
    requires IsRun(cfg, peer, ws, acts) && i < |ws|
    ensures Inv(cfg, ws[i])
  {
    if i == 0 {
      InitialInv(cfg, ws[0].now, peer);
    } else {
      RunKeepsInv(cfg, peer, ws, acts, i - 1);
      StepKeepsInv(cfg, ws[i - 1], acts[i - 1]);
    }
  }
}
