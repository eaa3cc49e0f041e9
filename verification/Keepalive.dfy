/** The conforming client and the server: no octet is lost at a hand-off, and the keepalive is timely. */
module Keepalive {
  import opened Bytes
  import opened Options
  import opened Auth
  import opened ServerStages
  import opened Handler
  import opened Session
  import opened SessionSafety
  import opened Composition

  // ---- No octet is lost ----

  /** In every state of every run of the composition in which the client's verdict read returned the whole HAPPY
      message: its readers have lost nothing, at most one server message is unread while it runs, it has not met
      a wrong reply, and PONGs accepted, PONGs sent and PINGs sent are within one of each other. */
  lemma NothingLost(server: ServerConfig, challenge: seq<byte>, clientKey: seq<byte>, kind: ClientKind,
                    ws: seq<World>, acts: seq<Action>, i: nat)
    requires challenge != [] && forall b :: b in challenge ==> Plain(b)
    requires IsRun(Setup(server, challenge, clientKey, kind), NEW_CLIENT, ws, acts) && i < |ws|
    requires ws[i].peer.Client? && ws[i].peer.verdict == 6
    ensures var w := ws[i];
            && w.peer.lost == [] && w.peer.phase != Ended(WrongReply)
            && w.peer.pongs <= w.server.answered <= |w.peer.pings| <= w.peer.pongs + 1
            && (Started(w) ==> |w.down.sent| - w.down.taken <= 5)
  {
    SetupIsSound(server, challenge, clientKey, kind);
    var cfg := Setup(server, challenge, clientKey, kind);
    RunKeepsJoint(cfg, ws, acts, i);
    if Started(ws[i]) {
      Unread(cfg, ws[i]);
    }
  }

  /** Exactly when: the only other verdict read a client goes on with returned five octets, and such a client never
      accepts a PONG; a wrong reply is met by no client but these. */
  lemma LostOnlyAfterSplitVerdict(server: ServerConfig, challenge: seq<byte>, clientKey: seq<byte>, kind: ClientKind,
                                  ws: seq<World>, acts: seq<Action>, i: nat)
    requires challenge != [] && forall b :: b in challenge ==> Plain(b)
    requires IsRun(Setup(server, challenge, clientKey, kind), NEW_CLIENT, ws, acts) && i < |ws|
    ensures var w := ws[i];
            && w.peer.Client?
            && (w.peer.verdict == 5 ==> w.peer.pongs == 0 && |w.peer.pings| <= 1)
            && (w.peer.lost != [] || w.peer.phase == Ended(WrongReply) ==> w.peer.verdict == 5)
            && (w.peer.verdict == 0 || w.peer.verdict == 5 || w.peer.verdict == 6)
  {
    SetupIsSound(server, challenge, clientKey, kind);
    RunKeepsJoint(Setup(server, challenge, clientKey, kind), ws, acts, i);
  }

  /** The line the server is reading from a conforming client is the beginning of a PING. */
  lemma LineIsPing(cfg: Config, w: World)
    requires cfg.kind.Conforming? && Inv(cfg, w) && Joint(cfg, w) && w.server.phase.InControl?
    ensures var line, a := w.server.phase.line, w.server.answered;
            && |line| < 5 && line == PING[..|line|]
            && |w.up.sent| == 141 + 5 * |w.peer.pings|
            && (a < |w.peer.pings| ==> w.up.sent[141 + 5 * a..141 + 5 * a + 5] == PING)
  {
    var line, a, np := w.server.phase.line, w.server.answered, |w.peer.pings|;
    var pings := w.up.sent[141..];
    assert |w.up.sent| >= 141;
    assert w.up.sent[129..][12..] == pings;
    assert pings == Repeat(PING, np);
    RepeatPrefix(PING, np, a);
    LineInPings(w.up.sent, w.up.taken, a, line);
    if a < np {
      assert pings[5 * a..][..5] == pings[5 * a..5 * a + 5] == w.up.sent[141 + 5 * a..141 + 5 * a + 5];
      PartOfPing(line, pings[5 * a..]);
    }
  }

  lemma LineInPings(sent: seq<byte>, taken: nat, a: nat, line: seq<byte>)
    requires taken == 141 + 5 * a + |line| <= |sent| && sent[141..taken] == Repeat(PING, a) + line
    ensures line <= sent[141..][5 * a..]
  {
    assert line == sent[141..taken][5 * a..] == sent[141 + 5 * a..taken];
    assert sent[141..][5 * a..][..|line|] == sent[141 + 5 * a..taken];
  }

  /** A text without a newline that another text starts with ends before the first newline of that text. */
  lemma {:induction false} EndsBeforeNewline(line: seq<byte>, text: seq<byte>)
    requires line <= text && NEWLINE !in line
    ensures |line| <= IndexOf(text, NEWLINE)
  {
    if line != [] {
      assert text[0] == line[0] && line[0] in line;
      EndsBeforeNewline(line[1..], text[1..]);
    }
  }

  lemma PartOfPing(line: seq<byte>, text: seq<byte>)
    requires line <= text && NEWLINE !in line && StartsWith(text, PING)
    ensures |line| < 5 && line == PING[..|line|]
  {
    PingLine(text);
    EndsBeforeNewline(line, text);
    assert IndexOf(text, NEWLINE) + 1 == |text[..IndexOf(text, NEWLINE) + 1]| == 5;
    assert line == text[..5][..|line|];
  }

  ghost predicate NotSurprised(w: World) {
    w.server.exit.Some? ==> !w.server.exit.value.Unexpected? && !w.server.exit.value.SaidBye?
  }

  lemma StepNotSurprised(cfg: Config, w: World, a: Action)
    requires cfg.kind.Conforming? && Inv(cfg, w) && Joint(cfg, w) && NotSurprised(w) && Enabled(w, a)
    ensures NotSurprised(Do(cfg, w, a))
  {
    match a {
      case Control(step) =>
        if w.server.phase.InControl? && (step.ServerRead? || step.ServerEof?) {
          LineIsPing(cfg, w);
          LineNotSurprised(cfg, w, step);
        } else {
          OtherNotSurprised(cfg, w, step);
        }
      case Remote(move) => PeerFrame(cfg, w, move);
      case _ =>
    }
  }

  lemma OtherNotSurprised(cfg: Config, w: World, a: ServerAct)
    requires ServerEnabled(w, a) && NotSurprised(w)
    requires !(w.server.phase.InControl? && (a.ServerRead? || a.ServerEof?))
    ensures NotSurprised(ServerDo(cfg, w, a))
  {
    if a.ServerRead? {
      StageNotSurprised(cfg, w.(up := Take(w.up, a.n)), Front(w.up, a.n), a.ok);
    }
  }

  lemma StageNotSurprised(cfg: Config, w: World, data: seq<byte>, ok: bool)
    requires 1 <= |data| <= Wants(w.server.phase) && !w.server.phase.InControl? && NotSurprised(w)
    ensures NotSurprised(OnRead(cfg, w, data, ok))
  {
  }

  lemma LineNotSurprised(cfg: Config, w: World, a: ServerAct)
    requires ServerEnabled(w, a) && NotSurprised(w) && w.server.phase.InControl? && (a.ServerRead? || a.ServerEof?)
    requires w.peer.Client? && w.server.answered <= |w.peer.pings| && |w.up.sent| == 141 + 5 * |w.peer.pings|
    requires var line, n := w.server.phase.line, w.server.answered;
             && w.up.taken == 141 + 5 * n + |line| && |line| < 5 && line == PING[..|line|]
             && (n < |w.peer.pings| ==> w.up.sent[141 + 5 * n..141 + 5 * n + 5] == PING)
    ensures NotSurprised(ServerDo(cfg, w, a))
  {
    var line, n := w.server.phase.line, w.server.answered;
    if a.ServerRead? {
      var data := Front(w.up, a.n);
      assert n < |w.peer.pings|;
      assert data[0] == w.up.sent[141 + 5 * n..141 + 5 * n + 5][|line|] == PING[|line|];
      if data[0] == NEWLINE {
        assert |line| == 4;
        assert line + data == PING;
      }
    } else {
      assert line == [];
    }
  }

  /** The server of a conforming client never leaves its loop over an unexpected line: only the end of the stream, a
      fault of the transport, or a timeout ends it. */
  lemma {:induction false} ServerNeverSurprised(server: ServerConfig, challenge: seq<byte>, clientKey: seq<byte>,
                                                kind: ClientKind,
                                                ws: seq<World>, acts: seq<Action>, i: nat)
    requires kind.Conforming? && challenge != [] && forall b :: b in challenge ==> Plain(b)
    requires IsRun(Setup(server, challenge, clientKey, kind), NEW_CLIENT, ws, acts) && i < |ws|
    ensures NotSurprised(ws[i])
  {
    if i > 0 {
      SetupIsSound(server, challenge, clientKey, kind);
      var cfg := Setup(server, challenge, clientKey, kind);
      ServerNeverSurprised(server, challenge, clientKey, kind, ws, acts, i - 1);
      RunKeepsJoint(cfg, ws, acts, i - 1);
      StepNotSurprised(cfg, ws[i - 1], acts[i - 1]);
    }
  }

  // ---- The keepalive is timely ----

  /** The hypotheses on time: the client's ticker fires when it is due, and every PING-to-PONG round trip takes less
      than thirty seconds. How the delay is spread over the two directions and the server is left open. */
  ghost predicate Timely(w: World, a: Action) {
    && a != Remote(ClientLost)
    && (a.Tick? && w.peer.Client? && w.peer.phase.Ticking? ==> a.to <= Due(w.peer))
    && (a.Tick? && w.peer.Client? && w.peer.phase.AwaitingPong? && |w.peer.pings| > 0 ==>
          a.to < w.peer.pings[|w.peer.pings| - 1] + READ_TIMEOUT)
  }

  ghost predicate Punctual(c: Peer)
    requires c.Client?
  {
    forall k :: 0 <= k < |c.pings| ==> c.pings[k] == c.t0 + KEEPALIVE_INTERVAL * k
  }

  /** The client's clock. */
  ghost predicate ClientClock(w: World)
    requires w.peer.Client?
  {
    var c, np := w.peer, |w.peer.pings|;
    && Punctual(c)
    && (c.phase.Ticking? ==> c.t0 <= w.now <= Due(c))
    && (c.phase.AwaitingPong? ==> np > 0 && c.pings[np - 1] <= w.now < c.pings[np - 1] + READ_TIMEOUT)
    && (np > 0 ==> c.pings[np - 1] <= w.now)
    && (c.phase.Ended? ==>
          || (c.phase.how == AuthFailed && |w.up.sent| <= 129 && c.verdict == 0)
          || (c.phase.how == WrongReply && np > 0 && c.verdict == 5))
  }

  /** The server's timer in the control loop was started no earlier than the last PING it answered. */
  ghost predicate ServerClock(w: World)
    requires w.peer.Client?
  {
    var s, c := w.server, w.peer;
    && (s.phase.InControl? ==>
          c.t0 <= s.since && (s.answered > 0 ==> c.t0 + KEEPALIVE_INTERVAL * (s.answered - 1) <= s.since))
    && (s.exit == Some(TimedOut) ==> c.verdict == 5)
  }

  ghost predicate OnTime(w: World) {
    w.peer.Client? && ClientClock(w) && ServerClock(w)
  }

  /** A read of an awaited reply changes neither the times nor what was sent. */
  lemma ReplyOnTime(w: World, got: seq<byte>)
    requires OnTime(w) && w.peer.phase.AwaitingPong?
    requires OnReply(w, got).peer.phase == Ended(WrongReply) ==> w.peer.verdict == 5
    ensures OnTime(OnReply(w, got))
  {
  }

  lemma PingOnTime(cfg: Config, w: World)
    requires OnTime(w) && PeerEnabled(w, ClientPing)
    ensures OnTime(PeerDo(cfg, w, ClientPing))
  {
  }

  lemma HandshakeOnTime(cfg: Config, w: World, a: PeerAct)
    requires OnTime(w) && PeerEnabled(w, a) && (a.ClientReadChallenge? || a.ClientReadVerdict? || a.ClientStart?)
    requires |w.up.sent| <= 129 && |w.peer.pings| == 0 && !w.server.phase.InControl? && w.server.exit.None?
    requires !w.peer.phase.Starting? ==> w.peer.verdict == 0
    ensures OnTime(PeerDo(cfg, w, a))
  {
  }

  lemma ReadPongOnTime(cfg: Config, w: World, n: nat)
    requires OnTime(w) && PeerEnabled(w, ClientReadPong(n)) && Joint(cfg, PeerDo(cfg, w, ClientReadPong(n)))
    ensures OnTime(PeerDo(cfg, w, ClientReadPong(n)))
  {
    ReplyOnTime(w.(down := Take(w.down, n)), w.peer.phase.buf + Front(w.down, n));
  }

  lemma ClientStepOnTime(cfg: Config, w: World, a: PeerAct)
    requires Inv(cfg, w) && Joint(cfg, w) && OnTime(w) && PeerEnabled(w, a) && Timely(w, Remote(a))
    requires Joint(cfg, PeerDo(cfg, w, a))
    ensures OnTime(PeerDo(cfg, w, a))
  {
    if a.ClientReadPong? {
      ReadPongOnTime(cfg, w, a.n);
    } else if a.ClientPing? {
      PingOnTime(cfg, w);
    } else if a.ClientReadChallenge? || a.ClientReadVerdict? || a.ClientStart? {
      BeforeStart(cfg, w);
      HandshakeOnTime(cfg, w, a);
    }
  }

  lemma BeforeStart(cfg: Config, w: World)
    requires Inv(cfg, w) && Joint(cfg, w)
    requires w.peer.phase.ReadingChallenge? || w.peer.phase.ReadingVerdict? || w.peer.phase.Starting?
    ensures |w.up.sent| <= 129 && |w.peer.pings| == 0 && !w.server.phase.InControl? && w.server.exit.None?
    ensures !w.peer.phase.Starting? ==> w.peer.verdict == 0
  {
  }

  /** A server in its control loop has a client that has started its ticker. */
  lemma InLoopMeansStarted(cfg: Config, w: World)
    requires Inv(cfg, w) && Joint(cfg, w)
    ensures w.server.phase.InControl? || w.server.phase.Binding? ==> |w.up.sent| >= 141
    ensures |w.up.sent| >= 141 ==>
            !w.peer.phase.ReadingChallenge? && !w.peer.phase.ReadingVerdict? && !w.peer.phase.Starting?
  {
  }

  /** It is less than an interval after the next PING was due. */
  lemma NowBound(cfg: Config, w: World)
    requires Joint(cfg, w) && OnTime(w) && |w.up.sent| >= 141
    requires !w.peer.phase.ReadingChallenge? && !w.peer.phase.ReadingVerdict? && !w.peer.phase.Starting?
    ensures w.peer.verdict == 5 || w.now < w.peer.t0 + KEEPALIVE_INTERVAL * (w.server.answered + 1)
  {
    var c, np := w.peer, |w.peer.pings|;
    if c.phase.AwaitingPong? {
      assert c.pings[np - 1] == c.t0 + KEEPALIVE_INTERVAL * (np - 1);
    }
  }

  /** The server's timeout of sixty seconds cannot have expired. */
  lemma TimerNotExpired(cfg: Config, w: World)
    requires Inv(cfg, w) && Joint(cfg, w) && OnTime(w) && w.server.phase.InControl?
    ensures w.peer.verdict == 5 || w.now < w.server.since + KEEPALIVE_INTERVAL + READ_TIMEOUT
  {
    InLoopMeansStarted(cfg, w);
    NowBound(cfg, w);
    SinceBound(w);
  }

  lemma SinceBound(w: World)
    requires w.peer.Client? && ServerClock(w) && w.server.phase.InControl?
    ensures w.peer.t0 + KEEPALIVE_INTERVAL * (w.server.answered + 1)
            <= w.server.since + KEEPALIVE_INTERVAL + READ_TIMEOUT
  {
  }

  /** A server that has just answered a PING has done so after that PING was sent. */
  lemma AnsweredInPast(w: World, k: nat)
    requires w.peer.Client? && ClientClock(w) && 0 < k <= |w.peer.pings|
    ensures w.peer.t0 + KEEPALIVE_INTERVAL * (k - 1) <= w.now
  {
    assert w.peer.pings[k - 1] == w.peer.t0 + KEEPALIVE_INTERVAL * (k - 1);
    PingsInPast(w, k - 1);
  }

  lemma ClientClockKept(w: World, w': World)
    requires w.peer.Client? && ClientClock(w) && w'.peer == w.peer && w'.now == w.now && w'.up.sent == w.up.sent
    ensures ClientClock(w')
  {
  }

  lemma ServerLoopOnTime(cfg: Config, w: World, a: ServerAct)
    requires OnTime(w) && ServerEnabled(w, a) && w.server.phase.InControl? && w.server.exit.None?
    requires w.peer.verdict == 5 || w.now < w.server.since + KEEPALIVE_INTERVAL + READ_TIMEOUT
    requires var w' := ServerDo(cfg, w, a); w'.peer == w.peer && w'.server.answered <= |w.peer.pings|
    ensures ServerClock(ServerDo(cfg, w, a))
  {
    var answered := ServerDo(cfg, w, a).server.answered;
    AnswerRestartsTimer(cfg, w, a);
    if answered > w.server.answered {
      AnsweredInPast(w, answered);
    }
    LoopStepOnTime(cfg, w, a);
  }

  lemma ServerStepOnTime(cfg: Config, w: World, a: ServerAct)
    requires Inv(cfg, w) && Joint(cfg, w) && OnTime(w) && ServerEnabled(w, a)
    requires Joint(cfg, ServerDo(cfg, w, a))
    ensures OnTime(ServerDo(cfg, w, a))
  {
    ServerFrame(cfg, w, a);
    ClientClockKept(w, ServerDo(cfg, w, a));
    if w.server.phase.InControl? {
      TimerNotExpired(cfg, w);
      ServerLoopOnTime(cfg, w, a);
    } else {
      if w.server.phase.Binding? {
        BindAfterStart(cfg, w);
      }
      OtherStepOnTime(cfg, w, a);
    }
  }

  lemma BindAfterStart(cfg: Config, w: World)
    requires Inv(cfg, w) && Joint(cfg, w) && OnTime(w) && w.server.phase.Binding?
    ensures w.peer.t0 <= w.now && w.server.answered == 0
  {
    InLoopMeansStarted(cfg, w);
    if |w.peer.pings| > 0 {
      AnsweredInPast(w, 1);
    }
  }

  lemma PingsInPast(w: World, k: nat)
    requires w.peer.Client? && ClientClock(w) && k < |w.peer.pings|
    ensures w.peer.pings[k] <= w.now
  {
    var np := |w.peer.pings|;
    assert w.peer.pings[k] == w.peer.t0 + KEEPALIVE_INTERVAL * k;
    assert w.peer.pings[np - 1] == w.peer.t0 + KEEPALIVE_INTERVAL * (np - 1);
  }

  lemma AnswerRestartsTimer(cfg: Config, w: World, a: ServerAct)
    requires ServerEnabled(w, a) && w.server.phase.InControl?
    ensures var w' := ServerDo(cfg, w, a); w'.server.answered > w.server.answered ==> w'.server.since == w.now
  {
  }

  lemma LoopStepOnTime(cfg: Config, w: World, a: ServerAct)
    requires ServerEnabled(w, a) && w.server.phase.InControl? && w.peer.Client? && ServerClock(w)
    requires w.peer.verdict == 5 || w.now < w.server.since + KEEPALIVE_INTERVAL + READ_TIMEOUT
    requires w.server.exit.None?
    requires var w' := ServerDo(cfg, w, a);
             && w'.peer == w.peer
             && (w'.server.answered > w.server.answered ==>
                   w'.server.since == w.now && w.peer.t0 + KEEPALIVE_INTERVAL * (w'.server.answered - 1) <= w.now)
    ensures ServerClock(ServerDo(cfg, w, a))
  {
  }

  lemma OtherStepOnTime(cfg: Config, w: World, a: ServerAct)
    requires ServerEnabled(w, a) && !w.server.phase.InControl? && w.peer.Client? && ServerClock(w)
    requires w.server.phase.Binding? ==> w.peer.t0 <= w.now && w.server.answered == 0
    ensures ServerClock(ServerDo(cfg, w, a))
  {
    if a.ServerRead? {
      StageReadOnTime(cfg, w.(up := Take(w.up, a.n)), Front(w.up, a.n), a.ok);
    }
  }

  lemma StageReadOnTime(cfg: Config, w: World, data: seq<byte>, ok: bool)
    requires 1 <= |data| <= Wants(w.server.phase) && !w.server.phase.InControl? && w.peer.Client? && ServerClock(w)
    ensures ServerClock(OnRead(cfg, w, data, ok))
  {
  }

  lemma TickOnTime(w: World, to: nat)
    requires OnTime(w) && to >= w.now && Timely(w, Tick(to))
    ensures OnTime(w.(now := to))
  {
  }

  lemma StepOnTime(cfg: Config, w: World, a: Action)
    requires Sound(cfg) && Inv(cfg, w) && Joint(cfg, w) && OnTime(w) && Enabled(w, a) && Timely(w, a)
    ensures OnTime(Do(cfg, w, a))
  {
    if a.Control? {
      ServerKeepsJoint(cfg, w, a.step);
      ServerStepOnTime(cfg, w, a.step);
    } else if a.Remote? {
      ClientKeepsJoint(cfg, w, a.move);
      ClientStepOnTime(cfg, w, a.move);
    } else {
      EnvironmentOnTime(cfg, w, a);
    }
  }

  lemma EnvironmentOnTime(cfg: Config, w: World, a: Action)
    requires OnTime(w) && Enabled(w, a) && Timely(w, a) && !a.Control? && !a.Remote?
    ensures OnTime(Do(cfg, w, a))
  {
    if a.Tick? {
      TickOnTime(w, a.to);
    }
  }

  lemma {:induction false} RunOnTime(cfg: Config, ws: seq<World>, acts: seq<Action>, i: nat)
    requires Sound(cfg) && IsRun(cfg, NEW_CLIENT, ws, acts) && i < |ws|
    requires forall j :: 0 <= j < |acts| ==> Timely(ws[j], acts[j])
    ensures OnTime(ws[i])
  {
    if i > 0 {
      RunOnTime(cfg, ws, acts, i - 1);
      RunKeepsJoint(cfg, ws, acts, i - 1);
      StepOnTime(cfg, ws[i - 1], acts[i - 1]);
    }
  }

  /** Timed liveness of the keepalive. With every round trip under thirty seconds, however the delays vary: the k-th
      PING is sent exactly thirty k seconds after the ticker started; while the client runs, every PING that is due
      has been sent; a client that has read the verdict whole runs on, and no client times out; and the server's sixty
      second timeout never fires, unless the client has left over a split verdict. */
  lemma KeepaliveOnTime(server: ServerConfig, challenge: seq<byte>, clientKey: seq<byte>, kind: ClientKind,
                        ws: seq<World>, acts: seq<Action>, i: nat)
    requires challenge != [] && forall b :: b in challenge ==> Plain(b)
    requires IsRun(Setup(server, challenge, clientKey, kind), NEW_CLIENT, ws, acts) && i < |ws|
    requires forall j :: 0 <= j < |acts| ==> Timely(ws[j], acts[j])
    ensures var w := ws[i];
            && w.peer.Client?
            && (forall k :: 0 <= k < |w.peer.pings| ==> w.peer.pings[k] == w.peer.t0 + 30 * SECOND * k)
            && (Started(w) ==> forall k: nat :: w.peer.t0 + 30 * SECOND * k < w.now ==> k < |w.peer.pings|)
            && (w.peer.verdict == 6 ==> !w.peer.phase.Ended?) && w.peer.phase != Ended(PongTimedOut)
            && (w.peer.verdict != 5 ==> w.server.exit != Some(TimedOut))
  {
    SetupIsSound(server, challenge, clientKey, kind);
    RunOnTime(Setup(server, challenge, clientKey, kind), ws, acts, i);
  }
}
