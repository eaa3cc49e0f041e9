/** The keepalive can go on for ever: runs that meet the hypotheses on time exist for any number of rounds. And the
    hypothesis on the verdict is needed: a run in which HAPPY arrives in two parts fails. */
module Progress {
  import opened Bytes
  import opened Options
  import opened PortSpecs
  import opened Auth
  import opened ServerStages
  import opened Handler
  import opened Session
  import opened SessionSafety
  import opened Composition
  import opened Keepalive
  import L = Listeners

  // ---- Reachability by timely steps ----

  ghost predicate Path(cfg: Config, w: World, acts: seq<Action>, w': World)
    decreases |acts|
  {
    if acts == [] then w' == w
    else Enabled(w, acts[0]) && Timely(w, acts[0]) && Path(cfg, Do(cfg, w, acts[0]), acts[1..], w')
  }

  ghost predicate Leads(cfg: Config, w: World, w': World) {
    exists acts :: Path(cfg, w, acts, w')
  }

  lemma {:induction false} PathJoin(cfg: Config, a: World, p: seq<Action>, b: World, q: seq<Action>, c: World)
    requires Path(cfg, a, p, b) && Path(cfg, b, q, c)
    ensures Path(cfg, a, p + q, c)
    decreases |p|
  {
    if p == [] {
      assert p + q == q;
    } else {
      PathJoin(cfg, Do(cfg, a, p[0]), p[1..], b, q, c);
      assert (p + q)[1..] == p[1..] + q;
    }
  }

  lemma Trans(cfg: Config, a: World, b: World, c: World)
    requires Leads(cfg, a, b) && Leads(cfg, b, c)
    ensures Leads(cfg, a, c)
  {
    var p :| Path(cfg, a, p, b);
    var q :| Path(cfg, b, q, c);
    PathJoin(cfg, a, p, b, q, c);
  }

  /** One more step after a reachable state. */
  lemma Then(cfg: Config, start: World, w: World, a: Action, w': World)
    requires Leads(cfg, start, w) && Enabled(w, a) && Timely(w, a) && w' == Do(cfg, w, a)
    ensures Leads(cfg, start, w')
  {
    assert [a][1..] == [];
    assert Path(cfg, w', [], w');
    assert Path(cfg, w, [a], w');
    Trans(cfg, start, w, w');
  }

  lemma Here(cfg: Config, w: World)
    ensures Leads(cfg, w, w)
  {
    assert Path(cfg, w, [], w);
  }

  /** A path is a run. */
  lemma {:induction false} PathIsRun(cfg: Config, w: World, acts: seq<Action>, w': World) returns (ws: seq<World>)
    requires Path(cfg, w, acts, w')
    ensures |ws| == |acts| + 1 && ws[0] == w && ws[|acts|] == w'
    ensures forall i :: 0 <= i < |acts| ==>
            Enabled(ws[i], acts[i]) && Timely(ws[i], acts[i]) && ws[i + 1] == Do(cfg, ws[i], acts[i])
    decreases |acts|
  {
    if acts == [] {
      ws := [w];
    } else {
      var rest := PathIsRun(cfg, Do(cfg, w, acts[0]), acts[1..], w');
      ws := [w] + rest;
      forall i | 0 <= i < |acts|
        ensures Enabled(ws[i], acts[i]) && Timely(ws[i], acts[i]) && ws[i + 1] == Do(cfg, ws[i], acts[i])
      {
        if i > 0 {
          assert ws[i] == rest[i - 1] && acts[i] == acts[1..][i - 1] && ws[i + 1] == rest[i];
        }
      }
    }
  }

  lemma {:induction false} PathKeeps(cfg: Config, w: World, acts: seq<Action>, w': World)
    requires Sound(cfg) && Path(cfg, w, acts, w') && Inv(cfg, w) && Joint(cfg, w) && OnTime(w)
    ensures Inv(cfg, w') && Joint(cfg, w') && OnTime(w')
    decreases |acts|
  {
    if acts != [] {
      StepKeepsInv(cfg, w, acts[0]);
      StepKeepsJoint(cfg, w, acts[0]);
      StepOnTime(cfg, w, acts[0]);
      PathKeeps(cfg, Do(cfg, w, acts[0]), acts[1..], w');
    }
  }

  // ---- The handshake ----

  /** Client and server share the key, and the request fits the client's buffer. */
  ghost predicate Friendly(cfg: Config, seen: seq<byte>) {
    && 0 < |cfg.request| <= CHALLENGE_REQUEST_BUFFER_LENGTH
    && cfg.parse(cfg.request) == Found(seen)
    && |cfg.answer(seen)| == 129 && cfg.judge(cfg.answer(seen)) == Happy
    && (forall v :: 5 <= v <= 6 ==> cfg.accepts(HAPPY[..v]))
  }

  lemma SameKeyIsFriendly(server: ServerConfig, challenge: seq<byte>, kind: ClientKind)
    requires challenge != [] && (forall b :: b in challenge ==> Plain(b)) &&
             |Request(challenge)| <= CHALLENGE_REQUEST_BUFFER_LENGTH
    ensures Friendly(Setup(server, challenge, server.psk, kind), challenge)
  {
    var request := Request(challenge);
    ParsePrefix(challenge, |request|);
    assert request[..|request|] == request && challenge[..|challenge|] == challenge;
    ServerSatisfied(server.hash, challenge, server.psk, challenge, server.psk);
    forall v | 5 <= v <= 6 ensures ClientAccepts(HAPPY[..v]) {
      VerdictReads(v);
    }
  }

  /** The state in which the client has read v octets of the verdict and is about to start its ticker. */
  ghost function Greeted(cfg: Config, now: nat, seen: seq<byte>, v: nat): World {
    var answer := cfg.answer(seen);
    World(now, Pipe(answer, |answer|, |answer|, false),
          Pipe(cfg.request + HAPPY, |cfg.request| + 6, |cfg.request| + v, false),
          Server(AwaitHeader([]), now, true, HAPPY, 0, None, [], None, 0, 0),
          L.IDLE, L.NO_COUNTS, false, false, Client(Starting, 0, [], 0, v, []))
  }

  lemma Handshake(cfg: Config, now: nat, seen: seq<byte>, v: nat)
    requires Friendly(cfg, seen) && 5 <= v <= 6
    ensures Leads(cfg, Initial(now, NEW_CLIENT), Greeted(cfg, now, seen, v))
  {
    var w0 := Initial(now, NEW_CLIENT);
    var r := |cfg.request|;
    Here(cfg, w0);
    var w1 := Do(cfg, w0, Control(ServerOpen(true)));
    assert w1.down.sent == cfg.request;
    Then(cfg, w0, w0, Control(ServerOpen(true)), w1);
    var w2 := w1.(down := Pipe(cfg.request, r, 0, false));
    Then(cfg, w0, w1, DeliverDown(r), w2);
    AnswerStep(cfg, w0, w2, seen);
    var w3 := w2.(down := Pipe(cfg.request, r, r, false), up := Pipe(cfg.answer(seen), 0, 0, false),
                  peer := w2.peer.(phase := ReadingVerdict));
    var w4 := w3.(up := Pipe(cfg.answer(seen), 129, 0, false));
    Then(cfg, w0, w3, DeliverUp(129), w4);
    JudgeStep(cfg, w0, w4, seen);
    var w5 := w4.(up := Pipe(cfg.answer(seen), 129, 129, false), down := Pipe(cfg.request + HAPPY, r, r, false),
                  server := Server(AwaitHeader([]), now, true, HAPPY, 0, None, [], None, 0, 0));
    var w6 := w5.(down := Pipe(cfg.request + HAPPY, r + 6, r, false));
    Then(cfg, w0, w5, DeliverDown(6), w6);
    var front := Front(w6.down, v);
    assert front == HAPPY[..v];
    Then(cfg, w0, w6, Remote(ClientReadVerdict(v)), Greeted(cfg, now, seen, v));
  }

  lemma AnswerStep(cfg: Config, start: World, w: World, seen: seq<byte>)
    requires Friendly(cfg, seen) && Leads(cfg, start, w)
    requires w.down == Pipe(cfg.request, |cfg.request|, 0, false) && w.up == EMPTY && w.peer == NEW_CLIENT
    ensures Leads(cfg, start, w.(down := Pipe(cfg.request, |cfg.request|, |cfg.request|, false),
                                 up := Pipe(cfg.answer(seen), 0, 0, false), peer := w.peer.(phase := ReadingVerdict)))
  {
    var n := |cfg.request|;
    assert Front(w.down, n) == cfg.request;
    assert [] + cfg.answer(seen) == cfg.answer(seen);
    Then(cfg, start, w, Remote(ClientReadChallenge(n)), Do(cfg, w, Remote(ClientReadChallenge(n))));
  }

  lemma JudgeStep(cfg: Config, start: World, w: World, seen: seq<byte>)
    requires Friendly(cfg, seen) && Leads(cfg, start, w)
    requires w.up == Pipe(cfg.answer(seen), 129, 0, false) &&
             w.server == Server(AwaitResponse([]), w.now, true, [], 0, None, [], None, 0, 0)
    ensures Leads(cfg, start, w.(up := Pipe(cfg.answer(seen), 129, 129, false), down := Send(w.down, HAPPY),
                                 server := Server(AwaitHeader([]), w.now, true, HAPPY, 0, None, [], None, 0, 0)))
  {
    assert Front(w.up, 129) == cfg.answer(seen);
    assert [] + cfg.answer(seen) == cfg.answer(seen);
    Then(cfg, start, w, Control(ServerRead(129, true)), Do(cfg, w, Control(ServerRead(129, true))));
  }

  // ---- A verdict in two parts ----

  /** The hypothesis on the verdict is needed. With a shared key and no fault, a run whose verdict read returns HAPPY
      without its newline ends over that newline: the client takes it for the reply to its first PING. */
  lemma SplitVerdictFails(server: ServerConfig, challenge: seq<byte>, kind: ClientKind, now: nat) returns (w: World)
    requires challenge != [] && (forall b :: b in challenge ==> Plain(b)) &&
             |Request(challenge)| <= CHALLENGE_REQUEST_BUFFER_LENGTH
    ensures Leads(Setup(server, challenge, server.psk, kind), Initial(now, NEW_CLIENT), w)
    ensures w.peer.Client? && w.peer.verdict == 5 && w.peer.phase == Ended(WrongReply) && !w.closed
  {
    var cfg := Setup(server, challenge, server.psk, kind);
    SameKeyIsFriendly(server, challenge, kind);
    w := StrayNewline(cfg, now, challenge);
  }

  lemma StrayNewline(cfg: Config, now: nat, seen: seq<byte>) returns (w: World)
    requires Friendly(cfg, seen)
    ensures Leads(cfg, Initial(now, NEW_CLIENT), w)
    ensures w.peer.Client? && w.peer.verdict == 5 && w.peer.phase == Ended(WrongReply) && !w.closed
  {
    var w0, w1 := Initial(now, NEW_CLIENT), Greeted(cfg, now, seen, 5);
    Handshake(cfg, now, seen, 5);
    var w2 := Do(cfg, w1, Remote(ClientStart));
    Then(cfg, w0, w1, Remote(ClientStart), w2);
    var w3 := Do(cfg, w2, Remote(ClientPing));
    Then(cfg, w0, w2, Remote(ClientPing), w3);
    w := Do(cfg, w3, Remote(ClientReadPong(1)));
    assert Front(w3.down, 1) == [NEWLINE];
    NewlineFirst([NEWLINE]);
    assert [] + Front(w3.down, 1) == [NEWLINE];
    Then(cfg, w0, w3, Remote(ClientReadPong(1)), w);
  }

  // ---- Rounds ----

  /** The session is up, and nothing is in flight after n rounds. */
  ghost predicate AtRest(cfg: Config, w: World, n: nat) {
    && w.peer.Client? && w.peer.phase.Ticking? && w.peer.pongs == n && w.peer.verdict == 6
    && w.server.phase == InControl([]) && w.server.answered == n
    && w.listener.pc.Starting? && !w.closed && !w.cancelled
    && w.up.taken == w.up.arrived == |w.up.sent| && w.down.taken == w.down.arrived == |w.down.sent|
  }

  /** The server in the middle of reading a PING. */
  ghost function Reading(w: World, k: nat): World
    requires k <= 5
  {
    w.(up := Take(w.up, k), server := w.server.(phase := InControl(PING[..k])))
  }

  lemma {:induction false} ReadsPart(cfg: Config, start: World, w: World, k: nat)
    requires k < 5 && Leads(cfg, start, w) && w.server.phase == InControl([])
    requires w.up.taken + 5 == w.up.arrived <= |w.up.sent| && w.up.sent[w.up.taken..w.up.taken + 5] == PING
    ensures Leads(cfg, start, Reading(w, k))
  {
    if k == 0 {
      assert Reading(w, 0) == w;
    } else {
      ReadsPart(cfg, start, w, k - 1);
      var v := Reading(w, k - 1);
      assert v.up.sent[v.up.taken] == w.up.sent[w.up.taken..w.up.taken + 5][k - 1] == PING[k - 1];
      ReadsOctet(cfg, start, v, k - 1);
      assert Reading(w, k) == v.(up := Take(v.up, 1), server := v.server.(phase := InControl(PING[..k])));
    }
  }

  lemma ReadsOctet(cfg: Config, start: World, w: World, k: nat)
    requires k < 4 && Leads(cfg, start, w) && w.server.phase == InControl(PING[..k])
    requires w.up.taken + 1 <= w.up.arrived <= |w.up.sent| && w.up.sent[w.up.taken] == PING[k]
    ensures Leads(cfg, start, w.(up := Take(w.up, 1), server := w.server.(phase := InControl(PING[..k + 1]))))
  {
    assert Front(w.up, 1) == [PING[k]];
    assert PING[..k] + [PING[k]] == PING[..k + 1];
    Then(cfg, start, w, Control(ServerRead(1, true)), Do(cfg, w, Control(ServerRead(1, true))));
  }

  /** The server reads a PING that has arrived, octet by octet, and answers it. */
  lemma ServerAnswers(cfg: Config, start: World, w: World)
    requires Leads(cfg, start, w) && w.server.phase == InControl([])
    requires w.up.taken + 5 == w.up.arrived <= |w.up.sent| && w.up.sent[w.up.taken..w.up.taken + 5] == PING
    ensures Leads(cfg, start, w.(up := Take(w.up, 5), down := Send(w.down, PONG),
                                 server := w.server.(phase := InControl([]), answered := w.server.answered + 1,
                                                     since := w.now)))
  {
    ReadsPart(cfg, start, w, 4);
    var v := Reading(w, 4);
    assert v.up.sent[v.up.taken] == w.up.sent[w.up.taken..w.up.taken + 5][4] == NEWLINE;
    assert Front(v.up, 1) == [NEWLINE];
    assert PING[..4] + [NEWLINE] == PING;
    Then(cfg, start, v, Control(ServerRead(1, true)), Do(cfg, v, Control(ServerRead(1, true))));
  }

  /** The client reads a PONG that has arrived. */
  lemma AcceptsPong(cfg: Config, start: World, w: World) returns (w': World)
    requires Leads(cfg, start, w) && w.peer.Client? && w.peer.phase == AwaitingPong([])
    requires w.down.taken + 5 == w.down.arrived == |w.down.sent| && w.down.sent[w.down.taken..] == PONG
    ensures Leads(cfg, start, w') && w' == w.(down := Take(w.down, 5), peer := w'.peer)
    ensures w'.peer == w.peer.(phase := Ticking, pongs := w.peer.pongs + 1)
  {
    var w1 := w.(down := Take(w.down, 5));
    w' := OnReply(w1, PONG);
    OnPong(w1);
    assert [] + Front(w.down, 5) == PONG;
    Then(cfg, start, w, Remote(ClientReadPong(5)), w');
  }

  lemma OnPong(w: World)
    requires w.peer.Client?
    ensures OnReply(w, PONG) == w.(peer := w.peer.(phase := Ticking, pongs := w.peer.pongs + 1))
  {
    assert PONG == PONG[..5];
    PongPrefix(PONG);
    assert w.peer.lost + [] == w.peer.lost;
  }

  /** One more round, at the time it is due. */
  lemma Round(cfg: Config, start: World, w: World, n: nat) returns (w': World)
    requires Leads(cfg, start, w) && AtRest(cfg, w, n) && OnTime(w) && |w.peer.pings| == n
    ensures Leads(cfg, start, w') && AtRest(cfg, w', n + 1) && |w'.peer.pings| == n + 1
  {
    var due := Due(w.peer);
    var w1 := w.(now := due);
    Then(cfg, start, w, Tick(due), w1);
    var w2 := w1.(up := Send(w1.up, PING), peer := w1.peer.(phase := AwaitingPong([]), pings := w1.peer.pings + [due]));
    Then(cfg, start, w1, Remote(ClientPing), w2);
    var w3 := w2.(up := w2.up.(arrived := w2.up.arrived + 5));
    Then(cfg, start, w2, DeliverUp(5), w3);
    assert w3.up.sent[w3.up.taken..w3.up.taken + 5] == PING;
    ServerAnswers(cfg, start, w3);
    var w4 := w3.(up := Take(w3.up, 5), down := Send(w3.down, PONG),
                  server := w3.server.(phase := InControl([]), answered := w3.server.answered + 1, since := w3.now));
    var w5 := w4.(down := w4.down.(arrived := w4.down.arrived + 5));
    Then(cfg, start, w4, DeliverDown(5), w5);
    assert w5.down.sent[w5.down.taken..] == PONG;
    w' := AcceptsPong(cfg, start, w5);
  }

  /** From the verdict to the control loop. */
  lemma Configures(cfg: Config, now: nat, seen: seq<byte>) returns (w: World)
    requires Friendly(cfg, seen) && cfg.kind.Conforming? && cfg.allows(cfg.kind.port)
    ensures Leads(cfg, Initial(now, NEW_CLIENT), w) && AtRest(cfg, w, 0) && w.peer.pings == []
  {
    var w0, w1 := Initial(now, NEW_CLIENT), Greeted(cfg, now, seen, 6);
    var m := ConfigMessage(cfg.kind.port);
    Handshake(cfg, now, seen, 6);
    var w2 := w1.(up := Send(w1.up, m), peer := w1.peer.(phase := Ticking, t0 := now));
    Then(cfg, w0, w1, Remote(ClientStart), w2);
    var w3 := w2.(up := w2.up.(arrived := 141));
    Then(cfg, w0, w2, DeliverUp(12), w3);
    assert Front(w3.up, 10) == LISTENPORT && [] + LISTENPORT == LISTENPORT;
    var w4 := w3.(up := Take(w3.up, 10), server := w3.server.(phase := AwaitPort([])));
    Then(cfg, w0, w3, Control(ServerRead(10, true)), w4);
    var port := cfg.kind.port;
    assert Front(w4.up, 2) == [port / 256, port % 256];
    BigEndianExact(port / 256, port % 256, port);
    var w5 := Do(cfg, w4, Control(ServerRead(2, true)));
    Then(cfg, w0, w4, Control(ServerRead(2, true)), w5);
    w := Do(cfg, w5, Control(ServerBind(true)));
    Then(cfg, w0, w5, Control(ServerBind(true)), w);
  }

  lemma {:induction false} Rounds(cfg: Config, now: nat, seen: seq<byte>, n: nat) returns (w: World)
    requires Sound(cfg) && Friendly(cfg, seen) && cfg.kind.Conforming? && cfg.allows(cfg.kind.port)
    ensures Leads(cfg, Initial(now, NEW_CLIENT), w) && AtRest(cfg, w, n) && |w.peer.pings| == n
  {
    var w0 := Initial(now, NEW_CLIENT);
    if n == 0 {
      w := Configures(cfg, now, seen);
    } else {
      var before := Rounds(cfg, now, seen, n - 1);
      var acts :| Path(cfg, w0, acts, before);
      InitialInv(cfg, now, NEW_CLIENT);
      PathKeeps(cfg, w0, acts, before);
      w := Round(cfg, w0, before, n - 1);
    }
  }

  /** Keepalive goes on. For every number n, a client and a server with the same key and an allowed port have a run that
      meets the hypotheses on time, and at its end the session is up and n PINGs have been answered. */
  lemma KeepaliveGoesOn(server: ServerConfig, challenge: seq<byte>, port: u16, now: nat, n: nat)
    returns (ws: seq<World>, acts: seq<Action>)
    requires challenge != [] && (forall b :: b in challenge ==> Plain(b)) &&
             |Request(challenge)| <= CHALLENGE_REQUEST_BUFFER_LENGTH
    requires Allows(server.allowed, port)
    ensures IsRun(Setup(server, challenge, server.psk, Conforming(port)), NEW_CLIENT, ws, acts) && ws[0].now == now
    ensures forall j :: 0 <= j < |acts| ==> Timely(ws[j], acts[j])
    ensures var w := ws[|acts|];
            w.peer.Client? && w.peer.phase.Ticking? && |w.peer.pings| == w.peer.pongs == w.server.answered == n &&
                !w.closed
  {
    var cfg := Setup(server, challenge, server.psk, Conforming(port));
    SetupIsSound(server, challenge, server.psk, Conforming(port));
    SameKeyIsFriendly(server, challenge, Conforming(port));
    var w := Rounds(cfg, now, challenge, n);
    acts :| Path(cfg, Initial(now, NEW_CLIENT), acts, w);
    ws := PathIsRun(cfg, Initial(now, NEW_CLIENT), acts, w);
    InitialInv(cfg, now, NEW_CLIENT);
    PathKeeps(cfg, Initial(now, NEW_CLIENT), acts, w);
  }
}
