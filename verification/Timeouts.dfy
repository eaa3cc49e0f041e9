/** The timeouts of the session, in seconds, against moments that are read off the actions of the run: when a timeout
    can fire, what it does, and that with prompt timers no stage lasts longer. */
module Timeouts {
  import opened Bytes
  import opened Options
  import opened ServerStages
  import opened Handler
  import opened Session
  import opened SessionSafety
  import opened StageOrder

  /** The steps that begin a stage: a read after which the server has written something (a verdict or a PONG), and the
      bind. */
  ghost predicate Begins(w: World, a: Action, w': World) {
    || a == Control(ServerBind(true))
    || (a.Control? && a.step.ServerRead? && |w'.down.sent| > |w.down.sent|)
  }

  /** When the stage of the i-th state began: at the last such step, or at the start of the session. */
  ghost function StageStart(ws: seq<World>, acts: seq<Action>, i: nat): nat
    requires i < |ws| && i <= |acts|
  {
    if i == 0 then ws[0].now
    else if Begins(ws[i - 1], acts[i - 1], ws[i]) then ws[i].now
    else StageStart(ws, acts, i - 1)
  }

  /** Neither refused nor past the control loop. */
  ghost predicate UnderWay(ph: Phase) {
    Early(ph) || ph.InControl?
  }

  ghost predicate Timed(w: World, start: nat) {
    UnderWay(w.server.phase) ==> w.server.since == start
  }

  lemma ResponseTimes(cfg: Config, w: World, got: seq<byte>, ok: bool)
    requires UnderWay(w.server.phase)
    ensures var w' := OnResponse(cfg, w, got, ok); Timed(w', if |w'.down.sent| > |w.down.sent| then w.now
            else w.server.since)
  {
  }

  lemma ReadTimes(cfg: Config, w: World, data: seq<byte>, ok: bool)
    requires 1 <= |data| <= Wants(w.server.phase)
    ensures var w' := OnRead(cfg, w, data, ok); Timed(w', if |w'.down.sent| > |w.down.sent| then w.now
            else w.server.since)
    ensures OnRead(cfg, w, data, ok).now == w.now
  {
    if w.server.phase.AwaitResponse? {
      ResponseTimes(cfg, w, w.server.phase.buf + data, ok);
    }
  }

  lemma ServerTimes(cfg: Config, w: World, a: ServerAct, start: nat)
    requires ServerEnabled(w, a) && Timed(w, start)
    ensures var w' := ServerDo(cfg, w, a);
            Timed(w', if Begins(w, Control(a), w') then w'.now else start)
  {
    if a.ServerRead? {
      ReadTimes(cfg, w.(up := Take(w.up, a.n)), Front(w.up, a.n), a.ok);
    }
  }

  lemma StepTimes(cfg: Config, w: World, a: Action, start: nat)
    requires Inv(cfg, w) && Enabled(w, a) && Timed(w, start)
    ensures Timed(Do(cfg, w, a), if Begins(w, a, Do(cfg, w, a)) then Do(cfg, w, a).now else start)
  {
    match a {
      case Control(step) => ServerTimes(cfg, w, step, start);
      case Remote(move) => PeerFrame(cfg, w, move);
      case _ =>
    }
  }

  lemma {:induction false} RunTimes(cfg: Config, peer: Peer, ws: seq<World>, acts: seq<Action>, i: nat)
    requires IsRun(cfg, peer, ws, acts) && i < |ws|
    ensures Timed(ws[i], StageStart(ws, acts, i))
  {
    if i > 0 {
      RunTimes(cfg, peer, ws, acts, i - 1);
      RunKeepsInv(cfg, peer, ws, acts, i - 1);
      StepTimes(cfg, ws[i - 1], acts[i - 1], StageStart(ws, acts, i - 1));
    }
  }

  /** How long a stage may last: sixty seconds without a line in the control loop, ten for each stage before it. */
  ghost function Limit(ph: Phase): nat {
    if ph.InControl? then 60 * SECOND else 10 * SECOND
  }

  /** A timeout can fire exactly when its stage has lasted that long. */
  lemma TimeoutExact(cfg: Config, peer: Peer, ws: seq<World>, acts: seq<Action>, i: nat)
    requires IsRun(cfg, peer, ws, acts) && i < |ws|
    ensures var w := ws[i];
            Enabled(w, Control(ServerTimeout))
            <==> UnderTimeout(w.server.phase) && w.now >= StageStart(ws, acts, i) + Limit(w.server.phase)
  {
    RunTimes(cfg, peer, ws, acts, i);
    RunKeepsInv(cfg, peer, ws, acts, i);
  }

  /** What a timeout does: in the control loop it ends the loop and cancels the token, before it refuses the session. */
  lemma TimeoutEnds(cfg: Config, w: World)
    requires Inv(cfg, w) && Enabled(w, Control(ServerTimeout))
    ensures var w', ph := Do(cfg, w, Control(ServerTimeout)), w.server.phase;
            && (ph.InControl? ==> w'.server.phase.Closing? && w'.server.exit == Some(TimedOut) && w'.cancelled)
            && (ph.Opening? || ph.AwaitResponse? ==>
                  w'.closed && w'.server.phase.Finished? && w'.server.closes == [AuthenticationTimedOut])
            && (ph.AwaitHeader? || ph.AwaitPort? ==>
                  w'.closed && w'.server.phase.Finished? && w'.server.closes == [ConfigurationTimedOut])
            && w'.down.sent == w.down.sent
  {
  }

  /** Nothing but the end of the control loop cancels the token, so the loop's own cancelled branch is never taken. */
  lemma NeverCancelledInside(cfg: Config, peer: Peer, ws: seq<World>, acts: seq<Action>, i: nat)
    requires IsRun(cfg, peer, ws, acts) && i < |ws|
    ensures !Enabled(ws[i], Control(ServerCancelled))
  {
    RunKeepsInv(cfg, peer, ws, acts, i);
  }

  /** With prompt timers the control loop never waits longer than sixty seconds from the bind or the last answered PING,
      and no stage before it longer than ten from its beginning. */
  lemma NoStageOverruns(cfg: Config, peer: Peer, ws: seq<World>, acts: seq<Action>, i: nat)
    requires IsRun(cfg, peer, ws, acts) && i < |ws|
    requires forall j :: 0 <= j < |acts| ==> PromptTimers(ws[j], acts[j])
    ensures ws[i].server.phase.InControl? ==> ws[i].now <= StageStart(ws, acts, i) + 60 * SECOND
    ensures UnderTimeout(ws[i].server.phase) ==> ws[i].now <= StageStart(ws, acts, i) + Limit(ws[i].server.phase)
  {
    RunTimes(cfg, peer, ws, acts, i);
    RunKeepsInv(cfg, peer, ws, acts, i);
    StagesInTime(cfg, peer, ws, acts, i);
  }

  /** In the control loop, the step that began the stage was the bind or the answer to a PING. */
  lemma LoopBegins(cfg: Config, w: World, a: Action)
    requires Inv(cfg, w) && Enabled(w, a) && Do(cfg, w, a).server.phase.InControl? && Begins(w, a, Do(cfg, w, a))
    ensures var w' := Do(cfg, w, a);
            a == Control(ServerBind(true)) || (w.server.phase.InControl? && w'.down.sent == w.down.sent + PONG)
  {
  }

  /** The client's timers: a PING is due thirty seconds after the one before it, and its PONG is waited for thirty. */
  lemma ClientTimersExact(w: World)
    requires w.peer.Client?
    ensures PeerEnabled(w, ClientPing)
            <==> w.peer.phase.Ticking? && w.now >= w.peer.t0 + 30 * SECOND * |w.peer.pings|
    ensures PeerEnabled(w, ClientTimeout)
            <==> w.peer.phase.AwaitingPong? && w.peer.pings != []
                 && w.now >= w.peer.pings[|w.peer.pings| - 1] + 30 * SECOND
  {
  }

  /** The ticker starts when the client is accepted and its preamble is sent, so the first PING is due at once; after
      that its start stays. */
  lemma TickerStartsAtOnce(cfg: Config, w: World, a: PeerAct)
    requires w.peer.Client? && PeerEnabled(w, a)
    ensures var w' := PeerDo(cfg, w, a);
            && w'.peer.Client?
            && (a.ClientStart? ==>
                  && w'.peer.t0 == w.now && w'.peer.phase.Ticking?
                  && w'.up.sent == w.up.sent + Preamble(cfg.kind))
            && (!a.ClientStart? ==> w'.peer.t0 == w.peer.t0)
  {
  }

  /** How the client ends: its steps that lead to an end, with which end, and that it ends its direction then. */
  lemma ClientEndsExact(cfg: Config, w: World, a: PeerAct)
    requires w.peer.Client? && PeerEnabled(w, a)
    ensures var w' := PeerDo(cfg, w, a);
            && (a == ClientTimeout ==> w'.peer.phase == Ended(PongTimedOut))
            && (a == ClientLost ==> w'.peer.phase == Ended(Lost))
            && (a.ClientReadChallenge? ==>
                  (w'.peer.phase == Ended(AuthFailed) <==> cfg.parse(Front(w.down, a.n)).Refused?))
            && (a.ClientReadVerdict? ==> (w'.peer.phase == Ended(AuthFailed) <==> !cfg.accepts(Front(w.down, a.n))))
            && (w'.peer.phase.Ended? ==> w'.up.fin)
            && (a.ClientStart? || a.ClientPing? ==> !w'.peer.phase.Ended?)
  {
  }
}
