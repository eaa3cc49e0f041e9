/** The fairness hypotheses of the shutdown can be met together: for every number of answered PINGs there is an
    infinite run that meets them all and whose control loop ends. */
module FairRuns {
  import opened Bytes
  import opened Auth
  import opened PortSpecs
  import opened Handler
  import opened Session
  import opened Composition
  import opened Keepalive
  import opened Progress
  import opened Shutdown
  import L = Listeners

  // ---- Finite paths that go on for ever ----

  ghost predicate Possible(cfg: Config, w: World, acts: seq<Action>)
    decreases |acts|
  {
    acts == [] || (Enabled(w, acts[0]) && Possible(cfg, Do(cfg, w, acts[0]), acts[1..]))
  }

  /** The state after i actions; after the last one the clock ticks without moving. */
  ghost function StateAt(cfg: Config, w: World, acts: seq<Action>, i: nat): World
    requires Possible(cfg, w, acts)
    decreases |acts|
  {
    if i == 0 || acts == [] then w else StateAt(cfg, Do(cfg, w, acts[0]), acts[1..], i - 1)
  }

  ghost function ActionAt(cfg: Config, w: World, acts: seq<Action>, i: nat): Action
    requires Possible(cfg, w, acts)
  {
    if i < |acts| then acts[i] else Tick(StateAt(cfg, w, acts, i).now)
  }

  lemma {:induction false} StepsOn(cfg: Config, w: World, acts: seq<Action>, i: nat)
    requires Possible(cfg, w, acts)
    ensures var v, a := StateAt(cfg, w, acts, i), ActionAt(cfg, w, acts, i);
            Enabled(v, a) && StateAt(cfg, w, acts, i + 1) == Do(cfg, v, a)
    decreases |acts|
  {
    if acts != [] && i > 0 {
      StepsOn(cfg, Do(cfg, w, acts[0]), acts[1..], i - 1);
    }
  }

  lemma {:induction false} PathIsPossible(cfg: Config, w: World, acts: seq<Action>, w': World)
    requires Path(cfg, w, acts, w')
    ensures Possible(cfg, w, acts) && forall i: nat :: i >= |acts| ==> StateAt(cfg, w, acts, i) == w'
    decreases |acts|
  {
    if acts != [] {
      PathIsPossible(cfg, Do(cfg, w, acts[0]), acts[1..], w');
    }
  }

  lemma JoinIsPossible(cfg: Config, w: World, p: seq<Action>, v: World, q: seq<Action>, w': World)
    requires Path(cfg, w, p, v) && Path(cfg, v, q, w')
    ensures Path(cfg, w, p + q, w') && Possible(cfg, w, p + q) && Possible(cfg, v, q)
  {
    PathJoin(cfg, w, p, v, q, w');
    PathIsPossible(cfg, w, p + q, w');
    PathIsPossible(cfg, v, q, w');
  }

  /** After the first part of a path, the rest is what is left. */
  lemma {:induction false} StateAfter(cfg: Config, w: World, p: seq<Action>, v: World, q: seq<Action>, i: nat)
    requires Path(cfg, w, p, v) && Possible(cfg, w, p + q) && Possible(cfg, v, q)
    ensures StateAt(cfg, w, p + q, |p| + i) == StateAt(cfg, v, q, i)
    decreases |p|
  {
    if p == [] {
      assert p + q == q;
    } else {
      assert (p + q)[1..] == p[1..] + q;
      StateAfter(cfg, Do(cfg, w, p[0]), p[1..], v, q, i);
    }
  }

  // ---- The end of a session ----

  /** The control stream breaks, the listener has just started, the handler closes, the listener ends, the handler
      joins. */
  const ENDING: seq<Action> := [Control(ServerFault), Listen(L.Started(true)), Control(ServerClose),
                                        Listen(L.Cancelled), Control(ServerJoin)]

  ghost predicate Ends(cfg: Config, w: World, w': World) {
    && Path(cfg, w, ENDING, w') && Possible(cfg, w, ENDING)
    && StateAt(cfg, w, ENDING, 1).server.phase.Closing?
    && StateAt(cfg, w, ENDING, 1).server.answered == w.server.answered
    && StateAt(cfg, w, ENDING, 3).server.phase.Joining?
    && StateAt(cfg, w, ENDING, 4).server.phase.Joining? && StateAt(cfg, w, ENDING, 4).listener.pc.Ended?
    && w'.server.phase.Finished? && w'.listener.pc.Ended?
  }

  lemma FirstStep(cfg: Config, w: World, a: Action, rest: seq<Action>, w': World)
    requires Enabled(w, a) && Timely(w, a) && Path(cfg, Do(cfg, w, a), rest, w') && Possible(cfg, Do(cfg, w, a), rest)
    ensures Path(cfg, w, [a] + rest, w') && Possible(cfg, w, [a] + rest)
    ensures forall i: nat :: i >= 1 ==> StateAt(cfg, w, [a] + rest, i) == StateAt(cfg, Do(cfg, w, a), rest, i - 1)
  {
    assert ([a] + rest)[1..] == rest;
  }

  /** The ending without its first two steps. */
  const CLOSING: seq<Action> := [Control(ServerClose), Listen(L.Cancelled), Control(ServerJoin)]

  ghost predicate Closes(cfg: Config, w: World, w': World) {
    && Path(cfg, w, CLOSING, w') && Possible(cfg, w, CLOSING)
    && StateAt(cfg, w, CLOSING, 1).server.phase.Joining?
    && StateAt(cfg, w, CLOSING, 2).server.phase.Joining? && StateAt(cfg, w, CLOSING, 2).listener.pc.Ended?
    && w'.server.phase.Finished? && w'.listener.pc.Ended?
  }

  lemma SessionCloses(cfg: Config, w: World) returns (w': World)
    requires w.server.phase.Closing? && w.listener.pc.Selecting? && w.cancelled
    ensures Closes(cfg, w, w')
  {
    var w1 := Do(cfg, w, CLOSING[0]);
    var w2 := Do(cfg, w1, CLOSING[1]);
    w' := Do(cfg, w2, CLOSING[2]);
    var e2, e1 := CLOSING[2..], CLOSING[1..];
    assert [CLOSING[2]] + [] == e2 && [CLOSING[1]] + e2 == e1 && [CLOSING[0]] + e1 == CLOSING;
    FirstStep(cfg, w2, CLOSING[2], [], w');
    FirstStep(cfg, w1, CLOSING[1], e2, w');
    FirstStep(cfg, w, CLOSING[0], e1, w');
  }

  lemma SessionEnds(cfg: Config, w: World) returns (w': World)
    requires w.server.phase == InControl([]) && w.listener.pc.Starting? && !w.closed && !w.cancelled
    ensures Ends(cfg, w, w')
  {
    var w1 := Do(cfg, w, ENDING[0]);
    var w2 := Do(cfg, w1, ENDING[1]);
    w' := SessionCloses(cfg, w2);
    assert [ENDING[1]] + CLOSING == ENDING[1..] && [ENDING[0]] + ENDING[1..] == ENDING;
    FirstStep(cfg, w1, ENDING[1], CLOSING, w');
    FirstStep(cfg, w, ENDING[0], ENDING[1..], w');
  }

  /** A run that goes through the ending from its e-th state on, and then ticks. */
  ghost predicate EndsAt(run: nat -> World, acts: nat -> Action, e: nat) {
    && run(e + 1).server.phase.Closing? && run(e + 3).server.phase.Joining?
    && run(e + 4).server.phase.Joining? && run(e + 4).listener.pc.Ended?
    && acts(e + 2) == Control(ServerClose) && acts(e + 3) == Listen(L.Cancelled) && acts(e + 4) == Control(ServerJoin)
    && (forall i: nat :: i >= e + 5 ==> acts(i).Tick? && run(i).server.phase.Finished? && run(i).listener.pc.Ended?)
  }

  lemma HandlerIsFair(run: nat -> World, acts: nat -> Action, e: nat)
    requires EndsAt(run, acts, e)
    ensures HandlerFair(run, acts)
  {
    forall i: nat | run(i).server.phase.Closing? ensures TakesFrom(acts, i, Control(ServerClose)) {
      assert i < e + 5 && i != e + 3 && i != e + 4;
      assert acts(e + 2) == Control(ServerClose);
    }
    forall i: nat | run(i).server.phase.Joining? && run(i).listener.pc.Ended?
        ensures TakesFrom(acts, i, Control(ServerJoin)) {
      assert i < e + 5;
      assert acts(e + 4) == Control(ServerJoin);
    }
  }

  lemma ListenerIsFair(run: nat -> World, acts: nat -> Action, e: nat)
    requires EndsAt(run, acts, e)
    ensures ListenerFair(run, acts)
  {
    forall i: nat | !run(i).listener.pc.Ended? ensures MovesFrom(acts, i) {
      assert i < e + 5 && i != e + 4;
      assert TaskMoves(acts(e + 3));
    }
  }

  lemma NotPolledLate(run: nat -> World, acts: nat -> Action, e: nat, k: nat)
    requires EndsAt(run, acts, e) && k >= e + 5
    ensures !PolledFrom(run, acts, k)
  {
  }

  lemma SelectIsFair(run: nat -> World, acts: nat -> Action, e: nat)
    requires EndsAt(run, acts, e)
    ensures SelectFair(run, acts)
  {
    NotPolledLate(run, acts, e, e + 5);
    forall i: nat ensures (forall j: nat :: i <= j ==> PolledFrom(run, acts, j)) ==>
        TakesFrom(acts, i, Listen(L.Cancelled)) {
      if i <= e + 3 {
        assert acts(e + 3) == Listen(L.Cancelled);
      } else {
        NotPolledLate(run, acts, e, e + 1 + i);
      }
    }
  }

  /** The fairness hypotheses are satisfiable. For every number n there is an infinite run of the two programs that
      meets all of them, and in which the control loop ends after n answered PINGs. */
  lemma FairRunExists(server: ServerConfig, challenge: seq<byte>, port: u16, now: nat, n: nat)
    returns (run: nat -> World, acts: nat -> Action, i: nat)
    requires challenge != [] && (forall b :: b in challenge ==> Plain(b))
    requires |Request(challenge)| <= CHALLENGE_REQUEST_BUFFER_LENGTH && Allows(server.allowed, port)
    ensures IsInfiniteRun(Setup(server, challenge, server.psk, Conforming(port)), NEW_CLIENT, run, acts)
    ensures HandlerFair(run, acts) && ListenerFair(run, acts) && SelectFair(run, acts)
    ensures run(i).server.phase.Closing? && run(i).server.answered == n
  {
    var cfg := Setup(server, challenge, server.psk, Conforming(port));
    SetupIsSound(server, challenge, server.psk, Conforming(port));
    SameKeyIsFriendly(server, challenge, Conforming(port));
    run, acts, i := RoundsAndEnding(cfg, now, challenge, n);
  }

  lemma RoundsAndEnding(cfg: Config, now: nat, seen: seq<byte>, n: nat)
    returns (run: nat -> World, acts: nat -> Action, i: nat)
    requires Sound(cfg) && Friendly(cfg, seen) && cfg.kind.Conforming? && cfg.allows(cfg.kind.port)
    ensures IsInfiniteRun(cfg, NEW_CLIENT, run, acts)
    ensures HandlerFair(run, acts) && ListenerFair(run, acts) && SelectFair(run, acts)
    ensures run(i).server.phase.Closing? && run(i).server.answered == n
  {
    var w0 := Initial(now, NEW_CLIENT);
    var w := Rounds(cfg, now, seen, n);
    var p :| Path(cfg, w0, p, w);
    var end := SessionEnds(cfg, w);
    JoinIsPossible(cfg, w0, p, w, ENDING, end);
    StateAfter(cfg, w0, p, w, ENDING, 1);
    run, acts := TickingOn(cfg, w0, p + ENDING);
    RunEndsAt(cfg, w0, p, w, end, run, acts);
    i := |p| + 1;
    HandlerIsFair(run, acts, |p|);
    ListenerIsFair(run, acts, |p|);
    SelectIsFair(run, acts, |p|);
  }

  /** The infinite run of a path. */
  lemma TickingOn(cfg: Config, w: World, path: seq<Action>) returns (run: nat -> World, acts: nat -> Action)
    requires Possible(cfg, w, path)
    ensures run(0) == w && forall k: nat :: run(k) == StateAt(cfg, w, path, k) && acts(k) == ActionAt(cfg, w, path, k)
    ensures forall k: nat :: StepAt(cfg, run, acts, k)
  {
    run := (k: nat) => StateAt(cfg, w, path, k);
    acts := (k: nat) => ActionAt(cfg, w, path, k);
    forall k: nat ensures StepAt(cfg, run, acts, k) {
      StepsOn(cfg, w, path, k);
    }
  }

  lemma RunEndsAt(cfg: Config, w0: World, p: seq<Action>, w: World, end: World, run: nat -> World, acts: nat -> Action)
    requires Path(cfg, w0, p, w) && Ends(cfg, w, end) && Possible(cfg, w0, p + ENDING)
    requires forall k: nat :: run(k) == StateAt(cfg, w0, p + ENDING, k) && acts(k) == ActionAt(cfg, w0, p + ENDING, k)
    ensures EndsAt(run, acts, |p|)
  {
    JoinIsPossible(cfg, w0, p, w, ENDING, end);
    StateAfter(cfg, w0, p, w, ENDING, 1);
    StateAfter(cfg, w0, p, w, ENDING, 3);
    StateAfter(cfg, w0, p, w, ENDING, 4);
    PathIsPossible(cfg, w0, p + ENDING, end);
    var path := p + ENDING;
    assert path[|p| + 2] == ENDING[2] && path[|p| + 3] == ENDING[3] && path[|p| + 4] == ENDING[4] && |path| == |p| + 5;
  }
}
