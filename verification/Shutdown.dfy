/** Shutdown of a session over whole runs: what cannot happen after the close, and that the listener ends and
    the join returns in every fair run. */
module Shutdown {
  import opened Session
  import opened SessionSafety
  import L = Listeners

  /** After the close no stream is opened any more, and open streams without a forwarder only turn into
      forwarders. */
  ghost predicate Quiet(w: World, w': World) {
    && w'.closed && w'.server.closes == w.server.closes
    && w'.listener.opens == w.listener.opens
    && w'.listener.spawns + L.Unspawned(w'.listener) == w.listener.spawns + L.Unspawned(w.listener)
  }

  lemma StepIsQuiet(cfg: Config, w: World, a: Action)
    requires Inv(cfg, w) && w.closed && Enabled(w, a)
    ensures Quiet(w, Do(cfg, w, a))
  {
    if a.Remote? {
      PeerFrame(cfg, w, a.move);
    }
  }

  /** Once the connection is closed it stays closed, no data stream is opened, and at most one more forwarder
      is spawned: the one whose stream was already open. */
  lemma {:induction false} NothingOpensAfterClose(cfg: Config, peer: Peer, ws: seq<World>, acts: seq<Action>, i: nat,
                                                  j: nat)
    requires IsRun(cfg, peer, ws, acts) && i <= j < |ws| && ws[i].closed
    ensures Quiet(ws[i], ws[j])
    ensures ws[j].listener.spawns <= ws[i].listener.spawns + L.Unspawned(ws[i].listener) <= ws[i].listener.spawns + 1
  {
    if i < j {
      NothingOpensAfterClose(cfg, peer, ws, acts, i, j - 1);
      RunKeepsInv(cfg, peer, ws, acts, j - 1);
      StepIsQuiet(cfg, ws[j - 1], acts[j - 1]);
    }
  }

  // ---- Infinite runs ----

  ghost predicate StepAt(cfg: Config, run: nat -> World, acts: nat -> Action, i: nat) {
    Enabled(run(i), acts(i)) && run(i + 1) == Do(cfg, run(i), acts(i))
  }

  ghost predicate IsInfiniteRun(cfg: Config, peer: Peer, run: nat -> World, acts: nat -> Action) {
    && run(0) == Initial(run(0).now, peer)
    && forall i: nat :: StepAt(cfg, run, acts, i)
  }

  /** A step of the listener task itself, not of one of its forwarders. */
  ghost predicate TaskMoves(a: Action) {
    a.Listen? && !a.act.ForwarderEnded?
  }

  ghost predicate MovesFrom(acts: nat -> Action, i: nat) {
    exists j: nat :: i <= j && TaskMoves(acts(j))
  }

  ghost predicate TakesFrom(acts: nat -> Action, i: nat, a: Action) {
    exists j: nat :: i <= j && acts(j) == a
  }

  /** The handler task is polled: it closes when it is about to, and joins when the listener has ended. */
  ghost predicate HandlerFair(run: nat -> World, acts: nat -> Action) {
    && (forall i: nat :: run(i).server.phase.Closing? ==> TakesFrom(acts, i, Control(ServerClose)))
    && (forall i: nat :: run(i).server.phase.Joining? && run(i).listener.pc.Ended? ==>
        TakesFrom(acts, i, Control(ServerJoin)))
  }

  /** The listener task is polled after the close until it has ended. */
  ghost predicate ListenerFair(run: nat -> World, acts: nat -> Action) {
    forall i: nat :: run(i).closed && run(i).cancelled && !run(i).listener.pc.Ended? ==> MovesFrom(acts, i)
  }

  /** At step k the select is polled while its cancelled branch is ready. */
  ghost predicate Polled(run: nat -> World, acts: nat -> Action, k: nat) {
    run(k).cancelled && run(k).listener.pc.Selecting? && TaskMoves(acts(k))
  }

  ghost predicate PolledFrom(run: nat -> World, acts: nat -> Action, i: nat) {
    exists k: nat :: i <= k && Polled(run, acts, k)
  }

  /** The select is fair: polled again and again with the cancelled branch ready, it takes that branch. */
  ghost predicate SelectFair(run: nat -> World, acts: nat -> Action) {
    forall i: nat :: (forall j: nat :: i <= j ==> PolledFrom(run, acts, j)) ==> TakesFrom(acts, i, Listen(L.Cancelled))
  }

  lemma {:induction false} InfiniteKeepsInv(cfg: Config, peer: Peer, run: nat -> World, acts: nat -> Action, i: nat)
    requires IsInfiniteRun(cfg, peer, run, acts)
    ensures Inv(cfg, run(i))
  {
    if i == 0 {
      InitialInv(cfg, run(0).now, peer);
    } else {
      InfiniteKeepsInv(cfg, peer, run, acts, i - 1);
      assert StepAt(cfg, run, acts, i - 1);
      StepKeepsInv(cfg, run(i - 1), acts(i - 1));
    }
  }

  /** What one step means for the shutdown: the flags are stable, only the listener's own steps move it, and
      after the close they take it nearer to its select. */
  ghost predicate Shuts(w: World, a: Action, w': World) {
    && (w.closed ==> w'.closed) && (w.cancelled ==> w'.cancelled)
    && (w.listener.pc.Ended? ==> w'.listener.pc == w.listener.pc)
    && (w.server.phase.Joining? && a != Control(ServerJoin) ==> w'.server.phase.Joining?)
    && (w.closed && !TaskMoves(a) ==> w'.listener.pc == w.listener.pc)
    && (w.closed && TaskMoves(a) && !w.listener.pc.Selecting? ==>
          w'.listener.pc.Ended? || Distance(w'.listener.pc) < Distance(w.listener.pc))
    && (a == Listen(L.Cancelled) ==> w'.listener.pc.Ended?)
    && (a == Control(ServerClose) ==> w'.server.phase.Joining? && w'.closed && w'.cancelled)
    && (a == Control(ServerJoin) ==>
        w'.server.phase.Finished? && w'.server.phase.result.Served? && w'.closed && w'.listener.pc.Ended?)
  }

  /** How many steps the listener is away from its select, once the connection is closed. */
  ghost function Distance(pc: L.Pc): nat {
    match pc
    case Selecting => 0
    case Opening => 2
    case _ => 1
  }

  lemma StepShuts(cfg: Config, w: World, a: Action)
    requires Inv(cfg, w) && Enabled(w, a)
    ensures Shuts(w, a, Do(cfg, w, a))
  {
    if a.Remote? {
      PeerFrame(cfg, w, a.move);
    }
  }

  lemma ShutsAt(cfg: Config, peer: Peer, run: nat -> World, acts: nat -> Action, i: nat)
    requires IsInfiniteRun(cfg, peer, run, acts)
    ensures Shuts(run(i), acts(i), run(i + 1))
  {
    InfiniteKeepsInv(cfg, peer, run, acts, i);
    assert StepAt(cfg, run, acts, i);
    StepShuts(cfg, run(i), acts(i));
  }

  /** The invariant of shutdown runs: every step shuts. */
  ghost predicate ShutRun(run: nat -> World, acts: nat -> Action) {
    forall i: nat :: Shuts(run(i), acts(i), run(i + 1))
  }

  lemma {:induction false} Stays(run: nat -> World, acts: nat -> Action, i: nat, j: nat)
    requires ShutRun(run, acts) && i <= j
    ensures run(i).closed ==> run(j).closed
    ensures run(i).cancelled ==> run(j).cancelled
    decreases j - i
  {
    if i < j {
      Stays(run, acts, i, j - 1);
      assert Shuts(run(j - 1), acts(j - 1), run(j - 1 + 1));
    }
  }

  /** The first step of the listener task from i on; until then it stays where it is. */
  lemma NextMove(run: nat -> World, acts: nat -> Action, i: nat, bound: nat) returns (k: nat)
    requires ShutRun(run, acts) && run(i).closed && i <= bound && TaskMoves(acts(bound))
    ensures i <= k && TaskMoves(acts(k)) && run(k).listener.pc == run(i).listener.pc
    decreases bound - i
  {
    if TaskMoves(acts(i)) {
      k := i;
    } else {
      assert Shuts(run(i), acts(i), run(i + 1));
      k := NextMove(run, acts, i + 1, bound);
    }
  }

  /** After the close, a listener that never ends keeps coming back to its select. */
  lemma ComesBack(run: nat -> World, acts: nat -> Action, i: nat)
    requires ShutRun(run, acts) && ListenerFair(run, acts)
    requires run(i).closed && run(i).cancelled && (forall j: nat :: i <= j ==> !run(j).listener.pc.Ended?)
    ensures PolledFrom(run, acts, i)
    decreases Distance(run(i).listener.pc)
  {
    assert !run(i).listener.pc.Ended?;
    assert MovesFrom(acts, i);
    var bound: nat :| i <= bound && TaskMoves(acts(bound));
    var m := NextMove(run, acts, i, bound);
    Stays(run, acts, i, m);
    if run(m).listener.pc.Selecting? {
      assert Polled(run, acts, m);
    } else {
      assert Shuts(run(m), acts(m), run(m + 1));
      assert !run(m + 1).listener.pc.Ended?;
      ComesBack(run, acts, m + 1);
      var k: nat :| m + 1 <= k && Polled(run, acts, k);
    }
  }

  lemma CancelsOrEnds(run: nat -> World, acts: nat -> Action, i: nat)
    requires ShutRun(run, acts) && ListenerFair(run, acts) && SelectFair(run, acts)
    requires run(i).closed && run(i).cancelled
    ensures TakesFrom(acts, i, Listen(L.Cancelled)) || exists j: nat :: i <= j && run(j).listener.pc.Ended?
  {
    if forall j: nat :: i <= j ==> !run(j).listener.pc.Ended? {
      forall m: nat | i <= m ensures PolledFrom(run, acts, m) {
        Stays(run, acts, i, m);
        ComesBack(run, acts, m);
      }
    }
  }

  /** In every fair run the listener of a closed session ends. */
  lemma ListenerEnds(run: nat -> World, acts: nat -> Action, i: nat) returns (j: nat)
    requires ShutRun(run, acts) && ListenerFair(run, acts) && SelectFair(run, acts)
    requires run(i).closed && run(i).cancelled
    ensures i <= j && run(j).listener.pc.Ended?
  {
    CancelsOrEnds(run, acts, i);
    if TakesFrom(acts, i, Listen(L.Cancelled)) {
      var k: nat :| i <= k && acts(k) == Listen(L.Cancelled);
      assert Shuts(run(k), acts(k), run(k + 1));
      j := k + 1;
    } else {
      j :| i <= j && run(j).listener.pc.Ended?;
    }
  }

  /** A joining handler joins, sooner or later, once the listener has ended. */
  lemma Joins(run: nat -> World, acts: nat -> Action, i: nat, e: nat) returns (k: nat)
    requires ShutRun(run, acts) && HandlerFair(run, acts)
    requires i <= e && run(i).server.phase.Joining? && run(e).listener.pc.Ended?
    ensures i <= k && acts(k) == Control(ServerJoin)
    decreases e - i
  {
    if i == e {
      assert TakesFrom(acts, i, Control(ServerJoin));
      k :| i <= k && acts(k) == Control(ServerJoin);
    } else if acts(i) == Control(ServerJoin) {
      k := i;
    } else {
      assert Shuts(run(i), acts(i), run(i + 1));
      k := Joins(run, acts, i + 1, e);
    }
  }

  /** Shutdown completes. In every fair run, once the control loop has ended, for whatever reason, the connection
      is closed, the listener ends, and the handler's join returns. */
  lemma ShutdownCompletes(cfg: Config, peer: Peer, run: nat -> World, acts: nat -> Action, i: nat) returns (j: nat)
    requires IsInfiniteRun(cfg, peer, run, acts)
    requires HandlerFair(run, acts) && ListenerFair(run, acts) && SelectFair(run, acts)
    requires run(i).server.phase.Closing?
    ensures i <= j && run(j).server.phase.Finished? && run(j).server.phase.result.Served?
    ensures run(j).closed && run(j).listener.pc.Ended?
  {
    forall m: nat ensures Shuts(run(m), acts(m), run(m + 1)) {
      ShutsAt(cfg, peer, run, acts, m);
    }
    j := ShutdownFrom(run, acts, i);
  }

  lemma ShutdownFrom(run: nat -> World, acts: nat -> Action, i: nat) returns (j: nat)
    requires ShutRun(run, acts) && HandlerFair(run, acts) && ListenerFair(run, acts) && SelectFair(run, acts)
    requires run(i).server.phase.Closing?
    ensures i <= j && run(j).server.phase.Finished? && run(j).server.phase.result.Served?
    ensures run(j).closed && run(j).listener.pc.Ended?
  {
    assert TakesFrom(acts, i, Control(ServerClose));
    var c: nat :| i <= c && acts(c) == Control(ServerClose);
    assert Shuts(run(c), acts(c), run(c + 1));
    var e := ListenerEnds(run, acts, c + 1);
    var k := Joins(run, acts, c + 1, e);
    assert Shuts(run(k), acts(k), run(k + 1));
    j := k + 1;
  }
}
