/** Timed liveness of the keepalive over infinite runs: in every timely run whose clock advances, every PING is sent
    at its time and answered, for ever. And there are such runs. */
module Liveness {
  import opened Bytes
  import opened PortSpecs
  import opened Auth
  import opened Handler
  import opened Session
  import opened SessionSafety
  import opened Composition
  import opened Keepalive
  import opened Progress
  import opened Shutdown

  ghost predicate IsTimelyRun(cfg: Config, run: nat -> World, acts: nat -> Action) {
    IsInfiniteRun(cfg, NEW_CLIENT, run, acts) && forall i: nat :: Timely(run(i), acts(i))
  }

  ghost predicate Reaches(run: nat -> World, time: nat) {
    exists i: nat :: run(i).now >= time
  }

  /** The clock gets past every time. */
  ghost predicate ClockAdvances(run: nat -> World) {
    forall time: nat :: Reaches(run, time)
  }

  /** Everything that is known of a state of a timely run. */
  ghost predicate Good(cfg: Config, w: World) {
    Inv(cfg, w) && Joint(cfg, w) && OnTime(w)
  }

  lemma InitialGood(cfg: Config, now: nat)
    ensures Good(cfg, Initial(now, NEW_CLIENT))
  {
    InitialInv(cfg, now, NEW_CLIENT);
  }

  lemma StepKeepsGood(cfg: Config, w: World, a: Action)
    requires Sound(cfg) && Good(cfg, w) && Enabled(w, a) && Timely(w, a)
    ensures Good(cfg, Do(cfg, w, a))
  {
    StepKeepsInv(cfg, w, a);
    StepKeepsJoint(cfg, w, a);
    StepOnTime(cfg, w, a);
  }

  lemma {:induction false} GoodAt(cfg: Config, run: nat -> World, acts: nat -> Action, i: nat)
    requires Sound(cfg) && IsTimelyRun(cfg, run, acts)
    ensures Good(cfg, run(i))
  {
    if i == 0 {
      InitialGood(cfg, run(0).now);
    } else {
      GoodAt(cfg, run, acts, i - 1);
      assert StepAt(cfg, run, acts, i - 1) && Timely(run(i - 1), acts(i - 1));
      StepKeepsGood(cfg, run(i - 1), acts(i - 1));
    }
  }

  /** The ticker of a client that has read the verdict whole is running. */
  ghost predicate Running(w: World) {
    w.peer.Client? && w.peer.verdict == 6 && Started(w)
  }

  lemma PeerStaysRunning(cfg: Config, w: World, a: PeerAct)
    requires Running(w) && PeerEnabled(w, a)
    ensures var c := PeerDo(cfg, w, a).peer;
            c.Client? && c.verdict == 6 && c.t0 == w.peer.t0 &&
                (c.phase.Ticking? || c.phase.AwaitingPong? || c.phase.Ended?)
    ensures PeerDo(cfg, w, a).now == w.now
  {
  }

  lemma StepStaysRunning(cfg: Config, w: World, a: Action)
    requires Sound(cfg) && Good(cfg, w) && Running(w) && Enabled(w, a) && Timely(w, a)
    ensures Running(Do(cfg, w, a)) && Do(cfg, w, a).peer.t0 == w.peer.t0
  {
    StepKeepsGood(cfg, w, a);
    match a {
      case Control(step) => ServerFrame(cfg, w, step);
      case Remote(move) => PeerStaysRunning(cfg, w, move);
      case _ =>
    }
  }

  lemma {:induction false} StaysRunning(cfg: Config, run: nat -> World, acts: nat -> Action, i: nat, j: nat)
    requires Sound(cfg) && IsTimelyRun(cfg, run, acts) && i <= j && Running(run(i))
    ensures Running(run(j)) && run(j).peer.t0 == run(i).peer.t0
    decreases j - i
  {
    if i < j {
      StaysRunning(cfg, run, acts, i, j - 1);
      GoodAt(cfg, run, acts, j - 1);
      assert StepAt(cfg, run, acts, j - 1) && Timely(run(j - 1), acts(j - 1));
      StepStaysRunning(cfg, run(j - 1), acts(j - 1));
    }
  }

  lemma ClockStep(cfg: Config, w: World, a: Action)
    requires Inv(cfg, w) && Enabled(w, a)
    ensures Do(cfg, w, a).now >= w.now
  {
    if a.Remote? {
      PeerFrame(cfg, w, a.move);
    }
  }

  lemma {:induction false} ClockGrows(cfg: Config, peer: Peer, run: nat -> World, acts: nat -> Action, i: nat, j: nat)
    requires IsInfiniteRun(cfg, peer, run, acts) && i <= j
    ensures run(i).now <= run(j).now
    decreases j - i
  {
    if i < j {
      ClockGrows(cfg, peer, run, acts, i, j - 1);
      InfiniteKeepsInv(cfg, peer, run, acts, j - 1);
      assert StepAt(cfg, run, acts, j - 1);
      ClockStep(cfg, run(j - 1), acts(j - 1));
    }
  }

  /** The next PING is not due before now. */
  lemma NotOverdue(w: World)
    requires OnTime(w) && Started(w)
    ensures w.now <= w.peer.t0 + KEEPALIVE_INTERVAL * |w.peer.pings|
  {
    var c, np := w.peer, |w.peer.pings|;
    if c.phase.AwaitingPong? {
      assert c.pings[np - 1] == c.t0 + KEEPALIVE_INTERVAL * (np - 1);
    }
  }

  /** By a time, every PING due before it has been sent, and all but the last have been answered. */
  lemma SentByNow(w: World, k: nat)
    requires OnTime(w) && Paired(w) && Started(w) && w.now > w.peer.t0 + KEEPALIVE_INTERVAL * (k + 1)
    ensures |w.peer.pings| > k + 1 && w.peer.pongs > k && w.server.answered > k
    ensures w.peer.pings[k] == w.peer.t0 + KEEPALIVE_INTERVAL * k
  {
    NotOverdue(w);
    assert Punctual(w.peer);
  }

  /** Timed liveness. In every infinite run of client and server in which every round trip takes less than thirty
      seconds and the clock advances, once the ticker of a client that read the verdict whole has started, every PING
      is sent, exactly thirty k seconds after the start, and is answered, and the answer is accepted. */
  lemma KeepaliveForEver(server: ServerConfig, challenge: seq<byte>, clientKey: seq<byte>, kind: ClientKind,
                         run: nat -> World, acts: nat -> Action, i: nat, k: nat) returns (j: nat)
    requires challenge != [] && forall b :: b in challenge ==> Plain(b)
    requires IsTimelyRun(Setup(server, challenge, clientKey, kind), run, acts) && ClockAdvances(run)
    requires Running(run(i))
    ensures i <= j && Running(run(j)) && run(j).peer.t0 == run(i).peer.t0
    ensures |run(j).peer.pings| > k && run(j).peer.pings[k] == run(i).peer.t0 + 30 * SECOND * k
    ensures run(j).server.answered > k && run(j).peer.pongs > k
  {
    var cfg := Setup(server, challenge, clientKey, kind);
    SetupIsSound(server, challenge, clientKey, kind);
    var time := run(i).now + run(i).peer.t0 + KEEPALIVE_INTERVAL * (k + 1) + 1;
    assert Reaches(run, time);
    j :| run(j).now >= time;
    if j < i {
      ClockGrows(cfg, NEW_CLIENT, run, acts, j, i);
    }
    StaysRunning(cfg, run, acts, i, j);
    GoodAt(cfg, run, acts, j);
    SentByNow(run(j), k);
  }

  // ---- There are such runs ----

  /** A path to the state at rest after n rounds. */
  ghost predicate Heading(cfg: Config, w: World, path: seq<Action>, n: nat) {
    exists w' :: Path(cfg, w, path, w') && AtRest(cfg, w', n) && |w'.peer.pings| == n
  }

  /** An endless run in the making: where it is, and a path to the end of its n-th round. */
  datatype Drive = Drive(w: World, path: seq<Action>, n: nat)

  /** A state that a client and the server reach on time. */
  ghost predicate Arrives(cfg: Config, w: World) {
    exists now: nat :: Leads(cfg, Initial(now, NEW_CLIENT), w)
  }

  ghost predicate Driving(cfg: Config, d: Drive) {
    && Arrives(cfg, d.w) && d.path != [] && Heading(cfg, d.w, d.path, d.n)
    && (d.n >= 1 ==> Running(d.w)) && d.w.now >= KEEPALIVE_INTERVAL * (d.n - 2)
  }

  lemma ArrivesGood(cfg: Config, w: World)
    requires Sound(cfg) && Arrives(cfg, w)
    ensures Good(cfg, w)
  {
    var now: nat :| Leads(cfg, Initial(now, NEW_CLIENT), w);
    var acts :| Path(cfg, Initial(now, NEW_CLIENT), acts, w);
    InitialGood(cfg, now);
    PathKeeps(cfg, Initial(now, NEW_CLIENT), acts, w);
  }

  lemma ArrivesNext(cfg: Config, w: World, a: Action)
    requires Arrives(cfg, w) && Enabled(w, a) && Timely(w, a)
    ensures Arrives(cfg, Do(cfg, w, a))
  {
    var now: nat :| Leads(cfg, Initial(now, NEW_CLIENT), w);
    Then(cfg, Initial(now, NEW_CLIENT), w, a, Do(cfg, w, a));
  }

  lemma NextRound(cfg: Config, w: World, n: nat, next: nat)
    requires Good(cfg, w) && AtRest(cfg, w, n) && |w.peer.pings| == n && next == n + 1
    ensures exists path :: path != [] && Heading(cfg, w, path, next)
  {
    Here(cfg, w);
    var w' := Round(cfg, w, w, n);
    var path :| Path(cfg, w, path, w');
    assert Heading(cfg, w, path, next) && path != [];
  }

  /** A timely step. */
  ghost predicate Moves(cfg: Config, w: World, a: Action, w': World) {
    Enabled(w, a) && Timely(w, a) && w' == Do(cfg, w, a)
  }

  lemma PathGoesOn(cfg: Config, w: World, path: seq<Action>, n: nat) returns (w': World)
    requires Heading(cfg, w, path, n) && path != []
    ensures Moves(cfg, w, path[0], w') && Heading(cfg, w', path[1..], n)
    ensures path[1..] == [] ==> AtRest(cfg, w', n) && |w'.peer.pings| == n
  {
    var end :| Path(cfg, w, path, end) && AtRest(cfg, end, n) && |end.peer.pings| == n;
    w' := Do(cfg, w, path[0]);
    assert Path(cfg, w', path[1..], end);
  }

  lemma MoveKeeps(cfg: Config, w: World, a: Action, w': World)
    requires Sound(cfg) && Arrives(cfg, w) && Moves(cfg, w, a, w')
    ensures Arrives(cfg, w') && Good(cfg, w') && w'.now >= w.now && (Running(w) ==> Running(w'))
  {
    ArrivesGood(cfg, w);
    ArrivesNext(cfg, w, a);
    ArrivesGood(cfg, w');
    ClockStep(cfg, w, a);
    if Running(w) {
      StepStaysRunning(cfg, w, a);
    }
  }

  lemma RestIsLate(cfg: Config, w: World, n: nat)
    requires Good(cfg, w) && AtRest(cfg, w, n) && |w.peer.pings| == n
    ensures w.now >= KEEPALIVE_INTERVAL * (n - 1) && Running(w)
  {
    if n > 0 {
      assert w.peer.pings[n - 1] == w.peer.t0 + KEEPALIVE_INTERVAL * (n - 1);
    }
  }

  /** One step further, on the same path or on the path of the next round. */
  ghost predicate Follows(cfg: Config, d: Drive, next: Drive)
    requires d.path != []
  {
    && Driving(cfg, next) && Moves(cfg, d.w, d.path[0], next.w)
    && if |d.path| == 1 then next.n == d.n + 1 else next.n == d.n && |next.path| == |d.path| - 1
  }

  lemma SomethingFollows(cfg: Config, d: Drive)
    requires Sound(cfg) && Driving(cfg, d)
    ensures exists next :: Follows(cfg, d, next)
  {
    var w' := PathGoesOn(cfg, d.w, d.path, d.n);
    MoveKeeps(cfg, d.w, d.path[0], w');
    if |d.path| > 1 {
      assert Follows(cfg, d, Drive(w', d.path[1..], d.n));
    } else {
      var n := d.n + 1;
      NextRound(cfg, w', d.n, n);
      RestIsLate(cfg, w', d.n);
      var path :| path != [] && Heading(cfg, w', path, n);
      assert Follows(cfg, d, Drive(w', path, n));
    }
  }

  ghost function Next(cfg: Config, d: Drive): (next: Drive)
    requires Sound(cfg) && Driving(cfg, d)
    ensures Follows(cfg, d, next)
  {
    SomethingFollows(cfg, d);
    var next :| Follows(cfg, d, next);
    next
  }

  ghost function DriveAt(cfg: Config, d: Drive, i: nat): (e: Drive)
    requires Sound(cfg) && Driving(cfg, d)
    ensures Driving(cfg, e)
  {
    if i == 0 then d else Next(cfg, DriveAt(cfg, d, i - 1))
  }

  /** Round after round is driven. */
  lemma {:induction false} NextRoundComes(cfg: Config, d: Drive, i: nat) returns (j: nat)
    requires Sound(cfg) && Driving(cfg, d)
    ensures j > i && DriveAt(cfg, d, j).n == DriveAt(cfg, d, i).n + 1
    decreases |DriveAt(cfg, d, i).path|
  {
    var e, next := DriveAt(cfg, d, i), DriveAt(cfg, d, i + 1);
    assert next == Next(cfg, e);
    if |e.path| == 1 {
      j := i + 1;
    } else {
      j := NextRoundComes(cfg, d, i + 1);
    }
  }

  lemma {:induction false} RoundComes(cfg: Config, d: Drive, n: nat) returns (j: nat)
    requires Sound(cfg) && Driving(cfg, d)
    ensures DriveAt(cfg, d, j).n >= n
  {
    j := 0;
    if n > 0 {
      j := RoundComes(cfg, d, n - 1);
      if DriveAt(cfg, d, j).n < n {
        j := NextRoundComes(cfg, d, j);
      }
    }
  }

  lemma DriveIsRun(cfg: Config, d: Drive) returns (run: nat -> World, acts: nat -> Action)
    requires Sound(cfg) && Driving(cfg, d) && d.w == Initial(d.w.now, NEW_CLIENT)
    ensures IsTimelyRun(cfg, run, acts) && forall i: nat :: run(i) == DriveAt(cfg, d, i).w
  {
    run, acts := DriveRuns(cfg, d);
    assert run(0) == DriveAt(cfg, d, 0).w == d.w;
  }

  lemma DriveRuns(cfg: Config, d: Drive) returns (run: nat -> World, acts: nat -> Action)
    requires Sound(cfg) && Driving(cfg, d)
    ensures forall i: nat :: run(i) == DriveAt(cfg, d, i).w
    ensures forall i: nat :: StepAt(cfg, run, acts, i) && Timely(run(i), acts(i))
  {
    run := (i: nat) => DriveAt(cfg, d, i).w;
    acts := (i: nat) => DriveAt(cfg, d, i).path[0];
    forall i: nat ensures StepAt(cfg, run, acts, i) && Timely(run(i), acts(i)) {
      DriveSteps(cfg, d, i, i + 1);
    }
  }

  lemma DriveSteps(cfg: Config, d: Drive, i: nat, next: nat)
    requires Sound(cfg) && Driving(cfg, d) && next == i + 1
    ensures var e := DriveAt(cfg, d, i); Moves(cfg, e.w, e.path[0], DriveAt(cfg, d, next).w)
  {
    var e := DriveAt(cfg, d, i);
    assert next - 1 == i;
    assert DriveAt(cfg, d, next) == Next(cfg, e);
  }

  lemma DriveAdvances(cfg: Config, d: Drive, run: nat -> World)
    requires Sound(cfg) && Driving(cfg, d) && forall i: nat :: run(i) == DriveAt(cfg, d, i).w
    ensures ClockAdvances(run)
  {
    forall time: nat ensures Reaches(run, time) {
      var j := RoundComes(cfg, d, time + 2);
      LateEnough(cfg, DriveAt(cfg, d, j), time);
      assert run(j).now >= time;
    }
  }

  lemma LateEnough(cfg: Config, d: Drive, time: nat)
    requires Driving(cfg, d) && d.n >= time + 2
    ensures d.w.now >= time
  {
  }

  /** A shared key and an allowed port have an endless keepalive: an infinite timely run whose clock advances, and in
      which the ticker of a client that read the verdict whole has started. */
  lemma EndlessKeepalive(server: ServerConfig, challenge: seq<byte>, port: u16, now: nat)
    returns (run: nat -> World, acts: nat -> Action, i: nat)
    requires challenge != [] && forall b :: b in challenge ==> Plain(b)
    requires |Request(challenge)| <= CHALLENGE_REQUEST_BUFFER_LENGTH && Allows(server.allowed, port)
    ensures IsTimelyRun(Setup(server, challenge, server.psk, Conforming(port)), run, acts) && ClockAdvances(run)
    ensures run(0).now == now && Running(run(i))
  {
    var cfg, w0 := Setup(server, challenge, server.psk, Conforming(port)), Initial(now, NEW_CLIENT);
    SetupIsSound(server, challenge, server.psk, Conforming(port));
    SameKeyIsFriendly(server, challenge, Conforming(port));
    var w := Configures(cfg, now, challenge);
    var path :| Path(cfg, w0, path, w);
    InitialGood(cfg, now);
    var d := Drive(w0, path, 0);
    Here(cfg, w0);
    assert Arrives(cfg, w0) && Heading(cfg, w0, path, 0) && path != [];
    run, acts := DriveIsRun(cfg, d);
    DriveAdvances(cfg, d, run);
    i := RoundComes(cfg, d, 1);
    assert run(0) == DriveAt(cfg, d, 0).w;
  }
}
