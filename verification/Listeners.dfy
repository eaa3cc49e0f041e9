/** The TCP listener task of a session (server/tcp_listener.rs): its select loop as a state machine, the
    forwarders it spawns, and the global counters that all listeners share. */
module Listeners {

  /** Where the listener task is. `Opening` waits for a data stream after an accept, `Opened` is about to
      spawn the forwarder, `ShuttingTcp` closes the accepted connection after a failed open. */
  datatype Pc = NotStarted | Starting | Selecting | Opening | Opened | ShuttingTcp | Ended(ok: bool)

  /** A listener, how many of its forwarders run, and how many streams it opened and forwarders it spawned. */
  datatype Listener = Listener(pc: Pc, running: nat, opens: nat, spawns: nat)

  datatype Counters = Counters(accepted: nat, failedAccepting: nat, openingErrors: nat, closedError: nat,
                               closedGraceful: nat)

  const IDLE: Listener := Listener(NotStarted, 0, 0, 0)
  const NO_COUNTS: Counters := Counters(0, 0, 0, 0, 0)

  datatype Act =
    | Started(ok: bool)
    | Cancelled
    | Accepted
    | AcceptFailed
    | StreamOpened
    | StreamFailed
    | TcpShut
    | Spawned
    | ForwarderEnded(ok: bool)

  /** A stream cannot be opened once the connection is closed; the cancelled branch of the select is ready
      once the token is cancelled. */
  predicate Can(l: Listener, cancelled: bool, closed: bool, act: Act) {
    match act
    case Started(_) => l.pc.Starting?
    case Cancelled => l.pc.Selecting? && cancelled
    case Accepted => l.pc.Selecting?
    case AcceptFailed => l.pc.Selecting?
    case StreamOpened => l.pc.Opening? && !closed
    case StreamFailed => l.pc.Opening?
    case TcpShut => l.pc.ShuttingTcp?
    case Spawned => l.pc.Opened?
    case ForwarderEnded(_) => l.running > 0
  }

  function Step(l: Listener, act: Act): Listener
    requires act.ForwarderEnded? ==> l.running > 0
  {
    match act
    case Started(ok) => l.(pc := if ok then Selecting else Ended(false))
    case Cancelled => l.(pc := Ended(true))
    case Accepted => l.(pc := Opening)
    case AcceptFailed => l
    case StreamOpened => l.(pc := Opened, opens := l.opens + 1)
    case StreamFailed => l.(pc := ShuttingTcp)
    case TcpShut => l.(pc := Selecting)
    case Spawned => l.(pc := Selecting, running := l.running + 1, spawns := l.spawns + 1)
    case ForwarderEnded(_) => l.(running := l.running - 1)
  }

  function Count(c: Counters, act: Act): Counters {
    match act
    case Accepted => c.(accepted := c.accepted + 1)
    case AcceptFailed => c.(failedAccepting := c.failedAccepting + 1)
    case StreamFailed => c.(openingErrors := c.openingErrors + 1)
    case ForwarderEnded(ok) =>
      if ok then c.(closedGraceful := c.closedGraceful + 1) else c.(closedError := c.closedError + 1)
    case _ => c
  }

  /** An accept that has led neither to a spawned forwarder nor to a counted error. */
  function Pending(l: Listener): nat {
    if l.pc.Opening? || l.pc.Opened? then 1 else 0
  }

  /** A stream that is open and has no forwarder yet. */
  function Unspawned(l: Listener): nat {
    if l.pc.Opened? then 1 else 0
  }

  // ---- Any number of listeners sharing the counters ----

  datatype Fleet = Fleet(listeners: seq<Listener>, counters: Counters)

  /** A new session's listener is spawned, or a listener acts, with whatever its token and connection say. */
  datatype Move = Join | Act(i: nat, act: Act, cancelled: bool, closed: bool)

  ghost predicate Enabled(f: Fleet, m: Move) {
    m.Act? ==> m.i < |f.listeners| && Can(f.listeners[m.i], m.cancelled, m.closed, m.act)
  }

  ghost function Do(f: Fleet, m: Move): Fleet
    requires Enabled(f, m)
  {
    match m
    case Join => f.(listeners := f.listeners + [IDLE.(pc := Starting)])
    case Act(i, act, _, _) => Fleet(f.listeners[i := Step(f.listeners[i], act)], Count(f.counters, act))
  }

  ghost predicate IsRun(fs: seq<Fleet>, ms: seq<Move>) {
    && |fs| == |ms| + 1
    && fs[0] == Fleet([], NO_COUNTS)
    && forall i :: 0 <= i < |ms| ==> Enabled(fs[i], ms[i]) && fs[i + 1] == Do(fs[i], ms[i])
  }

  /** Forwarders running and accepts still pending, over all listeners. */
  ghost function Open(ls: seq<Listener>): nat {
    if ls == [] then 0 else Open(ls[..|ls| - 1]) + ls[|ls| - 1].running + Pending(ls[|ls| - 1])
  }

  ghost predicate Accounted(f: Fleet) {
    f.counters.accepted
    == f.counters.openingErrors + f.counters.closedError + f.counters.closedGraceful + Open(f.listeners)
  }

  lemma {:induction false} OpenUpdate(ls: seq<Listener>, i: nat, l: Listener)
    requires i < |ls|
    ensures Open(ls[i := l]) - Open(ls) == l.running + Pending(l) - ls[i].running - Pending(ls[i])
  {
    var n := |ls| - 1;
    if i == n {
      assert ls[i := l][..n] == ls[..n];
    } else {
      OpenUpdate(ls[..n], i, l);
      assert ls[i := l][..n] == ls[..n][i := l];
    }
  }

  lemma MoveKeepsAccount(f: Fleet, m: Move)
    requires Accounted(f) && Enabled(f, m)
    ensures Accounted(Do(f, m))
  {
    match m {
      case Join =>
        assert Do(f, m).listeners[..|f.listeners|] == f.listeners;
      case Act(i, act, _, _) =>
        OpenUpdate(f.listeners, i, Step(f.listeners[i], act));
    }
  }

  /** Every accepted connection is accounted for in every state of every run of any number of listeners. */
  lemma {:induction false} ConnectionsAccounted(fs: seq<Fleet>, ms: seq<Move>, i: nat)
    requires IsRun(fs, ms) && i < |fs|
    ensures Accounted(fs[i])
  {
    if i > 0 {
      ConnectionsAccounted(fs, ms, i - 1);
      MoveKeepsAccount(fs[i - 1], ms[i - 1]);
    }
  }

  // ---- Each counter by itself ----

  datatype Kind = Accepts | FailedAccepts | Opens | FailedOpens | Spawns | ErrorEnds | GracefulEnds

  predicate IsKind(act: Act, kind: Kind) {
    match kind
    case Accepts => act == Accepted
    case FailedAccepts => act == AcceptFailed
    case Opens => act == StreamOpened
    case FailedOpens => act == StreamFailed
    case Spawns => act == Spawned
    case ErrorEnds => act == ForwarderEnded(false)
    case GracefulEnds => act == ForwarderEnded(true)
  }

  /** How many moves of a kind there are among some moves, of any listener or of one. */
  ghost function HowMany(ms: seq<Move>, kind: Kind): nat {
    if ms == [] then 0
    else
      var last := ms[|ms| - 1];
      HowMany(ms[..|ms| - 1], kind) + if last.Act? && IsKind(last.act, kind) then 1 else 0
  }

  ghost function HowManyOf(ms: seq<Move>, l: nat, kind: Kind): nat {
    if ms == [] then 0
    else
      var last := ms[|ms| - 1];
      HowManyOf(ms[..|ms| - 1], l, kind) + if last.Act? && last.i == l && IsKind(last.act, kind) then 1 else 0
  }

  /** Each counter is the number of events of its own kind. */
  ghost predicate CountsAre(c: Counters, done: seq<Move>) {
    && c.accepted == HowMany(done, Accepts) && c.failedAccepting == HowMany(done, FailedAccepts)
    && c.openingErrors == HowMany(done, FailedOpens)
    && c.closedError == HowMany(done, ErrorEnds) && c.closedGraceful == HowMany(done, GracefulEnds)
  }

  lemma MoveCounts(f: Fleet, done: seq<Move>, m: Move)
    requires CountsAre(f.counters, done) && Enabled(f, m)
    ensures CountsAre(Do(f, m).counters, done + [m])
  {
    assert (done + [m])[..|done|] == done;
  }

  /** In every state of every run of any number of listeners, each counter is the number of events of its own kind. */
  lemma {:induction false} CountersExact(fs: seq<Fleet>, ms: seq<Move>, i: nat)
    requires IsRun(fs, ms) && i < |fs|
    ensures CountsAre(fs[i].counters, ms[..i])
  {
    if i > 0 {
      CountersExact(fs, ms, i - 1);
      MoveCounts(fs[i - 1], ms[..i - 1], ms[i - 1]);
      assert ms[..i] == ms[..i - 1] + [ms[i - 1]];
    }
  }

  /** A listener's running forwarders are those it spawned and that have not ended, each on a stream it opened. */
  ghost predicate Tallied(l: Listener, done: seq<Move>, k: nat) {
    && l.opens == HowManyOf(done, k, Opens) && l.spawns == HowManyOf(done, k, Spawns)
    && l.running + HowManyOf(done, k, ErrorEnds) + HowManyOf(done, k, GracefulEnds) == l.spawns
    && l.spawns + Unspawned(l) == l.opens
  }

  /** What is tallied of the k-th listener, or of one that has not joined yet. */
  ghost predicate TalliedAt(f: Fleet, done: seq<Move>, k: nat) {
    Tallied(if k < |f.listeners| then f.listeners[k] else IDLE, done, k)
  }

  lemma OneMoreMove(done: seq<Move>, m: Move, k: nat, kind: Kind)
    ensures HowManyOf(done + [m], k, kind)
            == HowManyOf(done, k, kind) + if m.Act? && m.i == k && IsKind(m.act, kind) then 1 else 0
  {
    assert (done + [m])[..|done|] == done;
  }

  lemma MoveTallies(f: Fleet, done: seq<Move>, m: Move, k: nat)
    requires TalliedAt(f, done, k) && Enabled(f, m)
    ensures TalliedAt(Do(f, m), done + [m], k)
  {
    OneMoreMove(done, m, k, Opens);
    OneMoreMove(done, m, k, Spawns);
    OneMoreMove(done, m, k, ErrorEnds);
    OneMoreMove(done, m, k, GracefulEnds);
  }

  lemma {:induction false} ForwardersExact(fs: seq<Fleet>, ms: seq<Move>, i: nat, k: nat)
    requires IsRun(fs, ms) && i < |fs|
    ensures TalliedAt(fs[i], ms[..i], k)
  {
    if i > 0 {
      ForwardersExact(fs, ms, i - 1, k);
      MoveTallies(fs[i - 1], ms[..i - 1], ms[i - 1], k);
      assert ms[..i] == ms[..i - 1] + [ms[i - 1]];
    }
  }

  // ---- The loop ----

  /** The loop goes on after everything that can happen in it, failures included: it ends only when the branch of the
      token is taken, and without an error then. Only a listener whose address cannot be read ends with one. */
  lemma EndsOnlyWhenCancelled(l: Listener, act: Act, cancelled: bool, closed: bool)
    requires Can(l, cancelled, closed, act) && !l.pc.Ended?
    ensures Step(l, act).pc.Ended? <==> act == Cancelled || act == Started(false)
    ensures Step(l, act).pc == Ended(true) <==> act == Cancelled
    ensures act == Cancelled ==> cancelled
  {
  }

  /** Between two selects a listener accepts at most one connection, and then opens a stream and spawns a forwarder
      for it, or fails to and shuts the accepted connection. At the select an accept is possible whatever the token
      says. */
  lemma OneConnectionATurn(l: Listener, act: Act, cancelled: bool, closed: bool)
    requires l.pc.Selecting?
    ensures Can(l, cancelled, closed, Accepted) && Can(l, cancelled, closed, AcceptFailed)
    ensures Can(l, cancelled, closed, Cancelled) <==> cancelled
    ensures Step(l, AcceptFailed) == l
    ensures var opening := Step(l, Accepted);
            && !Can(opening, cancelled, closed, Accepted) && !Can(opening, cancelled, closed, Cancelled)
            && Can(opening, cancelled, closed, StreamFailed)
            && Step(Step(opening, StreamFailed), TcpShut) == l
            && (Can(opening, cancelled, closed, StreamOpened) <==> !closed)
            && Step(Step(opening, StreamOpened), Spawned)
               == l.(running := l.running + 1, opens := l.opens + 1, spawns := l.spawns + 1)
  {
  }
}
