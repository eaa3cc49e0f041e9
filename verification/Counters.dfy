/** The whole stress test (utils/connection_stress_test.py): any number of workers, the connections the listener accepts
    for them, and the global counters they all share, under every interleaving. */
module Counters {
  import opened Bytes
  import opened Options
  import opened Blocks
  import Decimal

  datatype Settings = Settings(workers: nat, total: nat, blockSize: int, crc: Checksum)

  /** One direction of one connection: the octets handed to the transport, how many of them the sender has counted, the
      octets on their way, and those the receiver has accepted; and whether the two tasks are still working. */
  datatype Lane = Lane(put: seq<byte>, sent: nat, wire: seq<byte>, got: seq<byte>, sending: bool, receiving: bool)

  const NEW_LANE := Lane([], 0, [], [], true, true)

  /** The global variables, and the connections. Worker k sends on lane 2k and receives on lane 2k + 1; the connection
      accepted for it does the reverse. `accepted[k]` is the number that connection was given. */
  datatype Bench = Bench(up: nat, down: nat, counter: nat, error: bool, lanes: seq<Lane>, accepted: seq<Option<nat>>)

  const START := Bench(0, 0, 0, false, [], [])

  /** Between two awaits a task runs alone: a block is written, and only after the drain is it counted; a block is read
      and counted. Any task may fail while it has work to do. */
  datatype Action =
    | Launch
    | Accept(k: nat)
    | Write(l: nat, data: seq<byte>)
    | Count(l: nat)
    | Take(l: nat)
    | BreakSender(l: nat)
    | BreakReceiver(l: nat)

  /** The connection that sends on the lane exists. */
  predicate HasSender(b: Bench, l: nat) {
    l < |b.lanes| && l / 2 < |b.accepted| && (l % 2 == 1 ==> b.accepted[l / 2].Some?)
  }

  predicate HasReceiver(b: Bench, l: nat) {
    l < |b.lanes| && l / 2 < |b.accepted| && (l % 2 == 0 ==> b.accepted[l / 2].Some?)
  }

  predicate Enabled(s: Settings, b: Bench, a: Action) {
    match a
    case Launch => |b.accepted| < s.workers
    case Accept(k) => k < |b.accepted| && b.accepted[k].None?
    case Write(l, data) =>
      && HasSender(b, l) && b.lanes[l].sending
      && |b.lanes[l].put| == b.lanes[l].sent < s.total
      && |data| == Min(s.blockSize, s.total - b.lanes[l].sent) < LIMIT
    case Count(l) => HasSender(b, l) && b.lanes[l].sending && b.lanes[l].sent < |b.lanes[l].put|
    case Take(l) =>
      && HasReceiver(b, l) && b.lanes[l].receiving
      && |b.lanes[l].got| < s.total && NextBlock(b.lanes[l].wire, s.crc) != NoBlock(Incomplete)
    case BreakSender(l) => HasSender(b, l) && b.lanes[l].sending && b.lanes[l].sent < s.total
    case BreakReceiver(l) => HasReceiver(b, l) && b.lanes[l].receiving && |b.lanes[l].got| < s.total
  }

  /** Writing the next block; reading the next block, or failing on its checksum. */
  function Written(lane: Lane, data: seq<byte>, crc: Checksum): Lane
    requires |data| < LIMIT
  {
    lane.(put := lane.put + data, wire := lane.wire + Frame(data, crc))
  }

  function Taken(lane: Lane, crc: Checksum): Lane {
    match NextBlock(lane.wire, crc)
    case Good(data, rest) => lane.(got := lane.got + data, wire := rest)
    case NoBlock(_) => lane.(receiving := false)
  }

  function Do(s: Settings, b: Bench, a: Action): Bench
    requires Enabled(s, b, a)
  {
    match a
    case Launch => b.(lanes := b.lanes + [NEW_LANE, NEW_LANE], accepted := b.accepted + [None])
    case Accept(k) => b.(counter := b.counter + 1, accepted := b.accepted[k := Some(b.counter + 1)])
    case Write(l, data) => b.(lanes := b.lanes[l := Written(b.lanes[l], data, s.crc)])
    case Count(l) =>
      var lane := b.lanes[l];
      b.(up := b.up + (|lane.put| - lane.sent), lanes := b.lanes[l := lane.(sent := |lane.put|)])
    case Take(l) =>
      var lane := Taken(b.lanes[l], s.crc);
      b.(down := b.down + (|lane.got| - |b.lanes[l].got|),
         error := b.error || !lane.receiving,
         lanes := b.lanes[l := lane])
    case BreakSender(l) => b.(error := true, lanes := b.lanes[l := b.lanes[l].(sending := false)])
    case BreakReceiver(l) => b.(error := true, lanes := b.lanes[l := b.lanes[l].(receiving := false)])
  }

  ghost predicate IsRun(s: Settings, bs: seq<Bench>, acts: seq<Action>) {
    && |bs| == |acts| + 1
    && bs[0] == START
    && forall i :: 0 <= i < |acts| ==> Enabled(s, bs[i], acts[i]) && bs[i + 1] == Do(s, bs[i], acts[i])
  }

  // ---- Sums over all lanes ----

  datatype Column = Put | Sent | Got | Broken

  function Cell(lane: Lane, c: Column): nat {
    match c
    case Put => |lane.put|
    case Sent => lane.sent
    case Got => |lane.got|
    case Broken => (if lane.sending then 0 else 1) + (if lane.receiving then 0 else 1)
  }

  ghost function Sum(lanes: seq<Lane>, c: Column): nat {
    if lanes == [] then 0 else Sum(lanes[..|lanes| - 1], c) + Cell(lanes[|lanes| - 1], c)
  }

  lemma {:induction false} SumUpdate(lanes: seq<Lane>, l: nat, lane: Lane, c: Column)
    requires l < |lanes|
    ensures Sum(lanes[l := lane], c) == Sum(lanes, c) - Cell(lanes[l], c) + Cell(lane, c)
  {
    var n := |lanes| - 1;
    if l == n {
      assert lanes[l := lane][..n] == lanes[..n];
    } else {
      SumUpdate(lanes[..n], l, lane, c);
      assert lanes[l := lane][..n] == lanes[..n][l := lane];
    }
  }

  lemma SumLaunch(lanes: seq<Lane>, c: Column)
    ensures Sum(lanes + [NEW_LANE, NEW_LANE], c) == Sum(lanes, c)
  {
    var more := lanes + [NEW_LANE];
    assert more[..|lanes|] == lanes;
    assert (lanes + [NEW_LANE, NEW_LANE])[..|lanes| + 1] == more;
  }

  ghost predicate Bounded(lanes: seq<Lane>, c: Column, most: nat) {
    forall l :: 0 <= l < |lanes| ==> Cell(lanes[l], c) <= most
  }

  ghost predicate Full(lanes: seq<Lane>, c: Column, most: nat) {
    forall l :: 0 <= l < |lanes| ==> Cell(lanes[l], c) == most
  }

  /** A sum of cells, none above the bound, is the greatest possible exactly when every cell is at the bound. */
  lemma {:induction false} SumBounded(lanes: seq<Lane>, c: Column, most: nat)
    requires Bounded(lanes, c, most)
    ensures Sum(lanes, c) <= |lanes| * most
    ensures Sum(lanes, c) == |lanes| * most <==> Full(lanes, c, most)
  {
    if lanes != [] {
      var n := |lanes| - 1;
      var init, last := lanes[..n], Cell(lanes[n], c);
      SumBounded(init, c, most);
      OneMore(n, most);
      FullLast(lanes, c, most);
    }
  }

  lemma OneMore(n: nat, most: nat)
    ensures (n + 1) * most == n * most + most
  {
  }

  lemma FullLast(lanes: seq<Lane>, c: Column, most: nat)
    requires lanes != []
    ensures Full(lanes, c, most) <==> Full(lanes[..|lanes| - 1], c, most) && Cell(lanes[|lanes| - 1], c) == most
  {
    var n := |lanes| - 1;
    assert forall l :: 0 <= l < n ==> lanes[..n][l] == lanes[l];
  }

  // ---- What holds in every state ----

  /** The wire holds whole frames, and what they carry is what was put and not yet accepted. */
  ghost predicate Carries(s: Settings, lane: Lane, blocks: seq<seq<byte>>) {
    && Sendable(blocks)
    && (s.blockSize != 0 ==> [] !in blocks)
    && lane.wire == Frames(blocks, s.crc)
    && lane.put == lane.got + Joined(blocks)
  }

  ghost predicate LaneOk(s: Settings, lane: Lane) {
    && lane.sent <= |lane.put| <= s.total
    && (!lane.sending ==> lane.sent < s.total) && (!lane.receiving ==> |lane.got| < s.total)
    && exists blocks :: Carries(s, lane, blocks)
  }

  /** Numbers given to accepted connections are in range and different. */
  ghost predicate Numbered(b: Bench) {
    && (forall k :: 0 <= k < |b.accepted| && b.accepted[k].Some? ==> 1 <= b.accepted[k].value <= b.counter)
    && forall j, k :: 0 <= j < k < |b.accepted| && b.accepted[j].Some? ==> b.accepted[j] != b.accepted[k]
  }

  /** How many connections have been accepted. */
  ghost function Acceptances(accepted: seq<Option<nat>>): (n: nat)
    ensures n <= |accepted|
    ensures n == |accepted| <==> forall k :: 0 <= k < |accepted| ==> accepted[k].Some?
  {
    if accepted == [] then 0
    else
      var last := |accepted| - 1;
      assert forall k :: 0 <= k < last ==> accepted[..last][k] == accepted[k];
      Acceptances(accepted[..last]) + if accepted[last].Some? then 1 else 0
  }

  lemma {:induction false} AcceptOne(accepted: seq<Option<nat>>, k: nat, n: nat)
    requires k < |accepted| && accepted[k].None?
    ensures Acceptances(accepted[k := Some(n)]) == Acceptances(accepted) + 1
  {
    var last, after := |accepted| - 1, accepted[k := Some(n)];
    if k == last {
      assert after[..last] == accepted[..last];
    } else {
      AcceptOne(accepted[..last], k, n);
      assert after[..last] == accepted[..last][k := Some(n)] && after[last] == accepted[last];
    }
  }

  /** Each global byte total is the sum of what the connections have counted. */
  ghost predicate Conserved(b: Bench) {
    b.up == Sum(b.lanes, Sent) && b.down == Sum(b.lanes, Got)
  }

  ghost predicate Inv(s: Settings, b: Bench) {
    && |b.lanes| == 2 * |b.accepted| <= 2 * s.workers
    && (forall l :: 0 <= l < |b.lanes| ==> LaneOk(s, b.lanes[l]))
    && Conserved(b)
    && Numbered(b)
    && b.counter == Acceptances(b.accepted)
  }

  lemma {:induction false} FramesAppend(blocks: seq<seq<byte>>, data: seq<byte>, crc: Checksum)
    requires Sendable(blocks) && |data| < LIMIT
    ensures Sendable(blocks + [data])
    ensures Frames(blocks + [data], crc) == Frames(blocks, crc) + Frame(data, crc)
    ensures Joined(blocks + [data]) == Joined(blocks) + data
  {
    if blocks != [] {
      FramesAppend(blocks[1..], data, crc);
      assert (blocks + [data])[1..] == blocks[1..] + [data];
    }
  }

  lemma WriteKeepsLane(s: Settings, lane: Lane, data: seq<byte>)
    requires LaneOk(s, lane) && |lane.put| + |data| <= s.total && |data| < LIMIT
    requires s.blockSize != 0 ==> data != []
    ensures LaneOk(s, Written(lane, data, s.crc))
  {
    var blocks :| Carries(s, lane, blocks);
    FramesAppend(blocks, data, s.crc);
    assert Carries(s, Written(lane, data, s.crc), blocks + [data]);
  }

  /** What the receiver finds next is the first block on the wire: its checksum always matches. */
  lemma NextOnWire(s: Settings, lane: Lane, blocks: seq<seq<byte>>)
    requires Carries(s, lane, blocks)
    ensures blocks == [] ==> NextBlock(lane.wire, s.crc) == NoBlock(Incomplete)
    ensures blocks != [] ==> NextBlock(lane.wire, s.crc) == Good(blocks[0], Frames(blocks[1..], s.crc))
    ensures blocks != [] ==> Carries(s, Taken(lane, s.crc), blocks[1..])
  {
    if blocks != [] {
      var first, rest := blocks[0], Frames(blocks[1..], s.crc);
      assert lane.wire == Frame(first, s.crc) + rest;
      FrameIsBlock(first, s.crc, rest);
      Regroup(lane.got, first, Joined(blocks[1..]));
    }
  }

  lemma TakeKeepsLane(s: Settings, lane: Lane)
    requires LaneOk(s, lane) && lane.receiving && NextBlock(lane.wire, s.crc) != NoBlock(Incomplete)
    ensures var after := Taken(lane, s.crc);
            LaneOk(s, after) && after.receiving && (s.blockSize != 0 ==> |after.got| > |lane.got|)
  {
    var blocks :| Carries(s, lane, blocks);
    NextOnWire(s, lane, blocks);
    assert blocks != [] && blocks[0] in blocks;
  }

  lemma UpdateKeepsInv(s: Settings, b: Bench, l: nat, lane: Lane, after: Bench)
    requires Inv(s, b) && l < |b.lanes| && LaneOk(s, lane)
    requires after.lanes == b.lanes[l := lane] && after.accepted == b.accepted && after.counter == b.counter
    requires after.up - b.up == lane.sent - b.lanes[l].sent && after.down - b.down == |lane.got| - |b.lanes[l].got|
    ensures Inv(s, after)
  {
    SumUpdate(b.lanes, l, lane, Sent);
    SumUpdate(b.lanes, l, lane, Got);
  }

  lemma FlagsKeepLane(s: Settings, lane: Lane, sent: nat, sending: bool, receiving: bool)
    requires LaneOk(s, lane) && sent <= |lane.put|
    requires (!sending ==> sent < s.total) && (!receiving ==> |lane.got| < s.total)
    ensures LaneOk(s, lane.(sent := sent, sending := sending, receiving := receiving))
  {
    var blocks :| Carries(s, lane, blocks);
    assert Carries(s, lane.(sent := sent, sending := sending, receiving := receiving), blocks);
  }

  lemma NewLanesOk(s: Settings, lanes: seq<Lane>)
    requires forall l :: 0 <= l < |lanes| ==> LaneOk(s, lanes[l])
    ensures var more := lanes + [NEW_LANE, NEW_LANE]; forall l :: 0 <= l < |more| ==> LaneOk(s, more[l])
  {
    assert Carries(s, NEW_LANE, []);
  }

  lemma LaunchKeepsInv(s: Settings, b: Bench)
    requires Inv(s, b) && |b.accepted| < s.workers
    ensures Inv(s, Do(s, b, Launch))
  {
    NewLanesOk(s, b.lanes);
    SumLaunch(b.lanes, Sent);
    SumLaunch(b.lanes, Got);
    assert (b.accepted + [None])[..|b.accepted|] == b.accepted;
  }

  lemma AcceptNumbered(b: Bench, after: Bench, k: nat)
    requires Numbered(b) && k < |b.accepted| && b.accepted[k].None?
    requires after.counter == b.counter + 1 && after.accepted == b.accepted[k := Some(b.counter + 1)]
    ensures Numbered(after)
  {
  }

  lemma AcceptKeepsInv(s: Settings, b: Bench, k: nat)
    requires Inv(s, b) && Enabled(s, b, Accept(k))
    ensures Inv(s, Do(s, b, Accept(k)))
  {
    AcceptOne(b.accepted, k, b.counter + 1);
    AcceptNumbered(b, Do(s, b, Accept(k)), k);
  }

  lemma StepKeepsInv(s: Settings, b: Bench, a: Action)
    requires Inv(s, b) && Enabled(s, b, a)
    ensures Inv(s, Do(s, b, a))
  {
    var after := Do(s, b, a);
    match a {
      case Launch => LaunchKeepsInv(s, b);
      case Accept(k) => AcceptKeepsInv(s, b, k);
      case Write(l, data) =>
        WriteKeepsLane(s, b.lanes[l], data);
        UpdateKeepsInv(s, b, l, after.lanes[l], after);
      case Take(l) =>
        TakeKeepsLane(s, b.lanes[l]);
        UpdateKeepsInv(s, b, l, after.lanes[l], after);
      case _ =>
        var lane := after.lanes[a.l];
        FlagsKeepLane(s, b.lanes[a.l], lane.sent, lane.sending, lane.receiving);
        UpdateKeepsInv(s, b, a.l, lane, after);
    }
  }

  lemma {:induction false} RunKeepsInv(s: Settings, bs: seq<Bench>, acts: seq<Action>, i: nat)
    requires IsRun(s, bs, acts) && i < |bs|
    ensures Inv(s, bs[i])
  {
    if i > 0 {
      RunKeepsInv(s, bs, acts, i - 1);
      StepKeepsInv(s, bs[i - 1], acts[i - 1]);
    }
  }

  /** Every byte is counted once: in every state of every run the global totals are the sums over the connections, and
      on each connection the accepted octets are a prefix of those put in, of which no more than the total are
      counted. */
  lemma BytesConserved(s: Settings, bs: seq<Bench>, acts: seq<Action>, i: nat)
    requires IsRun(s, bs, acts) && i < |bs|
    ensures Conserved(bs[i])
    ensures forall l :: 0 <= l < |bs[i].lanes| ==>
      var lane := bs[i].lanes[l]; lane.got <= lane.put && lane.sent <= |lane.put| <= s.total
  {
    RunKeepsInv(s, bs, acts, i);
    forall l | 0 <= l < |bs[i].lanes| ensures bs[i].lanes[l].got <= bs[i].lanes[l].put {
      var blocks :| Carries(s, bs[i].lanes[l], blocks);
    }
  }

  // ---- Connection ids ----

  /** The worker's end or the listener's end of the k-th connection. */
  datatype Endpoint = WorkerEnd(k: nat) | ListenerEnd(k: nat)

  predicate Exists(b: Bench, e: Endpoint) {
    e.k < |b.accepted| && (e.ListenerEnd? ==> b.accepted[e.k].Some?)
  }

  function Id(b: Bench, e: Endpoint): string
    requires Exists(b, e)
  {
    match e
    case WorkerEnd(k) => "W" + Decimal.Print(k)
    case ListenerEnd(k) => "L" + Decimal.Print(b.accepted[k].value)
  }

  /** No two endpoints ever have the same connection id. */
  lemma IdsDiffer(s: Settings, bs: seq<Bench>, acts: seq<Action>, i: nat, e: Endpoint, f: Endpoint)
    requires IsRun(s, bs, acts) && i < |bs|
    requires Exists(bs[i], e) && Exists(bs[i], f) && Id(bs[i], e) == Id(bs[i], f)
    ensures e == f
  {
    RunKeepsInv(s, bs, acts, i);
    var x, y := Id(bs[i], e), Id(bs[i], f);
    assert x[0] == y[0];
    assert e.WorkerEnd? <==> f.WorkerEnd?;
    if e.WorkerEnd? {
      assert x[1..] == Decimal.Print(e.k) && y[1..] == Decimal.Print(f.k);
      Decimal.PrintInjective(e.k, f.k);
    } else {
      var m, n := bs[i].accepted[e.k].value, bs[i].accepted[f.k].value;
      assert x[1..] == Decimal.Print(m) && y[1..] == Decimal.Print(n);
      Decimal.PrintInjective(m, n);
    }
  }

  // ---- The monitor's stop test ----

  predicate StopTest(s: Settings, b: Bench) {
    b.up >= 2 * s.workers * s.total && b.down >= 2 * s.workers * s.total
  }

  predicate LaneDone(s: Settings, lane: Lane) {
    lane.sent == s.total && |lane.got| == s.total
  }

  /** All workers have connected and every direction of every connection has been transferred. */
  ghost predicate TransfersDone(s: Settings, b: Bench) {
    |b.accepted| == s.workers && forall l :: 0 <= l < |b.lanes| ==> LaneDone(s, b.lanes[l])
  }

  lemma InvBounds(s: Settings, b: Bench, c: Column)
    requires Inv(s, b)
    ensures Bounded(b.lanes, c, if c == Broken then 2 else s.total)
  {
    forall l | 0 <= l < |b.lanes| ensures Cell(b.lanes[l], c) <= if c == Broken then 2 else s.total {
      var blocks :| Carries(s, b.lanes[l], blocks);
    }
  }

  lemma FullSum(s: Settings, b: Bench, c: Column)
    requires Inv(s, b) && s.total > 0 && c != Broken
    ensures Sum(b.lanes, c) <= 2 * s.workers * s.total
    ensures Sum(b.lanes, c) == 2 * s.workers * s.total
            <==> |b.accepted| == s.workers && Full(b.lanes, c, s.total)
  {
    InvBounds(s, b, c);
    SumBounded(b.lanes, c, s.total);
    if |b.lanes| < 2 * s.workers {
      MoreTimes(2 * s.workers, |b.lanes|, s.total);
    }
  }

  /** In every reachable state the stop test holds exactly when everything has been transferred (or there is nothing to
      transfer), and then both totals are exactly what the monitor expects. */
  lemma StopTestExact(s: Settings, bs: seq<Bench>, acts: seq<Action>, i: nat)
    requires IsRun(s, bs, acts) && i < |bs|
    ensures StopTest(s, bs[i]) <==> s.total == 0 || TransfersDone(s, bs[i])
    ensures StopTest(s, bs[i]) ==> bs[i].up == bs[i].down == 2 * s.workers * s.total
  {
    var b := bs[i];
    RunKeepsInv(s, bs, acts, i);
    if s.total > 0 {
      FullSum(s, b, Sent);
      FullSum(s, b, Got);
      if StopTest(s, b) {
        forall l | 0 <= l < |b.lanes| ensures LaneDone(s, b.lanes[l]) {
          assert Cell(b.lanes[l], Sent) == s.total && Cell(b.lanes[l], Got) == s.total;
        }
      }
    } else {
      InvBounds(s, b, Sent);
      InvBounds(s, b, Got);
      SumBounded(b.lanes, Sent, 0);
      SumBounded(b.lanes, Got, 0);
    }
  }
}
