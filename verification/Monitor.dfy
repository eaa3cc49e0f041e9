/** The monitor of the stress test after a failure: when it can still stop, what the program waits for when the
    workers have finished, and a run in which it waits for ever. */
module Monitor {
  import opened Bytes
  import opened Options
  import opened Blocks
  import opened Counters
  import opened Completion

  /** A task that has failed stays failed. */
  lemma {:induction false} StaysBroken(s: Settings, bs: seq<Bench>, acts: seq<Action>, i: nat, j: nat)
    requires IsRun(s, bs, acts) && i < j < |bs| && IsFailure(acts[i])
    ensures acts[i].l < |bs[j].lanes|
    ensures var lane := bs[j].lanes[acts[i].l]; if acts[i].BreakSender? then !lane.sending else !lane.receiving
    decreases j
  {
    if i < j - 1 {
      StaysBroken(s, bs, acts, i, j - 1);
      var b, a := bs[j - 1], acts[j - 1];
      assert Enabled(s, b, a) && bs[j] == Do(s, b, a);
    }
  }

  /** With something to send, the stop test only ever holds in runs without any failure. So after a single failure of a
      sender or a receiver, on whichever side, the monitor never stops. */
  lemma StopMeansNoFailure(s: Settings, bs: seq<Bench>, acts: seq<Action>, i: nat)
    requires IsRun(s, bs, acts) && i < |bs| && s.total > 0 && StopTest(s, bs[i])
    ensures NoFailure(acts[..i])
  {
    StopTestExact(s, bs, acts, i);
    RunKeepsInv(s, bs, acts, i);
    assert forall l :: 0 <= l < |bs[i].lanes| ==> LaneDone(s, bs[i].lanes[l]) && LaneOk(s, bs[i].lanes[l]);
    forall k | 0 <= k < i && IsFailure(acts[k]) ensures false {
      StaysBroken(s, bs, acts, k, i);
    }
  }

  // ---- When the monitor can still stop ----

  /** A run that goes on from another one. */
  ghost predicate Continues(s: Settings, bs: seq<Bench>, acts: seq<Action>, bs': seq<Bench>, acts': seq<Action>) {
    IsRun(s, bs', acts') && bs <= bs' && acts <= acts'
  }

  ghost predicate CanStop(s: Settings, bs: seq<Bench>, acts: seq<Action>) {
    exists bs', acts' :: Continues(s, bs, acts, bs', acts') && StopTest(s, bs'[|acts'|])
  }

  lemma StopMeansWorkable(s: Settings, bs: seq<Bench>, acts: seq<Action>)
    requires IsRun(s, bs, acts) && s.total > 0 && StopTest(s, bs[|acts|])
    ensures Workable(s) && NoFailure(acts)
  {
    StopMeansNoFailure(s, bs, acts, |acts|);
    assert acts[..|acts|] == acts;
    StopTestExact(s, bs, acts, |acts|);
    RunKeepsInv(s, bs, acts, |acts|);
    var b := bs[|acts|];
    assert s.workers > 0 ==> |b.lanes| > 0 && LaneDone(s, b.lanes[0]);
    if !Workable(s) {
      UnworkablePutsNothing(s, bs, acts, |acts|);
    }
  }

  /** Exactly when the monitor can still stop, in every reachable state and for all settings: there is nothing to
      send, or the test can finish at all and no task has failed so far. */
  lemma MonitorCanStopExactly(s: Settings, bs: seq<Bench>, acts: seq<Action>)
    requires IsRun(s, bs, acts)
    ensures CanStop(s, bs, acts) <==> s.total == 0 || (Workable(s) && NoFailure(acts))
  {
    if s.total == 0 || s.workers == 0 {
      StopTestTrivial(s, bs[|acts|]);
      assert Continues(s, bs, acts, bs, acts);
      if s.total > 0 {
        StopMeansWorkable(s, bs, acts);
      }
    } else {
      if Workable(s) && NoFailure(acts) {
        var bs', acts' := Continue(s, bs, acts);
        StopTestExact(s, bs', acts', |acts'|);
        assert Continues(s, bs, acts, bs', acts');
      }
      forall bs', acts' | Continues(s, bs, acts, bs', acts') && StopTest(s, bs'[|acts'|])
        ensures Workable(s) && NoFailure(acts)
      {
        StopMeansWorkable(s, bs', acts');
        assert forall i :: 0 <= i < |acts| ==> acts[i] == acts'[i];
      }
    }
  }

  lemma StopTestTrivial(s: Settings, b: Bench)
    requires s.total == 0 || s.workers == 0
    ensures StopTest(s, b)
  {
    assert 2 * s.workers * s.total == 0;
  }

  // ---- What the workers see ----

  /** All workers have sent and received everything, so the program goes on to wait for the monitor. */
  ghost predicate WorkersDone(s: Settings, b: Bench) {
    && |b.accepted| == s.workers && |b.lanes| == 2 * s.workers
    && forall k :: 0 <= k < s.workers ==> b.lanes[2 * k].sent == s.total && |b.lanes[2 * k + 1].got| == s.total
  }

  /** The failure of a task on the listener's side: of a sender on a lane to a worker, or of a receiver from one. */
  predicate OnListenerSide(a: Action) {
    (a.BreakSender? && a.l % 2 == 1) || (a.BreakReceiver? && a.l % 2 == 0)
  }

  /** When the workers are done, all failures so far were on the listener's side. */
  lemma FailuresWereListeners(s: Settings, bs: seq<Bench>, acts: seq<Action>, i: nat)
    requires IsRun(s, bs, acts) && WorkersDone(s, bs[|acts|]) && i < |acts| && IsFailure(acts[i])
    ensures OnListenerSide(acts[i])
  {
    StaysBroken(s, bs, acts, i, |acts|);
    RunKeepsInv(s, bs, acts, |acts|);
    var b, l := bs[|acts|], acts[i].l;
    assert LaneOk(s, b.lanes[l]);
    assert l == 2 * (l / 2) + l % 2;
  }

  /** When the workers are done, the program gets past the monitor exactly if no task on the listener's side has
      failed. */
  lemma ProgramEndsExactly(s: Settings, bs: seq<Bench>, acts: seq<Action>)
    requires IsRun(s, bs, acts) && WorkersDone(s, bs[|acts|]) && s.total > 0
    ensures CanStop(s, bs, acts) <==> forall i :: 0 <= i < |acts| ==> !OnListenerSide(acts[i])
  {
    MonitorCanStopExactly(s, bs, acts);
    forall i | 0 <= i < |acts| && IsFailure(acts[i]) ensures OnListenerSide(acts[i]) {
      FailuresWereListeners(s, bs, acts, i);
    }
    var b := bs[|acts|];
    assert s.workers > 0 ==> b.lanes[2 * 0].sent == s.total;
    if !Workable(s) {
      UnworkablePutsNothing(s, bs, acts, |acts|);
    }
  }

  // ---- A run in which the program waits for ever ----

  const OCTET: seq<byte> := [0]

  /** One worker and one octet each way; everything has been sent, and the worker has received, when the receiver on the
      listener's side fails. */
  const LATE_FAILURE: seq<Action> :=
    [Launch, Accept(0), Write(0, OCTET), Count(0), Write(1, OCTET), Count(1), Take(1), BreakReceiver(0)]

  /** A lane of one octet, as it goes on. */
  function LaneAt(frame: seq<byte>, sent: nat, taken: bool): Lane {
    Lane(OCTET, sent, if taken then [] else frame, if taken then OCTET else [], true, true)
  }

  lemma OneOctet(crc: Checksum)
    ensures var frame := Frame(OCTET, crc);
            && Written(NEW_LANE, OCTET, crc) == LaneAt(frame, 0, false)
            && NextBlock(frame, crc) == Good(OCTET, []) && Taken(LaneAt(frame, 1, false), crc) == LaneAt(frame, 1, true)
  {
    var frame := Frame(OCTET, crc);
    assert [] + OCTET == OCTET && [] + frame == frame && frame + [] == frame;
    FrameIsBlock(OCTET, crc, []);
  }

  /** The states of that run. */
  function LateStates(frame: seq<byte>): seq<Bench> {
    var idle, put, sent, got := NEW_LANE, LaneAt(frame, 0, false), LaneAt(frame, 1, false), LaneAt(frame, 1, true);
    [START,
     Bench(0, 0, 0, false, [idle, idle], [None]),
     Bench(0, 0, 1, false, [idle, idle], [Some(1)]),
     Bench(0, 0, 1, false, [put, idle], [Some(1)]),
     Bench(1, 0, 1, false, [sent, idle], [Some(1)]),
     Bench(1, 0, 1, false, [sent, put], [Some(1)]),
     Bench(2, 0, 1, false, [sent, sent], [Some(1)]),
     Bench(2, 1, 1, false, [sent, got], [Some(1)]),
     Bench(2, 1, 1, true, [sent.(receiving := false), got], [Some(1)])]
  }

  ghost predicate StepsFrom(crc: Checksum, i: nat)
    requires i < 8
  {
    var s, bs := Settings(1, 1, 1, crc), LateStates(Frame(OCTET, crc));
    Enabled(s, bs[i], LATE_FAILURE[i]) && bs[i + 1] == Do(s, bs[i], LATE_FAILURE[i])
  }

  lemma EverybodyConnects(crc: Checksum)
    ensures StepsFrom(crc, 0) && StepsFrom(crc, 1)
  {
  }

  lemma WorkerWrites(crc: Checksum)
    ensures StepsFrom(crc, 2)
  {
    OneOctet(crc);
  }

  lemma ListenerWrites(crc: Checksum)
    ensures StepsFrom(crc, 4)
  {
    OneOctet(crc);
    var frame := Frame(OCTET, crc);
    var sent, put := LaneAt(frame, 1, false), LaneAt(frame, 0, false);
    assert [sent, NEW_LANE][1 := put] == [sent, put];
  }

  lemma BothCount(crc: Checksum)
    ensures StepsFrom(crc, 3) && StepsFrom(crc, 5)
  {
  }

  lemma WorkerReceives(crc: Checksum)
    ensures StepsFrom(crc, 6)
  {
    OneOctet(crc);
  }

  lemma ListenerFails(crc: Checksum)
    ensures StepsFrom(crc, 7)
  {
  }

  lemma EveryStep(crc: Checksum, i: nat)
    requires i < 8
    ensures StepsFrom(crc, i)
  {
    match i {
      case 2 => WorkerWrites(crc);
      case 4 => ListenerWrites(crc);
      case 6 => WorkerReceives(crc);
      case 7 => ListenerFails(crc);
      case _ =>
        EverybodyConnects(crc);
        BothCount(crc);
    }
  }

  lemma LateRun(crc: Checksum)
    ensures IsRun(Settings(1, 1, 1, crc), LateStates(Frame(OCTET, crc)), LATE_FAILURE)
  {
    var s, bs := Settings(1, 1, 1, crc), LateStates(Frame(OCTET, crc));
    assert |bs| == |LATE_FAILURE| + 1 && bs[0] == START;
    forall i | 0 <= i < |LATE_FAILURE|
      ensures Enabled(s, bs[i], LATE_FAILURE[i]) && bs[i + 1] == Do(s, bs[i], LATE_FAILURE[i])
    {
      EveryStep(crc, i);
      assert StepsFrom(crc, i);
    }
  }

  /** With any checksum, the workers are done, nothing but failures can happen, and the monitor can never stop. */
  lemma LateFailureRun(crc: Checksum) returns (bs: seq<Bench>)
    ensures var s := Settings(1, 1, 1, crc);
            && IsRun(s, bs, LATE_FAILURE) && WorkersDone(s, bs[8]) && AtRest(s, bs[8]) && !CanStop(s, bs, LATE_FAILURE)
  {
    LateRun(crc);
    bs := LateStates(Frame(OCTET, crc));
    MonitorCanStopExactly(Settings(1, 1, 1, crc), bs, LATE_FAILURE);
    assert IsFailure(LATE_FAILURE[7]);
  }
}
