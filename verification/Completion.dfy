/** How runs of the stress test end: every run is finite, what a run without failures comes to rest in, when the test
    can finish at all, and what a single failure means for the monitor. */
module Completion {
  import opened Bytes
  import opened Blocks
  import opened Counters

  // ---- Every run ends, unless empty blocks are sent for ever ----

  /** Something is to be sent, in blocks of no octets. */
  predicate SendsEmptyBlocks(s: Settings) {
    s.blockSize == 0 && s.total > 0 && s.workers > 0
  }

  ghost function Progress(b: Bench): nat {
    |b.accepted| + b.counter + Sum(b.lanes, Put) + Sum(b.lanes, Sent) + Sum(b.lanes, Got) + Sum(b.lanes, Broken)
  }

  lemma LaneProgress(b: Bench, l: nat, lane: Lane, after: Bench, c: Column)
    requires l < |b.lanes| && after.accepted == b.accepted && after.counter == b.counter &&
             after.lanes == b.lanes[l := lane]
    requires Cell(lane, Put) >= Cell(b.lanes[l], Put) && Cell(lane, Sent) >= Cell(b.lanes[l], Sent)
    requires Cell(lane, Got) >= Cell(b.lanes[l], Got) && Cell(lane, Broken) >= Cell(b.lanes[l], Broken)
    requires Cell(lane, c) > Cell(b.lanes[l], c)
    ensures Progress(after) > Progress(b)
  {
    SumUpdate(b.lanes, l, lane, Put);
    SumUpdate(b.lanes, l, lane, Sent);
    SumUpdate(b.lanes, l, lane, Got);
    SumUpdate(b.lanes, l, lane, Broken);
  }

  lemma StepProgresses(s: Settings, b: Bench, a: Action)
    requires Inv(s, b) && Enabled(s, b, a) && (s.blockSize != 0 || s.total == 0)
    ensures Progress(Do(s, b, a)) > Progress(b)
  {
    var after := Do(s, b, a);
    match a {
      case Launch =>
        SumLaunch(b.lanes, Put);
        SumLaunch(b.lanes, Sent);
        SumLaunch(b.lanes, Got);
        SumLaunch(b.lanes, Broken);
      case Accept(_) =>
      case Write(l, _) => LaneProgress(b, l, after.lanes[l], after, Put);
      case Count(l) => LaneProgress(b, l, after.lanes[l], after, Sent);
      case Take(l) =>
        TakeKeepsLane(s, b.lanes[l]);
        LaneProgress(b, l, after.lanes[l], after, Got);
      case _ => LaneProgress(b, a.l, after.lanes[a.l], after, Broken);
    }
  }

  lemma NextProgresses(s: Settings, bs: seq<Bench>, acts: seq<Action>, i: nat)
    requires IsRun(s, bs, acts) && i < |acts| && !SendsEmptyBlocks(s)
    ensures Progress(bs[i + 1]) > Progress(bs[i])
  {
    var b, next, a := bs[i], bs[i + 1], acts[i];
    RunKeepsInv(s, bs, acts, i);
    assert Enabled(s, b, a) && next == Do(s, b, a);
    StepProgresses(s, b, a);
  }

  lemma {:induction false} RunProgresses(s: Settings, bs: seq<Bench>, acts: seq<Action>, i: nat)
    requires IsRun(s, bs, acts) && i < |bs| && !SendsEmptyBlocks(s)
    ensures Progress(bs[i]) >= i
  {
    if i > 0 {
      RunProgresses(s, bs, acts, i - 1);
      NextProgresses(s, bs, acts, i - 1);
    }
  }

  lemma TimesGrows(a: nat, b: nat, m: nat)
    requires a <= b
    ensures a * m <= b * m
  {
    assert b * m == a * m + (b - a) * m;
  }

  lemma SumAtMost(s: Settings, b: Bench, c: Column, most: nat)
    requires Inv(s, b) && most == if c == Broken then 2 else s.total
    ensures Sum(b.lanes, c) <= 2 * s.workers * most
  {
    InvBounds(s, b, c);
    SumBounded(b.lanes, c, most);
    TimesGrows(|b.lanes|, 2 * s.workers, most);
  }

  lemma StepBound(workers: nat, total: nat)
    ensures 6 * workers * (total + 1) == 3 * (2 * workers * total) + 6 * workers
  {
  }

  /** Empty blocks go on for ever: then there are runs of every length. */
  lemma {:induction false} EmptyBlocksForEver(s: Settings, n: nat) returns (bs: seq<Bench>, acts: seq<Action>)
    requires SendsEmptyBlocks(s)
    ensures IsRun(s, bs, acts) && |acts| == n && NoFailure(acts)
    ensures n > 0 ==>
              && bs[n].lanes != [] && bs[n].accepted != []
              && bs[n].lanes[0].sending && bs[n].lanes[0].put == [] && bs[n].lanes[0].sent == 0
  {
    if n == 0 {
      bs, acts := [START], [];
    } else {
      bs, acts := EmptyBlocksForEver(s, n - 1);
      bs, acts := RunGoesOn(s, bs, acts, if n == 1 then Launch else Write(0, []));
    }
  }

  /** A run and one more action. */
  lemma RunGoesOn(s: Settings, bs: seq<Bench>, acts: seq<Action>, a: Action)
    returns (bs': seq<Bench>, acts': seq<Action>)
    requires IsRun(s, bs, acts) && Enabled(s, bs[|acts|], a)
    ensures IsRun(s, bs', acts') && acts' == acts + [a] && bs' == bs + [Do(s, bs[|acts|], a)]
  {
    acts', bs' := acts + [a], bs + [Do(s, bs[|acts|], a)];
    forall i | 0 <= i < |acts'| ensures Enabled(s, bs'[i], acts'[i]) && bs'[i + 1] == Do(s, bs'[i], acts'[i]) {
      assert bs'[i] == bs[i];
      if i < |acts| {
        assert acts'[i] == acts[i] && bs'[i + 1] == bs[i + 1];
      }
    }
  }

  /** Every run, with failures or without, is finite: it has at most 6 * workers * (total + 1) steps. */
  lemma RunsEnd(s: Settings, bs: seq<Bench>, acts: seq<Action>)
    requires IsRun(s, bs, acts) && !SendsEmptyBlocks(s)
    ensures |acts| <= 6 * s.workers * (s.total + 1)
  {
    var b := bs[|acts|];
    RunProgresses(s, bs, acts, |acts|);
    RunKeepsInv(s, bs, acts, |acts|);
    SumAtMost(s, b, Put, s.total);
    SumAtMost(s, b, Sent, s.total);
    SumAtMost(s, b, Got, s.total);
    SumAtMost(s, b, Broken, 2);
    StepBound(s.workers, s.total);
  }

  ghost predicate Healthy(b: Bench) {
    !b.error && forall l :: 0 <= l < |b.lanes| ==> b.lanes[l].sending && b.lanes[l].receiving
  }

  predicate IsFailure(a: Action) {
    a.BreakSender? || a.BreakReceiver?
  }

  ghost predicate NoFailure(acts: seq<Action>) {
    forall i :: 0 <= i < |acts| ==> !IsFailure(acts[i])
  }

  /** As long as no task fails from outside, no checksum ever mismatches and the error flag stays down. */
  lemma {:induction false} NoErrorByItself(s: Settings, bs: seq<Bench>, acts: seq<Action>, i: nat)
    requires IsRun(s, bs, acts) && NoFailure(acts) && i < |bs|
    ensures Healthy(bs[i])
  {
    if i > 0 {
      NoErrorByItself(s, bs, acts, i - 1);
      RunKeepsInv(s, bs, acts, i - 1);
      if acts[i - 1].Take? {
        TakeKeepsLane(s, bs[i - 1].lanes[acts[i - 1].l]);
      }
    }
  }

  lemma ErrorStep(s: Settings, b: Bench, a: Action)
    requires Inv(s, b) && Enabled(s, b, a)
    ensures Do(s, b, a).error <==> b.error || IsFailure(a)
  {
    if a.Take? {
      TakeKeepsLane(s, b.lanes[a.l]);
    }
  }

  lemma OneActionMore(before: seq<Action>, a: Action)
    ensures NoFailure(before + [a]) <==> NoFailure(before) && !IsFailure(a)
  {
    assert (before + [a])[|before|] == a;
    assert forall k :: 0 <= k < |before| ==> (before + [a])[k] == before[k];
  }

  lemma NextError(s: Settings, bs: seq<Bench>, acts: seq<Action>, i: nat)
    requires IsRun(s, bs, acts) && i < |acts|
    ensures bs[i + 1].error <==> bs[i].error || IsFailure(acts[i])
  {
    var b, a := bs[i], acts[i];
    RunKeepsInv(s, bs, acts, i);
    assert Enabled(s, b, a) && bs[i + 1] == Do(s, b, a);
    ErrorStep(s, b, a);
  }

  /** The error flag is up exactly when some task has failed. */
  lemma {:induction false} ErrorExact(s: Settings, bs: seq<Bench>, acts: seq<Action>, i: nat)
    requires IsRun(s, bs, acts) && i < |bs|
    ensures bs[i].error <==> !NoFailure(acts[..i])
  {
    if i > 0 {
      var before, a := acts[..i - 1], acts[i - 1];
      ErrorExact(s, bs, acts, i - 1);
      NextError(s, bs, acts, i - 1);
      assert acts[..i] == before + [a];
      OneActionMore(before, a);
    }
  }

  ghost predicate AllDone(s: Settings, b: Bench) {
    TransfersDone(s, b) && forall k :: 0 <= k < |b.accepted| ==> b.accepted[k].Some?
  }

  // ---- Where a run without failures comes to rest ----

  /** Nothing can happen any more but failures. */
  ghost predicate AtRest(s: Settings, b: Bench) {
    forall a :: Enabled(s, b, a) ==> IsFailure(a)
  }

  /** The first block can be made and packed, if there is one: its size is not negative and fits the length field. */
  predicate CanSend(s: Settings) {
    s.total == 0 || 0 <= Min(s.blockSize, s.total) < LIMIT
  }

  /** Every worker has connected, and every one of these connections has been accepted. */
  ghost predicate Connected(s: Settings, b: Bench) {
    |b.accepted| == s.workers && forall k :: 0 <= k < |b.accepted| ==> b.accepted[k].Some?
  }

  /** A lane that is not done can make a step. */
  lemma LaneCanStep(s: Settings, b: Bench, l: nat) returns (a: Action)
    requires Inv(s, b) && Healthy(b) && l < |b.lanes| && !LaneDone(s, b.lanes[l])
    requires Connected(s, b) && CanSend(s)
    ensures Enabled(s, b, a) && !IsFailure(a)
  {
    var lane := b.lanes[l];
    assert LaneOk(s, lane);
    assert HasSender(b, l) && HasReceiver(b, l);
    if lane.sent < |lane.put| {
      a := Count(l);
    } else if lane.sent < s.total {
      a := Write(l, seq(Min(s.blockSize, s.total - lane.sent), _ => 0));
    } else {
      var blocks :| Carries(s, lane, blocks);
      NextOnWire(s, lane, blocks);
      a := Take(l);
    }
  }

  lemma DoneIsAtRest(s: Settings, b: Bench)
    requires Inv(s, b) && AllDone(s, b)
    ensures AtRest(s, b)
  {
    assert forall l :: 0 <= l < |b.lanes| ==> LaneDone(s, b.lanes[l]) && LaneOk(s, b.lanes[l]);
  }

  lemma OtherwiseSomeStep(s: Settings, b: Bench) returns (a: Action)
    requires Inv(s, b) && Healthy(b)
    requires if CanSend(s) then !AllDone(s, b) else !Connected(s, b)
    ensures Enabled(s, b, a) && !IsFailure(a)
  {
    if |b.accepted| < s.workers {
      a := Launch;
    } else if k :| 0 <= k < |b.accepted| && b.accepted[k].None? {
      a := Accept(k);
    } else {
      var l :| 0 <= l < |b.lanes| && !LaneDone(s, b.lanes[l]);
      a := LaneCanStep(s, b, l);
    }
  }

  /** No sender has put an octet, and nothing is on its way. */
  ghost predicate NothingWritten(b: Bench) {
    forall l :: 0 <= l < |b.lanes| ==> b.lanes[l].put == [] && b.lanes[l].sent == 0 && b.lanes[l].wire == []
  }

  lemma {:induction false} CannotSendWritesNothing(s: Settings, bs: seq<Bench>, acts: seq<Action>, i: nat)
    requires IsRun(s, bs, acts) && !CanSend(s) && i < |bs|
    ensures NothingWritten(bs[i])
  {
    if i > 0 {
      CannotSendWritesNothing(s, bs, acts, i - 1);
      assert Enabled(s, bs[i - 1], acts[i - 1]) && bs[i] == Do(s, bs[i - 1], acts[i - 1]);
    }
  }

  /** For all settings, a run without failures comes to rest exactly when everything is done, or when all have connected
      and nobody can send. When everything is done, the stop test holds and the error flag is down. */
  lemma RestsOnlyWhenDone(s: Settings, bs: seq<Bench>, acts: seq<Action>)
    requires IsRun(s, bs, acts) && NoFailure(acts)
    ensures AtRest(s, bs[|acts|]) <==> if CanSend(s) then AllDone(s, bs[|acts|]) else Connected(s, bs[|acts|])
    ensures AllDone(s, bs[|acts|]) ==> StopTest(s, bs[|acts|]) && !bs[|acts|].error
  {
    var b := bs[|acts|];
    RunKeepsInv(s, bs, acts, |acts|);
    NoErrorByItself(s, bs, acts, |acts|);
    if AllDone(s, b) {
      StopTestExact(s, bs, acts, |acts|);
      DoneIsAtRest(s, b);
    }
    if CanSend(s) {
      if !AllDone(s, b) {
        var a := OtherwiseSomeStep(s, b);
      }
    } else if Connected(s, b) {
      CannotSendWritesNothing(s, bs, acts, |acts|);
    } else {
      var a := OtherwiseSomeStep(s, b);
    }
  }

  // ---- When the test can finish ----

  /** Nothing is to be sent, or it is sent in blocks that are neither empty nor too long. */
  predicate Workable(s: Settings) {
    s.workers == 0 || s.total == 0 || (s.blockSize >= 1 && CanSend(s))
  }

  /** No sender ever puts an octet. */
  ghost predicate NothingPut(b: Bench) {
    forall l :: 0 <= l < |b.lanes| ==> b.lanes[l].put == [] && b.lanes[l].sent == 0
  }

  lemma {:induction false} UnworkablePutsNothing(s: Settings, bs: seq<Bench>, acts: seq<Action>, i: nat)
    requires IsRun(s, bs, acts) && !Workable(s) && i < |bs|
    ensures NothingPut(bs[i])
  {
    if i > 0 {
      UnworkablePutsNothing(s, bs, acts, i - 1);
      var b, a := bs[i - 1], acts[i - 1];
      assert Enabled(s, b, a) && bs[i] == Do(s, b, a);
      match a {
        case Write(_, data) => assert data == [];
        case Take(l) => assert Taken(b.lanes[l], s.crc).put == b.lanes[l].put;
        case _ =>
      }
    }
  }

  /** A run without failures can be continued, without failures, until everything is done. */
  lemma {:induction false} Continue(s: Settings, bs: seq<Bench>, acts: seq<Action>)
    returns (bs': seq<Bench>, acts': seq<Action>)
    requires IsRun(s, bs, acts) && NoFailure(acts) && CanSend(s) && !SendsEmptyBlocks(s)
    ensures IsRun(s, bs', acts') && NoFailure(acts') && AllDone(s, bs'[|acts'|])
    ensures acts <= acts' && bs <= bs'
    decreases 6 * s.workers * (s.total + 1) - |acts|
  {
    if AllDone(s, bs[|acts|]) {
      bs', acts' := bs, acts;
    } else {
      RunKeepsInv(s, bs, acts, |acts|);
      NoErrorByItself(s, bs, acts, |acts|);
      var a := OtherwiseSomeStep(s, bs[|acts|]);
      var bs1, acts1 := RunGoesOn(s, bs, acts, a);
      RunsEnd(s, bs1, acts1);
      bs', acts' := Continue(s, bs1, acts1);
    }
  }

  ghost predicate CanFinish(s: Settings) {
    exists bs, acts :: IsRun(s, bs, acts) && NoFailure(acts) && AllDone(s, bs[|acts|])
  }

  /** The test can finish exactly when nothing is to be sent, or the block size is at least one and fits the header. */
  lemma FinishesExactly(s: Settings)
    ensures CanFinish(s) <==> Workable(s)
  {
    if Workable(s) {
      var bs, acts := SomeFinishedRun(s);
    }
    forall bs: seq<Bench>, acts: seq<Action> | IsRun(s, bs, acts) && !Workable(s) ensures !AllDone(s, bs[|acts|]) {
      UnworkableNeverDone(s, bs, acts);
    }
  }

  lemma UnworkableNeverDone(s: Settings, bs: seq<Bench>, acts: seq<Action>)
    requires IsRun(s, bs, acts) && !Workable(s)
    ensures !AllDone(s, bs[|acts|])
  {
    var b := bs[|acts|];
    UnworkablePutsNothing(s, bs, acts, |acts|);
    RunKeepsInv(s, bs, acts, |acts|);
    assert |b.lanes| > 0 ==> b.lanes[0].sent == 0 < s.total;
  }

  lemma SomeFinishedRun(s: Settings) returns (bs: seq<Bench>, acts: seq<Action>)
    requires Workable(s)
    ensures IsRun(s, bs, acts) && NoFailure(acts) && AllDone(s, bs[|acts|])
  {
    bs, acts := [START], [];
    if s.workers > 0 {
      bs, acts := Continue(s, bs, acts);
    }
  }
}
