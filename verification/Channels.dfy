/** One end of the bidirectional control stream, as a task sees it: octets that arrive in chunks whose
    boundaries the network chooses, followed by the end of the stream, a fault, or silence. */
module Channels {
  import opened Bytes

  /** What reading meets once every octet of the peer has been read. */
  datatype Ending = Fin | Broken | Silent

  /** Why a read did not produce the octets asked for. Silence is only ever noticed by a timeout. */
  datatype Shortfall = EndOfStream | ReadError | NeverArrived

  function After(e: Ending): Shortfall {
    match e
    case Fin => EndOfStream
    case Broken => ReadError
    case Silent => NeverArrived
  }

  datatype ReadResult = Got(data: seq<byte>) | Nothing(why: Shortfall)

  /** What a stage does to the stream: the octets it writes, how many octets it reads, and how many
      messages it writes. */
  datatype Effect = Effect(replies: seq<byte>, used: nat, writes: nat)

  /** A stage of a task: its outcome and its effect on the stream. */
  datatype Stage<+T> = Stage(outcome: T, effect: Effect)

  const NO_EFFECT: Effect := Effect([], 0, 0)

  function Then(a: Effect, b: Effect): Effect {
    Effect(a.replies + b.replies, a.used + b.used, a.writes + b.writes)
  }

  /** The state of one end: octets not read yet, octets written, and messages that can still be written. */
  datatype End = End(incoming: seq<byte>, outgoing: seq<byte>, writable: nat)

  predicate Fits(e: Effect, s: End) {
    e.used <= |s.incoming| && e.writes <= s.writable
  }

  function Advance(s: End, e: Effect): End
    requires Fits(e, s)
  {
    End(s.incoming[e.used..], s.outgoing + e.replies, s.writable - e.writes)
  }

  lemma AdvanceTwice(s: End, a: Effect, b: Effect)
    requires Fits(a, s) && Fits(b, Advance(s, a))
    ensures Fits(Then(a, b), s) && Advance(Advance(s, a), b) == Advance(s, Then(a, b))
  {
    assert s.incoming[a.used..][b.used..] == s.incoming[a.used + b.used..];
  }

  /** A stage that runs after something else took effect. */
  function Following<T>(first: Effect, stage: Stage<T>): Stage<T> {
    Stage(stage.outcome, Then(first, stage.effect))
  }

  /** A stage from one state of the stream to another, with its outcome. */
  ghost predicate Ran<T(!new)>(stage: Stage<T>, from: End, to: End, outcome: T) {
    Fits(stage.effect, from) && to == Advance(from, stage.effect) && outcome == stage.outcome
  }

  lemma RanTwice<T(!new)>(first: Effect, second: Stage<T>, from: End, mid: End, to: End, outcome: T)
    requires Fits(first, from) && mid == Advance(from, first) && Ran(second, mid, to, outcome)
    ensures Ran(Following(first, second), from, to, outcome)
  {
    AdvanceTwice(from, first, second.effect);
  }

  class Channel {
    /** Octets of the peer this end has not read yet. */
    var incoming: seq<byte>
    /** Octets this end has written. */
    var outgoing: seq<byte>
    /** How many more messages can be written before the transport fails. */
    var writable: nat
    const ending: Ending

    constructor (incoming: seq<byte>, ending: Ending, writable: nat)
      ensures this.incoming == incoming && this.ending == ending && this.writable == writable && outgoing == []
    {
      this.incoming, this.ending, this.writable, outgoing := incoming, ending, writable, [];
    }

    /** One read: any non-empty prefix of what is left, at most as long as the buffer. */
    method Read(capacity: nat) returns (r: ReadResult)
      requires capacity > 0
      modifies this`incoming
      ensures r.Nothing? <==> old(incoming) == []
      ensures r.Got? ==> 1 <= |r.data| <= capacity && old(incoming) == r.data + incoming
      ensures r.Nothing? ==> incoming == [] && r.why == After(ending)
    {
      if incoming == [] {
        return Nothing(After(ending));
      }
      var k: nat :| 1 <= k <= capacity && k <= |incoming|;
      r := Got(incoming[..k]);
      incoming := incoming[k..];
    }

    /** Reads until the buffer is full. The chunk boundaries do not show in the result. */
    method ReadExact(n: nat) returns (r: ReadResult)
      modifies this`incoming
      ensures |old(incoming)| >= n ==> r == Got(old(incoming)[..n]) && incoming == old(incoming)[n..]
      ensures |old(incoming)| < n ==> r == Nothing(After(ending)) && incoming == []
    {
      var buf := [];
      while |buf| < n
        invariant |buf| <= n && old(incoming) == buf + incoming
      {
        var chunk := Read(n - |buf|);
        if chunk.Nothing? {
          return chunk;
        }
        buf := buf + chunk.data;
      }
      r := Got(buf);
    }

    /** Writes and flushes one message. */
    method WriteAll(message: seq<byte>) returns (ok: bool)
      modifies this`outgoing, this`writable
      ensures ok <==> old(writable) > 0
      ensures ok ==> outgoing == old(outgoing) + message && writable == old(writable) - 1
      ensures !ok ==> outgoing == old(outgoing) && writable == 0
    {
      ok := writable > 0;
      if ok {
        outgoing, writable := outgoing + message, writable - 1;
      }
    }

    function State(): End
      reads this
    {
      End(incoming, outgoing, writable)
    }

    /** Since the old state this end went through exactly this effect. */
    twostate predicate Went(e: Effect)
      reads this
    {
      Fits(e, old(State())) && State() == Advance(old(State()), e)
    }
  }
}
