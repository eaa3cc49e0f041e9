/** The block protocol of the stress test (utils/connection_stress_test.py): framing with length and checksum, the
    sender and the receiver, and their round trip. The checksum is a parameter: any function to 32 bit numbers. */
module Blocks {
  import opened Bytes

  type uint32 = n: int | 0 <= n < 0x1_0000_0000

  type Checksum = seq<byte> -> uint32

  const WORD: nat := 4
  const HEADER_LENGTH: nat := 8
  const LIMIT: nat := 0x1_0000_0000

  // ---- Framing ----

  /** A number in big-endian octets. */
  function Octets(n: nat, width: nat): (s: seq<byte>)
    ensures |s| == width
  {
    if width == 0 then [] else Octets(n / 0x100, width - 1) + [n % 0x100]
  }

  function Number(s: seq<byte>): nat {
    if s == [] then 0 else 0x100 * Number(s[..|s| - 1]) + s[|s| - 1]
  }

  function Power(width: nat): nat {
    if width == 0 then 1 else 0x100 * Power(width - 1)
  }

  lemma {:induction false} NumberOctets(n: nat, width: nat)
    requires n < Power(width)
    ensures Number(Octets(n, width)) == n
  {
    if width > 0 {
      NumberOctets(n / 0x100, width - 1);
      assert Octets(n, width)[..width - 1] == Octets(n / 0x100, width - 1);
    }
  }

  lemma {:induction false} OctetsNumber(s: seq<byte>)
    ensures Number(s) < Power(|s|) && Octets(Number(s), |s|) == s
  {
    if s != [] {
      OctetsNumber(s[..|s| - 1]);
      assert s == s[..|s| - 1] + [s[|s| - 1]];
    }
  }

  /** A block as it is sent: length, checksum, data. */
  function Frame(data: seq<byte>, crc: Checksum): (f: seq<byte>)
    requires |data| < LIMIT
    ensures |f| == HEADER_LENGTH + |data|
  {
    Octets(|data|, WORD) + Octets(crc(data), WORD) + data
  }

  // ---- The sender ----

  /** The blocks a payload is cut into. */
  function Chunks(payload: seq<byte>, blockSize: nat): seq<seq<byte>>
    requires blockSize >= 1
  {
    if payload == [] then []
    else
      var n := Min(blockSize, |payload|);
      [payload[..n]] + Chunks(payload[n..], blockSize)
  }

  /** No block of the payload is too long for the length field. */
  predicate Framable(payload: seq<byte>, blockSize: int) {
    blockSize >= 1 && Min(blockSize, |payload|) < LIMIT
  }

  /** Everything the sender writes for a payload. */
  function Wire(payload: seq<byte>, blockSize: nat, crc: Checksum): seq<byte>
    requires Framable(payload, blockSize)
  {
    if payload == [] then []
    else
      var n := Min(blockSize, |payload|);
      Frame(payload[..n], crc) + Wire(payload[n..], blockSize, crc)
  }

  /** The number of blocks: a divided by b, rounded up. */
  function CeilDiv(a: nat, b: nat): nat
    requires b >= 1
  {
    (a + b - 1) / b
  }

  lemma MoreTimes(q: int, p: int, b: int)
    requires q > p && b >= 1
    ensures q * b >= p * b + b
  {
    assert (q - p - 1) * b >= 0;
    assert q * b == p * b + b + (q - p - 1) * b;
  }

  lemma QuotientUnique(b: int, q: int, r: int, p: int, s: int)
    requires b >= 1 && q * b + r == p * b + s && 0 <= r < b && 0 <= s < b
    ensures q == p
  {
    if q > p {
      MoreTimes(q, p, b);
    } else if q < p {
      MoreTimes(p, q, b);
    }
  }

  lemma DivUnique(x: nat, b: nat, q: nat, r: nat)
    requires b >= 1 && x == q * b + r && r < b
    ensures x / b == q
  {
    var p, s := x / b, x % b;
    assert x == b * p + s;
    assert b * p == p * b;
    QuotientUnique(b, q, r, p, s);
  }

  lemma {:induction false} ChunkCount(payload: seq<byte>, blockSize: nat)
    requires blockSize >= 1
    ensures |Chunks(payload, blockSize)| == CeilDiv(|payload|, blockSize)
    decreases |payload|
  {
    var a, b := |payload|, blockSize;
    if payload == [] {
      DivUnique(b - 1, b, 0, b - 1);
    } else {
      var n := Min(b, a);
      ChunkCount(payload[n..], b);
      if a <= b {
        DivUnique(a + b - 1, b, 1, a - 1);
        DivUnique(b - 1, b, 0, b - 1);
      } else {
        var q, r := (a - b + b - 1) / b, (a - b + b - 1) % b;
        assert a + b - 1 == (q + 1) * b + r;
        DivUnique(a + b - 1, b, q + 1, r);
      }
    }
  }

  lemma {:induction false} WireOfChunks(payload: seq<byte>, blockSize: nat, crc: Checksum)
    requires Framable(payload, blockSize)
    ensures |Wire(payload, blockSize, crc)| == |payload| + HEADER_LENGTH * |Chunks(payload, blockSize)|
    decreases |payload|
  {
    if payload != [] {
      WireOfChunks(payload[Min(blockSize, |payload|)..], blockSize, crc);
    }
  }

  /** The wire of a payload is the payload and eight octets for each of its blocks. */
  lemma WireLength(payload: seq<byte>, blockSize: nat, crc: Checksum)
    requires Framable(payload, blockSize)
    ensures |Wire(payload, blockSize, crc)| == |payload| + HEADER_LENGTH * CeilDiv(|payload|, blockSize)
  {
    ChunkCount(payload, blockSize);
    WireOfChunks(payload, blockSize, crc);
  }

  // ---- The receiver ----

  datatype Status = Complete | Incomplete | Mismatch

  /** How receiving ends: the blocks that were accepted, and the octets not consumed by them. */
  datatype Received = Received(status: Status, blocks: seq<seq<byte>>, rest: seq<byte>)

  function Prepend(block: seq<byte>, r: Received): Received {
    r.(blocks := [block] + r.blocks)
  }

  datatype Block = Good(data: seq<byte>, rest: seq<byte>) | NoBlock(status: Status)

  /** The block at the front of the octets, with a matching checksum. */
  function NextBlock(input: seq<byte>, crc: Checksum): (b: Block)
    ensures b.Good? ==> |b.rest| < |input|
  {
    if |input| < HEADER_LENGTH then NoBlock(Incomplete)
    else
      var size, sum := Number(input[..4]), Number(input[4..8]);
      if |input| < HEADER_LENGTH + size then NoBlock(Incomplete)
      else
        var data := input[HEADER_LENGTH..HEADER_LENGTH + size];
        if crc(data) != sum then NoBlock(Mismatch) else Good(data, input[HEADER_LENGTH + size..])
  }

  /** The receiver on an octet stream that ends: blocks are taken until the target is reached. It terminates by the
      octets left, since an empty block brings it no nearer to the target. */
  function Receive(input: seq<byte>, target: int, crc: Checksum): Received
    decreases |input|
  {
    if target <= 0 then Received(Complete, [], input)
    else
      match NextBlock(input, crc)
      case NoBlock(status) => Received(status, [], input)
      case Good(data, rest) => Prepend(data, Receive(rest, target - |data|, crc))
  }

  lemma ReceiveStep(input: seq<byte>, target: int, crc: Checksum)
    requires target > 0
    ensures match NextBlock(input, crc)
            case NoBlock(status) => Receive(input, target, crc) == Received(status, [], input) && status != Complete
            case Good(data, rest) => Receive(input, target, crc) == Prepend(data, Receive(rest, target - |data|, crc))
  {
  }

  ghost function Total(blocks: seq<seq<byte>>): nat {
    if blocks == [] then 0 else |blocks[0]| + Total(blocks[1..])
  }

  ghost function Joined(blocks: seq<seq<byte>>): seq<byte> {
    if blocks == [] then [] else blocks[0] + Joined(blocks[1..])
  }

  ghost predicate Sendable(blocks: seq<seq<byte>>) {
    forall i :: 0 <= i < |blocks| ==> |blocks[i]| < LIMIT
  }

  /** The frames of some blocks, back to back. */
  ghost function Frames(blocks: seq<seq<byte>>, crc: Checksum): seq<byte>
    requires Sendable(blocks)
  {
    if blocks == [] then [] else Frame(blocks[0], crc) + Frames(blocks[1..], crc)
  }

  /** The blocks reach the target, and no fewer of them would. */
  ghost predicate JustReaches(blocks: seq<seq<byte>>, target: int) {
    if blocks == [] then target <= 0 else target > 0 && JustReaches(blocks[1..], target - |blocks[0]|)
  }

  lemma {:induction false} ReceiveFrames(target: int, crc: Checksum, blocks: seq<seq<byte>>, rest: seq<byte>)
    requires Sendable(blocks) && JustReaches(blocks, target)
    ensures Receive(Frames(blocks, crc) + rest, target, crc) == Received(Complete, blocks, rest)
    decreases |blocks|
  {
    if blocks == [] {
      assert [] + rest == rest;
    } else {
      var block, more := blocks[0], blocks[1..];
      Regroup(Frame(block, crc), Frames(more, crc), rest);
      FrameIsBlock(block, crc, Frames(more, crc) + rest);
      ReceiveFrames(target - |block|, crc, more, rest);
      assert [block] + more == blocks;
    }
  }

  /** The input is the frames of blocks that just reach the target, and a rest. */
  ghost predicate IsFrames(input: seq<byte>, target: int, crc: Checksum, r: Received) {
    Sendable(r.blocks) && JustReaches(r.blocks, target) && input == Frames(r.blocks, crc) + r.rest
  }

  lemma FramesGrow(input: seq<byte>, target: int, crc: Checksum, more: Received)
    requires target > 0 && NextBlock(input, crc).Good?
    requires var b := NextBlock(input, crc); IsFrames(b.rest, target - |b.data|, crc, more)
    ensures IsFrames(input, target, crc, Prepend(NextBlock(input, crc).data, more))
  {
    var data := NextBlock(input, crc).data;
    BlockIsFrame(input, crc);
    assert ([data] + more.blocks)[1..] == more.blocks;
    Regroup(Frame(data, crc), Frames(more.blocks, crc), more.rest);
  }

  lemma {:induction false} CompletedIsFrames(input: seq<byte>, target: int, crc: Checksum)
    requires Receive(input, target, crc).status == Complete
    ensures IsFrames(input, target, crc, Receive(input, target, crc))
    decreases |input|
  {
    if target <= 0 {
      assert [] + input == input;
    } else {
      ReceiveStep(input, target, crc);
      var next := NextBlock(input, crc);
      CompletedIsFrames(next.rest, target - |next.data|, crc);
      FramesGrow(input, target, crc, Receive(next.rest, target - |next.data|, crc));
    }
  }

  /** The receiver completes on an input exactly when the input is the frames of some blocks that just reach the target,
      and then those are the blocks it accepts; in particular every checksum it accepted matched. */
  lemma ReceiveExact(input: seq<byte>, target: int, crc: Checksum, blocks: seq<seq<byte>>, rest: seq<byte>)
    ensures Receive(input, target, crc) == Received(Complete, blocks, rest)
            <==> Sendable(blocks) && JustReaches(blocks, target) && input == Frames(blocks, crc) + rest
  {
    if Receive(input, target, crc) == Received(Complete, blocks, rest) {
      CompletedIsFrames(input, target, crc);
    }
    if Sendable(blocks) && JustReaches(blocks, target) && input == Frames(blocks, crc) + rest {
      ReceiveFrames(target, crc, blocks, rest);
    }
  }

  /** A frame at the front is read as its block. */
  lemma FrameIsBlock(data: seq<byte>, crc: Checksum, rest: seq<byte>)
    requires |data| < LIMIT
    ensures NextBlock(Frame(data, crc) + rest, crc) == Good(data, rest)
  {
    var input := Frame(data, crc) + rest;
    assert input[..4] == Octets(|data|, WORD) && input[4..8] == Octets(crc(data), WORD);
    NumberOctets(|data|, WORD);
    NumberOctets(crc(data), WORD);
    assert input[HEADER_LENGTH..HEADER_LENGTH + |data|] == data && input[HEADER_LENGTH + |data|..] == rest;
  }

  /** And only frames are read as blocks. */
  lemma BlockIsFrame(input: seq<byte>, crc: Checksum)
    requires NextBlock(input, crc).Good?
    ensures var b := NextBlock(input, crc); |b.data| < LIMIT && input == Frame(b.data, crc) + b.rest
  {
    var size := Number(input[..4]);
    OctetsNumber(input[..4]);
    OctetsNumber(input[4..8]);
    var data := input[HEADER_LENGTH..HEADER_LENGTH + size];
    assert input == input[..4] + input[4..8] + data + input[HEADER_LENGTH + size..];
  }

  /** What just reaching means: the target is reached, by less than the last block. */
  lemma {:induction false} OvershootBelowLast(blocks: seq<seq<byte>>, target: int)
    requires JustReaches(blocks, target)
    ensures Total(blocks) >= target
    ensures blocks != [] ==> Total(blocks) - target < |blocks[|blocks| - 1]|
  {
    if blocks != [] {
      OvershootBelowLast(blocks[1..], target - |blocks[0]|);
      if |blocks| > 1 {
        assert blocks[1..][|blocks| - 2] == blocks[|blocks| - 1];
      }
    }
  }

  // ---- The round trip ----

  lemma {:induction false} ChunksOfPayload(payload: seq<byte>, blockSize: nat, crc: Checksum)
    requires Framable(payload, blockSize)
    ensures var blocks := Chunks(payload, blockSize);
            && Sendable(blocks) && JustReaches(blocks, |payload|)
            && Joined(blocks) == payload && Frames(blocks, crc) == Wire(payload, blockSize, crc)
    decreases |payload|
  {
    if payload != [] {
      var n := Min(blockSize, |payload|);
      var blocks := Chunks(payload, blockSize);
      ChunksOfPayload(payload[n..], blockSize, crc);
      assert blocks[1..] == Chunks(payload[n..], blockSize);
      assert payload == payload[..n] + payload[n..];
    }
  }

  /** For every payload, block size and checksum, the receiver run on the sender's wire completes, consumes the wire
      exactly, and recovers the payload. */
  lemma RoundTrip(payload: seq<byte>, blockSize: nat, crc: Checksum, rest: seq<byte>)
    requires Framable(payload, blockSize)
    ensures var r := Receive(Wire(payload, blockSize, crc) + rest, |payload|, crc);
            r.status == Complete && Joined(r.blocks) == payload && r.rest == rest
  {
    ChunksOfPayload(payload, blockSize, crc);
    ReceiveExact(Wire(payload, blockSize, crc) + rest, |payload|, crc, Chunks(payload, blockSize), rest);
  }
}
