/** The receiver of the stress test on any stream, by the octets of the stream: the layout of a frame, when a block is
    corrupt or cut short, and in which of the three ways receiving ends (utils/connection_stress_test.py:213-236). */
module Streams {
  import opened Bytes
  import opened Blocks

  // ---- Frames and chunks ----

  /** A big-endian number of 32 bits. */
  function BigEndian(s: seq<byte>, i: nat): int
    requires i + 4 <= |s|
  {
    0x100_0000 * (s[i] as int) + 0x1_0000 * (s[i + 1] as int) + 0x100 * (s[i + 2] as int) + s[i + 3]
  }

  lemma FourOctets(n: nat)
    requires n < LIMIT
    ensures Octets(n, WORD) == [n / 0x100_0000, n / 0x1_0000 % 0x100, n / 0x100 % 0x100, n % 0x100]
  {
    var b, c, d := n / 0x100, n / 0x1_0000, n / 0x100_0000;
    assert b / 0x100 == c && c / 0x100 == d && d / 0x100 == 0 && d % 0x100 == d;
    assert Octets(d / 0x100, 0) == [];
    assert Octets(d, 1) == [d];
    assert Octets(c, 2) == [d, c % 0x100];
    assert Octets(b, 3) == [d, c % 0x100, b % 0x100];
    assert Octets(n, 4) == [d, c % 0x100, b % 0x100, n % 0x100];
  }

  lemma BigEndianOctets(n: nat)
    requires n < LIMIT
    ensures BigEndian(Octets(n, WORD), 0) == n
  {
    FourOctets(n);
    var b, c := n / 0x100, n / 0x1_0000;
    assert n == 0x100 * b + n % 0x100;
    assert b == 0x100 * c + b % 0x100 by { assert b / 0x100 == c; }
    assert c == 0x100 * (n / 0x100_0000) + c % 0x100 by { assert c / 0x100 == n / 0x100_0000; }
  }

  /** A frame is the length and the checksum, each most significant octet first, and the data. */
  lemma FrameLayout(data: seq<byte>, crc: Checksum)
    requires |data| < LIMIT
    ensures var f := Frame(data, crc);
            |f| == 8 + |data| && BigEndian(f, 0) == |data| && BigEndian(f, 4) == crc(data) && f[8..] == data
  {
    var f, length, sum := Frame(data, crc), Octets(|data|, WORD), Octets(crc(data), WORD);
    BigEndianOctets(|data|);
    BigEndianOctets(crc(data));
    assert forall i :: 0 <= i < 4 ==> f[i] == length[i] && f[4 + i] == sum[i];
  }

  /** Every chunk but the last has the block size, and the last is not longer. */
  lemma {:induction false} ChunksFull(payload: seq<byte>, blockSize: nat, i: nat)
    requires blockSize >= 1 && i < |Chunks(payload, blockSize)|
    ensures var size := |Chunks(payload, blockSize)[i]|;
            1 <= size <= blockSize && (i < |Chunks(payload, blockSize)| - 1 ==> size == blockSize)
    decreases |payload|
  {
    var n := Min(blockSize, |payload|);
    var more := Chunks(payload[n..], blockSize);
    assert Chunks(payload, blockSize) == [payload[..n]] + more;
    if i > 0 {
      ChunksFull(payload[n..], blockSize, i - 1);
    } else if n == |payload| {
      assert payload[n..] == [];
    }
  }

  lemma {:induction false} TotalOfInit(blocks: seq<seq<byte>>)
    requires blocks != []
    ensures Total(blocks) == Total(blocks[..|blocks| - 1]) + |blocks[|blocks| - 1]|
  {
    if |blocks| == 1 {
      assert blocks[..0] == [] && blocks[1..] == [];
    } else {
      TotalOfInit(blocks[1..]);
      var init := blocks[..|blocks| - 1];
      assert blocks[1..][..|blocks| - 2] == init[1..];
      assert blocks[1..][|blocks| - 2] == blocks[|blocks| - 1];
    }
  }

  /** Blocks just reach a target when all of them together reach it, and without the last they do not. */
  lemma {:induction false} JustReachesExact(blocks: seq<seq<byte>>, target: int)
    ensures JustReaches(blocks, target)
            <==> Total(blocks) >= target && (blocks != [] ==> Total(blocks[..|blocks| - 1]) < target)
  {
    if blocks != [] {
      JustReachesExact(blocks[1..], target - |blocks[0]|);
      var init := blocks[..|blocks| - 1];
      if |blocks| > 1 {
        assert blocks[1..][..|blocks| - 2] == init[1..];
      } else {
        assert init == [];
      }
    }
  }

  // ---- Blocks that are not accepted ----

  /** A whole block, with a checksum that is not that of its data. */
  ghost predicate Corrupt(s: seq<byte>, data: seq<byte>, sum: nat, rest: seq<byte>, crc: Checksum) {
    && |data| < LIMIT && sum < LIMIT && crc(data) != sum
    && s == Octets(|data|, WORD) + Octets(sum, WORD) + data + rest
  }

  ghost predicate IsCorrupt(s: seq<byte>, crc: Checksum) {
    exists data, sum, rest :: Corrupt(s, data, sum, rest, crc)
  }

  /** A header with less data than it announces. */
  ghost predicate CutShort(s: seq<byte>, size: nat, sum: nat, data: seq<byte>) {
    size < LIMIT && sum < LIMIT && |data| < size && s == Octets(size, WORD) + Octets(sum, WORD) + data
  }

  /** The stream ends in the middle of a block, or where one would begin. */
  ghost predicate IsCut(s: seq<byte>) {
    |s| < HEADER_LENGTH || exists size, sum, data :: CutShort(s, size, sum, data)
  }

  /** The first eight octets of a stream, as a header. */
  lemma HeaderOf(s: seq<byte>)
    requires |s| >= HEADER_LENGTH
    ensures var size, sum := Number(s[..4]), Number(s[4..8]);
            size < LIMIT && sum < LIMIT && s == Octets(size, WORD) + Octets(sum, WORD) + s[HEADER_LENGTH..]
  {
    OctetsNumber(s[..4]);
    OctetsNumber(s[4..8]);
    assert Power(4) == LIMIT;
    assert s == s[..4] + s[4..8] + s[HEADER_LENGTH..];
  }

  lemma HeaderIs(size: nat, sum: nat, more: seq<byte>)
    requires size < LIMIT && sum < LIMIT
    ensures var s := Octets(size, WORD) + Octets(sum, WORD) + more;
            |s| >= HEADER_LENGTH && Number(s[..4]) == size && Number(s[4..8]) == sum && s[HEADER_LENGTH..] == more
  {
    var s := Octets(size, WORD) + Octets(sum, WORD) + more;
    assert s[..4] == Octets(size, WORD) && s[4..8] == Octets(sum, WORD);
    NumberOctets(size, WORD);
    NumberOctets(sum, WORD);
  }

  lemma NextOf(s: seq<byte>, size: nat, sum: nat, more: seq<byte>, crc: Checksum)
    requires size < LIMIT && sum < LIMIT && s == Octets(size, WORD) + Octets(sum, WORD) + more
    ensures NextBlock(s, crc) == if |more| < size then NoBlock(Incomplete)
                                 else if crc(more[..size]) != sum then NoBlock(Mismatch)
                                 else Good(more[..size], more[size..])
  {
    HeaderIs(size, sum, more);
    if |more| >= size {
      assert s[HEADER_LENGTH..HEADER_LENGTH + size] == more[..size] && s[HEADER_LENGTH + size..] == more[size..];
    }
  }

  /** The next block mismatches exactly when it is corrupt. */
  lemma NextMismatches(s: seq<byte>, crc: Checksum)
    ensures NextBlock(s, crc) == NoBlock(Mismatch) <==> IsCorrupt(s, crc)
  {
    forall data, sum, rest | Corrupt(s, data, sum, rest, crc) ensures NextBlock(s, crc) == NoBlock(Mismatch) {
      Regroup(Octets(|data|, WORD) + Octets(sum, WORD), data, rest);
      assert (data + rest)[..|data|] == data;
      NextOf(s, |data|, sum, data + rest, crc);
    }
    if NextBlock(s, crc) == NoBlock(Mismatch) {
      var size, sum, more := Number(s[..4]), Number(s[4..8]), s[HEADER_LENGTH..];
      HeaderOf(s);
      NextOf(s, size, sum, more, crc);
      assert more == more[..size] + more[size..];
      Regroup(Octets(size, WORD) + Octets(sum, WORD), more[..size], more[size..]);
      assert Corrupt(s, more[..size], sum, more[size..], crc);
    }
  }

  /** The next block is incomplete exactly when the stream ends in it. */
  lemma NextIncomplete(s: seq<byte>, crc: Checksum)
    ensures NextBlock(s, crc) == NoBlock(Incomplete) <==> IsCut(s)
  {
    forall size, sum, data | CutShort(s, size, sum, data) ensures NextBlock(s, crc) == NoBlock(Incomplete) {
      NextOf(s, size, sum, data, crc);
    }
    if |s| >= HEADER_LENGTH && NextBlock(s, crc) == NoBlock(Incomplete) {
      var size, sum, more := Number(s[..4]), Number(s[4..8]), s[HEADER_LENGTH..];
      HeaderOf(s);
      NextOf(s, size, sum, more, crc);
      assert CutShort(s, size, sum, more);
    }
  }

  // ---- How receiving ends ----

  /** Frames of blocks that do not reach the target, and then something else. */
  ghost predicate ComesTo(input: seq<byte>, target: int, crc: Checksum, blocks: seq<seq<byte>>, tail: seq<byte>) {
    Sendable(blocks) && Total(blocks) < target && input == Frames(blocks, crc) + tail
  }

  lemma ReceiveFrame(block: seq<byte>, next: seq<byte>, target: int, left: int, crc: Checksum)
    requires |block| < LIMIT && target > 0 && left == target - |block|
    ensures Receive(Frame(block, crc) + next, target, crc) == Prepend(block, Receive(next, left, crc))
  {
    FrameIsBlock(block, crc, next);
    ReceiveStep(Frame(block, crc) + next, target, crc);
  }

  lemma FirstComesOff(input: seq<byte>, target: int, crc: Checksum, blocks: seq<seq<byte>>, tail: seq<byte>)
    returns (next: seq<byte>)
    requires ComesTo(input, target, crc, blocks, tail) && blocks != []
    ensures input == Frame(blocks[0], crc) + next
    ensures ComesTo(next, target - |blocks[0]|, crc, blocks[1..], tail)
  {
    next := Frames(blocks[1..], crc) + tail;
    Regroup(Frame(blocks[0], crc), Frames(blocks[1..], crc), tail);
  }

  lemma {:induction false} StopsAt(input: seq<byte>, target: int, crc: Checksum, blocks: seq<seq<byte>>,
                                   tail: seq<byte>)
    requires ComesTo(input, target, crc, blocks, tail) && NextBlock(tail, crc).NoBlock?
    ensures Receive(input, target, crc) == Received(NextBlock(tail, crc).status, blocks, tail)
    decreases |blocks|
  {
    if blocks == [] {
      assert input == tail;
      ReceiveStep(input, target, crc);
    } else {
      var block, left := blocks[0], target - |blocks[0]|;
      var next := FirstComesOff(input, target, crc, blocks, tail);
      ReceiveFrame(block, next, target, left, crc);
      StopsAt(next, left, crc, blocks[1..], tail);
      assert [block] + blocks[1..] == blocks;
    }
  }

  /** Receiving has stopped after some frames, at something that is no good block. */
  ghost predicate Stopped(input: seq<byte>, target: int, crc: Checksum, r: Received) {
    ComesTo(input, target, crc, r.blocks, r.rest) && NextBlock(r.rest, crc) == NoBlock(r.status)
  }

  lemma OneBlockMore(input: seq<byte>, target: int, crc: Checksum, r: Received)
    requires NextBlock(input, crc).Good?
    requires var b := NextBlock(input, crc); Stopped(b.rest, target - |b.data|, crc, r)
    ensures Stopped(input, target, crc, Prepend(NextBlock(input, crc).data, r))
  {
    var data := NextBlock(input, crc).data;
    BlockIsFrame(input, crc);
    assert ([data] + r.blocks)[1..] == r.blocks;
    Regroup(Frame(data, crc), Frames(r.blocks, crc), r.rest);
  }

  lemma StopsAtOnce(input: seq<byte>, target: int, crc: Checksum)
    requires target > 0 && NextBlock(input, crc).NoBlock?
    ensures Stopped(input, target, crc, Received(NextBlock(input, crc).status, [], input))
  {
    assert [] + input == input;
  }

  lemma {:induction false} StoppedAt(input: seq<byte>, target: int, crc: Checksum)
    requires Receive(input, target, crc).status != Complete
    ensures Stopped(input, target, crc, Receive(input, target, crc))
    decreases |input|
  {
    ReceiveStep(input, target, crc);
    var next := NextBlock(input, crc);
    if next.NoBlock? {
      StopsAtOnce(input, target, crc);
    } else {
      var left := target - |next.data|;
      StoppedAt(next.rest, left, crc);
      OneBlockMore(input, target, crc, Receive(next.rest, left, crc));
    }
  }

  /** The stream comes to a corrupt block before the target is reached. */
  ghost predicate MeetsCorruption(input: seq<byte>, target: int, crc: Checksum) {
    exists blocks, tail :: ComesTo(input, target, crc, blocks, tail) && IsCorrupt(tail, crc)
  }

  ghost predicate MeetsCut(input: seq<byte>, target: int, crc: Checksum) {
    exists blocks, tail :: ComesTo(input, target, crc, blocks, tail) && IsCut(tail)
  }

  /** Receiving ends with a mismatch exactly when the stream is frames that do not reach the target and then a block
      whose checksum is wrong; it ends incomplete exactly when the stream ends in the middle of, or right before, the
      block after such frames. The blocks accepted are those of the frames. */
  lemma FailuresExact(input: seq<byte>, target: int, crc: Checksum)
    ensures Receive(input, target, crc).status == Mismatch <==> MeetsCorruption(input, target, crc)
    ensures Receive(input, target, crc).status == Incomplete <==> MeetsCut(input, target, crc)
    ensures forall blocks, tail ::
              ComesTo(input, target, crc, blocks, tail) && (IsCorrupt(tail, crc) || IsCut(tail)) ==>
                Receive(input, target, crc).blocks == blocks && Receive(input, target, crc).rest == tail
  {
    forall blocks, tail | ComesTo(input, target, crc, blocks, tail) && (IsCorrupt(tail, crc) || IsCut(tail))
      ensures Receive(input, target, crc)
              == Received(if IsCorrupt(tail, crc) then Mismatch else Incomplete, blocks, tail)
      ensures IsCorrupt(tail, crc) ==> !IsCut(tail)
    {
      NextMismatches(tail, crc);
      NextIncomplete(tail, crc);
      StopsAt(input, target, crc, blocks, tail);
    }
    if Receive(input, target, crc).status != Complete {
      StoppedAt(input, target, crc);
      NextMismatches(Receive(input, target, crc).rest, crc);
      NextIncomplete(Receive(input, target, crc).rest, crc);
    }
  }

  lemma MismatchExact(input: seq<byte>, target: int, crc: Checksum)
    ensures Receive(input, target, crc).status == Mismatch <==> MeetsCorruption(input, target, crc)
  {
    FailuresExact(input, target, crc);
  }
}
