/** The sender and receiver loops of the stress test, with the global statistics they update
    (utils/connection_stress_test.py). */
module Transfers {
  import opened Bytes
  import opened Blocks
  import opened Streams
  import Decimal

  /** A connection id: the prefix, and a number from 1 on. */
  ghost predicate IsId(id: string, prefix: string, n: int) {
    n >= 1 && id == prefix + Decimal.Print(n)
  }

  /** The module's global variables, and the ids handed out so far for prefixes that do not end in a digit. */
  class Globals {
    var up: nat
    var down: nat
    var connections: nat
    var errorOccurred: bool
    ghost var issued: set<string>

    constructor ()
      ensures up == down == connections == 0 && !errorOccurred && issued == {} && Valid()
    {
      up, down, connections, errorOccurred, issued := 0, 0, 0, false, {};
    }

    /** Every id was made of such a prefix and a number up to the counter. */
    ghost predicate Valid()
      reads this
    {
      forall id <- issued :: exists prefix, n :: IsId(id, prefix, n) && n <= connections && !EndsInDigit(prefix)
    }

    /** An id that was never handed out before, provided that no prefix ends in a digit; the only prefix in use is
        "L". */
    method NewConnectionId(prefix: string) returns (id: string)
      requires Valid()
      modifies this`connections, this`issued
      ensures Valid() && connections == old(connections) + 1 && IsId(id, prefix, connections)
      ensures if EndsInDigit(prefix) then issued == old(issued) else id !in old(issued) && issued == old(issued) + {id}
    {
      connections := connections + 1;
      id := prefix + Decimal.Print(connections);
      if !EndsInDigit(prefix) {
        forall other <- issued ensures other != id {
          var p, n :| IsId(other, p, n) && n < connections && !EndsInDigit(p);
          Differs(other, p, n, id, prefix, connections);
        }
        issued := issued + {id};
        assert IsId(id, prefix, connections);
      }
    }
  }

  predicate EndsInDigit(s: string) {
    s != "" && Decimal.IsDigit(s[|s| - 1])
  }

  /** With prefixes that do not end in a digit an id tells its prefix and its number. */
  lemma IdUnique(p: string, m: nat, q: string, n: nat)
    requires !EndsInDigit(p) && !EndsInDigit(q) && p + Decimal.Print(m) == q + Decimal.Print(n)
    ensures p == q && m == n
  {
    var a, b := Decimal.Print(m), Decimal.Print(n);
    SamePrefix(p, a, q, b);
    assert (p + a)[|p|..] == a && (q + b)[|q|..] == b;
    assert (p + a)[..|p|] == p && (q + b)[..|q|] == q;
    Decimal.PrintInjective(m, n);
  }

  lemma Differs(id: string, p: string, m: int, other: string, q: string, n: int)
    requires IsId(id, p, m) && IsId(other, q, n) && !EndsInDigit(p) && !EndsInDigit(q) && m != n
    ensures id != other
  {
    if id == other {
      IdUnique(p, m, q, n);
    }
  }

  lemma SamePrefix(p: string, a: string, q: string, b: string)
    requires !EndsInDigit(p) && !EndsInDigit(q) && p + a == q + b && Decimal.AllDigits(a) && Decimal.AllDigits(b)
    ensures |p| == |q|
  {
    var s := p + a;
    assert forall i :: |p| <= i < |s| ==> s[i] == a[i - |p|];
    assert forall i :: |q| <= i < |s| ==> s[i] == b[i - |q|];
    assert p != "" ==> s[|p| - 1] == p[|p| - 1];
    assert q != "" ==> s[|q| - 1] == q[|q| - 1];
  }

  /** A prefix that ends in a digit can repeat an id. */
  lemma DigitPrefixRepeats()
    ensures EndsInDigit("L1") && "L1" + Decimal.Print(2) == "L" + Decimal.Print(12)
  {
  }

  /** The writing end of a connection: what was written, how many more drains succeed, and whether it was ended. */
  class Writer {
    var sent: seq<byte>
    var drains: nat
    var ended: bool

    constructor (drains: nat)
      ensures sent == [] && this.drains == drains && !ended
    {
      sent, this.drains, ended := [], drains, false;
    }

    /** Hands octets to the transport. */
    method Write(data: seq<byte>)
      modifies this`sent
      ensures sent == old(sent) + data
    {
      sent := sent + data;
    }

    /** Waits until the transport takes more; this may fail. */
    method Drain() returns (ok: bool)
      modifies this`drains
      ensures ok <==> old(drains) > 0
      ensures drains == if ok then old(drains) - 1 else 0
    {
      ok := drains > 0;
      if ok {
        drains := drains - 1;
      }
    }
  }

  class Reader {
    var incoming: seq<byte>

    constructor (incoming: seq<byte>)
      ensures this.incoming == incoming
    {
      this.incoming := incoming;
    }

    /** `readexactly`: all the octets asked for, or an error when the stream ends before. */
    method ReadExactly(n: nat) returns (ok: bool, data: seq<byte>)
      modifies this`incoming
      ensures ok <==> |old(incoming)| >= n
      ensures ok ==> data == old(incoming)[..n] && incoming == old(incoming)[n..]
      ensures !ok ==> incoming == []
    {
      ok := |incoming| >= n;
      if ok {
        data, incoming := incoming[..n], incoming[n..];
      } else {
        data, incoming := [], [];
      }
    }
  }

  datatype SendResult = AllSent | RandomFailed | PackFailed | DrainFailed

  /** The wire of what is left is the frame of the next block and the wire of the rest. */
  lemma WireStep(left: seq<byte>, blockSize: int, crc: Checksum, after: seq<byte>, n: nat)
    requires left != [] && Framable(left, blockSize) && n == Min(blockSize, |left|)
    ensures 1 <= n < LIMIT && n <= |left| && Framable(left[n..], blockSize)
    ensures after + Wire(left, blockSize, crc) == after + Frame(left[..n], crc) + Wire(left[n..], blockSize, crc)
  {
    Regroup(after, Frame(left[..n], crc), Wire(left[n..], blockSize, crc));
  }

  /** What has been written, and the wire of what is left of the payload if it can be framed. */
  ghost function WithWire(sofar: seq<byte>, left: seq<byte>, blockSize: int, crc: Checksum): seq<byte> {
    if Framable(left, blockSize) then sofar + Wire(left, blockSize, crc) else sofar
  }

  /** The same octets end up on the wire, whether a later or an earlier moment is looked at. */
  ghost predicate SameWire(goal: seq<byte>, sofar: seq<byte>, payload: seq<byte>, sent: nat, blockSize: int,
                           crc: Checksum) {
    sent <= |payload| && goal == WithWire(sofar, payload[sent..], blockSize, crc)
  }

  /** How many blocks there are after the octets already sent. */
  ghost function BlocksLeft(payload: seq<byte>, sent: nat, blockSize: int): nat
    requires sent <= |payload|
  {
    if blockSize >= 1 then |Chunks(payload[sent..], blockSize)| else 0
  }

  /** Why the next block cannot be sent: a negative size makes the random source fail, and a block of 2^32 octets or
      more cannot be packed. */
  function Fault(left: nat, blockSize: int): SendResult {
    if left > 0 && blockSize < 0 then RandomFailed
    else if Min(blockSize, left) >= LIMIT then PackFailed
    else AllSent
  }

  /** A block that can be sent leaves only blocks that can be sent. */
  lemma FaultFirst(total: nat, left: nat, blockSize: int)
    requires left <= total && Fault(total, blockSize) == AllSent
    ensures Fault(left, blockSize) == AllSent
  {
  }

  /** The frames of n empty blocks. */
  ghost function EmptyFrames(n: nat, crc: Checksum): seq<byte> {
    if n == 0 then [] else EmptyFrames(n - 1, crc) + Frame([], crc)
  }

  /** What there is to send, on a connection in what state. */
  datatype Task = Task(payload: seq<byte>, blockSize: int, crc: Checksum, start: seq<byte>, drains: nat)

  /** The output when `done` octets have been counted: the wire of what has been put and of what is left is the whole
      wire, and each counted block took a drain. A block written ahead of its drain is put and not counted. With a
      block size of zero the blocks are empty; with a negative one nothing is written. */
  ghost predicate Underway(t: Task, sofar: seq<byte>, drains: nat, done: nat, ahead: bool) {
    done <= |t.payload| &&
    if t.blockSize >= 1 then
      var put := if ahead then done + Min(t.blockSize, |t.payload| - done) else done;
      && SameWire(WithWire(t.start, t.payload, t.blockSize, t.crc), sofar, t.payload, put, t.blockSize, t.crc)
      && drains + BlocksLeft(t.payload, 0, t.blockSize) == t.drains + BlocksLeft(t.payload, done, t.blockSize)
    else if t.blockSize == 0 then
      && done == 0 && drains <= t.drains
      && sofar == t.start + EmptyFrames(t.drains - drains + if ahead then 1 else 0, t.crc)
    else
      done == 0 && sofar == t.start && drains == t.drains
  }

  lemma NothingDone(t: Task)
    ensures Underway(t, t.start, t.drains, 0, false)
  {
    assert t.payload[0..] == t.payload && t.start + [] == t.start;
  }

  /** What a written block does to the output, before and after its drain. */
  ghost predicate Grows(t: Task, after: seq<byte>, drains: nat, done: nat, next: nat) {
    && Underway(t, after, drains, done, true)
    && (drains > 0 ==> Underway(t, after, drains - 1, next, false))
  }

  lemma BlockWritten(t: Task, sofar: seq<byte>, drains: nat, done: nat, next: nat)
    requires Underway(t, sofar, drains, done, false) && t.blockSize >= 0
    requires done < |t.payload| && done <= next <= |t.payload| &&
             next - done == Min(t.blockSize, |t.payload| - done) < LIMIT
    ensures Grows(t, sofar + Frame(t.payload[done..next], t.crc), drains, done, next)
  {
    if t.blockSize == 0 {
      EmptyBlockWritten(t, sofar, drains);
    } else {
      FullBlockWritten(t, sofar, drains, done, next);
    }
  }

  lemma FullBlockWritten(t: Task, sofar: seq<byte>, drains: nat, done: nat, next: nat)
    requires Underway(t, sofar, drains, done, false) && t.blockSize >= 1
    requires done < next <= |t.payload| && next - done == Min(t.blockSize, |t.payload| - done) < LIMIT
    ensures Grows(t, sofar + Frame(t.payload[done..next], t.crc), drains, done, next)
  {
    var goal := WithWire(t.start, t.payload, t.blockSize, t.crc);
    SameWireStep(goal, sofar, t.payload, done, next, t.blockSize, t.crc);
  }

  lemma EmptyBlockWritten(t: Task, sofar: seq<byte>, drains: nat)
    requires Underway(t, sofar, drains, 0, false) && t.blockSize == 0 && t.payload != []
    ensures Grows(t, sofar + Frame(t.payload[0..0], t.crc), drains, 0, 0)
  {
    assert t.payload[0..0] == [];
    OneMoreEmpty(t.start, t.crc, t.drains - drains);
  }

  lemma OneMoreEmpty(start: seq<byte>, crc: Checksum, n: nat)
    ensures start + EmptyFrames(n + 1, crc) == start + EmptyFrames(n, crc) + Frame([], crc)
  {
    Regroup(start, EmptyFrames(n, crc), Frame([], crc));
  }

  lemma SameWireStep(goal: seq<byte>, sofar: seq<byte>, payload: seq<byte>, done: nat, next: nat, blockSize: nat,
                     crc: Checksum)
    requires SameWire(goal, sofar, payload, done, blockSize, crc) && blockSize >= 1
    requires done < next <= |payload| && next - done == Min(blockSize, |payload| - done) < LIMIT
    ensures SameWire(goal, sofar + Frame(payload[done..next], crc), payload, next, blockSize, crc)
    ensures BlocksLeft(payload, done, blockSize) == BlocksLeft(payload, next, blockSize) + 1
  {
    var n := next - done;
    SliceSuffix(payload, done, n);
    WireStep(payload[done..], blockSize, crc, sofar, n);
  }

  /** Sends a payload of random octets in blocks. On success its whole wire has been written and the direction ended.
      A drain that fails is the first that could not succeed; what has been written is then one block ahead of what
      has been counted. A payload that cannot be framed is refused before anything is written. With a block size of
      zero and something to send, empty frames are written until a drain fails. (A negative total is an empty
      payload.) */
  method SendBlocks(g: Globals, out: Writer, payload: seq<byte>, blockSize: int, crc: Checksum)
    returns (r: SendResult, ghost done: nat)
    modifies g`up, g`errorOccurred, out
    ensures Underway(Task(payload, blockSize, crc, old(out.sent), old(out.drains)), out.sent, out.drains, done,
            r == DrainFailed)
    ensures g.up == old(g.up) + done && g.errorOccurred == (old(g.errorOccurred) || r == RandomFailed)
    ensures out.ended == (old(out.ended) || r == AllSent)
    ensures Stops(r, |payload|, blockSize, done) && (r == DrainFailed ==> out.drains == 0)
    ensures r == RandomFailed <==> payload != [] && blockSize < 0
    ensures r == PackFailed <==> |payload| >= LIMIT && blockSize >= LIMIT
  {
    r, done := SendUntilStopped(g, out, payload, blockSize, crc);
    if r == AllSent {
      out.ended := true;
    }
  }

  /** How a sender stops: it has sent everything, a drain has failed, or the first block could not be made. */
  ghost predicate Stops(r: SendResult, total: nat, blockSize: int, done: nat) {
    match r
    case AllSent => done == total && Fault(total, blockSize) == AllSent
    case DrainFailed => done < total && Fault(total, blockSize) == AllSent
    case _ => done == 0 && r == Fault(total, blockSize)
  }

  /** The loop, up to the point where it ends or an error is raised. */
  method SendUntilStopped(g: Globals, out: Writer, payload: seq<byte>, blockSize: int, crc: Checksum)
    returns (r: SendResult, ghost done: nat)
    modifies g`up, g`errorOccurred, out`sent, out`drains
    ensures Underway(Task(payload, blockSize, crc, old(out.sent), old(out.drains)), out.sent, out.drains, done,
                     r == DrainFailed)
    ensures g.up == old(g.up) + done && g.errorOccurred == (old(g.errorOccurred) || r == RandomFailed)
    ensures Stops(r, |payload|, blockSize, done) && (r == DrainFailed ==> out.drains == 0)
  {
    var total, sent: nat := |payload|, 0;
    ghost var t := Task(payload, blockSize, crc, out.sent, out.drains);
    NothingDone(t);
    while sent < total
      invariant sent <= total && Underway(t, out.sent, out.drains, sent, false)
      invariant g.up == old(g.up) + sent && g.errorOccurred == old(g.errorOccurred)
      invariant sent == 0 || Fault(total, blockSize) == AllSent
      decreases total - sent, out.drains
    {
      var left := total - sent;
      if sent > 0 {
        FaultFirst(total, left, blockSize);
      }
      var current := Min(blockSize, left);
      var next := sent + current;
      var step := SendOne(g, out, payload, sent, current, crc, blockSize, left, next, t);
      if step != AllSent {
        return step, sent;
      }
      sent := next;
    }
    return AllSent, sent;
  }

  /** One turn of the loop: the next block is written, and counted once the drain has succeeded. */
  method SendOne(g: Globals, out: Writer, payload: seq<byte>, sent: nat, current: int, crc: Checksum,
                 ghost blockSize: int, ghost left: nat, ghost next: int, ghost t: Task)
    returns (step: SendResult)
    requires t.payload == payload && t.crc == crc && t.blockSize == blockSize
    requires left == |payload| - sent > 0 && current == Min(blockSize, left) && next == sent + current
    requires Underway(t, out.sent, out.drains, sent, false)
    modifies g`up, g`errorOccurred, out`sent, out`drains
    ensures if Fault(left, blockSize) == AllSent then step == AllSent || step == DrainFailed
            else step == Fault(left, blockSize)
    ensures step == AllSent ==> current >= 0 && g.up == old(g.up) + current && out.drains < old(out.drains)
    ensures step != AllSent ==> g.up == old(g.up)
    ensures step == AllSent ==> next >= 0 && Underway(t, out.sent, out.drains, next, false)
    ensures step != AllSent ==> Underway(t, out.sent, out.drains, sent, step == DrainFailed)
    ensures step == DrainFailed ==> out.drains == 0
    ensures g.errorOccurred == (old(g.errorOccurred) || step == RandomFailed)
  {
    if current < 0 {
      g.errorOccurred := true;
      return RandomFailed;
    }
    if current >= LIMIT {
      return PackFailed;
    }
    var ok := WriteBlock(out, payload[sent..sent + current], crc, sent, next, t);
    if !ok {
      return DrainFailed;
    }
    g.up := g.up + current;
    return AllSent;
  }

  /** Writes a block and waits for the drain. */
  method WriteBlock(out: Writer, data: seq<byte>, crc: Checksum, ghost sent: nat, ghost next: nat, ghost t: Task)
    returns (ok: bool)
    requires t.crc == crc && sent < |t.payload| && sent <= next <= |t.payload| && data == t.payload[sent..next]
    requires next - sent == Min(t.blockSize, |t.payload| - sent) < LIMIT
    requires Underway(t, out.sent, out.drains, sent, false)
    modifies out`sent, out`drains
    ensures ok ==> Underway(t, out.sent, out.drains, next, false) && out.drains < old(out.drains)
    ensures !ok ==> Underway(t, out.sent, out.drains, sent, true) && out.drains == 0
  {
    BlockWritten(t, out.sent, out.drains, sent, next);
    out.Write(Frame(data, crc));
    ok := out.Drain();
  }

  /** Reads the header and the data of one block and compares the checksums. */
  method ReadBlock(reader: Reader, crc: Checksum) returns (b: Block)
    modifies reader
    ensures b == NextBlock(old(reader.incoming), crc)
    ensures b.Good? ==> reader.incoming == b.rest
  {
    ghost var input := reader.incoming;
    var ok, header := reader.ReadExactly(HEADER_LENGTH);
    if !ok { return NoBlock(Incomplete); }
    var size, expected := Number(header[..4]), Number(header[4..8]);
    assert header[..4] == input[..4] && header[4..8] == input[4..8];
    var ok2, data := reader.ReadExactly(size);
    if !ok2 { return NoBlock(Incomplete); }
    assert data == input[HEADER_LENGTH..HEADER_LENGTH + size];
    if crc(data) != expected { return NoBlock(Mismatch); }
    return Good(data, reader.incoming);
  }

  /** Receives blocks until `total` octets have come. Status, accepted blocks and unread octets are those of
      `Receive`; the global count grows by exactly the accepted blocks; a wrong checksum raises the error flag. */
  method ReceiveBlocks(g: Globals, reader: Reader, total: int, crc: Checksum) returns (r: Status)
    modifies g`down, g`errorOccurred, reader
    ensures var spec := Receive(old(reader.incoming), total, crc);
            && r == spec.status
            && g.down == old(g.down) + Total(spec.blocks)
            && (r == Complete ==> reader.incoming == spec.rest)
    ensures r == Mismatch <==> MeetsCorruption(old(reader.incoming), total, crc)
    ensures g.errorOccurred == (old(g.errorOccurred) || r == Mismatch)
  {
    MismatchExact(reader.incoming, total, crc);
    var received: nat := 0;
    ghost var spec := Receive(reader.incoming, total, crc);
    while received < total
      invariant Remains(spec, received, total, reader.incoming, crc)
      invariant g.down == old(g.down) + received && g.errorOccurred == old(g.errorOccurred)
      decreases |reader.incoming|
    {
      var block := ReceiveOne(g, reader, received, total, crc, spec);
      if block.NoBlock? {
        return block.status;
      }
      received := received + |block.data|;
    }
    NothingRemains(spec, received, total, reader.incoming, crc);
    return Complete;
  }

  /** One turn of the loop, and what it leaves of the receiver's work. */
  method ReceiveOne(g: Globals, reader: Reader, ghost received: nat, ghost total: int, crc: Checksum,
                    ghost spec: Received)
    returns (block: Block)
    requires received < total && Remains(spec, received, total, reader.incoming, crc)
    modifies g`down, g`errorOccurred, reader
    ensures After(spec, received, total, block, crc)
    ensures block.Good? ==> reader.incoming == block.rest && |block.rest| < |old(reader.incoming)|
    ensures g.down == old(g.down) + if block.Good? then |block.data| else 0
    ensures g.errorOccurred == (old(g.errorOccurred) || block == NoBlock(Mismatch))
  {
    StepRemains(spec, received, total, reader.incoming, crc);
    block := ReadBlock(reader, crc);
    if block == NoBlock(Mismatch) {
      g.errorOccurred := true;
    } else if block.Good? {
      g.down := g.down + |block.data|;
    }
  }

  /** After `received` octets of accepted blocks, what is left to do is to receive the rest. */
  ghost predicate Remains(spec: Received, received: nat, total: int, input: seq<byte>, crc: Checksum) {
    var todo := Receive(input, total - received, crc);
    spec.status == todo.status && spec.rest == todo.rest && Total(spec.blocks) == received + Total(todo.blocks)
  }

  lemma NothingRemains(spec: Received, received: nat, total: int, input: seq<byte>, crc: Checksum)
    requires Remains(spec, received, total, input, crc) && received >= total
    ensures spec.status == Complete && spec.rest == input && Total(spec.blocks) == received
  {
  }

  /** After the next block there is nothing left to do, or to receive the rest. */
  ghost predicate After(spec: Received, received: nat, total: int, block: Block, crc: Checksum) {
    match block
    case NoBlock(status) => spec.status == status != Complete && Total(spec.blocks) == received
    case Good(data, rest) => Remains(spec, received + |data|, total, rest, crc)
  }

  lemma StepRemains(spec: Received, received: nat, total: int, input: seq<byte>, crc: Checksum)
    requires received < total && Remains(spec, received, total, input, crc)
    ensures After(spec, received, total, NextBlock(input, crc), crc)
  {
    ReceiveStep(input, total - received, crc);
    match NextBlock(input, crc)
    case NoBlock(_) =>
    case Good(data, rest) =>
      var more := Receive(rest, total - received - |data|, crc);
      assert total - (received + |data|) == total - received - |data|;
      assert Prepend(data, more).blocks[1..] == more.blocks;
  }
}
