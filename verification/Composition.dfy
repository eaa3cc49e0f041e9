/** The composition of the server with a client of the program, conforming or shipped: what the two ends know of
    each other in every reachable state. */
module Composition {
  import opened Bytes
  import opened Auth
  import opened ServerStages
  import opened Handler
  import opened Session
  import opened SessionSafety

  /** What the proofs use of the decisions of the two programs. */
  ghost predicate Sound(cfg: Config) {
    && |cfg.request| > 22
    && (forall n :: 0 <= n <= |cfg.request| && cfg.parse(cfg.request[..n]).Found? ==> n > 22)
    && (forall i :: 22 <= i < |cfg.request| ==> cfg.request[i] != HAPPY[0])
    && (forall seen :: |cfg.answer(seen)| == 129)
    && (forall reply :: cfg.accepts(reply) ==> StartsWith(reply, HAPPY[..5]))
  }

  lemma SetupIsSound(server: ServerConfig, challenge: seq<byte>, clientKey: seq<byte>, kind: ClientKind)
    requires challenge != [] && forall b :: b in challenge ==> Plain(b)
    ensures Sound(Setup(server, challenge, clientKey, kind))
  {
    var cfg := Setup(server, challenge, clientKey, kind);
    forall n | 0 <= n <= |cfg.request| && cfg.parse(cfg.request[..n]).Found? ensures n > 22 {
      ParsePrefix(challenge, n);
    }
    forall i | 22 <= i < |cfg.request| ensures cfg.request[i] != HAPPY[0] {
      if i < |cfg.request| - 1 {
        assert cfg.request[i] == challenge[i - 22];
        assert Plain(challenge[i - 22]);
      }
    }
  }

  // ---- The invariant of the composition ----

  /** What the client has sent: nothing, its response, and then its preamble and PINGs. */
  ghost predicate UpShape(cfg: Config, w: World)
    requires w.peer.Client?
  {
    var np, sent := |w.peer.pings|, w.up.sent;
    || (sent == [] && np == 0)
    || (|sent| == 129 && np == 0)
    || (|sent| >= 129 && sent[129..] == Preamble(cfg.kind) + Repeat(PING, np))
  }

  ghost predicate Started(w: World)
    requires w.peer.Client?
  {
    w.peer.phase.Ticking? || w.peer.phase.AwaitingPong?
  }

  /** Where the client's reply octets begin: after the request and what its verdict read returned. */
  ghost function Base(cfg: Config, w: World): nat
    requires w.peer.Client?
  {
    |cfg.request| + w.peer.verdict
  }

  /** By where the client is: what it has sent, and what it has taken of the server's octets. */
  ghost predicate ClientAt(cfg: Config, w: World)
    requires w.peer.Client?
  {
    var c, np := w.peer, |w.peer.pings|;
    match c.phase
    case ReadingChallenge => w.up.sent == [] && w.down.taken == 0 && np == 0 && c.pongs == 0 && c.verdict == 0 &&
        c.lost == []
    case ReadingVerdict => |w.up.sent| == 129 && 22 < w.down.taken <= |cfg.request| && np == 0 && c.pongs == 0 &&
        c.verdict == 0 && c.lost == []
    case Starting =>
      && |w.up.sent| == 129 && np == 0 && c.pongs == 0 && c.lost == []
      && (c.verdict == 5 || c.verdict == 6) && w.server.verdict == HAPPY && w.down.taken == Base(cfg, w)
    case Ticking =>
      && |w.up.sent| >= 129 && w.up.sent[129..] == Preamble(cfg.kind) + Repeat(PING, np) && np == c.pongs &&
          c.lost == []
      && (c.verdict == 6 || (c.verdict == 5 && c.pongs == 0)) && w.server.verdict == HAPPY
      && w.down.taken == Base(cfg, w) + 5 * c.pongs
    case AwaitingPong(buf) =>
      && |w.up.sent| >= 129 && w.up.sent[129..] == Preamble(cfg.kind) + Repeat(PING, np) && np == c.pongs + 1 &&
          c.lost == []
      && (c.verdict == 6 || (c.verdict == 5 && c.pongs == 0)) && w.server.verdict == HAPPY
      && w.down.taken == Base(cfg, w) + 5 * c.pongs + |buf| && w.down.taken <= |w.down.sent|
      && w.down.sent[Base(cfg, w) + 5 * c.pongs..w.down.taken] == buf && NEWLINE !in buf
    case Ended(how) =>
      && (c.verdict == 6 ==> c.lost == [] && how != WrongReply)
      && (c.verdict == 5 ==> c.pongs == 0)
      && (c.verdict == 0 ==> np == 0 && c.pongs == 0 && c.lost == [])
      && (c.verdict == 0 || c.verdict == 5 || c.verdict == 6)
      && (how == WrongReply ==> c.verdict == 5)
  }

  /** PONGs accepted, PONGs sent and PINGs sent stay within one of each other. */
  ghost predicate Paired(w: World)
    requires w.peer.Client?
  {
    w.peer.pongs <= w.server.answered <= |w.peer.pings| <= w.peer.pongs + 1
  }

  ghost predicate Joint(cfg: Config, w: World) {
    && w.peer.Client?
    && UpShape(cfg, w) && ClientAt(cfg, w) && Paired(w)
  }

  lemma UpLength(cfg: Config, w: World)
    requires w.peer.Client? && UpShape(cfg, w)
    ensures |w.up.sent| <= 129 + |Preamble(cfg.kind)| + 5 * |w.peer.pings| <= 141 + 5 * |w.peer.pings|
  {
    assert |PING| == 5;
  }

  // ---- Steps of the server ----

  /** The client's side, what was written, and a verdict already given are not disturbed. */
  ghost predicate Undisturbed(w: World, w': World) {
    && w'.peer == w.peer && w'.now == w.now && w'.up.sent == w.up.sent && w'.up.fin == w.up.fin
    && w.down.sent <= w'.down.sent && w'.down.taken == w.down.taken
    && (w.server.verdict != [] ==> w'.server.verdict == w.server.verdict)
    && w.server.answered <= w'.server.answered <= w.server.answered + 1
  }

  lemma ResponseUndisturbed(cfg: Config, w: World, got: seq<byte>, ok: bool)
    requires w.server.verdict == []
    ensures var w' := OnResponse(cfg, w, got, ok); Undisturbed(w, w') && w'.server.answered == w.server.answered
  {
  }

  lemma LineUndisturbed(w: World, got: seq<byte>, ok: bool)
    ensures var w' := OnLine(w, got, ok);
            && Undisturbed(w, w') && w'.up == w.up
            && (w'.server.answered > w.server.answered ==>
                got == PING && w'.server.phase.InControl? && w'.server.since == w.now)
  {
  }

  /** A step of the control task leaves the client's side alone, appends to what it wrote, keeps a verdict it has
      given, and answers at most one more PING, which it has then read whole. */
  lemma ServerFrame(cfg: Config, w: World, a: ServerAct)
    requires Inv(cfg, w) && ServerEnabled(w, a)
    ensures var w' := ServerDo(cfg, w, a);
            && Undisturbed(w, w')
            && (w'.server.answered > w.server.answered ==>
                  w'.server.phase.InControl? && w'.up.taken == 141 + 5 * w'.server.answered && w'.server.since == w.now)
  {
    if a.ServerRead? {
      ReadFrame(cfg, w, a.n, a.ok);
    }
  }

  lemma ReadFrame(cfg: Config, w: World, n: nat, ok: bool)
    requires ServerEnabled(w, ServerRead(n, ok))
    requires w.server.phase.AwaitResponse? ==> w.server.verdict == []
    requires w.server.phase.InControl? ==> w.up.taken == 141 + 5 * w.server.answered + |w.server.phase.line|
    ensures var w' := OnRead(cfg, w.(up := Take(w.up, n)), Front(w.up, n), ok);
            && Undisturbed(w, w')
            && (w'.server.answered > w.server.answered ==>
                  w'.server.phase.InControl? && w'.up.taken == 141 + 5 * w'.server.answered && w'.server.since == w.now)
  {
    if w.server.phase.InControl? {
      LineFrame(cfg, w, n, ok);
    } else {
      StageFrame(cfg, w, n, ok);
    }
  }

  lemma LineFrame(cfg: Config, w: World, n: nat, ok: bool)
    requires ServerEnabled(w, ServerRead(n, ok)) && w.server.phase.InControl?
    requires w.up.taken == 141 + 5 * w.server.answered + |w.server.phase.line|
    ensures var w' := OnRead(cfg, w.(up := Take(w.up, n)), Front(w.up, n), ok);
            && Undisturbed(w, w')
            && (w'.server.answered > w.server.answered ==>
                  w'.server.phase.InControl? && w'.up.taken == 141 + 5 * w'.server.answered && w'.server.since == w.now)
  {
    LineUndisturbed(w.(up := Take(w.up, n)), w.server.phase.line + Front(w.up, n), ok);
  }

  lemma StageFrame(cfg: Config, w: World, n: nat, ok: bool)
    requires ServerEnabled(w, ServerRead(n, ok)) && !w.server.phase.InControl?
    requires w.server.phase.AwaitResponse? ==> w.server.verdict == []
    ensures var w' := OnRead(cfg, w.(up := Take(w.up, n)), Front(w.up, n), ok);
            Undisturbed(w, w') && w'.server.answered == w.server.answered
  {
    if w.server.phase.AwaitResponse? {
      ResponseUndisturbed(cfg, w.(up := Take(w.up, n)), w.server.phase.buf + Front(w.up, n), ok);
    }
  }

  lemma ServerKeepsJoint(cfg: Config, w: World, a: ServerAct)
    requires Inv(cfg, w) && Joint(cfg, w) && ServerEnabled(w, a)
    ensures Joint(cfg, ServerDo(cfg, w, a))
  {
    var w' := ServerDo(cfg, w, a);
    ServerFrame(cfg, w, a);
    ServerKeepsInv(cfg, w, a);
    UpLength(cfg, w);
    SliceStays(cfg, w, w');
  }

  lemma SliceStays(cfg: Config, w: World, w': World)
    requires w.peer.Client? && ClientAt(cfg, w) && w.peer == w'.peer && w'.up.sent == w.up.sent
    requires w.down.sent <= w'.down.sent && w'.down.taken == w.down.taken
    requires w.server.verdict != [] ==> w'.server.verdict == w.server.verdict
    ensures ClientAt(cfg, w')
  {
    if w.peer.phase.AwaitingPong? {
      var from, to := Base(cfg, w) + 5 * w.peer.pongs, w.down.taken;
      assert w'.down.sent[from..to] == w.down.sent[from..to];
    }
  }

  // ---- Steps of the client ----

  /** Before the client has sent anything, or only its response, the server has written no more than the request
      and a verdict. */
  lemma EarlyReplies(cfg: Config, w: World)
    requires Inv(cfg, w) && w.peer.Client?
    ensures |w.up.sent| < 141 ==> w.server.answered == 0
    ensures w.up.sent == [] ==> w.down.sent == [] || w.down.sent == cfg.request
    ensures |w.up.sent| < 141 && w.server.asked ==> w.down.sent == cfg.request + w.server.verdict
  {
    assert Repeat(PONG, 0) == [];
  }

  lemma ReadsChallenge(cfg: Config, w: World, n: nat)
    requires Sound(cfg) && Inv(cfg, w) && Joint(cfg, w) && PeerEnabled(w, ClientReadChallenge(n))
    ensures Joint(cfg, PeerDo(cfg, w, ClientReadChallenge(n)))
  {
    EarlyReplies(cfg, w);
    assert w.down.sent == cfg.request;
    assert Front(w.down, n) == cfg.request[..n];
  }

  lemma ReadsVerdict(cfg: Config, w: World, n: nat)
    requires Sound(cfg) && Inv(cfg, w) && Joint(cfg, w) && PeerEnabled(w, ClientReadVerdict(n))
    ensures Joint(cfg, PeerDo(cfg, w, ClientReadVerdict(n)))
  {
    EarlyReplies(cfg, w);
    var front := Front(w.down, n);
    if cfg.accepts(front) {
      assert front[0] == front[..5][0] == HAPPY[0];
      assert w.down.sent[w.down.taken] == front[0];
      assert w.down.taken >= |cfg.request|;
      assert |w.down.sent| >= |cfg.request| + 5;
      assert w.server.verdict == HAPPY;
    }
  }

  /** What follows p of a PONGs. */
  lemma PongsLeft(head: seq<byte>, a: nat, p: nat)
    requires p <= a <= p + 1
    ensures (head + Repeat(PONG, a))[|head| + 5 * p..] == if a == p then [] else PONG
  {
    var pongs := Repeat(PONG, a);
    assert (head + pongs)[|head| + 5 * p..] == pongs[5 * p..];
    RepeatPrefix(PONG, a, p);
    if a > p {
      assert pongs[5 * p..] == pongs[5 * p..5 * p + 5];
    }
  }

  lemma RequestAndVerdict(request: seq<byte>, pongs: seq<byte>)
    ensures (request + HAPPY + pongs)[|request| + 5] == NEWLINE
    ensures |request + HAPPY| == |request| + 6
  {
  }

  /** What is left of the server's octets after the accepted PONGs: when the verdict was read whole, nothing or
      exactly one PONG; when its newline was left behind, that newline first. */
  lemma Unread(cfg: Config, w: World)
    requires Wrote(cfg, w) && Joint(cfg, w) && Started(w)
    ensures Base(cfg, w) + 5 * w.peer.pongs <= |w.down.sent|
    ensures var rest := w.down.sent[Base(cfg, w) + 5 * w.peer.pongs..];
            && (w.peer.verdict == 6 ==> rest == if w.server.answered == w.peer.pongs then [] else PONG)
            && (w.peer.verdict == 5 ==> rest != [] && rest[0] == NEWLINE)
  {
    var a, p := w.server.answered, w.peer.pongs;
    assert w.down.sent == cfg.request + HAPPY + Repeat(PONG, a);
    RequestAndVerdict(cfg.request, Repeat(PONG, a));
    if w.peer.verdict == 6 {
      PongsLeft(cfg.request + HAPPY, a, p);
    }
  }

  lemma PongPrefix(got: seq<byte>)
    requires 1 <= |got| <= 5 && got == PONG[..|got|]
    ensures |got| < 5 ==> IndexOf(got, NEWLINE) == |got| && NEWLINE !in got
    ensures |got| == 5 ==> IndexOf(got, NEWLINE) == 4 && got[..5] == PONG && got[5..] == []
  {
    assert forall j :: 0 <= j < |got| ==> got[j] == PONG[j];
  }

  lemma NewlineFirst(got: seq<byte>)
    requires got != [] && got[0] == NEWLINE
    ensures IndexOf(got, NEWLINE) == 0 && got[..1] != PONG
  {
  }

  /** The client has taken the octets `got` after its accepted PONGs, and nothing else has changed. */
  ghost predicate HasRead(cfg: Config, w: World, w1: World, got: seq<byte>)
    requires w.peer.Client?
  {
    var from := Base(cfg, w) + 5 * w.peer.pongs;
    && w1 == w.(down := w1.down) && w1.down.sent == w.down.sent
    && w1.down.taken == from + |got| <= |w.down.sent| && got == w.down.sent[from..from + |got|]
  }

  lemma PartKeepsJoint(cfg: Config, w: World, w1: World, got: seq<byte>)
    requires Joint(cfg, w) && w.peer.phase.AwaitingPong? && HasRead(cfg, w, w1, got) && NEWLINE !in got
    ensures Joint(cfg, w1.(peer := w.peer.(phase := AwaitingPong(got))))
  {
  }

  lemma PongKeepsJoint(cfg: Config, w: World, w1: World)
    requires Joint(cfg, w) && w.peer.phase.AwaitingPong? && HasRead(cfg, w, w1, PONG)
    requires w.peer.verdict == 6 && w.server.answered == w.peer.pongs + 1
    ensures Joint(cfg, w1.(peer := w.peer.(phase := Ticking, pongs := w.peer.pongs + 1)))
  {
  }

  lemma WrongReplyKeepsJoint(cfg: Config, w: World, w1: World, got: seq<byte>, lost: seq<byte>)
    requires Joint(cfg, w) && w.peer.phase.AwaitingPong? && HasRead(cfg, w, w1, got) && w.peer.verdict == 5
    ensures Joint(cfg, EndClient(w1.(peer := w.peer.(lost := lost)), WrongReply))
  {
  }

  lemma OnReplyKeepsJoint(cfg: Config, w: World, w1: World, got: seq<byte>)
    requires Joint(cfg, w) && w.peer.phase.AwaitingPong? && HasRead(cfg, w, w1, got)
    requires w.peer.verdict == 6 ==> 1 <= |got| <= 5 && got == PONG[..|got|] && w.server.answered == w.peer.pongs + 1
    requires w.peer.verdict == 5 ==> got != [] && got[0] == NEWLINE
    ensures Joint(cfg, OnReply(w1, got))
  {
    if w.peer.verdict == 5 {
      NewlineFirst(got);
      WrongReplyKeepsJoint(cfg, w, w1, got, w.peer.lost + got[1..]);
    } else {
      PongPrefix(got);
      if |got| == 5 {
        assert got == got[..5] == PONG;
        assert w.peer.lost + got[5..] == w.peer.lost;
        PongKeepsJoint(cfg, w, w1);
      } else {
        PartKeepsJoint(cfg, w, w1, got);
      }
    }
  }

  /** What a reader holds after one more read. */
  lemma Got(p: Pipe, from: nat, buf: seq<byte>, n: nat)
    requires from <= p.taken && p.taken + n <= |p.sent| && buf == p.sent[from..p.taken]
    ensures var got := buf + Front(p, n);
            && p.taken + n == from + |got| && got == p.sent[from..from + |got|] == p.sent[from..][..|got|]
            && |got| <= |p.sent[from..]|
  {
    TakenGrows(p, n, from);
    SliceSuffix(p.sent, from, |buf| + n);
  }

  /** A client that awaits a PONG holds what follows its accepted PONGs. */
  lemma Holds(cfg: Config, w: World)
    requires Joint(cfg, w) && w.peer.phase.AwaitingPong?
    ensures var from := Base(cfg, w) + 5 * w.peer.pongs;
            from <= w.down.taken <= |w.down.sent| && w.peer.phase.buf == w.down.sent[from..w.down.taken]
    ensures Paired(w) && Started(w)
  {
  }

  /** What the client holds of the reply after one more read. */
  lemma ReplySoFar(cfg: Config, w: World, n: nat)
    requires PipeOk(w.down) && Wrote(cfg, w) && Joint(cfg, w) && PeerEnabled(w, ClientReadPong(n))
    ensures HasRead(cfg, w, w.(down := Take(w.down, n)), w.peer.phase.buf + Front(w.down, n))
  {
    Holds(cfg, w);
    Got(w.down, Base(cfg, w) + 5 * w.peer.pongs, w.peer.phase.buf, n);
  }

  lemma ReplyIsPong(cfg: Config, w: World, w1: World, got: seq<byte>)
    requires Wrote(cfg, w) && Joint(cfg, w) && w.peer.phase.AwaitingPong? && HasRead(cfg, w, w1, got) && got != []
    ensures w.peer.verdict == 6 ==> |got| <= 5 && got == PONG[..|got|] && w.server.answered == w.peer.pongs + 1
    ensures w.peer.verdict == 5 ==> got[0] == NEWLINE
  {
    Unread(cfg, w);
    var from := Base(cfg, w) + 5 * w.peer.pongs;
    SliceSuffix(w.down.sent, from, |got|);
    assert got == w.down.sent[from..][..|got|];
  }

  lemma ReadsPong(cfg: Config, w: World, n: nat)
    requires Inv(cfg, w) && Joint(cfg, w) && PeerEnabled(w, ClientReadPong(n))
    ensures Joint(cfg, PeerDo(cfg, w, ClientReadPong(n)))
  {
    var w1, got := w.(down := Take(w.down, n)), w.peer.phase.buf + Front(w.down, n);
    ReplySoFar(cfg, w, n);
    ReplyIsPong(cfg, w, w1, got);
    OnReplyKeepsJoint(cfg, w, w1, got);
  }

  lemma SendsPreamble(cfg: Config, w: World)
    requires Joint(cfg, w) && PeerEnabled(w, ClientStart)
    ensures Joint(cfg, PeerDo(cfg, w, ClientStart))
  {
    var preamble := Preamble(cfg.kind);
    assert (w.up.sent + preamble)[129..] == preamble + Repeat(PING, 0);
  }

  lemma SendsPing(cfg: Config, w: World)
    requires PipeOk(w.down) && Wrote(cfg, w) && Joint(cfg, w) && PeerEnabled(w, ClientPing)
    ensures Joint(cfg, PeerDo(cfg, w, ClientPing))
  {
    var np := |w.peer.pings|;
    OneMorePing(Preamble(cfg.kind), w.up.sent, np);
    Unread(cfg, w);
  }

  lemma OneMorePing(preamble: seq<byte>, sent: seq<byte>, n: nat)
    requires |sent| >= 129 && sent[129..] == preamble + Repeat(PING, n)
    ensures (sent + PING)[129..] == preamble + Repeat(PING, n + 1)
  {
    assert (sent + PING)[129..] == sent[129..] + PING;
    Regroup(preamble, Repeat(PING, n), PING);
  }

  lemma ClientKeepsJoint(cfg: Config, w: World, a: PeerAct)
    requires Sound(cfg) && Inv(cfg, w) && Joint(cfg, w) && PeerEnabled(w, a)
    ensures Joint(cfg, PeerDo(cfg, w, a))
  {
    match a {
      case ClientReadChallenge(n) => ReadsChallenge(cfg, w, n);
      case ClientReadVerdict(n) => ReadsVerdict(cfg, w, n);
      case ClientStart => SendsPreamble(cfg, w);
      case ClientPing => SendsPing(cfg, w);
      case ClientReadPong(n) => ReadsPong(cfg, w, n);
      case ClientTimeout =>
      case ClientLost =>
    }
  }

  lemma StepKeepsJoint(cfg: Config, w: World, a: Action)
    requires Sound(cfg) && Inv(cfg, w) && Joint(cfg, w) && Enabled(w, a)
    ensures Joint(cfg, Do(cfg, w, a))
  {
    match a {
      case Control(step) => ServerKeepsJoint(cfg, w, step);
      case Remote(move) => ClientKeepsJoint(cfg, w, move);
      case _ => SliceStays(cfg, w, Do(cfg, w, a));
    }
  }

  lemma {:induction false} RunKeepsJoint(cfg: Config, ws: seq<World>, acts: seq<Action>, i: nat)
    requires Sound(cfg) && IsRun(cfg, NEW_CLIENT, ws, acts) && i < |ws|
    ensures Inv(cfg, ws[i]) && Joint(cfg, ws[i])
  {
    RunKeepsInv(cfg, NEW_CLIENT, ws, acts, i);
    if i > 0 {
      RunKeepsJoint(cfg, ws, acts, i - 1);
      StepKeepsJoint(cfg, ws[i - 1], acts[i - 1]);
    }
  }
}
