/** Only a client with the key gets a port: in every run of the server with a client of the program, a bind is
    attempted only if what the client saw of the challenge, followed by its key, is the challenge followed by the
    server's key. */
module Entitled {
  import opened Bytes
  import opened Options
  import opened Auth
  import opened PortSpecs
  import opened Handler
  import opened Session
  import opened SessionSafety
  import opened Composition
  import opened StageOrder

  /** The client answered what it found in the first n octets of the request. */
  ghost predicate AnswersAt(cfg: Config, sent: seq<byte>, n: nat) {
    && n <= |cfg.request| && cfg.parse(cfg.request[..n]).Found? && |sent| >= 129
    && sent[..129] == cfg.answer(cfg.parse(cfg.request[..n]).challenge)
  }

  ghost predicate Answers(cfg: Config, w: World) {
    w.up.sent == [] || exists n: nat :: AnswersAt(cfg, w.up.sent, n)
  }

  lemma MoreKeepsAnswer(cfg: Config, w: World, w': World)
    requires Answers(cfg, w) && w.up.sent <= w'.up.sent && (w.up.sent == [] ==> w'.up.sent == [])
    ensures Answers(cfg, w')
  {
    if w.up.sent != [] {
      var n: nat :| AnswersAt(cfg, w.up.sent, n);
      assert w'.up.sent[..129] == w.up.sent[..129];
      assert AnswersAt(cfg, w'.up.sent, n);
    }
  }

  lemma ReadAnswers(cfg: Config, w: World, n: nat)
    requires Inv(cfg, w) && Joint(cfg, w) && PeerEnabled(w, ClientReadChallenge(n))
    requires forall c :: |cfg.answer(c)| == 129
    ensures Answers(cfg, PeerDo(cfg, w, ClientReadChallenge(n)))
  {
    EarlyReplies(cfg, w);
    assert w.down.sent == cfg.request && Front(w.down, n) == cfg.request[..n];
    var parsed := cfg.parse(cfg.request[..n]);
    if parsed.Found? {
      var sent := [] + cfg.answer(parsed.challenge);
      assert sent[..129] == cfg.answer(parsed.challenge);
      assert AnswersAt(cfg, sent, n);
    }
  }

  lemma PeerKeepsAnswer(cfg: Config, w: World, a: PeerAct)
    requires Inv(cfg, w) && Joint(cfg, w) && PeerEnabled(w, a) && Answers(cfg, w)
    requires forall c :: |cfg.answer(c)| == 129
    ensures Answers(cfg, PeerDo(cfg, w, a))
  {
    if a.ClientReadChallenge? {
      ReadAnswers(cfg, w, a.n);
    } else {
      PeerFrame(cfg, w, a);
      SomethingSent(cfg, w, a);
      MoreKeepsAnswer(cfg, w, PeerDo(cfg, w, a));
    }
  }

  lemma SomethingSent(cfg: Config, w: World, a: PeerAct)
    requires Joint(cfg, w) && PeerEnabled(w, a) && !a.ClientReadChallenge?
    ensures w.up.sent == [] ==> PeerDo(cfg, w, a).up.sent == []
  {
  }

  lemma StepKeepsAnswer(cfg: Config, w: World, a: Action)
    requires Sound(cfg) && Inv(cfg, w) && Joint(cfg, w) && Enabled(w, a) && Answers(cfg, w)
    ensures Answers(cfg, Do(cfg, w, a))
  {
    match a {
      case Remote(move) => PeerKeepsAnswer(cfg, w, move);
      case Control(step) =>
        ServerFrame(cfg, w, step);
        MoreKeepsAnswer(cfg, w, Do(cfg, w, a));
      case _ => MoreKeepsAnswer(cfg, w, Do(cfg, w, a));
    }
  }

  lemma {:induction false} RunAnswers(cfg: Config, ws: seq<World>, acts: seq<Action>, i: nat)
    requires Sound(cfg) && IsRun(cfg, NEW_CLIENT, ws, acts) && i < |ws|
    ensures Answers(cfg, ws[i])
  {
    if i > 0 {
      RunAnswers(cfg, ws, acts, i - 1);
      RunKeepsJoint(cfg, ws, acts, i - 1);
      StepKeepsAnswer(cfg, ws[i - 1], acts[i - 1]);
    }
  }

  /** The digests that can be compared in a session do not collide. */
  ghost predicate Collisionless(hash: Hash, challenge: seq<byte>, clientKey: seq<byte>, key: seq<byte>) {
    forall j :: 0 <= j <= |challenge| ==> NoCollision(hash, challenge[..j] + clientKey, challenge + key)
  }

  /** What the client found of the challenge, with its key, is the challenge with the server's key. */
  ghost predicate Knows(challenge: seq<byte>, clientKey: seq<byte>, key: seq<byte>, j: nat) {
    j <= |challenge| && challenge[..j] + clientKey == challenge + key
  }

  lemma AdmittedKnows(server: ServerConfig, challenge: seq<byte>, clientKey: seq<byte>, kind: ClientKind, w: World,
                      port: u16)
    requires challenge != [] && forall b :: b in challenge ==> Plain(b)
    requires Collisionless(server.hash, challenge, clientKey, server.psk)
    requires Answers(Setup(server, challenge, clientKey, kind), w) && Admits(server, challenge, w.up.sent, port)
    ensures exists j: nat :: Knows(challenge, clientKey, server.psk, j)
  {
    var cfg, sent := Setup(server, challenge, clientKey, kind), w.up.sent;
    var n: nat :| AnswersAt(cfg, sent, n);
    var j := FoundPart(challenge, n);
    assert sent[..129] == Expected(server.hash, challenge[..j], clientKey) + [NEWLINE];
    assert sent[..128] == sent[..129][..128] == Expected(server.hash, challenge[..j], clientKey);
    SameInput(server.hash, challenge[..j], clientKey, challenge, server.psk);
    assert Knows(challenge, clientKey, server.psk, j);
  }

  lemma FoundPart(challenge: seq<byte>, n: nat) returns (j: nat)
    requires forall b :: b in challenge ==> Plain(b)
    requires n <= |Request(challenge)| && ParseRequest(Request(challenge)[..n]).Found?
    ensures j <= |challenge| && ParseRequest(Request(challenge)[..n]) == Found(challenge[..j])
  {
    ParsePrefix(challenge, n);
    j := Min(n - PROMPT_LENGTH - 1, |challenge|);
  }

  lemma SameInput(hash: Hash, seen: seq<byte>, clientKey: seq<byte>, challenge: seq<byte>, key: seq<byte>)
    requires Expected(hash, seen, clientKey) == Expected(hash, challenge, key)
    requires NoCollision(hash, seen + clientKey, challenge + key)
    ensures seen + clientKey == challenge + key
  {
    HexInjective(hash(seen + clientKey), hash(challenge + key));
  }

  /** In every run with a client of the program, whatever its key, a bind is attempted only if the client knows the key
      in this sense; with a key that is not longer than the server's, only if it is the server's. */
  lemma BindNeedsKey(server: ServerConfig, challenge: seq<byte>, clientKey: seq<byte>, kind: ClientKind,
                     ws: seq<World>, acts: seq<Action>, i: nat)
    requires challenge != [] && forall b :: b in challenge ==> Plain(b)
    requires Collisionless(server.hash, challenge, clientKey, server.psk)
    requires IsRun(Setup(server, challenge, clientKey, kind), NEW_CLIENT, ws, acts) && i < |ws|
    ensures ws[i].server.bind.Some? ==> exists j: nat :: Knows(challenge, clientKey, server.psk, j)
    ensures ws[i].server.bind.Some? && |clientKey| <= |server.psk| ==> clientKey == server.psk
  {
    var cfg := Setup(server, challenge, clientKey, kind);
    SetupIsSound(server, challenge, clientKey, kind);
    RunAnswers(cfg, ws, acts, i);
    BindOnlyWhenAdmitted(server, challenge, clientKey, kind, NEW_CLIENT, ws, acts, i);
    if ws[i].server.bind.Some? {
      AdmittedKnows(server, challenge, clientKey, kind, ws[i], ws[i].server.bind.value);
      var j: nat :| Knows(challenge, clientKey, server.psk, j);
      if |clientKey| <= |server.psk| {
        SameKey(challenge, clientKey, server.psk, j);
      }
    }
  }

  lemma SameKey(challenge: seq<byte>, clientKey: seq<byte>, key: seq<byte>, j: nat)
    requires Knows(challenge, clientKey, key, j) && |clientKey| <= |key|
    ensures clientKey == key
  {
    var a, b := challenge[..j] + clientKey, challenge + key;
    assert |a| == |b|;
    assert a[j..] == clientKey && b[j..] == key;
  }
}
