/** The shipped client never sends the configuration message, so its sessions never get past configuration. */
module Shipped {
  import opened Bytes
  import opened Auth
  import opened Handler
  import opened Session
  import opened SessionSafety
  import opened Composition
  import L = Listeners

  /** Not past the reading of the configuration header. */
  ghost predicate BeforeValidation(w: World) {
    && w.server.bind.None?
    && match w.server.phase {
         case Opening => true
         case AwaitResponse(_) => true
         case AwaitHeader(_) => true
         case Finished(Failed(reason)) =>
           reason == FailedAuthentication || reason == AuthenticationTimedOut || reason == FailedConfiguration ||
               reason == ConfigurationTimedOut
         case _ => false
       }
  }

  /** Until a PONG reaches it, the shipped client has written its response and at most one PING. */
  lemma AtMostOnePing(cfg: Config, w: World)
    requires cfg.kind == Shipped && Inv(cfg, w) && Joint(cfg, w) && w.server.bind.None?
    ensures |w.up.sent| <= 134 && w.peer.pongs == 0
  {
    UpLength(cfg, w);
  }

  lemma StepStaysBefore(cfg: Config, w: World, a: Action)
    requires cfg.kind == Shipped && Inv(cfg, w) && Joint(cfg, w) && BeforeValidation(w) && Enabled(w, a)
    ensures BeforeValidation(Do(cfg, w, a))
  {
    AtMostOnePing(cfg, w);
    match a {
      case Control(step) => ServerStaysBefore(cfg, w, step);
      case Remote(move) => PeerFrame(cfg, w, move);
      case _ =>
    }
  }

  lemma ServerStaysBefore(cfg: Config, w: World, a: ServerAct)
    requires Inv(cfg, w) && |w.up.sent| <= 134 && BeforeValidation(w) && ServerEnabled(w, a)
    ensures BeforeValidation(ServerDo(cfg, w, a))
  {
    if a.ServerRead? && w.server.phase.AwaitHeader? {
      assert |w.server.phase.buf + Front(w.up, a.n)| <= 5;
    }
  }

  lemma NextStaysBefore(cfg: Config, ws: seq<World>, acts: seq<Action>, i: nat)
    requires Sound(cfg) && cfg.kind == Shipped && IsRun(cfg, NEW_CLIENT, ws, acts) && i < |acts|
    requires BeforeValidation(ws[i])
    ensures BeforeValidation(ws[i + 1])
  {
    var w, next, a := ws[i], ws[i + 1], acts[i];
    RunKeepsJoint(cfg, ws, acts, i);
    assert Enabled(w, a) && next == Do(cfg, w, a);
    StepStaysBefore(cfg, w, a);
  }

  lemma {:induction false} RunStaysBefore(cfg: Config, ws: seq<World>, acts: seq<Action>, i: nat)
    requires Sound(cfg) && cfg.kind == Shipped && IsRun(cfg, NEW_CLIENT, ws, acts) && i < |ws|
    ensures BeforeValidation(ws[i])
  {
    if i > 0 {
      RunStaysBefore(cfg, ws, acts, i - 1);
      NextStaysBefore(cfg, ws, acts, i - 1);
    }
  }

  /** For every chunking, schedule, timing and pair of keys, the server serving a shipped client never reaches the
      validation of a port: no bind is attempted, no listener exists, and a session that has ended ended in
      authentication or in configuration. The server waits for ten octets; the client writes at most five after
      its response until it sees a PONG. */
  lemma NeverValidated(server: ServerConfig, challenge: seq<byte>, clientKey: seq<byte>, ws: seq<World>,
                       acts: seq<Action>, i: nat)
    requires challenge != [] && forall b :: b in challenge ==> Plain(b)
    requires IsRun(Setup(server, challenge, clientKey, Shipped), NEW_CLIENT, ws, acts) && i < |ws|
    ensures BeforeValidation(ws[i]) && ws[i].listener == L.IDLE
    ensures |ws[i].up.sent| <= 134 && ws[i].peer.Client? && ws[i].peer.pongs == 0
  {
    var cfg := Setup(server, challenge, clientKey, Shipped);
    SetupIsSound(server, challenge, clientKey, Shipped);
    RunStaysBefore(cfg, ws, acts, i);
    RunKeepsJoint(cfg, ws, acts, i);
    AtMostOnePing(cfg, ws[i]);
  }
}
