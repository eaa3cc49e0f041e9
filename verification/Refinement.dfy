/** The session machine runs the handler. When a session is over, what it has written, the port it tried to bind, how
    its loop ended and why it closed the connection are those of the handler's specification on the octets it has
    taken. So the independence of chunk boundaries holds of the concurrent machine, too. */
module Refinement {
  import opened Bytes
  import opened Options
  import opened Channels
  import opened PortSpecs
  import opened Auth
  import opened ServerStages
  import opened Handler
  import opened Session
  import opened SessionSafety

  ghost function DecisionsOf(cfg: Config): Decisions {
    Decisions(cfg.request, cfg.judge, cfg.allows)
  }

  /** The octets the control task has taken. */
  ghost function TakenOctets(w: World): seq<byte>
    requires w.up.taken <= |w.up.sent|
  {
    w.up.sent[..w.up.taken]
  }

  /** The handler has been refused, or has left its control loop. */
  ghost predicate Over(w: World) {
    w.server.exit.Some? || (w.server.phase.Finished? && w.server.phase.result.Failed?)
  }

  ghost function Reason(w: World): CloseReason {
    if w.server.phase.Finished? && w.server.phase.result.Failed? then w.server.phase.result.reason else NormalShutdown
  }

  /** The handler run of which the session is one, and how it looks from outside. */
  ghost predicate Explains(cfg: Config, w: World, host: Host, ending: Ending, writable: nat) {
    && w.up.taken <= |w.up.sent|
    && var run := HandlerSpec(DecisionsOf(cfg), host, TakenOctets(w), ending, writable);
       && run.outcome == Report(Reason(w), w.server.bind, w.server.exit)
       && run.effect.replies == w.down.sent && run.effect.used == w.up.taken
  }

  ghost predicate Explained(cfg: Config, w: World) {
    exists host, ending, writable :: Explains(cfg, w, host, ending, writable)
  }

  // ---- The handler on octets that end where the session ended ----

  lemma AllPings(n: nat)
    ensures LeadingPings(Repeat(PING, n)) == n
  {
    var input := Repeat(PING, n);
    assert input[..5 * n] == input && input[5 * n..] == [];
    LeadingPingsExact(input, n);
  }

  lemma PongFails(input: seq<byte>, n: nat, ending: Ending)
    requires input == Repeat(PING, n + 1)
    ensures ControlSpec(input, ending, n) == Stage(PongFailed, Effect(Repeat(PONG, n), 5 * n + 5, n))
  {
    AllPings(n + 1);
  }

  /** A session that was admitted goes on with the bind. */
  lemma AdmittedRun(cfg: Config, host: Host, input: seq<byte>, port: u16, ending: Ending, writable: nat, left: nat,
                    run: Stage<Report>)
    requires Admitted(cfg, input, port) && host.opening == Opens && writable == left + 2
    requires run == ListeningSpec(port, host, input[141..], ending, left)
    ensures HandlerSpec(DecisionsOf(cfg), host, input, ending, writable)
            == Stage(run.outcome, Effect(cfg.request + HAPPY + run.effect.replies, 141 + run.effect.used,
                                         2 + run.effect.writes))
  {
    SplitAdmitted(input);
    PortGranted(DecisionsOf(cfg), host, input, ending, writable, left, port, run);
  }

  lemma SplitAdmitted(input: seq<byte>)
    requires |input| >= 141
    ensures var rest := input[129..]; rest[..10] == input[129..139] && rest[12..] == input[141..]
  {
  }

  // ---- Sessions refused before the bind ----

  lemma OpeningFailed(cfg: Config, host: Host, w: World)
    requires host.opening == Fails || host.opening == Hangs
    requires w.up.taken == 0 && w.down.sent == [] && w.server.bind.None? && w.server.exit.None?
    requires Reason(w) == if host.opening == Hangs then AuthenticationTimedOut else FailedAuthentication
    ensures Explains(cfg, w, host, Silent, 0)
  {
  }

  const WELL: Host := Host(Opens, true, true)

  /** The response did not come whole. */
  lemma ResponseCut(d: Decisions, input: seq<byte>, ending: Ending)
    requires |input| < RESPONSE_LENGTH
    ensures HandlerSpec(d, WELL, input, ending, 1)
            == Stage(Report(if ending == Silent then AuthenticationTimedOut else FailedAuthentication, None, None),
                     Effect(d.request, |input|, 1))
  {
  }

  /** The response was refused, or the verdict could not be written. */
  lemma ResponseRefused(d: Decisions, input: seq<byte>, writable: nat)
    requires |input| == RESPONSE_LENGTH && 1 <= writable <= 2 && (d.judge(input) == Happy ==> writable == 1)
    ensures HandlerSpec(d, WELL, input, Silent, writable)
            == Stage(Report(FailedAuthentication, None, None),
                     if d.judge(input) == Bad && writable == 2 then Effect(d.request + BAD, RESPONSE_LENGTH, 2)
                     else Effect(d.request, RESPONSE_LENGTH, 1))
  {
    assert input[..RESPONSE_LENGTH] == input;
  }

  /** The configuration did not come whole. */
  lemma ConfigurationCut(d: Decisions, rest: seq<byte>, ending: Ending)
    requires |rest| < 10 || (|rest| < 12 && rest[..10] == LISTENPORT)
    ensures ConfiguredSpec(d, WELL, rest, ending, 0)
            == Stage(Report(if ending == Silent then ConfigurationTimedOut else FailedConfiguration, None, None),
                     Effect([], |rest|, 0))
  {
    ListenPortIsText();
  }

  /** The configuration was refused. */
  lemma ConfigurationRefused(d: Decisions, rest: seq<byte>)
    requires |rest| == 10 ==> rest != LISTENPORT
    requires |rest| == 12 ==> rest[..10] == LISTENPORT && !d.allows(FromBigEndian(rest[10], rest[11]))
    requires |rest| == 10 || |rest| == 12
    ensures ConfiguredSpec(d, WELL, rest, Silent, 0)
            == Stage(Report(if |rest| == 10 then FailedConfiguration else PortNotAllowed, None, None),
                Effect([], |rest|, 0))
  {
    ListenPortIsText();
    assert |rest| == 10 ==> rest[..10] == rest;
  }

  lemma VerifiedRun(cfg: Config, w: World, ending: Ending)
    requires w.up.taken <= |w.up.sent| && Verified(cfg, TakenOctets(w)) && w.down.sent == cfg.request + HAPPY
    requires ConfiguredSpec(DecisionsOf(cfg), WELL, w.up.sent[129..w.up.taken], ending, 0)
             == Stage(Report(Reason(w), w.server.bind, w.server.exit), Effect([], w.up.taken - 129, 0))
    ensures Explains(cfg, w, WELL, ending, 2)
  {
    var d, input := DecisionsOf(cfg), TakenOctets(w);
    assert input[129..] == w.up.sent[129..w.up.taken];
    AfterHappy(d, WELL, input, ending, 2, 0);
    assert cfg.request + HAPPY + [] == cfg.request + HAPPY;
  }

  /** How the stream looks to a stage that ends with this step. */
  ghost function EndingOf(a: ServerAct): Ending {
    match a
    case ServerEof => Fin
    case ServerFault => Broken
    case _ => Silent
  }

  ghost predicate IsCut(a: ServerAct) {
    a.ServerEof? || a.ServerFault? || a.ServerTimeout?
  }

  lemma OpeningExplained(cfg: Config, w: World, a: ServerAct)
    requires Inv(cfg, w) && w.server.phase.Opening? && (a == ServerOpen(false) || a.ServerTimeout?)
    requires ServerEnabled(w, a)
    ensures Explained(cfg, ServerDo(cfg, w, a))
  {
    assert w.down.sent == [] + [] + Repeat(PONG, 0) == [];
    var host := Host(if a.ServerTimeout? then Hangs else Fails, true, true);
    OpeningFailed(cfg, host, ServerDo(cfg, w, a));
  }

  lemma ResponseCutExplained(cfg: Config, w: World, a: ServerAct)
    requires Inv(cfg, w) && w.server.phase.AwaitResponse? && IsCut(a) && ServerEnabled(w, a)
    ensures Explained(cfg, ServerDo(cfg, w, a))
  {
    assert w.down.sent == cfg.request by { assert cfg.request + [] + Repeat(PONG, 0) == cfg.request; }
    ResponseCut(DecisionsOf(cfg), TakenOctets(w), EndingOf(a));
    assert Explains(cfg, ServerDo(cfg, w, a), WELL, EndingOf(a), 1);
  }

  lemma ResponseExplained(cfg: Config, w: World, got: seq<byte>, ok: bool)
    requires Rest(cfg, w) && w.server.phase.AwaitResponse? && w.up.taken == |got| == 129 && TakenOctets(w) == got
    requires cfg.judge(got) != Happy || !ok
    ensures Explained(cfg, OnResponse(cfg, w, got, ok))
  {
    assert w.down.sent == cfg.request by { assert cfg.request + [] + Repeat(PONG, 0) == cfg.request; }
    var writable := if ok then 2 else 1;
    ResponseRefused(DecisionsOf(cfg), got, writable);
    assert Explains(cfg, OnResponse(cfg, w, got, ok), WELL, Silent, writable);
  }

  /** What the server has written while it is being configured. */
  lemma Greeted(cfg: Config, w: World)
    requires Wrote(cfg, w) && w.server.asked && w.server.verdict == HAPPY && w.server.answered == 0
    ensures w.down.sent == cfg.request + HAPPY
  {
    assert cfg.request + HAPPY + Repeat(PONG, 0) == cfg.request + HAPPY;
  }

  lemma VerifiedPrefix(cfg: Config, bytes: seq<byte>, n: nat)
    requires Verified(cfg, bytes) && 129 <= n <= |bytes|
    ensures Verified(cfg, bytes[..n])
  {
    assert bytes[..n][..129] == bytes[..129];
  }

  lemma ConfigurationCutExplained(cfg: Config, w: World, a: ServerAct)
    requires Inv(cfg, w) && (w.server.phase.AwaitHeader? || w.server.phase.AwaitPort?) && IsCut(a) &&
             ServerEnabled(w, a)
    ensures Explained(cfg, ServerDo(cfg, w, a))
  {
    var w', rest := ServerDo(cfg, w, a), w.up.sent[129..w.up.taken];
    Greeted(cfg, w);
    VerifiedPrefix(cfg, w.up.sent, w.up.taken);
    assert w.up.taken >= 139 ==> rest[..10] == w.up.sent[129..139];
    ConfigurationCut(DecisionsOf(cfg), rest, EndingOf(a));
    VerifiedRun(cfg, w', EndingOf(a));
  }

  lemma HeaderExplained(cfg: Config, w: World, got: seq<byte>)
    requires Rest(cfg, w) && w.server.phase.AwaitHeader? && Verified(cfg, w.up.sent)
    requires w.up.taken == 139 && w.up.sent[129..139] == got != LISTENPORT
    ensures Explained(cfg, OnHeader(w, got))
  {
    Greeted(cfg, w);
    VerifiedPrefix(cfg, w.up.sent, 139);
    ConfigurationRefused(DecisionsOf(cfg), got);
    VerifiedRun(cfg, OnHeader(w, got), Silent);
  }

  lemma PortExplained(cfg: Config, w: World)
    requires Rest(cfg, w) && w.server.phase.AwaitPort? && Verified(cfg, w.up.sent) && Headed(w.up.sent) &&
             w.up.taken == 141
    requires !cfg.allows(FromBigEndian(w.up.sent[139], w.up.sent[140]))
    ensures Explained(cfg, OnPort(cfg, w, w.up.sent[139], w.up.sent[140]))
  {
    var rest := w.up.sent[129..141];
    assert rest[..10] == w.up.sent[129..139] && rest[10] == w.up.sent[139] && rest[11] == w.up.sent[140];
    Greeted(cfg, w);
    VerifiedPrefix(cfg, w.up.sent, 141);
    ConfigurationRefused(DecisionsOf(cfg), rest);
    VerifiedRun(cfg, OnPort(cfg, w, w.up.sent[139], w.up.sent[140]), Silent);
  }

  // ---- Sessions that got as far as the bind ----

  lemma AdmittedPrefix(cfg: Config, bytes: seq<byte>, n: nat, port: u16)
    requires Admitted(cfg, bytes, port) && 141 <= n <= |bytes|
    ensures Admitted(cfg, bytes[..n], port) && bytes[..n][141..] == bytes[141..n]
  {
    assert bytes[..n][..129] == bytes[..129] && bytes[..n][129..139] == bytes[129..139];
  }

  lemma BoundRun(cfg: Config, w: World, host: Host, port: u16, ending: Ending, writable: nat, left: nat,
                 run: Stage<Report>)
    requires writable == left + 2
    requires 141 <= w.up.taken <= |w.up.sent| && Admitted(cfg, w.up.sent, port) && host.opening == Opens
    requires run == ListeningSpec(port, host, w.up.sent[141..w.up.taken], ending, left)
    requires run.outcome == Report(Reason(w), w.server.bind, w.server.exit)
    requires w.down.sent == cfg.request + HAPPY + run.effect.replies && w.up.taken == 141 + run.effect.used
    ensures Explains(cfg, w, host, ending, writable)
  {
    AdmittedPrefix(cfg, w.up.sent, w.up.taken, port);
    AdmittedRun(cfg, host, TakenOctets(w), port, ending, writable, left, run);
  }

  lemma BindExplained(cfg: Config, w: World)
    requires Inv(cfg, w) && w.server.phase.Binding?
    ensures Explained(cfg, ServerDo(cfg, w, ServerBind(false)))
  {
    var port, host, w' := w.server.phase.port, Host(Opens, false, true), ServerDo(cfg, w, ServerBind(false));
    Greeted(cfg, w);
    assert cfg.request + HAPPY + [] == cfg.request + HAPPY;
    BoundRun(cfg, w', host, port, Silent, 2, 0, Stage(Report(FailedBinding, Some(port), None), NO_EFFECT));
  }

  /** Leaving the control loop with an outcome that its specification has for the octets taken. */
  lemma ExitExplained(cfg: Config, w: World, outcome: ControlOutcome, ending: Ending)
    requires Rest(cfg, w) && w.server.phase.InControl? && w.up.taken >= 141
    requires var n := w.server.answered;
             ControlSpec(w.up.sent[141..w.up.taken], ending, n)
                 == Stage(outcome, Effect(Repeat(PONG, n), w.up.taken - 141, n))
    ensures Explained(cfg, Exit(w, outcome))
  {
    var port, n := w.server.bind.value, w.server.answered;
    var run := ListeningSpec(port, WELL, w.up.sent[141..w.up.taken], ending, n);
    BoundRun(cfg, Exit(w, outcome), WELL, port, ending, n + 2, n, run);
  }

  lemma NoPing(line: seq<byte>, ending: Ending)
    requires NEWLINE !in line
    ensures !StartsWith(line, PING) && Decide(line, ending).1 == |line|
    ensures Decide(line, ending).0
            == match ending
               case Fin => (if line == [] then ClosedByRemote else Unexpected(line))
               case Broken => ReadFailed
               case Silent => TimedOut
  {
    PingLine(line);
  }

  lemma ControlCutExplained(cfg: Config, w: World, a: ServerAct)
    requires Inv(cfg, w) && w.server.phase.InControl? && IsCut(a) && ServerEnabled(w, a)
    ensures Explained(cfg, ServerDo(cfg, w, a))
  {
    var n, line, ending := w.server.answered, w.server.phase.line, EndingOf(a);
    NoPing(line, ending);
    PingsThen(n, line, ending, n);
    ExitExplained(cfg, w, Decide(line, ending).0, ending);
  }

  /** After the answered PINGs, the octets of a line have been taken. */
  ghost predicate AtLine(cfg: Config, w: World, got: seq<byte>) {
    && Rest(cfg, w) && w.server.phase.InControl? && w.up.taken == 141 + 5 * w.server.answered + |got|
    && w.up.sent[141..w.up.taken] == Repeat(PING, w.server.answered) + got
  }

  /** A complete line other than an answered PING ends the loop. */
  lemma LineExplained(cfg: Config, w: World, got: seq<byte>, ok: bool)
    requires AtLine(cfg, w, got) && got != [] && IndexOf(got, NEWLINE) == |got| - 1 && !(got == PING && ok)
    ensures Explained(cfg, OnLine(w, got, ok))
  {
    var n := w.server.answered;
    PingLine(got);
    assert got[..|got|] == got;
    if got == PING {
      PongFails(w.up.sent[141..w.up.taken], n, Silent);
      ExitExplained(cfg, w, PongFailed, Silent);
    } else {
      PingsThen(n, got, Silent, n);
      ExitExplained(cfg, w, Decide(got, Silent).0, Silent);
    }
  }

  // ---- Every step ----

  lemma ReadResponseExplained(cfg: Config, w: World, n: nat, ok: bool)
    requires Inv(cfg, w) && ServerEnabled(w, ServerRead(n, ok)) && w.server.phase.AwaitResponse?
    requires Over(ServerDo(cfg, w, ServerRead(n, ok)))
    ensures Explained(cfg, ServerDo(cfg, w, ServerRead(n, ok)))
  {
    var w1, got := w.(up := Take(w.up, n)), w.server.phase.buf + Front(w.up, n);
    TakenGrows(w.up, n, 0);
    assert TakenOctets(w1) == got;
    ResponseExplained(cfg, w1, got, ok);
  }

  lemma ReadHeaderExplained(cfg: Config, w: World, n: nat, ok: bool)
    requires Inv(cfg, w) && ServerEnabled(w, ServerRead(n, ok)) && w.server.phase.AwaitHeader?
    requires Over(ServerDo(cfg, w, ServerRead(n, ok)))
    ensures Explained(cfg, ServerDo(cfg, w, ServerRead(n, ok)))
  {
    TakenGrows(w.up, n, 129);
    HeaderExplained(cfg, w.(up := Take(w.up, n)), w.server.phase.buf + Front(w.up, n));
  }

  /** A read that ends the session here was the last of the port, and the port is not allowed. */
  lemma PortRead(cfg: Config, w: World, n: nat, ok: bool)
    requires Inv(cfg, w) && ServerEnabled(w, ServerRead(n, ok)) && w.server.phase.AwaitPort?
    requires Over(ServerDo(cfg, w, ServerRead(n, ok)))
    ensures var w1 := w.(up := Take(w.up, n));
            && w1.up.taken == 141 <= |w1.up.sent|
            && !cfg.allows(FromBigEndian(w1.up.sent[139], w1.up.sent[140]))
            && ServerDo(cfg, w, ServerRead(n, ok)) == OnPort(cfg, w1, w1.up.sent[139], w1.up.sent[140])
  {
    TakenGrows(w.up, n, 139);
    var got := w.server.phase.buf + Front(w.up, n);
    assert w.up.sent[139..w.up.taken + n] == got;
    assert |got| == 2 ==> got[0] == w.up.sent[139] && got[1] == w.up.sent[140];
  }

  lemma ReadPortExplained(cfg: Config, w: World, n: nat, ok: bool)
    requires Inv(cfg, w) && ServerEnabled(w, ServerRead(n, ok)) && w.server.phase.AwaitPort?
    requires Over(ServerDo(cfg, w, ServerRead(n, ok)))
    ensures Explained(cfg, ServerDo(cfg, w, ServerRead(n, ok)))
  {
    var w1 := w.(up := Take(w.up, n));
    PortRead(cfg, w, n, ok);
    PortExplained(cfg, w1);
  }

  lemma ReadLineExplained(cfg: Config, w: World, n: nat, ok: bool)
    requires Inv(cfg, w) && ServerEnabled(w, ServerRead(n, ok)) && w.server.phase.InControl?
    requires Over(ServerDo(cfg, w, ServerRead(n, ok)))
    ensures Explained(cfg, ServerDo(cfg, w, ServerRead(n, ok)))
  {
    var w1, got := w.(up := Take(w.up, n)), w.server.phase.line + Front(w.up, n);
    LineSoFar(cfg, w, n, ok);
    LineEnds(w.server.phase.line, Front(w.up, n));
    LineIsOver(cfg, w, n, ok);
    LineExplained(cfg, w1, got, ok);
  }

  lemma LineIsOver(cfg: Config, w: World, n: nat, ok: bool)
    requires ServerEnabled(w, ServerRead(n, ok)) && w.server.phase.InControl? && w.server.exit.None?
    requires Over(ServerDo(cfg, w, ServerRead(n, ok)))
    ensures var data, got := Front(w.up, n), w.server.phase.line + Front(w.up, n);
            && data[0] == NEWLINE && !(got == PING && ok)
            && ServerDo(cfg, w, ServerRead(n, ok)) == OnLine(w.(up := Take(w.up, n)), got, ok)
  {
  }

  lemma LineSoFar(cfg: Config, w: World, n: nat, ok: bool)
    requires Inv(cfg, w) && ServerEnabled(w, ServerRead(n, ok)) && w.server.phase.InControl?
    ensures AtLine(cfg, w.(up := Take(w.up, n)), w.server.phase.line + Front(w.up, n))
  {
    TakenGrows(w.up, n, 141);
    Regroup(Repeat(PING, w.server.answered), w.server.phase.line, Front(w.up, n));
  }

  lemma LineEnds(line: seq<byte>, data: seq<byte>)
    requires NEWLINE !in line && |data| == 1
    ensures data[0] == NEWLINE ==> IndexOf(line + data, NEWLINE) == |line + data| - 1
  {
    if data[0] == NEWLINE {
      FirstLine(line, []);
      assert line + data == line + [NEWLINE] + [];
    }
  }

  lemma ReadExplained(cfg: Config, w: World, n: nat, ok: bool)
    requires Inv(cfg, w) && ServerEnabled(w, ServerRead(n, ok)) && Over(ServerDo(cfg, w, ServerRead(n, ok)))
    ensures Explained(cfg, ServerDo(cfg, w, ServerRead(n, ok)))
  {
    match w.server.phase {
      case AwaitResponse(_) => ReadResponseExplained(cfg, w, n, ok);
      case AwaitHeader(_) => ReadHeaderExplained(cfg, w, n, ok);
      case AwaitPort(_) => ReadPortExplained(cfg, w, n, ok);
      case InControl(_) => ReadLineExplained(cfg, w, n, ok);
    }
  }

  lemma ServerStepExplained(cfg: Config, w: World, a: ServerAct)
    requires Inv(cfg, w) && ServerEnabled(w, a) && !Over(w) && Over(ServerDo(cfg, w, a))
    ensures Explained(cfg, ServerDo(cfg, w, a))
  {
    if a.ServerRead? {
      ReadExplained(cfg, w, a.n, a.ok);
    } else if a.ServerBind? {
      BindExplained(cfg, w);
    } else {
      match w.server.phase {
        case Opening => OpeningExplained(cfg, w, a);
        case AwaitResponse(_) => ResponseCutExplained(cfg, w, a);
        case InControl(_) => ControlCutExplained(cfg, w, a);
        case _ => ConfigurationCutExplained(cfg, w, a);
      }
    }
  }

  /** What a step after the end leaves as it is. */
  lemma OverStays(cfg: Config, w: World, a: Action)
    requires Inv(cfg, w) && Enabled(w, a) && Over(w)
    ensures var w' := Do(cfg, w, a);
            && Over(w') && Reason(w') == Reason(w) && w'.server.bind == w.server.bind && w'.server.exit == w.server.exit
            && w'.down.sent == w.down.sent && w'.up.taken == w.up.taken && w.up.sent <= w'.up.sent
  {
    if a.Remote? {
      PeerFrame(cfg, w, a.move);
    }
  }

  lemma StepExplained(cfg: Config, w: World, a: Action)
    requires Inv(cfg, w) && Enabled(w, a) && (Over(w) ==> Explained(cfg, w)) && Over(Do(cfg, w, a))
    ensures Explained(cfg, Do(cfg, w, a))
  {
    var w' := Do(cfg, w, a);
    if Over(w) {
      OverStays(cfg, w, a);
      assert TakenOctets(w') == TakenOctets(w);
      var host, ending, writable :| Explains(cfg, w, host, ending, writable);
      assert Explains(cfg, w', host, ending, writable);
    } else if a.Control? {
      ServerStepExplained(cfg, w, a.step);
    } else if a.Remote? {
      PeerFrame(cfg, w, a.move);
    }
  }

  lemma {:induction false} RunExplained(cfg: Config, peer: Peer, ws: seq<World>, acts: seq<Action>, i: nat)
    requires IsRun(cfg, peer, ws, acts) && i < |ws|
    ensures Over(ws[i]) ==> Explained(cfg, ws[i])
  {
    if i > 0 && Over(ws[i]) {
      RunExplained(cfg, peer, ws, acts, i - 1);
      RunKeepsInv(cfg, peer, ws, acts, i - 1);
      StepExplained(cfg, ws[i - 1], acts[i - 1]);
    }
  }

  /** Every session that is over is a handler run: for some answers of the host, some ending of the stream and some
      number of possible writes, the specification on the octets taken consumes exactly those octets, writes exactly
      what was written, binds exactly the port that was tried, ends its loop in the same way, and closes with the same
      reason. */
  lemma SessionIsHandlerRun(server: ServerConfig, challenge: seq<byte>, clientKey: seq<byte>, kind: ClientKind,
                            peer: Peer, ws: seq<World>, acts: seq<Action>, i: nat)
    returns (host: Host, ending: Ending, writable: nat)
    requires IsRun(Setup(server, challenge, clientKey, kind), peer, ws, acts) && i < |ws|
    requires ws[i].server.phase.Finished?
    ensures var w := ws[i];
            && w.up.taken <= |w.up.sent|
            && var run := HandlerSpec(ServerDecisions(server, challenge), host, w.up.sent[..w.up.taken], ending,
                writable);
               && run.effect.used == w.up.taken && run.effect.replies == w.down.sent
               && w.server.closes == [run.outcome.reason]
               && w.server.bind == run.outcome.bind && w.server.exit == run.outcome.served
  {
    var cfg := Setup(server, challenge, clientKey, kind);
    RunKeepsInv(cfg, peer, ws, acts, i);
    RunExplained(cfg, peer, ws, acts, i);
    host, ending, writable :| Explains(cfg, ws[i], host, ending, writable);
  }
}
