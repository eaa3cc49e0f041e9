/** The server's handler of one QUIC connection (server/client_handler.rs): its stages in order, and what
    it does with the connection on every way out. */
module Handler {
  import opened Bytes
  import opened Options
  import opened Channels
  import opened Auth
  import opened PortSpecs
  import opened ServerStages
  import Utf8

  datatype ServerConfig = ServerConfig(hash: Hash, psk: seq<byte>, allowed: seq<PortSpec>)

  /** What the server sends and decides on octets and ports, for one challenge. */
  datatype Decisions = Decisions(request: seq<byte>, judge: seq<byte> -> Verdict, allows: u16 -> bool)

  function ServerDecisions(cfg: ServerConfig, challenge: seq<byte>): Decisions {
    var expected := Expected(cfg.hash, challenge, cfg.psk);
    Decisions(Request(challenge), response => Judge(response, expected), (port: u16) => Allows(cfg.allowed, port))
  }

  datatype CloseReason =
    | FailedAuthentication
    | AuthenticationTimedOut
    | FailedConfiguration
    | ConfigurationTimedOut
    | PortNotAllowed
    | FailedBinding
    | NormalShutdown

  /** What the operating system and the QUIC stack answer: whether the control stream opens, whether the
      bind succeeds, whether the listener task ends without an error. */
  datatype Host = Host(opening: OpeningResult, bindSucceeds: bool, listenerOk: bool)

  datatype OpeningResult = Opens | Fails | Hangs

  /** A completed handler run. */
  datatype Report = Report(reason: CloseReason, bind: Option<u16>, served: Option<ControlOutcome>)

  /** Opening the control stream and authenticating on it. */
  function AuthenticateSpec(d: Decisions, host: Host, input: seq<byte>, ending: Ending, writable: nat)
    : Stage<AuthOutcome>
  {
    match host.opening
    case Opens => AuthSpec(d.request, d.judge, input, ending, writable)
    case Fails => Stage(StreamNotOpened, NO_EFFECT)
    case Hangs => Stage(AuthCut(NeverArrived), NO_EFFECT)
  }

  /** The stages from the bind on. */
  function ListeningSpec(port: u16, host: Host, input: seq<byte>, ending: Ending, writable: nat): Stage<Report> {
    if !host.bindSucceeds then Stage(Report(FailedBinding, Some(port), None), NO_EFFECT)
    else
      var control := ControlSpec(input, ending, writable);
      Stage(Report(NormalShutdown, Some(port), Some(control.outcome)), control.effect)
  }

  /** What the configuration stage makes of the run: it is refused, or goes on with the bind and the octets left. */
  function AfterConfiguration(config: Stage<ConfigOutcome>, allows: u16 -> bool,
                              next: (u16, seq<byte>, nat) -> Stage<Report>,
                              input: seq<byte>, writable: nat): Stage<Report>
    requires config.effect.used <= |input|
  {
    if !config.outcome.Requested? then
      Stage(Report(if config.outcome == ConfigCut(NeverArrived) then ConfigurationTimedOut
          else FailedConfiguration, None, None),
            config.effect)
    else if !allows(config.outcome.port) then Stage(Report(PortNotAllowed, None, None), config.effect)
    else Following(config.effect, next(config.outcome.port, input[config.effect.used..], writable))
  }

  function FromListening(host: Host, ending: Ending): (u16, seq<byte>, nat) -> Stage<Report> {
    (port: u16, rest: seq<byte>, left: nat) => ListeningSpec(port, host, rest, ending, left)
  }

  /** The stages from the configuration on, as a function of the octets that follow the response. */
  function ConfiguredSpec(d: Decisions, host: Host, input: seq<byte>, ending: Ending, writable: nat): Stage<Report> {
    AfterConfiguration(ConfigSpec(input, ending), d.allows, FromListening(host, ending), input, writable)
  }

  /** What the authentication stage makes of the run: it is refused, or goes on with the octets left. */
  function AfterAuthentication(auth: Stage<AuthOutcome>, next: (seq<byte>, nat) -> Stage<Report>, input: seq<byte>,
                               writable: nat)
    : Stage<Report>
    requires auth.effect.used <= |input| && auth.effect.writes <= writable
  {
    if auth.outcome != Authenticated then
      Stage(Report(if auth.outcome == AuthCut(NeverArrived) then AuthenticationTimedOut
          else FailedAuthentication, None, None),
            auth.effect)
    else Following(auth.effect, next(input[auth.effect.used..], writable - auth.effect.writes))
  }

  function FromConfiguration(d: Decisions, host: Host, ending: Ending): (seq<byte>, nat) -> Stage<Report> {
    (rest: seq<byte>, left: nat) => ConfiguredSpec(d, host, rest, ending, left)
  }

  /** The handler run as a function of the client's octets. */
  function HandlerSpec(d: Decisions, host: Host, input: seq<byte>, ending: Ending, writable: nat)
    : Stage<Report>
  {
    AfterAuthentication(AuthenticateSpec(d, host, input, ending, writable), FromConfiguration(d, host, ending),
        input, writable)
  }

  lemma AuthenticatedThen(auth: Stage<AuthOutcome>, next: (seq<byte>, nat) -> Stage<Report>, from: End, mid: End,
                          to: End,
                          report: Report)
    requires Ran(auth, from, mid, Authenticated) && Ran(next(mid.incoming, mid.writable), mid, to, report)
    ensures Ran(AfterAuthentication(auth, next, from.incoming, from.writable), from, to, report)
  {
    RanTwice(auth.effect, next(mid.incoming, mid.writable), from, mid, to, report);
  }

  lemma ConfiguredThen(config: Stage<ConfigOutcome>, port: u16, allows: u16 -> bool,
                       next: (u16, seq<byte>, nat) -> Stage<Report>,
                       from: End, mid: End, to: End, report: Report)
    requires Ran(config, from, mid, Requested(port)) && config.effect.writes == 0 && allows(port)
    requires Ran(next(port, mid.incoming, mid.writable), mid, to, report)
    ensures Ran(AfterConfiguration(config, allows, next, from.incoming, from.writable), from, to, report)
  {
    RanTwice(config.effect, next(port, mid.incoming, mid.writable), from, mid, to, report);
  }

  class Connection {
    const control: Channel
    /** Every close issued on the connection. */
    var closes: seq<CloseReason>
    /** Every port a TCP bind was attempted on. */
    var binds: seq<u16>
    /** Whether the listener task was spawned, and whether its token is cancelled. */
    var listening: bool
    var cancelled: bool

    constructor (control: Channel)
      ensures this.control == control && closes == [] && binds == [] && !listening && !cancelled
    {
      this.control, closes, binds, listening, cancelled := control, [], [], false, false;
    }

    method Close(reason: CloseReason)
      modifies this`closes
      ensures closes == old(closes) + [reason]
    {
      closes := closes + [reason];
    }

    /** What the handler run amounts to, apart from the control stream. */
    ghost predicate Ended(report: Report)
      reads this
    {
      && closes == [report.reason]
      && binds == (if report.bind.Some? then [report.bind.value] else [])
      && (listening <==> report.served.Some?)
      && (listening ==> cancelled)
    }

    /** The whole session, for a challenge built from the clock and random octets. Its replies, its bind attempt and
        its outcome are a function of the client's octets alone, however they are cut into chunks, and it closes the
        connection exactly once. */
    method Handle(cfg: ServerConfig, seconds: int, random: seq<byte>, host: Host) returns (ok: bool, report: Report)
      requires |random| == 32 && seconds < 0x1_0000_0000_0000_0000
      requires closes == [] && binds == [] && !listening && !cancelled
      modifies this`closes, this`binds, this`listening, this`cancelled, control
      ensures var d := ServerDecisions(cfg, Challenge(random, ElapsedMinutes(seconds)));
              var spec := HandlerSpec(d, host, old(control.incoming), control.ending, old(control.writable));
              report == spec.outcome && control.Went(spec.effect)
      ensures Ended(report)
      ensures ok <==> report.served.Some? && host.listenerOk
    {
      RequestFits(random, seconds);
      ok, report := Serve(ServerDecisions(cfg, Challenge(random, ElapsedMinutes(seconds))), host);
    }

    method Serve(d: Decisions, host: Host) returns (ok: bool, report: Report)
      requires closes == [] && binds == [] && !listening && !cancelled
      modifies this`closes, this`binds, this`listening, this`cancelled, control
      ensures var spec := HandlerSpec(d, host, old(control.incoming), control.ending, old(control.writable));
              report == spec.outcome && control.Went(spec.effect)
      ensures Ended(report)
      ensures ok <==> report.served.Some? && host.listenerOk
    {
      // The client proves that it has the key, or is turned away.
      var auth := Authenticate(d, host);
      if auth != Authenticated {
        var reason := if auth == AuthCut(NeverArrived) then AuthenticationTimedOut else FailedAuthentication;
        Close(reason);
        return false, Report(reason, None, None);
      }
      ghost var before := control.State();
      ok, report := Configured(d, host);
      ghost var stage := AuthenticateSpec(d, host, old(control.incoming), control.ending, old(control.writable));
      AuthenticatedThen(stage, FromConfiguration(d, host, control.ending), old(control.State()), before,
          control.State(), report);
    }

    method Authenticate(d: Decisions, host: Host) returns (r: AuthOutcome)
      modifies control
      ensures var spec := AuthenticateSpec(d, host, old(control.incoming), control.ending, old(control.writable));
              r == spec.outcome && control.Went(spec.effect)
    {
      match host.opening {
        case Opens => r := ServerAuthenticate(control, d.request, d.judge);
        case Fails => r := StreamNotOpened;
        case Hangs => r := AuthCut(NeverArrived);
      }
    }

    /** The handler from the configuration stage on. */
    method Configured(d: Decisions, host: Host) returns (ok: bool, report: Report)
      requires closes == [] && binds == [] && !listening && !cancelled
      modifies this`closes, this`binds, this`listening, this`cancelled, control
      ensures var spec := ConfiguredSpec(d, host, old(control.incoming), control.ending, old(control.writable));
              report == spec.outcome && control.Went(spec.effect)
      ensures Ended(report)
      ensures ok <==> report.served.Some? && host.listenerOk
    {
      // The port it wants, if it may have it.
      var config := ConfigureQuicClient(control);
      if !config.Requested? {
        var reason := if config == ConfigCut(NeverArrived) then ConfigurationTimedOut else FailedConfiguration;
        Close(reason);
        return false, Report(reason, None, None);
      }
      if !d.allows(config.port) {
        Close(PortNotAllowed);
        return false, Report(PortNotAllowed, None, None);
      }
      ghost var before := control.State();
      ok, report := Listening(config.port, host);
      ghost var stage := ConfigSpec(old(control.incoming), control.ending);
      ConfiguredThen(stage, config.port, d.allows, FromListening(host, control.ending), old(control.State()), before,
                     control.State(), report);
    }

    /** The handler from the bind on. */
    method Listening(port: u16, host: Host) returns (ok: bool, report: Report)
      requires closes == [] && binds == [] && !listening && !cancelled
      modifies this`closes, this`binds, this`listening, this`cancelled, control
      ensures var spec := ListeningSpec(port, host, old(control.incoming), control.ending, old(control.writable));
              report == spec.outcome && control.Went(spec.effect)
      ensures Ended(report)
      ensures ok <==> report.served.Some? && host.listenerOk
    {
      // From here on there is a listener to end again.
      binds := binds + [port];
      if !host.bindSucceeds {
        Close(FailedBinding);
        return false, Report(FailedBinding, Some(port), None);
      }
      listening := true;
      // The session lasts as long as the loop.
      var outcome, cancel := RunControlChannelLoop(control);
      cancelled := cancel;
      Close(NormalShutdown);
      return host.listenerOk, Report(NormalShutdown, Some(port), Some(outcome));
    }
  }

  /** The octets that admit a client to a port: the expected digest, one white space octet, and the
      configuration message of a port in the configured set. */
  ghost predicate Admits(cfg: ServerConfig, challenge: seq<byte>, input: seq<byte>, port: u16) {
    && |input| >= RESPONSE_LENGTH + 12
    && input[..128] == Expected(cfg.hash, challenge, cfg.psk)
    && Utf8.AsciiSpace(input[128])
    && input[129..141] == ConfigMessage(port)
    && port in Union(cfg.allowed)
  }

  /** When the configured stages bind, in terms of the server's decisions. */
  lemma ConfiguredBinds(d: Decisions, host: Host, input: seq<byte>, ending: Ending, writable: nat, port: u16)
    ensures ConfiguredSpec(d, host, input, ending, writable).outcome.bind == Some(port)
            <==> StartsWith(input, ConfigMessage(port)) && d.allows(port)
  {
    ConfigExact(input, ending, port);
  }

  lemma AuthDecided(d: Decisions, host: Host, input: seq<byte>, ending: Ending, writable: nat)
    ensures var auth := AuthenticateSpec(d, host, input, ending, writable);
            && (auth.outcome == Authenticated <==>
                  host.opening == Opens && writable >= 2 && |input| >= RESPONSE_LENGTH &&
                      d.judge(input[..RESPONSE_LENGTH]) == Happy)
            && (auth.outcome == Authenticated ==> auth.effect == Effect(d.request + HAPPY, RESPONSE_LENGTH, 2))
  {
  }

  lemma AfterSuccess(auth: Stage<AuthOutcome>, next: (seq<byte>, nat) -> Stage<Report>, input: seq<byte>,
                     writable: nat, left: nat, replies: seq<byte>)
    requires |input| >= RESPONSE_LENGTH && auth == Stage(Authenticated, Effect(replies, RESPONSE_LENGTH, 2))
    requires writable == left + 2
    ensures AfterAuthentication(auth, next, input, writable)
            == Following(Effect(replies, RESPONSE_LENGTH, 2), next(input[RESPONSE_LENGTH..], left))
  {
  }

  lemma AfterRefusal(auth: Stage<AuthOutcome>, next: (seq<byte>, nat) -> Stage<Report>, input: seq<byte>, writable: nat)
    requires auth.effect.used <= |input| && auth.effect.writes <= writable && auth.outcome != Authenticated
    ensures AfterAuthentication(auth, next, input, writable).outcome.bind == None
  {
  }

  /** A verified session goes on with the configuration, with what is left of the octets and of the writes. */
  lemma AfterHappy(d: Decisions, host: Host, input: seq<byte>, ending: Ending, writable: nat, left: nat)
    requires AuthSucceeds(d, host, input, writable) && writable == left + 2
    ensures HandlerSpec(d, host, input, ending, writable)
            == Following(Effect(d.request + HAPPY, RESPONSE_LENGTH, 2),
                         ConfiguredSpec(d, host, input[RESPONSE_LENGTH..], ending, left))
  {
    AuthDecided(d, host, input, ending, writable);
    var auth := AuthenticateSpec(d, host, input, ending, writable);
    AfterSuccess(auth, FromConfiguration(d, host, ending), input, writable, left, d.request + HAPPY);
  }

  /** A session whose port is allowed goes on with the bind. */
  lemma AfterPort(d: Decisions, host: Host, rest: seq<byte>, ending: Ending, writable: nat, port: u16)
    requires |rest| >= 12 && rest[..10] == LISTENPORT && port == FromBigEndian(rest[10], rest[11]) && d.allows(port)
    ensures ConfiguredSpec(d, host, rest, ending, writable)
            == Following(Effect([], 12, 0), ListeningSpec(port, host, rest[12..], ending, writable))
  {
    ListenPortIsText();
  }

  lemma FollowingTwice(replies: seq<byte>, run: Stage<Report>)
    ensures Following(Effect(replies, RESPONSE_LENGTH, 2), Following(Effect([], 12, 0), run))
            == Stage(run.outcome, Effect(replies + run.effect.replies, 141 + run.effect.used, 2 + run.effect.writes))
  {
    assert [] + run.effect.replies == run.effect.replies;
  }

  /** A session that is verified and asks for an allowed port is its bind and control loop, after the two stages. */
  lemma PortGranted(d: Decisions, host: Host, input: seq<byte>, ending: Ending, writable: nat, left: nat, port: u16,
                    run: Stage<Report>)
    requires AuthSucceeds(d, host, input, writable) && writable == left + 2 && |input| >= 141
    requires var rest := input[RESPONSE_LENGTH..];
             && rest[..10] == LISTENPORT && port == FromBigEndian(rest[10], rest[11]) && d.allows(port)
             && run == ListeningSpec(port, host, rest[12..], ending, left)
    ensures HandlerSpec(d, host, input, ending, writable)
            == Stage(run.outcome, Effect(d.request + HAPPY + run.effect.replies, 141 + run.effect.used,
                                         2 + run.effect.writes))
  {
    AfterHappy(d, host, input, ending, writable, left);
    AfterPort(d, host, input[RESPONSE_LENGTH..], ending, left, port);
    FollowingTwice(d.request + HAPPY, run);
  }

  /** When the handler binds, in terms of the server's decisions. */
  lemma BindDecided(d: Decisions, host: Host, input: seq<byte>, ending: Ending, writable: nat, port: u16)
    ensures HandlerSpec(d, host, input, ending, writable).outcome.bind == Some(port)
            <==> && AuthSucceeds(d, host, input, writable)
                 && StartsWith(input[RESPONSE_LENGTH..], ConfigMessage(port)) && d.allows(port)
  {
    if AuthSucceeds(d, host, input, writable) {
      VerifiedBinds(d, host, input, ending, writable, port);
    } else {
      UnverifiedBinds(d, host, input, ending, writable);
    }
  }

  /** The authentication stage succeeds. */
  predicate AuthSucceeds(d: Decisions, host: Host, input: seq<byte>, writable: nat) {
    && host.opening == Opens && writable >= 2 && |input| >= RESPONSE_LENGTH
    && d.judge(input[..RESPONSE_LENGTH]) == Happy
  }

  lemma VerifiedBinds(d: Decisions, host: Host, input: seq<byte>, ending: Ending, writable: nat, port: u16)
    requires AuthSucceeds(d, host, input, writable)
    ensures HandlerSpec(d, host, input, ending, writable).outcome.bind == Some(port)
            <==> StartsWith(input[RESPONSE_LENGTH..], ConfigMessage(port)) && d.allows(port)
  {
    var left := writable - 2;
    AfterHappy(d, host, input, ending, writable, left);
    ConfiguredBinds(d, host, input[RESPONSE_LENGTH..], ending, left, port);
  }

  lemma UnverifiedBinds(d: Decisions, host: Host, input: seq<byte>, ending: Ending, writable: nat)
    requires !AuthSucceeds(d, host, input, writable)
    ensures HandlerSpec(d, host, input, ending, writable).outcome.bind == None
  {
    AuthDecided(d, host, input, ending, writable);
    var auth := AuthenticateSpec(d, host, input, ending, writable);
    AfterRefusal(auth, FromConfiguration(d, host, ending), input, writable);
  }

  /** The octets the decisions accept are the octets that admit. */
  lemma AdmitsExact(cfg: ServerConfig, challenge: seq<byte>, input: seq<byte>, port: u16)
    ensures Admits(cfg, challenge, input, port)
            <==> var d := ServerDecisions(cfg, challenge);
                 && |input| >= RESPONSE_LENGTH && d.judge(input[..RESPONSE_LENGTH]) == Happy
                 && StartsWith(input[RESPONSE_LENGTH..], ConfigMessage(port)) && d.allows(port)
  {
    AllowsIsUnion(cfg.allowed, port);
    if |input| >= RESPONSE_LENGTH {
      JudgeExact(input[..129], Expected(cfg.hash, challenge, cfg.psk));
      assert input[..129][..128] == input[..128];
      if |input| >= 141 {
        assert input[129..141] == input[129..][..12];
      }
    }
  }

  /** A bind is attempted on exactly the ports the input admits, provided the control stream opened and
      both server messages could be written. */
  lemma BindExact(cfg: ServerConfig, challenge: seq<byte>, host: Host, input: seq<byte>, ending: Ending,
                  writable: nat, port: u16)
    ensures HandlerSpec(ServerDecisions(cfg, challenge), host, input, ending, writable).outcome.bind == Some(port)
            <==> host.opening == Opens && writable >= 2 && Admits(cfg, challenge, input, port)
  {
    BindDecided(ServerDecisions(cfg, challenge), host, input, ending, writable, port);
    AdmitsExact(cfg, challenge, input, port);
  }

  /** The end of a session whose bind succeeds: after n PING lines the n-th PONG has been written, and the octets
      that follow decide. */
  lemma ServedExact(d: Decisions, host: Host, port: u16, input: seq<byte>, n: nat, rest: seq<byte>, ending: Ending,
                    writable: nat)
    requires host.bindSucceeds && writable >= 2 + n
    requires HandlerSpec(d, host, input, ending, writable).outcome.bind == Some(port)
    requires |input| >= 141 && input[141..] == Repeat(PING, n) + rest && !StartsWith(rest, PING)
    ensures var run := HandlerSpec(d, host, input, ending, writable);
            && run.outcome == Report(NormalShutdown, Some(port), Some(Decide(rest, ending).0))
            && run.effect.replies == d.request + HAPPY + Repeat(PONG, n)
  {
    BindDecided(d, host, input, ending, writable, port);
    var after := input[RESPONSE_LENGTH..];
    ConfigParts(after, port);
    assert after[12..] == input[141..];
    var left := writable - 2;
    PingsThen(n, rest, ending, left);
    PortGranted(d, host, input, ending, writable, left, port, ListeningSpec(port, host, after[12..], ending, left));
  }

  lemma ConfigParts(rest: seq<byte>, port: u16)
    requires StartsWith(rest, ConfigMessage(port))
    ensures |rest| >= 12 && rest[..10] == LISTENPORT && port == FromBigEndian(rest[10], rest[11])
  {
    var m := rest[..12];
    SplitEqual(m, LISTENPORT, [port / 256, port % 256]);
    assert m[..10] == rest[..10] && m[10..] == [rest[10], rest[11]];
    BigEndianExact(rest[10], rest[11], port);
  }

  /** The control loop on n PING lines followed by something else answers them and ends as the rest decides. */
  lemma PingsThen(n: nat, rest: seq<byte>, ending: Ending, writable: nat)
    requires !StartsWith(rest, PING) && n <= writable
    ensures ControlSpec(Repeat(PING, n) + rest, ending, writable)
            == Stage(Decide(rest, ending).0, Effect(Repeat(PONG, n), 5 * n + Decide(rest, ending).1, n))
  {
    var tail := Repeat(PING, n) + rest;
    assert tail[..5 * n] == Repeat(PING, n) && tail[5 * n..] == rest;
    LeadingPingsExact(tail, n);
  }
}
