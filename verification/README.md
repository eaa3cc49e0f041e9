# PortRedirect: verified model of the session protocol and of the stress test

PortRedirect lets a client behind a firewall expose a TCP port on a server. Client and server speak a small protocol over
one bidirectional QUIC stream: the server challenges the client, the client proves that it knows the shared key, asks for a
port, and then keeps the session alive with PING and PONG; when the session ends, the server closes the connection and joins
its TCP listener. This project models that protocol, the allow-list it enforces, and the block protocol, counters and log
line of the stress test that exercises the tunnel, and proves what they are meant to guarantee.

How the model is laid out:

- `Bytes`, `Options`, `Decimal`, `Utf8`, `Text`: octets, optional values, numerals, UTF-8 validity and Rust's trimming, and
  the Python string operations.
- `PortSpecs`: the allow-list parser and the set of ports an entry stands for.
- `Auth`: the challenge, the request, the client's parsing of it, and the server's judgement of a response. `Challenges` says
  what these compute without naming how, `Agreement` runs the two authentication stages against each other.
- `Channels`, `ServerStages`, `ClientStages`, `Handler`: the sequential tasks in imperative form. A `Channel` delivers the
  peer's octets in chunks of nondeterministic size. The server's methods are proved against functions of the whole octet
  sequence, so that chunk boundaries provably do not matter; the client's, where they do matter, report the chunks they met.
- `Listeners`: the accept loop of one listener, and any number of listeners that share their counters.
- `Session`: control task, listener task, both directions of the stream, a clock and a peer as one state machine. The peer
  is anyone, or a client of the program: `Conforming`, which sends the configuration message after authentication, or
  `Shipped`, which goes straight to its first PING as the client in the repository does. `SessionSafety`, `StageOrder`,
  `Timeouts`, `Shutdown`, `Composition`, `Keepalive`, `Liveness`, `Progress`, `FairRuns`, `Entitled` and `Shipped` hold the theorems about all runs; `Refinement`
  proves that a finished run is a run of `Handler`, `Outcomes` states every way a session can end by the client's octets.
- `Blocks`, `Streams`, `Transfers`, `Counters`, `Completion`, `Monitor`, `Metrics`: the stress test.

SHA-512 and CRC-32 are parameters: the theorems hold for every function in their place, and where an accidental collision
would matter, its absence is assumed for exactly the inputs compared. Clock values, random octets, chunk sizes, delays,
faults and the outcome of system calls are inputs or choices of the environment.

Five findings about the code:

- The shipped client never sends `LISTENPORT` (`src/client/server_handler.rs:30-41`), which the documented control message
  requires (`src/protocol/control.rs:14-23`). `Shipped.NeverValidated` shows that such a session never gets as far as the
  validation of a port, whatever the schedule.
- The client reads the verdict with one `read` and goes on if that read returned just `HAPPY`. If the newline arrives later,
  the client takes it for the answer to its first PING and leaves. `Progress.SplitVerdictFails` constructs the run;
  `Keepalive.NothingLost` and `Keepalive.LostOnlyAfterSplitVerdict` prove that this is the only way to lose an octet or to
  meet a wrong reply.
- In the same way, if the client's first `read` returns the request without its last newline, the server says HAPPY, but the
  client's second read starts with that newline and the client reports a rejection. `Agreement.Agreement` gives the exact
  condition for both ends, `Agreement.NewlineLeftBehind` the case.
- The monitor of the stress test can still stop exactly if there is nothing to send, or the settings let the test finish and
  no sender or receiver has failed (`Monitor.MonitorCanStopExactly`). When the workers have finished, the program awaits the
  monitor (`utils/connection_stress_test.py:595-607`), and then gets past it exactly if no task on the listener's side has
  failed (`Monitor.ProgramEndsExactly`). `Monitor.LateFailureRun` is a run in which it waits without end: the receiver on the
  listener's side fails when its worker has sent and received everything.
- The comment of `configure_quic_client` says that it checks that the port is allowed; the check is made by its caller
  (`src/server/client_handler.rs:87-98`). The model follows the code.

## Model

| member | source | states |
|---|---|---|
| `PortSpecs.AccumulateExact` | src/server/mod.rs:39-40 | The digit-by-digit u16 parse succeeds exactly on digit strings whose value is at most 65535, and returns that value |
| `PortSpecs.ParseExact` | src/server/mod.rs:21-45 | A text parses to an entry if and only if, trimmed, it is a u16 numeral, or two trimmed u16 numerals around its first dash with start at most end |
| `PortSpecs.ParsedIsNonEmpty` | src/server/mod.rs:34-36 | Every parsed entry denotes a non-empty set of ports |
| `PortSpecs.ErrorsExact` | src/server/mod.rs:21-45 | Each of the four errors is reported exactly when its part of the text is at fault: no numeral, no numeral before the first dash, none after it, or a start above the end |
| `PortSpecs.TrimExact` | src/server/mod.rs:24 | Trimming takes white space off both ends, and all of it |
| `PortSpecs.PrintParse` | src/server/mod.rs:21-45 | Parsing the printed form of any valid entry returns the entry |
| `PortSpecs.AllowsIsUnion` | src/server/mod.rs:80-84 | The list check is membership in the union of the denoted sets |
| `PortSpecs.AppendSingle` | src/server/main.rs:79-87 | Appending the deprecated single port adds exactly that port |
| `Auth.RequestFits` | src/protocol/auth.rs:38-50 | For every clock value and all 32 random octets the request has at most 137 octets, so the over-length branch is dead and the 256 octet buffer of the client holds it |
| `Auth.ChallengeRoundTrip` | src/protocol/auth.rs:85-96 | The client's line parser recovers exactly the challenge from a whole request |
| `Auth.ParsePrefix` | src/protocol/auth.rs:85-96 | From the first k octets of a request the client gets an error up to the end of the prompt line, and otherwise exactly the challenge cut at the read boundary |
| `Auth.JudgeExact` | src/protocol/auth.rs:57-68 | Of all 129 octet responses exactly the expected digest followed by one ASCII white space octet is accepted |
| `Challenges.MinutesExact` | src/protocol/utils.rs:28-34 | The minute is the number of whole minutes since the epoch, and zero before it |
| `Challenges.TextsExact` | src/protocol/auth.rs:46-73 | The prompt and the two verdicts, octet by octet |
| `Challenges.HexRoundTrip` | src/protocol/auth.rs:40 | Reading hexadecimal text, high digit first, gives the octets back |
| `Challenges.Layout` | src/protocol/auth.rs:42-45 | Where a challenge holds its fixed texts, the random octets in hexadecimal and the minute |
| `Challenges.ChallengeInjective` | src/protocol/auth.rs:38-45 | Two challenges are equal only if their random octets and their minutes are |
| `Challenges.AnswerFitsOnlyItsChallenge` | src/protocol/auth.rs:38-68 | Without a collision, the answer to one challenge is accepted for another if and only if random octets and minutes are equal |
| `Challenges.LineExact` | src/protocol/auth.rs:88-96 | A line ends at the first line feed, with or without a carriage return before it, or at the end of the text |
| `Challenges.FoundOnlyAfterPrompt` | src/protocol/auth.rs:87-96 | A challenge is found in a message if and only if it is UTF-8 text whose first line is the prompt and another line follows, and it is that line |
| `Utf8.ValidExact` | src/protocol/auth.rs:59 | Octets are taken as text exactly when they are the UTF-8 encoding of some sequence of characters |
| `Auth.ServerSatisfied` | src/protocol/auth.rs:56-76 | The server accepts a client's response if and only if the two digests are equal |
| `Auth.VerdictReads` | src/protocol/auth.rs:108-116 | Of all prefixes of the two verdicts the client accepts exactly those that hold the five octets HAPPY |
| `Agreement.Agreement` | src/protocol/auth.rs:52-116 | For any keys, reads and write failures: the server succeeds iff both could write and what the client saw of the challenge followed by its key equals the challenge followed by the server's key; the client succeeds iff, besides, its first read returned the whole request and its second at least five octets |
| `Agreement.KeysAndReads` | src/protocol/auth.rs:52-116 | Under equal keys the server succeeds iff the first read covered the challenge; with the challenge covered, iff the keys are equal |
| `Agreement.NewlineLeftBehind` | src/protocol/auth.rs:86-115 | If the first read leaves only the last newline of the request, then under equal keys the server says HAPPY and the client rejects, whatever its second read returns |
| `Agreement.NewlineCanBeLeftBehind` | src/protocol/auth.rs:86-115 | For every challenge and key such an exchange is possible |
| `Agreement.ServerExact` | src/protocol/auth.rs:52-76 | For any octets of any client: exactly when the server's stage is cut short, finds no text, succeeds, finds a mismatch or cannot write, and that it has then written the request alone, with HAPPY, or with BAD |
| `Agreement.WrongAnswerGetsBad` | src/protocol/auth.rs:62-76 | A client that answered with another digest, because of its key or a truncated challenge, meets a mismatch and is told BAD |
| `Channels.Channel.Read` | src/protocol/auth.rs:86 | One read returns some non-empty prefix of what is left, no longer than the buffer, and nothing only at the end |
| `Channels.Channel.ReadExact` | src/protocol/auth.rs:58 | Reading exactly n octets gives the next n octets however the stream is cut, or uses up the stream and fails |
| `ServerStages.ServerAuthenticate` | src/protocol/auth.rs:52-76 | Outcome, octets written and octets consumed are those of a function of the client's octet sequence |
| `ServerStages.ConfigureQuicClient` | src/protocol/control.rs:33-60 | The same for the configuration stage |
| `ServerStages.ConfigExact` | src/protocol/control.rs:33-60 | A port is requested if and only if the octets start with LISTENPORT and the port in two big-endian octets |
| `ServerStages.ReadLine` | src/protocol/keepalive.rs:99-121 | Reading an octet at a time yields exactly the octets up to and including the first newline, or all that is left |
| `ServerStages.AnswerLine` | src/protocol/keepalive.rs:124-159 | One turn consumes one line: a PING is answered with one PONG, anything else decides the end |
| `ServerStages.LeadingPingsExact` | src/protocol/keepalive.rs:132-141 | The number of PINGs answered is the n for which the input is n PING lines followed by something that is not a PING line |
| `ServerStages.RunControlChannelLoop` | src/protocol/keepalive.rs:93-166 | The byte-at-a-time loop refines: answer the maximal run of PING lines, then decide by the next line or end; it always leaves the token cancelled |
| `Handler.Connection.Handle` | src/server/client_handler.rs:24-145 | The whole session for a generated challenge: replies, bind attempt and outcome are a function of the client's octets and the host's answers, independent of chunking; exactly one close; the listener runs only when a bind succeeded, and its token is then cancelled |
| `Handler.Connection.Serve` | src/server/client_handler.rs:33-144 | The same for any challenge and any decisions on octets |
| `Handler.Connection.Authenticate` | src/server/client_handler.rs:34-59 | Opening the control stream and authenticating, against its specification |
| `Handler.Connection.Configured` | src/server/client_handler.rs:61-98 | Configuration and port check, each failure with its own close reason |
| `Handler.Connection.Listening` | src/server/client_handler.rs:103-144 | Bind, control loop, close, join, against their specification |
| `Handler.BindExact` | src/server/client_handler.rs:87-107 | A bind is attempted on a port if and only if the stream opened, both server messages could be written, and the octets are: expected digest, white space, LISTENPORT with that port, and the port is in the allowed set |
| `Handler.ServedExact` | src/server/client_handler.rs:125-144 | After n PING lines exactly request, HAPPY and n PONGs have been written and the next line decides the end of the session |
| `Handler.PingsThen` | src/protocol/keepalive.rs:97-159 | The control loop on n PING lines and something else writes n PONGs, consumes what it decided on, and ends as the rest decides |
| `Outcomes.MessagesExact` | src/protocol/keepalive.rs:14-18 | PING, PONG, BYE and LISTENPORT, octet by octet |
| `Outcomes.LineDecides` | src/protocol/keepalive.rs:132-149 | A complete line ends the loop with BYE exactly if it is BYE, and as unexpected otherwise |
| `Outcomes.EndDecides` | src/protocol/keepalive.rs:124-158 | Without a complete line: a clean end is a closed connection or an unexpected partial line, a fault a failed read, silence a timeout |
| `Outcomes.PongCannotBeWritten` | src/protocol/keepalive.rs:132-141 | With fewer possible writes than PING lines, as many as possible are answered and the next one ends the loop |
| `Outcomes.UnverifiedReason` | src/server/client_handler.rs:34-59 | The reason of a session that is not authenticated: a timeout exactly if the stream did not open or the response did not arrive |
| `Outcomes.HeaderExact` | src/protocol/control.rs:34-49 | A whole header is refused as no text, or as another text than LISTENPORT, exactly when it is |
| `Outcomes.VerifiedReason` | src/server/client_handler.rs:61-133 | The reason of an authenticated session by the octets that follow: an unfinished configuration and how it ended, a port that is not allowed, cannot be bound or is served, or anything else |
| `ClientStages.ClientAuthenticate` | src/protocol/auth.rs:80-117 | Outcome and effect of the client's authentication as a function of the octets each of its two reads returned |
| `ClientStages.Answer` | src/protocol/auth.rs:98-116 | A refused request writes nothing; a usable one is answered with the digest line, and the second read decides |
| `Outcomes.RequestErrorsExact` | src/protocol/auth.rs:87-96 | Why the client refuses a request: no text, another first line, or no line after it |
| `Outcomes.ClientHearsNothing` | src/protocol/auth.rs:86 | What the client's stage comes to when nothing comes before the stream fails or falls silent |
| `Outcomes.ClientRefuses` | src/protocol/auth.rs:86-96 | What it comes to when it refuses a request, and that it writes nothing |
| `Outcomes.ClientAnswers` | src/protocol/auth.rs:98-116 | What it comes to when it finds a challenge: a response that cannot be sent, or the digest line written and a verdict read |
| `Outcomes.ReplyExact` | src/protocol/auth.rs:109-116 | How the client takes each reply: an end or fault, no text, HAPPY at the front, or a rejection |
| `ClientStages.ReadReply` | src/protocol/keepalive.rs:50-52 | A fresh buffered reader splits the stream into the reply line, the octets lost with the reader, and what remains; a line returned ends in its only newline |
| `ClientStages.PingOnce` | src/protocol/keepalive.rs:38-74 | One round of the client: a PING out, a reply in, and how the round ends |
| `ClientStages.RunKeepaliveClientLoop` | src/protocol/keepalive.rs:27-78 | Over a whole client loop: PINGs written, PONGs accepted, octets lost, and why it ended |
| `Listeners.ConnectionsAccounted` | src/server/tcp_listener.rs:37-83 | In every state of every run of any number of listeners: accepted = stream-open errors + closed with error + closed gracefully + forwarders running + accepts pending, at most one per listener |
| `Listeners.CountersExact` | src/server/tcp_listener.rs:37-77 | In every state of every run of any number of listeners each of the five counters is the number of events of its own kind |
| `Listeners.ForwardersExact` | src/server/tcp_listener.rs:50-83 | Of every listener: streams opened, forwarders spawned and forwarders running are the counts of its own events, and each forwarder has a stream |
| `Listeners.EndsOnlyWhenCancelled` | src/server/tcp_listener.rs:28-88 | The loop ends only by the branch of the token and then without an error; failed accepts and opens do not end it |
| `Listeners.OneConnectionATurn` | src/server/tcp_listener.rs:31-84 | What one turn of the loop does, and that an accept is possible whatever the token says |
| `SessionSafety.RunKeepsInv` | src/server/client_handler.rs:33-144 | The invariant of the session machine (stages, octets consumed, replies written, closes, token, listener) holds in every state of every run with any peer |
| `StageOrder.BindOnlyWhenAdmitted` | src/server/client_handler.rs:34-107 | In every run with an arbitrary peer a bind is attempted only on a port that the octets of this connection admit, and a listener exists only after a bind |
| `Entitled.BindNeedsKey` | src/protocol/auth.rs:56-116 | In every run of the server with a client of the program, whatever its key, a bind is attempted only if what the client saw of the challenge with its key is the challenge with the server's key; with a key that is not longer, only if the keys are equal |
| `StageOrder.ClosedExactlyOnce` | src/server/client_handler.rs:42-133 | Every completed handler run issued exactly one close, with the reason of the stage that failed; one that fails never has a listener; a normal one has a cancelled token and an ended listener |
| `StageOrder.RepliesFollowInput` | src/protocol/keepalive.rs:97-159 | While the loop runs the server has written request, HAPPY and one PONG for each leading PING line consumed |
| `StageOrder.PortCheckInTime` | src/server/client_handler.rs:34-98 | The two timeouts compose: with prompt timers, for any peer, at most 10 s pass from the start of a session to its verdict and at most 20 s to the check of its port or its refusal |
| `Timeouts.TimeoutExact` | src/protocol/keepalive.rs:107 | In every state of every run a timeout can fire if and only if its stage has lasted 60 s in the control loop, or 10 s before it, counted from the last verdict, bind or PONG of the run's actions |
| `Timeouts.TimeoutEnds` | src/server/client_handler.rs:51-84 | What a timeout does in each stage: it ends the loop and cancels the token, or closes the connection with the reason of its stage |
| `Timeouts.NoStageOverruns` | src/protocol/keepalive.rs:107-121 | With prompt timers the control loop never waits longer than 60 s from the bind or the last answered PING, and no stage before it longer than 10 s |
| `Timeouts.NeverCancelledInside` | src/protocol/keepalive.rs:97-121 | Nothing but the end of the control loop cancels its token: in no run can the loop take its cancelled branch |
| `Timeouts.ClientTimersExact` | src/protocol/keepalive.rs:31-52 | A PING is due exactly 30 s after the one before it, and the wait for its PONG ends exactly 30 s after it |
| `Timeouts.ClientEndsExact` | src/protocol/keepalive.rs:49-77 | Which steps of the client end it, and in which way |
| `Timeouts.TickerStartsAtOnce` | src/protocol/keepalive.rs:31-36 | The ticker starts when the client is accepted, so that the first PING is due at once, and its start stays |
| `Shutdown.NothingOpensAfterClose` | src/server/tcp_listener.rs:50-67 | After the close no data stream opens and at most one more forwarder is spawned, the one whose stream was already open |
| `Shutdown.ListenerEnds` | src/server/tcp_listener.rs:30-36 | In every infinite run with a fair listener and a fair select, the listener of a closed, cancelled session ends |
| `Shutdown.ShutdownCompletes` | src/server/client_handler.rs:126-144 | In every fair infinite run, once the control loop has ended for whatever reason, the connection is closed, the listener ends and the join returns |
| `FairRuns.FairRunExists` | src/server/client_handler.rs:125-144 | For every n there is an infinite run of both programs that meets all three fairness hypotheses and whose control loop ends after n answered PINGs |
| `Refinement.SessionIsHandlerRun` | src/server/client_handler.rs:24-145 | Every finished session of the concurrent machine, with any peer, took, wrote, bound, left its loop and closed exactly as the handler's specification says for the octets taken |
| `Composition.SetupIsSound` | src/protocol/auth.rs:38-116 | The octet decisions of the actual client and server satisfy the hypotheses of the composition |
| `Composition.RunKeepsJoint` | src/client/server_handler.rs:30-41 | The joint invariant of client and server (what each sent, took and counted) holds in every state of every run |
| `Keepalive.NothingLost` | src/protocol/keepalive.rs:39-60 | With the verdict read whole, in every reachable state no reader has dropped an octet, at most one server message is unread, and PONGs accepted <= PONGs sent <= PINGs sent <= PONGs accepted + 1 |
| `Keepalive.LostOnlyAfterSplitVerdict` | src/protocol/auth.rs:108-112 | The exact condition: only a client whose verdict read returned five octets loses octets or meets a wrong reply, and it never accepts a PONG |
| `Keepalive.ServerNeverSurprised` | src/protocol/keepalive.rs:142-149 | The server of a conforming client never leaves its loop over an unexpected line |
| `Keepalive.KeepaliveOnTime` | src/protocol/keepalive.rs:31-74 | In every state of every run with every round trip under 30 s and delays varying at will: PING k was sent exactly at t0 + 30 k s, none that is due is missing while the client runs, a client that read the verdict whole does run on, no client times out, and the server's 60 s timeout never fires unless the verdict was split |
| `Liveness.KeepaliveForEver` | src/protocol/keepalive.rs:31-74 | In every infinite run of that kind whose clock advances, once the ticker of a client that read the verdict whole has started, for every k PING k is sent at exactly t0 + 30 k s, is answered, and the answer is accepted |
| `Liveness.EndlessKeepalive` | src/protocol/keepalive.rs:97-159 | For every key, challenge and allowed port there is such an infinite run |
| `Progress.KeepaliveGoesOn` | src/protocol/keepalive.rs:97-159 | For every n, a client and server with the same key and an allowed port have a run within the timing hypotheses at whose end n PINGs are answered and the session is up |
| `Progress.SplitVerdictFails` | src/protocol/auth.rs:109-112 | A run without faults and with equal keys in which the split verdict ends the client |
| `Shipped.NeverValidated` | src/client/server_handler.rs:30-41 | For every chunking, schedule, timing and pair of keys the shipped client's session never reaches port validation |
| `Blocks.NumberOctets` | utils/connection_stress_test.py:175-176 | Unpacking a packed number in range gives the number |
| `Blocks.OctetsNumber` | utils/connection_stress_test.py:214-215 | Packing what octets unpack to gives the octets |
| `Blocks.WireLength` | utils/connection_stress_test.py:166-177 | The wire of a payload is as long as the payload plus 8 times the number of blocks, which is total / block size rounded up |
| `Blocks.ReceiveExact` | utils/connection_stress_test.py:213-228 | On an arbitrary octet stream the receiver completes with given blocks and rest if and only if the stream is the frames of those blocks, with matching checksums, followed by the rest, and the blocks just reach the target |
| `Blocks.OvershootBelowLast` | utils/connection_stress_test.py:213-228 | Blocks that just reach the target overshoot it by less than the last block |
| `Streams.JustReachesExact` | utils/connection_stress_test.py:213-228 | Blocks just reach the target when all together reach it and without the last they do not |
| `Streams.FrameLayout` | utils/connection_stress_test.py:175-177 | A frame is the length and the checksum, each in four octets with the most significant first, and the data |
| `Streams.ChunksFull` | utils/connection_stress_test.py:166-167 | Every block but the last has the block size, and the last is not longer |
| `Streams.FailuresExact` | utils/connection_stress_test.py:213-227 | The receiver reports a mismatch if and only if the stream is frames that do not reach the target and then a block whose checksum is wrong; it ends incomplete if and only if the stream ends in or right before the block after such frames |
| `Blocks.RoundTrip` | utils/connection_stress_test.py:166-228 | For every payload, every block size from 1 that the length field can hold, and every checksum, the receiver on the sender's wire raises no error, consumes it exactly and recovers the payload |
| `Transfers.Globals.NewConnectionId` | utils/connection_stress_test.py:48-52 | The id was never handed out before, as long as no prefix ends in a digit (the only one in use is "L"); the invariant on the ids handed out is kept |
| `Transfers.IdUnique` | utils/connection_stress_test.py:48-52 | An id tells its prefix and its number, if no prefix ends in a digit |
| `Transfers.DigitPrefixRepeats` | utils/connection_stress_test.py:48-52 | With a prefix that ends in a digit two different ids can be the same text |
| `Transfers.SendBlocks` | utils/connection_stress_test.py:147-192 | What was written plus the wire of what is left is the whole wire; each counted block took one drain; the first drain that fails leaves exactly one block written and not counted; with block size zero empty frames are written until a drain fails; each error occurs exactly in its case |
| `Transfers.SendOne` | utils/connection_stress_test.py:167-181 | One turn writes the next block, and counts it once the drain has succeeded, or fails before writing |
| `Transfers.ReadBlock` | utils/connection_stress_test.py:214-227 | Header and data are read as the block at the front of the octets, or its error |
| `Transfers.ReceiveBlocks` | utils/connection_stress_test.py:200-236 | Status, counted octets and, on completion, unread octets are those of the receiver's specification on the stream; the flag is raised exactly when the stream meets a corrupt block before the target |
| `Counters.BytesConserved` | utils/connection_stress_test.py:180-181 | In every state of every interleaving the global totals are the sums over all connections, and on each direction what was received is a prefix of what was sent |
| `Counters.IdsDiffer` | utils/connection_stress_test.py:48-52 | No two connection ends ever have the same id |
| `Counters.StopTestExact` | utils/connection_stress_test.py:438-442 | The monitor's stop test holds exactly when all workers are connected and every direction of every connection is complete (or nothing is to be sent), and then both totals are exactly 2 * workers * total |
| `Completion.NoErrorByItself` | utils/connection_stress_test.py:218-226 | Unless a task fails from outside, no checksum ever mismatches and the error flag stays down |
| `Completion.ErrorExact` | utils/connection_stress_test.py:267-270 | In every state of every run the error flag is up if and only if some task has failed |
| `Completion.RunsEnd` | utils/connection_stress_test.py:166-236 | Every run, with failures or without, has at most 6 * workers * (total + 1) steps, unless something is to be sent in blocks of size zero |
| `Completion.EmptyBlocksForEver` | utils/connection_stress_test.py:166-181 | And in that case there are runs of every length |
| `Completion.RestsOnlyWhenDone` | utils/connection_stress_test.py:166-177 | For all settings, a run without failures comes to rest exactly when everything is done, or, when the first block cannot be made or packed, when all have connected; when everything is done the stop test holds and no error is flagged |
| `Completion.FinishesExactly` | utils/connection_stress_test.py:166-181 | For all settings, negative block sizes included: a run without failures that transfers everything exists if and only if nothing is to be sent or the block size is at least one and fits the length field |
| `Monitor.StopMeansNoFailure` | utils/connection_stress_test.py:438-442 | With something to send, whenever the stop test holds no sender or receiver has failed |
| `Monitor.MonitorCanStopExactly` | utils/connection_stress_test.py:438-442 | In every reachable state, for all settings: some continuation satisfies the stop test if and only if there is nothing to send, or the test can finish at all and nothing has failed so far |
| `Monitor.FailuresWereListeners` | utils/connection_stress_test.py:595-604 | When the workers are done, every failure so far was on the listener's side |
| `Monitor.ProgramEndsExactly` | utils/connection_stress_test.py:595-607 | When the workers are done and something was to be sent, the monitor can still stop if and only if no task on the listener's side has failed |
| `Monitor.LateFailureRun` | utils/connection_stress_test.py:595-607 | For every checksum, a run of one worker and one octet that ends with the worker done, nothing left to happen but failures, and a monitor that can never stop |
| `Text.SplitExact` | utils/cst_datacruncher.py:71 | The pieces of a split hold no separator and joined again give the text |
| `Text.EscapeFound` | utils/cst_datacruncher.py:30 | Every sequence of the pattern is found with its length, whatever follows |
| `Text.FoundIsEscape` | utils/cst_datacruncher.py:30 | And what is found is a sequence of the pattern |
| `Text.StripExact` | utils/cst_datacruncher.py:74-75 | Stripping takes white space off both ends, and all of it |
| `Text.StripConcat` | utils/cst_datacruncher.py:30 | Removal of escape sequences distributes over concatenation after a text whose sequences are complete |
| `Metrics.MessageStrips` | utils/connection_stress_test.py:427-434 | Stripped of its escape sequences the coloured line is exactly the format the parser documents |
| `Metrics.SpeedsWithoutWord` | utils/cst_datacruncher.py:84-86 | Without the word before the speeds the text after the last bar is taken as it is |
| `Metrics.OnePartIsNothing` | utils/cst_datacruncher.py:71-73 | A message without two parts is no metrics line |
| `Metrics.PlainSample` | utils/cst_datacruncher.py:64-67 | One direction of the documented format, in full, on an example |
| `Metrics.HalfParsed` | utils/cst_datacruncher.py:77-90 | For every conversion function, the parser on one printed direction converts exactly the five printed texts |
| `Metrics.MetricsParsed` | utils/cst_datacruncher.py:61-125 | For every conversion function, parsing the stripped line converts the ten printed texts, each in its place, and fails iff one conversion fails |
| `Metrics.ShowRead` | utils/connection_stress_test.py:127-129 | A number of hundredths printed with two decimals reads back as the number |
| `Metrics.MetricsRoundTrip` | utils/cst_datacruncher.py:61-110 | For all ten non-negative two-decimal values and any conversion that reads each two-decimal numeral as its representation of the number, parsing the stripped line returns the ten representations in order |
| `Metrics.ExactRoundTrip` | utils/cst_datacruncher.py:61-110 | In exact arithmetic exactly the ten values come back |

## Left out

- QUIC and TLS endpoints, certificates and transport tuning: a connection is its control stream, its closes, and data streams that cannot be opened after a close.
- The copying between a TCP connection and a data stream: a forwarder ends well or with an error.
- SHA-512, CRC-32 and the random source: parameters of the model.
- Command line, logging, the metrics servers, plotting, `BiStream`, the iperf and shell tools: no logic of the protocol.
- The client's accept loop for data streams and its counters (`src/client/server_handler.rs:43-65`): it shares nothing with the keepalive task.
- Transport internals of a write on the control stream: a write and flush succeed as a whole or fail leaving nothing on the stream. (The stress test's writes and drains are separate steps.)
- The accept loop's `select!` is a transition system over its suspension points (`Listeners`), not a method, because its tasks interleave with the control task; so are the timeouts, which in the sequential methods are the outcome of a stream that stays silent.
- A negative total or number of workers, which the command line lets through, is taken as zero: the loops then do nothing.
- In `Session` a header that is not UTF-8 and a header that is another text are one refusal, since the handler treats them alike; `ServerStages` tells them apart.
- The cancellation branch of the control loop appears in `Session` only, where no run can take it (`Timeouts.NeverCancelledInside`).
- Per-connection speeds, percentages, timings and the statistics of the summary: floating point whose rounding is not modelled; printed values are given as texts or as hundredths.
- Metrics.MetricsRoundTrip: what a two-decimal numeral is represented by is a parameter; how a binary floating point number rounds it, and other texts that `float` accepts, are not modelled.
- The log line pattern around the message, file names and the collection of entries in `parse_log_file`: only the removal of escape sequences and the parsing of the message are modelled.
- Keepalive.KeepaliveOnTime: processing inside a task takes no time of its own; it is part of the round trip.
- Agreement.Agreement: two different inputs of the digest are assumed not to collide, for exactly the inputs compared.
