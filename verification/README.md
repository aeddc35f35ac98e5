# Tavern in Dafny

A model of the algorithms and step protocols inside the Tavern chat server, with proofs of what they
keep. `dafny verify dfyconfig.toml` checks all of it.

- **Gateway sessions.** `GatewayProtocol` is the protocol as a state machine: connect, IDENTIFY,
  RESUME, numbered dispatches with a bounded replay array, drops of slow consumers, close, orphan
  sweep. One step is one stretch of code without an `await`. Event arrays are shared by reference in
  the source (an orphan points at its closed client's array, and RESUME hands that very array on), so
  the model names arrays and the clients and orphans hold names. `Gateway` has the objects and
  methods that make those steps. `GatewayRuns` (numbering and replay), `GatewayWire` (what went out on
  the sockets) and `GatewayPresence` (connection sets) prove what holds over all runs, array by array and
  user by user, so that what goes wrong with one session says nothing of another. `GatewaySessions`
  proves whose session a RESUME takes over and how long a session waits for it. `GatewayRaces` shows
  four runs that go wrong, `GatewayFanout` is the delivery pass with its caches, and `FanoutRuns` the
  same pass with any steps of the gateway between its awaits.
- **Federation.** `CanonicalJson` is the printer that signatures are made over, with a reader as its
  specification; `CanonicalForm` proves that of all texts the reader takes the printer gives the one that
  RFC 8785 asks for; `EnvelopeSigning` is the two-layer envelope, with symbolic signatures, and its relay.
- **Dice.** `DiceNotation` has tokenizer and parser, `DiceSpelling` the notation they accept,
  `DiceRefusals` the errors they give, `DiceEvaluation` the roll.
- **Joining and lockdowns.** `ServerAccess` is the database with concurrent join requests, each split
  into its reads and its transaction, and watch ticks, each split into its rows. `InviteRuns`,
  `JoinRuns` (who gets in) and `RaidRuns` prove what holds over all runs, `RaidRaces` shows two runs of
  overlapping ticks, `AccessRoutes` has the methods that make the steps.
- **Uploads.** `MagicBytes` and `ScanPipeline`.
- **Codecs and stores.** `Ulid`, `Base32`, `Ical`, `Instream`, `EphemeralStore`.
- **Permissions.** `Permissions`, on `BigInt` (two's complement bit operations of unbounded integers).
- `JsText` (texts of UTF-16 units, their order, sorting and surrogate pairs), `DecimalText` (decimal
  numerals) and `Wrappers` (small shared types) serve the others.

## Findings

Where a promise does not hold of the code, the code is modelled as it is, a concrete case shows the
failure, and the exact condition under which the promise holds is proved.

- **A late dispatch reaches an orphan.** A closed client leaves `clients`, but a fanout or a READY that
  continues behind an `await` still holds the client and pushes into its array, which the orphan or the
  client that resumed shares. A step keeps the block of an array exactly when it does not push into this
  array while another holds it (`GatewayProtocol.DispatchBlockIff`, `GatewayRuns.StepBlockIff`), which no
  dispatch to an open client does (`GatewayRuns.OpenDispatchesAreInTime`). Otherwise a resumed client gets
  one number twice (`GatewayRaces.LateDispatchRepeatsANumber`).
- **A RESUME on a socket that has a session already mixes two numberings.** Nothing in the handler keeps a
  client from IDENTIFY, READY and then RESUME on one connection, and the replay goes out behind the frames
  of the session that is given up. The frames on the socket stay an unbroken part of one session exactly
  when nothing numbered went out on it before or, if the replay sends nothing, what went out is the head
  of what would have been replayed (`GatewayWire.StepWireIff`, which also has the case of a RESUME that
  ends on a closed socket; the run is `GatewayRaces.TakeoverRepeatsANumber`).
- **A connection may change its user.** Nothing keeps a client from identifying once more as another user;
  its session then waits for the second user, with the events that were for the first
  (`GatewayRaces.ChangedUserIsReplayed`). All events of an array are for whoever has it exactly as long as
  no greeting leaves it with a user whom some were not for and no dispatch into it is for one of several
  (`GatewaySessions.StepHeardIff`); then no RESUME replays what was for another
  (`GatewaySessions.TakeoverIsOwn`). It is enough that no connection that has the array changes its user
  (`GatewaySessions.UsersWhoStaySpoilNothing`).
- **A late IDENTIFY leaves a user present for ever.** A user's entry in the connection map is right exactly
  as long as IDENTIFY and RESUME neither make a closed socket the user's nor give an open one of the user's
  to another (`GatewayPresence.StepConnectionIff`; the case is `GatewayRaces.LateIdentifyLeavesUserPresent`).
- **Overlapping watch ticks move the end of a lockdown** with no lift between, for any row that two ticks
  read before either writes it (`RaidRuns.OverlappingTicksMoveTheEnd`), as in the run of
  `RaidRaces.OverlapRun` from an empty database, with the least threshold the route accepts. A step keeps
  a server's row right exactly when it does not trip this server while it is locked
  (`RaidRuns.StepRowIff`). One tick at a time, aborted or not, is enough for that
  (`RaidRuns.OneTickAtATime`); one worker process runs them so, two would not.
- **An overlapping watch tick may lift a lockdown before its end.** A tick lifts what it read as due when it
  started, although the row may have been lifted and tripped again since: `RaidRaces.StaleTickRun` is such
  a run, and `RaidRuns.LiftedIff` says exactly which steps lift. One tick at a time, a lockdown stands until
  a manual lift or a tick at or after its end (`RaidRuns.LockdownStands`).
- **A fold can cut a surrogate pair.** The feed is sent as UTF-8, which replaces both halves, so that a
  reader gets a well-formed line back exactly when no cut falls inside a pair
  (`Ical.FoldSurvivesUtf8Iff`; the case is `Ical.EmojiIsCut`). The comment there speaks of octets; the
  code counts UTF-16 units, and so does the model.
- **Unfolding gives lines back exactly when none but the first starts with white space**
  (`Ical.FoldLines`, `Ical.ReadIsIdentity`; the case is `Ical.SpacedLineIsJoined`). The feed's own lines
  never do.
- **The store exceeds its cap** when the cap is 0 or the oldest key is the empty string
  (`EphemeralStore.WriteStaysWithinCap` has the exact condition; the cases are
  `EphemeralStore.NoCapIsExceeded` and `EphemeralStore.EmptyKeyIsKept`). The callers in the repository
  take the default cap or another positive constant, and non-empty keys.
- **A callback that throws on a verdict makes a scan job report twice** (`ScanPipeline.OneNoticeIff` has
  the exact condition; the case is `ScanPipeline.ThrowingCallbackReportsTwice`). Neither callback in the
  repository is seen to throw synchronously.
- **Quarantining keeps the bytes exactly if the quarantine is another bucket**, the copy throws, be it with
  its effect done, or the removal throws without its effect (`ScanPipeline.QuarantineKeepsBytesIff`; the
  case is `ScanPipeline.OwnBucketLosesBytes`).
- The comment on `bufferFloor` calls a RESUME below the floor unreplayable; the code refuses only when
  the floor is above `lastSeq + 1`. The model follows the code, and `GatewayRuns.GapIffEvicted` shows
  the code to be right.

## Model

| member | source | states |
|---|---|---|
| GatewayProtocol.AppendKeepsBlock | apps/api/src/gateway/index.ts:431-449 | a push, with the shift at 256 events and the new floor, leaves exactly the events from the floor to the new last number |
| GatewayProtocol.PushedAppended | apps/api/src/gateway/index.ts:439-447 | nothing is lost between what was shifted out and what is held |
| GatewayProtocol.BlockIsContiguous | apps/api/src/gateway/index.ts:50-59 | the array is the contiguous run from floor to last number, at most 256 long |
| GatewayProtocol.AppendBreaksOtherBlock | apps/api/src/gateway/index.ts:431-449 | a push behind the back of another holder of the array always leaves that holder with a wrong floor or last number |
| GatewayProtocol.DispatchBlockIff | apps/api/src/gateway/index.ts:431-449 | a dispatch keeps the block of an array if and only if it goes into another array or nobody else holds this one |
| GatewayProtocol.OpenIsUnshared | apps/api/src/gateway/index.ts:228-243 | no other client and no orphan holds the array of an open client, if that array is in order |
| GatewayProtocol.ResumeKeepsBlock | apps/api/src/gateway/index.ts:310-349 | RESUME, taking over, refused or without an orphan, keeps the block of every array that has one, and its single holder |
| GatewayProtocol.CloseKeepsBlock | apps/api/src/gateway/index.ts:228-243 | so does parking a session on close |
| GatewayProtocol.SweepKeepsBlock | apps/api/src/gateway/index.ts:146-151 | so does sweeping orphans |
| GatewayProtocol.ReplayIsPrefix | apps/api/src/gateway/index.ts:345-348 | the replay loop hands over the events before the first send that finds the socket too slow, in order, and marks the socket as closing if there was one |
| GatewayProtocol.PassedIsFirstSlow | apps/api/src/gateway/index.ts:403-429 | where the loop stops is the first send with more than 1 MiB outstanding |
| GatewayProtocol.NextWellFormed | apps/api/src/gateway/index.ts:228-266 | orphans always belong to closed connections, and a connection has a user exactly when it is identified |
| GatewayRuns.GapIffEvicted | apps/api/src/gateway/index.ts:325-341 | the floor test is true exactly when the event behind `lastSeq` was evicted |
| GatewayRuns.AfterIsSuffix | apps/api/src/gateway/index.ts:345 | on a contiguous block the filter by number is a suffix |
| GatewayRuns.ReplayIsMissed | apps/api/src/gateway/index.ts:345-348 | what is replayed is the session's history behind `lastSeq`, numbered without gap or repetition |
| GatewayRuns.ResumeReplays | apps/api/src/gateway/index.ts:318-349 | RESUME on a live orphan whose own array is in order answers BUFFER_GAP exactly when the next event was evicted, and otherwise hands over the missed events in order up to the first slow send |
| GatewayRuns.StepBlockIff | apps/api/src/gateway/index.ts:228-457 | of all steps only a dispatch into this array while another holds it breaks its block, and it always does |
| GatewayRuns.RunKeepsBlock | apps/api/src/gateway/index.ts:228-457 | in every run with no such dispatch into this array whoever holds it is its only holder, and it is exactly floor to last number, whatever becomes of other arrays |
| GatewayRuns.OpenDispatchesAreInTime | apps/api/src/gateway/index.ts:389-449 | a run whose dispatches into the array are all on clients still open has no such dispatch |
| GatewayRuns.RunIsWellFormed | apps/api/src/gateway/index.ts:155-357 | every run reaches well-formed states only |
| GatewayWire.DispatchOnWire | apps/api/src/gateway/index.ts:403-449 | a dispatch keeps the socket's numbered frames an unbroken part of the session, complete unless the socket was too slow |
| GatewayWire.ReplayOnWire | apps/api/src/gateway/index.ts:342-348 | so does a replay on a socket with no numbered frame |
| GatewayWire.ReplayOnWireIff | apps/api/src/gateway/index.ts:342-348 | on any socket a replay does so if and only if no numbered frame is there or, where the replay sends nothing, those that are there are its head |
| GatewayWire.ResumeWireIff | apps/api/src/gateway/index.ts:310-349 | RESUME keeps the frames of an array's session right if and only if it does not take over this session on an open socket where the replay does not fit, or another one on the closed socket of this session's orphan |
| GatewayWire.StepWireIff | apps/api/src/gateway/index.ts:228-457 | a step keeps them right if and only if it is no late dispatch into the array and no such takeover |
| GatewayWire.RunKeepsWire | apps/api/src/gateway/index.ts:228-457 | so does every run with no such step for this array: on the socket that holds it the frames are in order, without loss or repetition |
| GatewayWire.SessionContinues | apps/api/src/gateway/index.ts:318-349 | if the orphan's own array is in order, what a client got on its old connection and gets on a new one with no numbered frame is together the session's events in order, all of them unless the new socket was too slow |
| GatewayPresence.GreetingIff | apps/api/src/gateway/index.ts:285-316 | IDENTIFY and RESUME keep a user's entry in the connection map right if and only if they do not make a closed socket the user's or an open socket of the user's another's |
| GatewayPresence.CloseKeepsConnection | apps/api/src/gateway/index.ts:244-266 | a close takes the socket out of its user's set and reports the user gone exactly when it was the only one |
| GatewayPresence.DisconnectIsLastSocket | apps/api/src/gateway/index.ts:251-265 | `markDisconnected` is called exactly on a close that takes a user's live sockets from one to none, and, but for such a greeting, whenever they go from one to none |
| GatewayPresence.StepConnectionIff | apps/api/src/gateway/index.ts:228-457 | the condition is exact over all kinds of steps |
| GatewayPresence.RunKeepsConnection | apps/api/src/gateway/index.ts:251-265 | in every run with no such greeting for this user the map has exactly the user's live sockets, and no empty set |
| GatewayPresence.RunKeepsPresence | apps/api/src/gateway/index.ts:251-316 | in every run whatsoever the last presence call about a user says whether the user is in the map |
| GatewayPresence.PresenceIsLive | apps/api/src/gateway/index.ts:251-316 | in such a run the user was last reported present exactly if a live socket of the user exists |
| GatewaySessions.ConnectGreets | apps/api/src/gateway/index.ts:155-177 | a new connection is open with no user, no number and an array of its own, and got HELLO unless more than 1 MiB is outstanding; nothing else changes |
| GatewaySessions.ResumeTakesOwnSession | apps/api/src/gateway/index.ts:318-357 | RESUME takes the session it names if and only if that waits for this very user and has not expired; otherwise all sessions stay and the socket gets neither number nor array nor frame of it |
| GatewaySessions.StepMovesSession | apps/api/src/gateway/index.ts:146-243 | over all steps, a session waits from the close of an identified client with events, for thirty seconds, until its user takes it in time or a sweep finds it expired, and is not touched meanwhile |
| GatewaySessions.WaitingIsParted | apps/api/src/gateway/index.ts:228-243 | in every run a session that waits has the user, the numbering and the array that its own client had when it closed |
| GatewaySessions.SessionWaits | apps/api/src/gateway/index.ts:146-349 | in every run a session waits unchanged until its user takes it in time or a sweep finds it expired |
| GatewaySessions.RunKeepsOwner | apps/api/src/gateway/index.ts:285-349 | in every run in which no connection that has an array changes its user, all connections and sessions with the array are of one user |
| GatewaySessions.RunAccounts | apps/api/src/gateway/index.ts:285-449 | in such a run every event that went into the array, evicted ones included, was for that user |
| GatewaySessions.StepHeardIff | apps/api/src/gateway/index.ts:228-449 | a step keeps all events of an array for whoever has it if and only if it neither leaves the array with a user whom some were not for nor dispatches into it for one of several |
| GatewaySessions.RunIsHeard | apps/api/src/gateway/index.ts:228-449 | so does every run of such steps |
| GatewaySessions.TakeoverIsOwn | apps/api/src/gateway/index.ts:318-349 | and in such a run whoever takes a session over is the user whom every one of its events, evicted ones included, was for |
| GatewaySessions.UsersWhoStaySpoilNothing | apps/api/src/gateway/index.ts:285-349 | a run in which no connection that has the array changes its user is one |
| GatewayRaces.LateDispatchRepeatsANumber | apps/api/src/gateway/index.ts:389-400 | a run in which a fanout ends on a closed client, after which the resumed client gets number 2 twice |
| GatewayRaces.LateIdentifyLeavesUserPresent | apps/api/src/gateway/index.ts:279-292 | a run in which an IDENTIFY ends on a closed socket and the user stays present with none |
| GatewayRaces.TakeoverRepeatsANumber | apps/api/src/gateway/index.ts:295-349 | a run in which a client that has identified and got an event resumes its old session on the same socket, which is handed number 1 twice |
| GatewayRaces.ChangedUserIsReplayed | apps/api/src/gateway/index.ts:285-349 | a run in which a connection identifies as a second user, who then resumes and is replayed the event of the first |
| Gateway.Client.SendRaw | apps/api/src/gateway/index.ts:403-429 | sends, drops when closing, or marks a slow socket as closing |
| Gateway.Client.SendDispatch | apps/api/src/gateway/index.ts:431-449 | numbers, buffers and sends one event; the array it pushes into may be shared |
| Gateway.Client.SendItems | apps/api/src/gateway/index.ts:346-348 | the replay loop makes the sends the specification lists |
| Gateway.Gateway.Connect | apps/api/src/gateway/index.ts:155-177 | makes the connect step |
| Gateway.Gateway.Identify | apps/api/src/gateway/index.ts:285-292 | makes the IDENTIFY step |
| Gateway.Gateway.Resume | apps/api/src/gateway/index.ts:310-357 | makes the RESUME step, and says whether a READY is due |
| Gateway.Gateway.Dispatch | apps/api/src/gateway/index.ts:431-449 | makes the dispatch step, on open and closed clients alike |
| Gateway.Gateway.Reply | apps/api/src/gateway/index.ts:359-365 | makes the step of an unnumbered frame |
| Gateway.Gateway.OnClose | apps/api/src/gateway/index.ts:228-266 | makes the close step |
| Gateway.Gateway.Unregister | apps/api/src/gateway/index.ts:251-265 | drops the socket from its user's set, and the set if it is empty |
| Gateway.Gateway.SweepOrphans | apps/api/src/gateway/index.ts:148-151 | the deletion loop leaves exactly the orphans that have not expired |
| GatewayFanout.ComputePresenceAudience | apps/api/src/gateway/index.ts:514-535 | the audience is exactly the other users who share a server or a direct message channel with the target |
| GatewayFanout.VisibleTo | apps/api/src/gateway/index.ts:576-644 | who may see an event, for each kind of event: presence, direct message, one user, channel (view or administrator bit), server (members and owner), and nobody for any other |
| GatewayFanout.ShouldDeliver | apps/api/src/gateway/index.ts:576-644 | with caches that hold what the queries would answer, the decision is the uncached visibility rule, and the caches stay right |
| GatewayFanout.ChannelPermissions | apps/api/src/gateway/index.ts:605-612 | the cached permissions are those of that user in that channel |
| GatewayFanout.ServerMembership | apps/api/src/gateway/index.ts:620-638 | the cached membership is that of that user, owner included |
| GatewayFanout.KeysDiffer | apps/api/src/gateway/index.ts:606-621 | cache keys of one fanout tell users apart |
| GatewayFanout.Fanout | apps/api/src/gateway/index.ts:370-401 | run without interruption, the loop with caches and precomputed audience leaves the state that the uncached rule prescribes, client by client |
| GatewayFanout.DeliversOnce | apps/api/src/gateway/index.ts:370-401 | after that loop an open client whose array is in order has the event appended once if it is identified and its user may see it, and not at all otherwise |
| GatewayFanout.PassTouchesItsClients | apps/api/src/gateway/index.ts:389-400 | the pass changes the clients it went through and the arrays they hold; no other connection, open or closed, no other array, no orphan, connection set or presence call |
| FanoutRuns.OnceEach | apps/api/src/gateway/index.ts:389-400 | whatever steps come between the awaits of a pass, other passes included, it dispatches once to each client that was identified and whose user might see the event when the pass came to it, and to no other |
| FanoutRuns.FinishedReaches | apps/api/src/gateway/index.ts:389-400 | so a client that stays open as the same user gets the event once from a finished pass if the user may see it, and not at all otherwise |
| FanoutRuns.PassIsRun | apps/api/src/gateway/index.ts:370-401 | a pass with its interleaved steps is a run of the protocol |
| FanoutRuns.PassKeepsBlock | apps/api/src/gateway/index.ts:389-449 | a pass leaves an array in order unless a client that holds it closes while its decision is awaited, or an interleaved step is late |
| FanoutRuns.FannedIsPass | apps/api/src/gateway/index.ts:389-400 | with nothing in between, the pass is the loop of `GatewayFanout.Fanout` |
| CanonicalJson.ReadQuoted | packages/federation/src/canonical-json.ts:42-43 | every string, lone surrogates and control characters included, is read back from its quoted form whatever follows |
| CanonicalJson.ReadDecimal | packages/federation/src/canonical-json.ts:39-41 | every integer is read back from its numeral unless a digit follows |
| CanonicalJson.ReadStringified | packages/federation/src/canonical-json.ts:34-58 | a canonical text within any longer text is read as the normal form of its value, and nothing behind it is touched |
| CanonicalJson.ParseCanonical | packages/federation/src/canonical-json.ts:27-58 | reading the output gives the normal form: undefined properties dropped, undefined items null, objects as maps |
| CanonicalJson.StringifyTotal | packages/federation/src/canonical-json.ts:34-58 | the printer throws exactly on values that hold a non-finite number or an unsupported type, except behind a dropped property |
| CanonicalJson.SameMeaningSameText | packages/federation/src/canonical-json.ts:44-54 | values of one normal form print alike, whatever the key order at any depth |
| CanonicalJson.CanonicalIffSameMeaning | packages/federation/src/canonical-json.ts:27-58 | two printable values print the same if and only if their normal forms are equal |
| CanonicalJson.StringifyWellFormed | packages/federation/src/canonical-json.ts:34-58 | the output never holds a lone surrogate, so that encoding it as UTF-8 loses nothing |
| CanonicalJson.SortedKeys | packages/federation/src/canonical-json.ts:49-51 | the sorted keys are strictly ascending and just the defined ones |
| CanonicalForm.EscapeLength | packages/federation/src/canonical-json.ts:42-43 | just seven units have a short escape, other controls and lone surrogates a long one, and nothing else is escaped |
| CanonicalForm.QuoteIsShortest | packages/federation/src/canonical-json.ts:42-43 | of all well-formed texts that read as a string none is shorter than the quoted form and no other is as short |
| CanonicalForm.DecimalIsShortest | packages/federation/src/canonical-json.ts:39-41 | of all texts that read as a number none is shorter than the printed one and no other is as short |
| CanonicalForm.ArrayText | packages/federation/src/canonical-json.ts:45-47 | an array prints its items in order, null for undefined, with commas and no space |
| CanonicalForm.ObjectText | packages/federation/src/canonical-json.ts:48-53 | an object prints its defined members, each once, in ascending order of their names, with colons and commas and no space |
| JsText.SortIsSorted | packages/federation/src/canonical-json.ts:49-51 | sorting distinct keys by UTF-16 units gives the same keys in strictly ascending order |
| JsText.SortedIsUnique | packages/federation/src/canonical-json.ts:49-51 | there is only one such order |
| EnvelopeSigning.BuildSucceeds | packages/federation/src/federation-message-signing.ts:70-107 | building succeeds exactly when there is one source of the user signature and both times can be written |
| EnvelopeSigning.BuiltAsAsked | packages/federation/src/federation-message-signing.ts:67-117 | a built envelope has the version, type, nonce, sender, receiver, payload and times that were asked for, five minutes being the default lifetime |
| EnvelopeSigning.AcceptedAsAsked | packages/federation/src/federation-message-signing.ts:67-202 | and a receiver that accepts it gets just these |
| EnvelopeSigning.VerifiedIff | packages/federation/src/federation-message-signing.ts:147-202 | any object is accepted as an envelope if and only if every field has its form, it is in time by a minute of grace, and author and peer have signed it |
| EnvelopeSigning.RefusedIff | packages/federation/src/federation-message-signing.ts:170-199 | a well-formed object is refused as expired exactly if it is out of time, for the user layer exactly if that is wrong and it is in time, and for the instance layer only if the user layer is right |
| EnvelopeSigning.BuiltVerdict | packages/federation/src/federation-message-signing.ts:67-202 | the verdict on a built envelope at any receiver, over all failure kinds in their order |
| EnvelopeSigning.FreshEnvelopeVerifies | packages/federation/src/federation-message-signing.ts:67-202 | under the matching keys a freshly signed envelope verifies exactly within its window, extended by the skew at both ends, if the window lies in the years the wire schema can read |
| EnvelopeSigning.ReceivedPayload | packages/federation/src/federation-message-signing.ts:152-170 | the payload parsed from the wire has the meaning of the one sent |
| EnvelopeSigning.SameSignatureSameEnvelope | packages/federation/src/federation-message-signing.ts:192-199 | two accepted envelopes with one instance signature agree on every other field, the payload up to its meaning |
| EnvelopeSigning.SingleLayerIsRejected | packages/federation/src/outbox-dispatcher.ts:267-290 | a single-layer envelope is never taken for a two-layer one |
| EnvelopeSigning.DispatchSucceeds | packages/federation/src/outbox-dispatcher.ts:162-194 | an envelope goes out unless a job asks for a single layer and a preserved signature at once or the window is no date, and has one layer exactly if asked |
| EnvelopeSigning.DispatchedAsAsked | packages/federation/src/outbox-dispatcher.ts:166-291 | what goes out, single layer included, is from this host to the peer with the type and payload of the job; its user layer is the preserved signature or the author's own, and the instance has signed all the rest |
| EnvelopeSigning.RelayKeepsUserLayer | packages/federation/src/outbox-dispatcher.ts:162-194 | along any chain of relays the user signature stays and the payload keeps its meaning |
| EnvelopeSigning.RelayedVerifies | packages/federation/src/outbox-dispatcher.ts:175-183 | the last peer of any chain accepts exactly within the window of the last hop, in those years, the author's signature still verifying |
| DiceNotation.Tokenizer.Match | packages/shared/src/dice.ts:79-86 | advances behind "kh" or "kl" in any case, or stays |
| DiceNotation.Tokenizer.ReadInteger | packages/shared/src/dice.ts:94-103 | reads the digits behind any white space as the specification does |
| DiceNotation.ParseTerm | packages/shared/src/dice.ts:166-233 | the term, or the error and its position, of the specification |
| DiceNotation.ParseLoop | packages/shared/src/dice.ts:137-157 | the loop gives the terms or the first error of the specification; each pass consumes a character, so it ends |
| DiceNotation.ParseDiceNotation | packages/shared/src/dice.ts:110-164 | the whole parser, trimming and length check included, gives the specified result or error position |
| DiceSpelling.SpellingIsParsed | packages/shared/src/dice.ts:110-233 | every spelling of terms within the limits, with white space where the grammar has it, is parsed as just those terms |
| DiceSpelling.PrintedIsParsed | packages/shared/src/dice.ts:110-233 | every non-empty list of terms within the limits is what the parser makes of its printed form, with any white space around the signs and at the ends that stays within the length limit |
| DiceSpelling.PrintAndParse | packages/shared/src/dice.ts:110-164 | the same of the parser as it is called, under the limits that are configured |
| DiceSpelling.AcceptedIsSpelling | packages/shared/src/dice.ts:110-233 | every accepted text is such a spelling, and its terms are within all limits |
| DiceSpelling.ParserAcceptsSpellings | packages/shared/src/dice.ts:110-233 | the parser returns given terms on a text if and only if the text spells them and they are within the limits |
| DiceRefusals.Letters | packages/shared/src/dice.ts:79-103 | what the notation is written in: both cases of its letters, the Kelvin sign for a k, and the white space of ECMAScript |
| DiceRefusals.RollRefused | packages/shared/src/dice.ts:137-233 | a spelled list of terms that is not within the limits is refused for its first fault, each term being checked for itself and then the dice so far |
| DiceRefusals.MissingInteger | packages/shared/src/dice.ts:166-228 | the error where an integer is missing at the start of a term, behind d or behind kh and kl |
| DiceRefusals.EmptyOrTooLong | packages/shared/src/dice.ts:110-124 | blank and overlong notations are refused as such |
| DiceRefusals.StrayCharacter | packages/shared/src/dice.ts:150-155 | behind a term there must be the end or a sign |
| DiceEvaluation.SortIndices | packages/shared/src/dice.ts:271-274 | the stable sort orders all dice by value, ties as they were rolled |
| DiceEvaluation.KeepDice | packages/shared/src/dice.ts:270-280 | exactly the asked number of dice is kept, with the highest or lowest sum of all choices of that many, and among equal dice the first |
| DiceEvaluation.NoChoiceIsBetter | packages/shared/src/dice.ts:270-280 | any choice of as many dice can be exchanged into the kept one, never for the worse |
| DiceEvaluation.RollTerm | packages/shared/src/dice.ts:254-297 | a term's rolls are in range, come from the random source in order, and its subtotal is the signed sum of the kept dice |
| DiceEvaluation.Evaluate | packages/shared/src/dice.ts:249-300 | every term has such a result, draws follow one another over the terms, and the total is the sum of the subtotals |
| DiceEvaluation.TotalIsDifference | packages/shared/src/dice.ts:249-300 | the total is what the added terms come to, less what the subtracted ones do |
| DiceEvaluation.DicePartBounded | packages/shared/src/dice.ts:249-300 | whatever is rolled, the dice part stays within the most dice times the most faces |
| DiceEvaluation.EvaluateDiceNotation | packages/shared/src/dice.ts:249-300 | all of this for every accepted notation, and the parser's error otherwise |
| DiceEvaluation.RollNotation | packages/shared/src/dice.ts:249-300 | under the configured limits the dice part is between -100000 and 100000 |
| InviteRuns.RunKeepsInvites | apps/api/src/routes/invites.ts:285-376 | in every interleaving of joins, revocations, bans and lockdowns an invite's uses are the joins committed through it, never more than its maximum |
| InviteRuns.StepKeepsInvites | apps/api/src/routes/invites.ts:285-376 | every step keeps that, and what a request has read of its invite stays true of what cannot change |
| InviteRuns.CommitIffOpen | apps/api/src/routes/invites.ts:347-376 | a step commits a join if and only if the invite is open at that moment and the user is then neither banned nor a member; the commit is that join's |
| InviteRuns.ShutInviteIsFrozen | apps/api/src/routes/invites.ts:355-368 | once an invite is revoked or has expired no request commits through it, whatever it read before |
| JoinRuns.UninterruptedJoin | apps/api/src/routes/invites.ts:285-376 | a request with nothing in between ends with the refusal that is due, nothing else changed, or with the member, the use and the timeout it should have |
| JoinRuns.JoinedIffWelcome | apps/api/src/routes/invites.ts:285-376 | it lets the user in if and only if the invite is open at the commit and belongs to a server that takes the user |
| JoinRuns.WelcomeJoins | apps/api/src/routes/invites.ts:285-376 | in every run a request that is welcome at each of its own stretches joins by the fifth, whatever comes in between |
| RaidRuns.StepRowIff | apps/worker/src/index.ts:208-279 | of all steps, with config edits, lifts, joins and other ticks between the rows of a tick, only the trip of this server while it is locked breaks its row, and it always does |
| RaidRuns.RunKeepsRow | apps/worker/src/index.ts:199-279 | in every run with no such trip of this server its lockdown is active exactly when its end is set, the end is the tripping tick and 15 minutes, and two trips have a lift between |
| RaidRuns.RunKeepsEnds | apps/worker/src/index.ts:199-279 | in every run whatsoever a lockdown is active exactly when its end is set |
| RaidRuns.OneTickAtATime | apps/worker/src/index.ts:315-318 | ticks that start only when none is under way, aborted ones counting as over, make no such trip in any run |
| RaidRuns.TripKeepsRowIff | apps/worker/src/index.ts:257-262 | a trip keeps the row right if and only if the row it writes is not locked at that moment |
| RaidRuns.EndChangesByLiftOnly | apps/worker/src/index.ts:233-262 | any other step leaves an active lockdown with its end, or lifts it |
| RaidRuns.LiftedIff | apps/worker/src/index.ts:233-250 | a step lifts a lockdown if and only if it is a manual lift or a tick comes to the row, which it read as locked with an end that had come |
| RaidRuns.LockedIff | apps/worker/src/index.ts:252-262 | a step locks a server if and only if a tick comes to its row, which it read as not locked, with joins enough in the window |
| RaidRuns.LockdownStands | apps/worker/src/index.ts:233-250 | in every run with one tick at a time a lockdown stands with its end until a manual lift or a tick at or after that end |
| RaidRuns.TickLiftsDue | apps/worker/src/index.ts:232-250 | a lockdown that is due when a tick starts is lifted before that tick is over, whatever runs in between, other ticks included, unless that tick aborts |
| RaidRuns.LiftKeepsRow | apps/api/src/routes/raid-protection.ts:93-105 | a manual lift, needed or not, keeps the row right |
| RaidRuns.PutKeepsRow | apps/api/src/routes/raid-protection.ts:68-90 | a config edit stores the four settings, leaves every lockdown as it is and starts a new row with none |
| RaidRuns.RaidReadCarriesEnd | apps/api/src/routes/invites.ts:323-339 | a join that reads an active lockdown is refused if joins are paused, and carries the lockdown's end otherwise; the one-hour fallback is never used |
| RaidRuns.RunKeepsLockdowns | apps/api/src/routes/invites.ts:323-375 | in every run, overlapping ticks included, each commit shows the lockdown its request read |
| RaidRuns.LockdownTimesOut | apps/api/src/routes/invites.ts:323-375 | in every run, overlapping ticks included, a join that read an active lockdown ends refused, or with a member timed out until the end it read |
| RaidRuns.OverlappingTicksMoveTheEnd | apps/worker/src/index.ts:205-262 | any two ticks that read an unlocked row before either writes it, with joins enough for both, trip it twice and move its end |
| RaidRaces.OverlapRun | apps/worker/src/index.ts:205-262 | a run from the empty database that does so, at the least threshold the route accepts |
| RaidRaces.StaleTickRun | apps/worker/src/index.ts:205-262 | a run in which a tick that read an old lockdown as due lifts a new one a quarter of an hour before its end |
| AccessRoutes.Database.Transaction | apps/api/src/routes/invites.ts:347-376 | the transaction commits the join, or names the refusal and leaves everything as it was, the increment rolled back |
| AccessRoutes.Database.AdvanceJoin | apps/api/src/routes/invites.ts:289-376 | makes the next step of a request |
| AccessRoutes.Database.Revoke | apps/api/src/routes/invites.ts:270-273 | makes the revoke step |
| AccessRoutes.Database.PutConfig | apps/api/src/routes/raid-protection.ts:73-88 | makes the config step |
| AccessRoutes.Database.Lift | apps/api/src/routes/raid-protection.ts:97-105 | makes the lift step, a no-op without a row |
| AccessRoutes.Database.WatchRow | apps/worker/src/index.ts:232-278 | makes the step for one row |
| AccessRoutes.Database.WatchTick | apps/worker/src/index.ts:204-279 | the loop does row after row of its snapshot what the specification says |
| AccessRoutes.TickedIsSteps | apps/worker/src/index.ts:208-279 | an uninterrupted tick is the run of its single steps |
| MagicBytes.SignatureMatches | packages/media/src/pipeline.ts:140-147 | true exactly if the bytes stand at their offset |
| MagicBytes.CheckMagic | packages/media/src/pipeline.ts:149-170 | true exactly if some candidate of the declared type matches as a whole, or the type is none of the table and no medium |
| MagicBytes.HeadIsEnough | packages/media/src/pipeline.ts:192-194 | the first 64 bytes decide as the whole content would |
| MagicBytes.PassesIff | packages/media/src/pipeline.ts:103-170 | content passes as a type of the table if and only if it begins as the standard of that format says, and as any other type if and only if that is no picture, video or sound |
| MagicBytes.TellsApart | packages/media/src/pipeline.ts:88-147 | no content passes as two formats, the two RIFF formats included, unless one of them has an ftyp box |
| MagicBytes.GifAndFilm | packages/media/src/pipeline.ts:103-147 | eight bytes that pass as a picture and as a film |
| ScanPipeline.QuarantineKeepsBytesIff | packages/media/src/pipeline.ts:313-324 | after the copy the bytes are in one of the two buckets, and after the removal too if and only if the quarantine is another bucket, the copy threw, or the removal threw without effect |
| ScanPipeline.OneNoticeIff | packages/media/src/pipeline.ts:284-342 | a job on a fresh upload leaves exactly one notification if and only if the callback does not throw on a verdict |
| ScanPipeline.StatusIff | packages/media/src/pipeline.ts:191-342 | each status, reason and thumbnail if and only if the head, the scanner, the policy and the image are such |
| ScanPipeline.JobStores | packages/media/src/pipeline.ts:237-334 | what a job makes of the bytes for each status: untouched, re-encoded with a thumbnail, removed, or moved to quarantine; a failed upload is still there, and no other slot changes |
| ScanPipeline.JobOnOther | packages/media/src/pipeline.ts:172-184 | a job for another upload, or a rerun, touches neither the row nor its notifications, whatever its callback does |
| ScanPipeline.FirstJobSettles | packages/media/src/pipeline.ts:172-305 | over any run of jobs, with storage, scanner and callbacks failing at will, an upload comes to one terminal status by its first job, whose reports are its only notifications |
| ScanPipeline.ThrowingCallbackReportsTwice | packages/media/src/pipeline.ts:296-304 | a job whose callback throws reports ready and then failed |
| ScanPipeline.OwnBucketLosesBytes | packages/media/src/pipeline.ts:313-324 | with the upload's own bucket as quarantine the bytes are gone |
| ScanPipeline.ReadyWasChecked | packages/media/src/pipeline.ts:191-300 | a ready attachment passed the magic check and was clean, or unscanned where that is allowed, and its only notification says ready |
| ScanPipeline.Pipeline.Reject | packages/media/src/pipeline.ts:307-342 | writes the status, notifies, and moves or removes the bytes as that status asks; the states of storage in between are recorded |
| ScanPipeline.Pipeline.NormaliseImage | packages/media/src/pipeline.ts:237-273 | replaces the image and adds the thumbnail, or fails, touching nothing else |
| ScanPipeline.Pipeline.TryScan | packages/media/src/pipeline.ts:191-300 | comes to the status due with a notification, or to the call that throws without one |
| ScanPipeline.Pipeline.RunScanJob | packages/media/src/pipeline.ts:172-305 | one job: nothing for a row that is no fresh upload, otherwise the status due and one notification, a second one exactly if the callback threw on a verdict |
| Ulid.EncodeTime | packages/shared/src/ulid.ts:31-40 | the ten base-32 digits of the timestamp |
| Ulid.IncrementRandomDigits | packages/shared/src/ulid.ts:51-63 | the carry loop: the incremented digits, or fresh ones on overflow |
| Ulid.IncrementedIsPlusOne | packages/shared/src/ulid.ts:51-63 | the carry loop adds one to the number the digits spell, and gives up exactly at the largest one |
| Ulid.Generator.Next | packages/shared/src/ulid.ts:65-76 | the identifier and the new state of the generator |
| Ulid.LettersOrder | packages/shared/src/ulid.ts:31-49 | comparing two texts of one width as strings compares the numbers they spell |
| Ulid.NextIdIsLarger | packages/shared/src/ulid.ts:65-76 | the next identifier is the larger text if and only if time moved on, or stood still with no overflow |
| Ulid.RandomPart | packages/shared/src/ulid.ts:42-76 | the random letters are one more than the last ones within one millisecond, if those were not at their maximum, and otherwise five bits of each byte drawn |
| Ulid.RunStrictlyIncreasing | packages/shared/src/ulid.ts:51-76 | over any run with time that does not go back and no overflow all identifiers ascend, and so differ |
| Ulid.IdIsWellFormed | packages/shared/src/ulid.ts:65-97 | every identifier has the form that is checked for, and its timestamp reads back |
| Ulid.IsUlid | packages/shared/src/ulid.ts:78-84 | true exactly for 26 characters of the alphabet |
| Ulid.UlidTimestamp | packages/shared/src/ulid.ts:87-97 | fails exactly on short texts and foreign characters, and is otherwise the number that the first ten characters spell |
| Base32.Encode | apps/api/src/lib/totp.ts:15-25 | the letters spell the bits of the bytes and fewer than five zeros, ceil(8n/5) of them |
| Base32.Decode | apps/api/src/lib/totp.ts:27-39 | fails exactly on a foreign letter, and otherwise gives the whole bytes of the letters' bits |
| Base32.DecodeOfEncode | apps/api/src/lib/totp.ts:15-39 | whatever the decoder makes of an encoder's text is the encoder's bytes |
| Base32.RoundTrip | apps/api/src/lib/totp.ts:15-39 | decoding the encoding of any bytes gives them back |
| Base32.CaseIsIgnored | apps/api/src/lib/totp.ts:29 | the decoder takes small letters for capitals |
| Base32.PaddingIsDropped | apps/api/src/lib/totp.ts:29 | padding is left out wherever it stands |
| Base32.WriteLetters | apps/api/src/lib/totp.ts:19-23 | the second loop of the encoder, five bits a letter, the last group filled up |
| Base32.ReadLetters | apps/api/src/lib/totp.ts:29-33 | the first loop of the decoder, and when it throws |
| Base32.PackBytes | apps/api/src/lib/totp.ts:35-37 | the second loop of the decoder drops fewer than eight bits |
| Ical.FoldLine | apps/api/src/routes/ical.ts:37-50 | the pieces of a line are cut behind 75 units and then every 74, each at most 75 long, and joined without their leading spaces are the line |
| Ical.FoldLines | apps/api/src/routes/ical.ts:34-52 | unfolding the text reads as the lines would, is the lines exactly if no later one starts with white space, and no physical line is longer than 75 units |
| Ical.ReadIsIdentity | apps/api/src/routes/ical.ts:34-52 | a reader of physical lines gets the lines back exactly when none but the first starts with white space |
| Ical.SplitJoin | apps/api/src/routes/ical.ts:51 | joining by CRLF is undone by splitting |
| Ical.FoldWellFormedIff | apps/api/src/routes/ical.ts:42-49 | the pieces of a well-formed line are well-formed if and only if no cut falls inside a surrogate pair |
| Ical.FoldSurvivesUtf8Iff | apps/api/src/routes/ical.ts:34-52 | a reader that unfolds the pieces as UTF-8 carries them gets the line back if and only if no cut falls inside a pair |
| Ical.EmojiIsCut | apps/api/src/routes/ical.ts:42-49 | 74 letters and an emoji do not come back |
| Ical.SpacedLineIsJoined | apps/api/src/routes/ical.ts:34-52 | a second line that starts with a space does not come back |
| Ical.EscapeIsPerUnit | apps/api/src/routes/ical.ts:21-27 | the four replaces act as one pass, one unit or one CRLF at a time |
| Ical.EscapeLetters | apps/api/src/routes/ical.ts:21-27 | CRLF and line feed become backslash and n, and just backslash, semicolon and comma get a backslash |
| Ical.EscapeRoundTrip | apps/api/src/routes/ical.ts:21-27 | unescaping gives the text with CRLF turned into LF |
| Ical.EscapeDistinguishes | apps/api/src/routes/ical.ts:21-27 | two texts escape alike exactly if they are equal up to CRLF and LF |
| Ical.EscapeHasNoLineFeed | apps/api/src/routes/ical.ts:21-27 | an escaped text may stand on a line that is folded |
| Instream.Scan.OnData | packages/media/src/scanner.ts:74-86 | one data event keeps everything received in the frames or the buffer, in order |
| Instream.Scan.OnEnd | packages/media/src/scanner.ts:88-96 | at the end the frames hold exactly the input and decode back to themselves |
| Instream.ScanStream | packages/media/src/scanner.ts:61-96 | however the input is split, decoding what was sent gives back the input, in frames of 1 to chunkSize bytes and one terminator |
| Instream.DecodeFrames | packages/media/src/scanner.ts:66-72 | the reader takes back the frames one by one and goes on with what follows |
| Instream.DecodeIff | packages/media/src/scanner.ts:61-96 | a stream is read as given frames if and only if it is these frames, each not empty, and then the empty one with nothing behind |
| Instream.BigEndianRoundTrip | packages/media/src/scanner.ts:67-68 | a number that fits is read back from its big-endian bytes |
| EphemeralStore.InMemoryEphemeralStore.Get | apps/api/src/lib/ephemeral-store.ts:53-61 | the value of the key's row if there is one that has not expired, and nothing otherwise; an expired row of the key is gone, all others stay |
| EphemeralStore.InMemoryEphemeralStore.Set | apps/api/src/lib/ephemeral-store.ts:63-72 | sweep, eviction and write, in that order |
| EphemeralStore.InMemoryEphemeralStore.Delete | apps/api/src/lib/ephemeral-store.ts:74-76 | the rows of other keys stay, in their order, and no others |
| EphemeralStore.InMemoryEphemeralStore.GcExpired | apps/api/src/lib/ephemeral-store.ts:78-83 | deleting while iterating leaves exactly the rows that have not expired |
| EphemeralStore.RunKeepsInv | apps/api/src/lib/ephemeral-store.ts:53-83 | what holds over every run: the cap, insertion order, rows that agree with an uncapped map, nothing missing before the first eviction |
| EphemeralStore.RunAnswersLikeUncapped | apps/api/src/lib/ephemeral-store.ts:53-83 | at any point of a run a value that is handed out is the uncapped map's, and until the first eviction every answer is |
| EphemeralStore.EvictsOldestOnly | apps/api/src/lib/ephemeral-store.ts:63-72 | a write evicts at most the row inserted first, and only when cap other live rows exist |
| EphemeralStore.WriteStaysWithinCap | apps/api/src/lib/ephemeral-store.ts:63-72 | the exact condition under which a write leaves the map within its cap |
| EphemeralStore.NoCapIsExceeded | apps/api/src/lib/ephemeral-store.ts:65-70 | with cap 0 the first write leaves one row |
| EphemeralStore.EmptyKeyIsKept | apps/api/src/lib/ephemeral-store.ts:65-70 | with cap 1 an oldest key that is empty is not evicted, and two rows are left |
| Permissions.ComputeBasePermissions | packages/shared/src/permissions.ts:181-193 | every bit is as the rule says: from everyone or any role, all flags for owner and administrator |
| Permissions.ComputeChannelPermissions | packages/shared/src/permissions.ts:196-232 | every bit is as the rule says: user allow, else not user deny and any role allow, and so on down to the base |
| Permissions.LayersDecide | packages/shared/src/permissions.ts:181-232 | the layers decide in their order, own overwrite, roles, everyone, base, allow before deny in each, and owner and administrator pass them all |
| Permissions.CombineOverwrites | packages/shared/src/permissions.ts:214-223 | the combined denies and allows have a bit exactly if some role overwrite has it |
| Permissions.OrderAndDuplicatesDoNotMatter | packages/shared/src/permissions.ts:196-232 | contexts with the same roles and overwrites as sets have the same mask |
| Permissions.AddingARole | packages/shared/src/permissions.ts:196-232 | adding a role removes a bit exactly when the role makes the member an administrator and the bit is no declared flag |
| Permissions.AddingARoleKeepsFlags | packages/shared/src/permissions.ts:196-232 | so no declared flag is ever removed |
| Permissions.CanIsBitwise | packages/shared/src/permissions.ts:234-237 | a check for one flag reads that bit or the administrator bit, and every check passes on the full mask |
| Permissions.PermissionAllBits | packages/shared/src/permissions.ts:98-101 | the full mask has exactly the declared flags |
| BigInt.AndBit | packages/shared/src/permissions.ts:141-143 | the bit of `a & b`, for negative numbers too |

## Left out

- HTTP and WebSocket wiring, schemas, token checks, database queries, logging, audit entries and rate limits: no algorithm of their own.
- Cryptography: signatures are symbolic, a signature verifying exactly under its signer's key for the bytes signed; UTF-8, base64 and ISO dates are abstract encodings, of which only what `EnvelopeSigning.Sound` says is used.
- JSON numbers other than integers, negative zero, Date objects and own keys of prototypes: the printer is modelled on plain values with integers.
- Gateway.Gateway.Connect: connection ids are taken to be new, which `Ulid.RunStrictlyIncreasing` shows of their generator.
- Gateway heartbeats, the two timeouts and the close after a ban only call `close` on a socket; the close itself is a step. Loss of frames on the network is the reader's choice of how much of a socket's frames arrived.
- GatewayFanout.Fanout: the method runs without interruption, and the passes with steps between the awaits are FanoutRuns.
- FanoutRuns.OnceEach: membership and permissions do not change during one pass; a pass may take its clients up in any order.
- Getting a channel's permissions for a user is a table in GatewayFanout; the bit rule behind it is in Permissions.
- InviteRuns.RunKeepsInvites: transactions are atomic, invites are not deleted, and only the join route redeems them; registration and federated redemption are other code.
- RaidRuns.RunKeepsRow: a tick's count and its update are one step, and rows are not deleted.
- ScanPipeline.FirstJobSettles: database updates do not fail, and two jobs do not overlap.
- Image decoding, thumbnails and the placeholder waveform: the bytes they produce are given by the environment.
- Instream.ScanStream: a chunk size from 1 to below 2^32, and back-pressure of the socket is ignored as in the source.
- DiceEvaluation.Evaluate: integers are unbounded, so nothing is said of values above 2^53; the random source is any function into the range.
- Lower-casing beyond what can give "k", "h" or "l" and upper-casing beyond ASCII in base32.
- Ulid.RunStrictlyIncreasing: timestamps are below 32^10 and do not run backwards, and the random part does not overflow; `Ulid.NextIdIsLarger` is the exact condition for two calls.
- The Redis store, HOTP codes, `pruneInBatches`, mirrors, bans, mentions and all user interfaces.
