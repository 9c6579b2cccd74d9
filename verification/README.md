# Verification of the remote-desktop control stack

This project models the parts of the repository where state, protocol and arithmetic meet, and proves what
they keep.  Every `.dfy` file belongs to the one project; `dafny verify dfyconfig.toml` checks all of it.

| part | files |
|---|---|
| Server session registry: five maps, ten operations, numbered signalling | `RegistryModel`, `RegistryProofs`, `RegistryConnections`, `RegistryTheorems`, `RegistryEffects`, `RegistryService` |
| One-time codes: format, hashing, records; the server's store; the host's policy | `OtpCodes`, `OtpStore`, `HostAuth` |
| Session manager: attach, authorization, identity challenge, input gate | `ManagerModel`, `ManagerProofs`, `ManagerEffects`, `ManagerService` |
| Agent: control state in step with the manager | `AgentModel`, `AgentProofs`, `AgentCommands`, `AgentTraffic`, `Candidates`, `AgentService` |
| Control connection: request, reply, drain over two queues; boot secret | `ControlLoop`, `ControlCandidates`, `ControlService`, `ControlEffects` |
| Identity messages, hex, transcripts | `DcMessage`, `DcJson`, `Transcript` |
| Luhn device ids | `DeviceId` |
| Adaptive jitter buffer | `JitterModel`, `JitterProofs`, `JitterTransit`, `JitterService` |
| Lock-free histogram | `Histogram` |
| Inventory parser | `InventoryText`, `InventoryScan`, `InventoryTokens`, `InventoryAttributes`, `InventoryModel`, `InventoryService`, `InventoryTheorems`, `InventoryInstances`, `InventoryUse`, `InventoryImpl` |

A `...Model` file holds the state as a value and each operation as a transition on it; a `...Service` file holds
the class or the loops as the program has them, each method proved to make its transition; the other files prove
what holds over whole runs.  `Common` and `Text` hold shared types and string functions.

## How the code is read

- A lock-protected method of the server is one atomic step.  A channel send appends to a log together with the
  recipients that took it; a connection may stop receiving at any step.
- Connection ids and the ids of stored codes are drawn from a counter before the lock is taken
  (apps/server/src/session.rs:153-160, apps/server/src/otp.rs:89-116).  The model draws and stores in one step, so
  it leaves out that two concurrent mints may store in the opposite order of their ids.
- The registry's steps are whatever its public methods allow.  Only `RegistryConnections` assumes more, what the
  socket handler sees to (apps/server/src/routes/ws.rs): a socket is registered (line 47) before its one hello
  (lines 206, 323-326), and only viewers ask for a session (lines 334-339).
- The histogram's counters are `Ordering::Relaxed` (packages/common/src/metrics.rs:126-148, 422-434).  The model
  interleaves their operations in one order that all threads see, which is sequential consistency.  What is
  proved of a scrape rests on that: on weak memory a scrape may miss additions of calls that have long returned,
  and then neither the condition nor the bound need hold.  The final value of each counter does not depend on it.
- Clocks, random draws, transport answers, decoder and injector results are parameters.  Where the code iterates
  over a hash map, the order is a parameter too, constrained only to enumerate the right elements.
- What the transport hands over is up to it: candidates at any time to a manager, and behind the control loop while
  a command is carried out, at the poll after it and at the media pump.  The manager's buffer of candidates carries a
  tag in the model, the session attached when each came in; the program has only the candidates.
- Data messages are taken from the transport's buffer by a poll, with contents that are arbitrary.  That buffer,
  too, outlives a session: "in the session" means the one attached when the message is taken, not when it arrived.
- A request of the control client can be given up at any point, as on a read timeout
  (apps/host/src/control_loop.rs:80), and the client used again, as apps/host/src/ws_session.rs:1094 does.  A
  message is read whole or not at all.
- HMAC-SHA256 and SHA-256 are arbitrary functions.  Statements about wrong codes say that acceptance needs a
  collision; they do not say that there is none.
- Session ids and fingerprints in the agent are given as their UTF-8 bytes, below 2^32 of them as the encoders
  demand.  A payload that is not UTF-8 is `None`.
- Timestamps of the server's store are nanoseconds; `DateTime::timestamp` is the floor of the second.
- `u64` counters saturate where the code says so.  In the jitter buffer the casts to `i64` wrap as in a release
  build.  Brace depths, the Luhn sum and the histogram's counters are unbounded.
- Observed values and their sum in the histogram are exact reals in place of `f64`.
- Error texts are reduced to codes, one per branch.
- A source file for the inventory is the sequence of its lines.

## Where code and claim differ

The model follows the code.  In these places that is not what the documentation says or what a reader would
expect, and the table has a concrete input and the exact condition for each:

- `signal_seq` stops increasing at `u64::MAX`, and one accept can bring a session there
  (`RegistryTheorems.CeilingRepeats`, `CeilingIsReachable`, `NumbersRise`).
- In the last second of a stored code the right code is rejected and counted as a miss
  (`OtpStore.LastSecondRefusesTheRightCode`, `AcceptedExactlyWhen`).
- The unattended latch, documented to be cleared by local re-enabling only, is lost in the control loop with the
  agent that holds it: at a detach or shutdown of the attached session and at every new connection, and at no other
  step (`ControlLoop.LatchHoldsExactlyUntilForgotten`, `ReconnectForgetsTheLatch`,
  `ControlService.KillThenDetachReopensUnattended`).
- A local ICE candidate may leave under the id of a session it was not gathered in: the buffer it waits in is
  cleared by no attach, detach or kill (`Candidates.LeavesUnderAnotherSessionExactlyWhen`; behind the control loop
  `ControlCandidates.LeavesUnderAnotherSessionExactlyAfterKill`, `KilledSessionsCandidateLeavesWithTheNext`).
- A request that the service gives up leaves its answer behind for the next one
  (`ControlLoop.LateReplyAnswersTheNextRequest`, `InSyncExactlyUntilAbandoned`).
- The jitter estimate is called an exponentially weighted average of the variation, but it never falls: a smaller
  change of transit leaves it where it is (`JitterProofs.JitterFollowsTheRfcUpward`, `JitterTransit.JitterNeverFalls`,
  `PushRaisesExactlyWhen`).
- A jitter target with a fraction of a microsecond can move away from the desired value
  (`JitterProofs.SubMicrosecondTargetDrifts`, `AdaptationMovesTowardDesired`, `WholeConfigNeverDrifts`).
- A test module closed on its own line makes the inventory skip what follows; a `pub mod`, or a module on the line
  of its attribute, is not skipped (`InventoryTheorems.SkipStartsExactlyWhen`, `BalancedTestModuleHidesTheRest`,
  `TestModuleIsSkipped`, and the instances in `InventoryInstances`).
- `#[cfg(all(...))]` with `test` as its last or only condition is not taken for a test attribute
  (`InventoryAttributes.AllRecognisedExactlyWhen`, `TestAsLastConditionIsMissed`).
- Character literals and block comments are code to the inventory's scanner, so `'"'` hides what follows and a brace
  in one shifts the depth (`InventoryTokens.QuoteLiteralOpensAString`, `LiteralMovesTheDepth`,
  `BraceInCommentMovesTheDepth`; on all other lines `ScanAgreesWithTokens`).
- While calls are under way the histogram's buckets need not be cumulative
  (`Histogram.ScrapeCanSeeDisorder`, `ScrapeIsCumulativeExactlyWhen`).
- Taken by itself the registry does not keep its presence map in line with its connections; with the socket handler
  in front of it, it does (`RegistryConnections.LateHelloPublishesNobody`, `HelloKeepsLinkedExactlyWhen`,
  `IntentKeepsLinkedExactlyWhen`, `FiveMapsAgree`).

## Main results

The table below has a row for every member that states something about the source.  These are the results the rest
builds up to:

- Registry: `RegistryProofs.EveryRunKeepsInv`, `RegistryConnections.FiveMapsAgree`,
  `RegistryTheorems.LockIsInverseOfSessions`, `NumbersRise`, `RecipientStream`, `RelayOutcome`,
  `UnregisterTellsSurvivors`, `ReplacedStaysReplaced`; `RegistryEffects.RelayAcceptedExactlyWhen`,
  `OffersGoToTheViewer`, `CreatedExactlyWhen`, `FreeHostServesASession`.
- One-time codes: `OtpStore.EveryRunKeepsInv`, `LastMintDecides`, `ConsumedOnceByItsLastBinder`;
  `OtpCodes.HashVerifiesItsCode`; `HostAuth.OneAuthorizationPerMint`, `OtpSessionAllowedExactlyWhen`,
  `MintedCodeWorksExactlyForItsTtl`.
- Agent commands: `AgentCommands.AcknowledgedExactlyWhen`, `EffectOfAcknowledged`, `OtherSessionIsRefused`.
- Input gate: `AgentProofs.InputNeedsTheWholeHandshake`, `HonestViewerGetsInputThrough`,
  `ManagerProofs.BindsExactlyOnTheRightMac`, `AgentTraffic.CountersAddUp`.
- Candidates: `Candidates.LeavesUnderAnotherSessionExactlyWhen`,
  `ControlCandidates.LeavesUnderAnotherSessionExactlyAfterKill`, `AgentTraffic.OnlyMediaAndDescriptionsQueue`.
- Control connection: `ControlLoop.InSyncExactlyUntilAbandoned`, `ReturnedRequestsAreComplete`, `RequestsNeverHang`,
  `OnlySessionsOpenedWithTheSecret`, `LatchHoldsExactlyUntilForgotten`; `ControlEffects.RequestReadsToTheStop`,
  `LeavesBehind`.
- Codecs: `DcJson.ChallengeRoundTrip`, `ResponseRoundTrip`, `Transcript.DcBindMessageInjective`, `MessagesReadBack`,
  `DeviceId.SwapUndetectedOnlyFor09`.
- Jitter buffer: `JitterProofs.Conservation`, `PopReadyReleasesTheLeast`, `AdaptationMovesTowardDesired`;
  `JitterTransit.EstimateIsOfThePackets`, `PacedStreamHasNoJitter`, `PushRaisesExactlyWhen`.
- Histogram: `Histogram.EveryInterleavingKeepsInv`, `QuiescentHistogramIsExact`, `ScrapeIsCumulativeExactlyWhen`.
- Inventory: `InventoryService.ParsePublicItems`, `InventoryTheorems.RawStringContentsDoNotMatter`,
  `SkipStartsExactlyWhen`, `InventoryTokens.ScanAgreesWithTokens`,
  `InventoryAttributes.AllRecognisedExactlyWhen`, `InventoryText.OnlyOneCut`, `InventoryUse.UseMayBeBroken`,
  `InventoryImpl.MethodIsListedUnderItsImpl`.

## Model

| member | source | states |
|---|---|---|
| `RegistryProofs.EveryRunKeepsInv` | apps/server/src/session.rs:167-757 | over any sequence of steps whatever, sessions, busy lock, presence map and sent messages agree, TTL bounds hold, each stored session is in the phase and at the number the sent messages say, and the messages of each session follow the protocol order |
| `RegistryConnections.FiveMapsAgree` | apps/server/src/routes/ws.rs:47-335 | under the discipline of the socket handler all five maps agree: the presence map is the inverse of the connected host peers, and each session runs between the connected host it is for and another, connected viewer, and holds the lock |
| `RegistryConnections.EveryServedRunIsLinked` | apps/server/src/routes/ws.rs:47-335 | the invariant behind it, over any such run |
| `RegistryConnections.HelloKeepsLinkedExactlyWhen` | apps/server/src/session.rs:210-236 | whatever the handler does, a hello keeps the maps in agreement if and only if its socket is connected, keeps a public id it already has and stays a viewer while it has a session as one |
| `RegistryConnections.IntentKeepsLinkedExactlyWhen` | apps/server/src/session.rs:325-422 | and an intent if and only if it is refused or comes from a viewer |
| `RegistryConnections.LateHelloPublishesNobody` | apps/server/src/session.rs:167-236 | without the discipline a hello on a socket that was registered and dropped publishes a host that is not connected |
| `RegistryTheorems.LockIsInverseOfSessions` | apps/server/src/session.rs:280-320 | sessions and busy lock are inverse maps, each session's host socket is the published one, and no stored session is Closed, so the branch of force_disconnect and close that would leave a lock behind is dead |
| `RegistryTheorems.OneSessionPerHost` | apps/server/src/session.rs:325-362 | at most one session per host |
| `RegistryTheorems.NumbersRise` | apps/server/src/session.rs:364-406 | within one session lifetime the sequence numbers never fall, nothing follows the terminal message, and a number is followed by a larger one exactly when it is below u64::MAX |
| `RegistryTheorems.RecipientStream` | apps/server/src/session.rs:629-757 | what one recipient gets of one lifetime: strictly increasing numbers below the ceiling, nothing after the terminal message |
| `RegistryTheorems.CeilingRepeats` | apps/server/src/session.rs:740-756 | at u64::MAX saturating_add stops: the same relay is accepted twice with the same number |
| `RegistryTheorems.CeilingIsReachable` | apps/server/src/session.rs:451-463 | a single accept carrying u64::MAX brings a reachable registry to that ceiling |
| `RegistryTheorems.RelayOutcome` | apps/server/src/session.rs:705-756 | a relay answers Ok only if it went to the other party verbatim or was a stale ICE candidate, and then nothing changed; of the errors only peer_offline changes state |
| `RegistryTheorems.ReapKeepsTheUnexpired` | apps/server/src/session.rs:280-297 | after a reap at `now` exactly the sessions with expires_at > now remain, each as it was |
| `RegistryTheorems.ReapCounts` | apps/server/src/session.rs:275-297 | the count returned by a reap is the number of sessions it closed |
| `RegistryTheorems.NoLockOutlivesItsTtls` | apps/server/src/session.rs:384-459 | after a reap, whatever holds a lock is younger than both TTLs together; relays never refresh it |
| `RegistryTheorems.UnregisterCleansUp` | apps/server/src/session.rs:167-203 | dropping a connection leaves no map entry that mentions it and closes exactly the sessions it was a party to |
| `RegistryTheorems.UnregisterTellsSurvivors` | apps/server/src/session.rs:167-203 | one SessionEnd per closed session, to the other party if it can still be reached, and nothing else |
| `RegistryTheorems.ReconnectKeepsSessions` | apps/server/src/session.rs:210-236 | a host hello on a new socket keeps the host's sessions, numbers and lock, moves their host socket and says nothing about them |
| `RegistryTheorems.StaleSocketIsHarmless` | apps/server/src/session.rs:167-236 | dropping a socket that is no longer the published one leaves the host's presence and its session alone, unless the socket is the session's viewer |
| `RegistryTheorems.ReplacedStaysReplaced` | apps/server/src/session.rs:210-236 | a replaced socket is not published again except by a hello of its own, however late it is dropped |
| `RegistryTheorems.OnlyPartiesAreTold` | apps/server/src/session.rs:300-757 | whatever the step, a message about a session goes to that session's host and viewer only |
| `RegistryEffects.RelayAcceptedExactlyWhen` | apps/server/src/session.rs:629-757 | in every reachable state a relay is passed on if and only if the session has not expired and is active, the sender is a party, the number is not stale, an offer comes from the host socket and an answer from the viewer, and the other party can be reached; it is then logged as it came and its number is used up |
| `RegistryEffects.RelayRefusals` | apps/server/src/session.rs:705-756 | each error of a relay exactly in its case |
| `RegistryEffects.OffersGoToTheViewer` | apps/server/src/session.rs:705-756 | on every run each logged message was sent by some step, and if it is an offer that step found its session active and it was taken by the viewer only, an answer by the host only |
| `RegistryEffects.CreatedExactlyWhen` | apps/server/src/session.rs:325-422 | an intent succeeds if and only if its id is new, its host is published, without a live session and reachable, and two numbers are left; it then stores a pending session with a full pending TTL, takes the lock and tells the host, and otherwise changes nothing |
| `RegistryEffects.IntentRefusals` | apps/server/src/session.rs:325-422 | each refusal of an intent exactly in its case |
| `RegistryEffects.AcceptedExactlyWhen` | apps/server/src/session.rs:429-469 | an accept succeeds if and only if it comes from the host socket of a live pending session with a number that is not stale; it then activates the session for a full active TTL and tells the viewer |
| `RegistryEffects.RejectedExactlyWhen` | apps/server/src/session.rs:473-516 | a reject succeeds under the same condition; it removes the session and its lock, so that the host is free, and tells the viewer with the reason |
| `RegistryEffects.EndedExactlyWhen` | apps/server/src/session.rs:520-563 | an end succeeds if and only if it comes from a party of a live session with a number that is not stale; session and lock are gone and the other party is told |
| `RegistryEffects.ForcedExactlyWhen` | apps/server/src/session.rs:569-584 | the administrator's call is true if and only if the session is live; it is then removed with its lock and both parties are told |
| `RegistryEffects.SessionsLiveTheirTtl` | apps/server/src/session.rs:280-459 | an accepted intent expires exactly when the pending TTL has passed, an accepted session exactly when the active one has |
| `RegistryEffects.ReapTellsBothParties` | apps/server/src/session.rs:280-320 | each session a reap closes ends with one message to those of its parties that can be reached |
| `RegistryEffects.ReplacedSocketIsTold` | apps/server/src/session.rs:210-236 | a host's hello on a new socket removes the old one and tells it so, exactly if it was another |
| `RegistryEffects.FreeHostServesASession` | apps/server/src/session.rs:325-757 | a free, reachable host serves a session: intent, accept, the host's offer, the viewer's answer and the end succeed, each reaches exactly its party, and afterwards both tables are what they were |
| `RegistryProofs.FailedCreateChangesNothing` | apps/server/src/session.rs:325-422 | an intent that is refused, or whose host cannot be reached, leaves all tables as they were |
| `RegistryService.SessionRegistry.RegisterNewConn` | apps/server/src/session.rs:153-160 | the method makes the transition the theorems speak of |
| `RegistryService.SessionRegistry.CloseSessionLocked` | apps/server/src/session.rs:300-320 | the same for closing one session |
| `RegistryService.SessionRegistry.ReapExpired` | apps/server/src/session.rs:280-297 | the same for the reap, for some order in which the map listed the expired sessions |
| `RegistryService.SessionRegistry.Unregister` | apps/server/src/session.rs:167-203 | the same for a disconnect |
| `RegistryService.SessionRegistry.Bind` | apps/server/src/session.rs:210-236 | the same for a hello |
| `RegistryService.SessionRegistry.CreatePending` | apps/server/src/session.rs:325-422 | the same for a session intent, with its rollback when the host cannot be told |
| `RegistryService.SessionRegistry.AcceptSession` | apps/server/src/session.rs:429-469 | the same for an accept |
| `RegistryService.SessionRegistry.RejectSession` | apps/server/src/session.rs:473-516 | the same for a reject |
| `RegistryService.SessionRegistry.EndSession` | apps/server/src/session.rs:520-563 | the same for an end |
| `RegistryService.SessionRegistry.ForceDisconnect` | apps/server/src/session.rs:569-584 | the same for the administrator's disconnect |
| `RegistryService.SessionRegistry.RelayMediaSignal` | apps/server/src/session.rs:629-757 | the same for a relay |
| `OtpStore.EveryRunKeepsInv` | apps/server/src/otp.rs:89-231 | over any run the two maps describe one relation, every row's attempts, binding and consumption are what its history says, and every event was in order when it happened |
| `OtpStore.HostsAndRowsMatch` | apps/server/src/otp.rs:89-116 | each host has at most one row, and by_host and by_id are inverse to each other |
| `OtpStore.AttemptsCountMisses` | apps/server/src/otp.rs:178-200 | attempts is the number of failed tries of the row that were not lockouts, and at most 5 |
| `OtpStore.FiveMissesLockTheRow` | apps/server/src/otp.rs:175-177 | a try is a lockout exactly when the row has had five misses |
| `OtpStore.LockedRowRejectsEveryCode` | apps/server/src/otp.rs:166-177 | at five misses every code is rejected, the right one too, and both maps stay as they are |
| `OtpStore.ConsumedOnceByItsLastBinder` | apps/server/src/otp.rs:207-231 | a row is consumed at most once, only for the session of its most recent successful prefilter, and never bound or missed again |
| `OtpStore.AcceptedExactlyWhen` | apps/server/src/otp.rs:156-204 | a prefilter succeeds if and only if the host's row is unconsumed, has fewer than five misses, expires in a later second than now, and the code verifies |
| `OtpStore.ConsumedExactlyWhen` | apps/server/src/otp.rs:207-231 | a consume succeeds if and only if the host's row was last bound by this session, was never consumed and has not expired; it then stamps that row with the time and changes nothing else, and otherwise changes nothing |
| `OtpStore.LastMintDecides` | apps/server/src/otp.rs:89-204 | told by the history alone: a prefilter succeeds if and only if the host's last mint expires in a later second, its row has fewer than five misses and was not consumed, and the code verifies against the hash of that mint |
| `OtpStore.RowIsOfTheLastMint` | apps/server/src/otp.rs:89-231 | over any run a host's row has the hash and the expiry of its last mint |
| `OtpStore.MintedCodeGetsThrough` | apps/server/src/otp.rs:89-204 | right behind a mint, whatever went before, a code gets through if and only if it verifies against the new hash, before the second of the new expiry |
| `OtpStore.LastLiveIsNewest` | apps/server/src/otp.rs:234-245 | of several rows the newest live one counts |
| `OtpStore.LastSecondRefusesTheRightCode` | apps/server/src/otp.rs:172-184 | a concrete row in its last second: still the active one, yet the right code is rejected and counted as a miss |
| `OtpStore.MemoryOtpStore.Add` | apps/server/src/otp.rs:89-116 | the method replaces the host's row |
| `OtpStore.MemoryOtpStore.PrefilterAndBind` | apps/server/src/otp.rs:156-204 | the loop over the rows, newest first, makes the transition the theorems speak of |
| `OtpStore.MemoryOtpStore.Consume` | apps/server/src/otp.rs:207-231 | the same for the loop of the consume |
| `OtpStore.MemoryOtpStore.ActiveForHost` | apps/server/src/otp.rs:234-245 | the newest row neither consumed nor expired |
| `OtpCodes.GenerateOtp` | packages/auth/src/otp.rs:196-207 | a generated code has the drawn digits and always passes the format check; other lengths are refused |
| `OtpCodes.FormatIsSixToEightDigits` | packages/auth/src/otp.rs:215-228 | although the length is counted in bytes, exactly the strings of six to eight ASCII digits pass |
| `OtpCodes.HashVerifiesItsCode` | packages/auth/src/otp.rs:240-313 | a hash verifies its own code, and another well-formed code if and only if HMAC gives their two, necessarily different, messages one digest |
| `OtpCodes.UnkeyedVerifiesItsCode` | packages/auth/src/otp.rs:285-313 | the same for the form without a pepper and SHA-256 |
| `OtpCodes.MessageDeterminesSaltAndCode` | packages/auth/src/otp.rs:251-275 | messages of equally long salts are equal if and only if salt and code are |
| `OtpCodes.MessageReadsBack` | packages/auth/src/otp.rs:251-275 | the hashed message reads back as domain, salt and code |
| `OtpCodes.VerifiedCodesAreWellFormed` | packages/auth/src/otp.rs:302-313 | whatever hash is stored, verification turns a malformed code away |
| `OtpCodes.OtpRecord.VerifyAndConsume` | packages/auth/src/otp.rs:165-182 | consumed exactly on success |
| `OtpCodes.OtpRecord.AuthorizeModeA` | packages/auth/src/identity.rs:483-491 | verify, consume and derive the key: no code is consumed without an authorization |
| `HostAuth.OneAuthorizationPerMint` | apps/host/src/policy.rs:224-282 | over any run, across the three ways to spend a code, at most one authorization after each mint and none before the first |
| `HostAuth.EveryRunKeepsInv` | apps/host/src/policy.rs:224-391 | in every reachable state an open window holds an unspent record of the code last shown |
| `HostAuth.ShownCodeWorksOnceUntilExpiry` | apps/host/src/policy.rs:256-282 | the shown code authorizes if and only if the window has not expired, it does so once, and another code gets in only through an HMAC collision |
| `HostAuth.OtpSessionAllowedExactlyWhen` | apps/host/src/policy.rs:332-391 | in every reachable state a typed code lets a session in if and only if the host confirms, the open window has not expired, and the trimmed text is the code on the screen or a well-formed code with the same HMAC digest; the window is then closed and the key is that of the code, and otherwise nothing changes |
| `HostAuth.AllowedExactlyWhen` | apps/host/src/policy.rs:332-391 | a session is allowed if and only if the confirmation and the mode's own condition hold, and nothing is spent unless a code was accepted |
| `HostAuth.MintSucceedsExactlyWhen` | apps/host/src/policy.rs:224-238 | a mint succeeds if and only if six to eight digits are configured, there is a pepper and the salt has 16 bytes; it shows the digits drawn, and otherwise changes nothing |
| `HostAuth.MintedCodeWorksExactlyForItsTtl` | apps/host/src/policy.rs:224-266 | the window across mint and spend: a code minted at `now` authorizes at t, by itself or for a confirmed session, if and only if t < now + max(1, ttl), the sum cut off at u64::MAX |
| `HostAuth.MintReplacesTheCode` | apps/host/src/policy.rs:224-266 | after a mint an earlier code works only if HMAC collides |
| `HostAuth.CodeIsAskedForExactlyForItsTtl` | apps/host/src/policy.rs:332-391 | without a typed code a confirmed session is asked for one exactly as long as the minted code works, and turned away otherwise |
| `HostAuth.NoCodeNoSession` | apps/host/src/policy.rs:332-391 | and without an open window it is turned away |
| `HostAuth.OtherModesDecided` | apps/host/src/policy.rs:332-391 | unattended access is allowed if and only if it is switched on and has a secret, a password session whenever the host consents |
| `HostAuth.HostAuthService.MintOtp` | apps/host/src/policy.rs:224-238 | a failed mint leaves the old window standing |
| `HostAuth.HostAuthService.ConsumeOtp` | apps/host/src/policy.rs:256-266 | the window is cleared exactly on success |
| `HostAuth.HostAuthService.AuthorizeSessionModeA` | apps/host/src/policy.rs:269-282 | the same, with the key in the session manager exactly on success |
| `HostAuth.HostAuthService.DecideSessionAccept` | apps/host/src/policy.rs:332-391 | the method makes the decision AllowedExactlyWhen speaks of |
| `ManagerProofs.BindsExactlyOnTheRightMac` | apps/host/src/session.rs:698-730 | a message binds the identity if and only if it is a well-formed response, a challenge is pending, both fingerprints are known, and its MAC is that of the bind key over this session, nonce and fingerprints |
| `ManagerProofs.HonestViewerBinds` | packages/auth/src/identity.rs:436-473 | end to end, through both JSON encodings: a viewer that typed the host's code and sees the same session and fingerprints is bound |
| `ManagerProofs.HonestModeBViewerBinds` | apps/host/src/session.rs:529-593 | the same in Mode B: the MAC a viewer computes from the shared secret authorizes any attached session, and the same secret then answers the challenge |
| `ManagerProofs.ModeBAnswerIsForOneSession` | apps/host/src/session.rs:529-552 | a Mode B MAC authorizes if and only if it was made with the same secret for this session, nonce and fingerprints, or HMAC collides |
| `ManagerEffects.UnattendedAuthorizesExactlyWhen` | apps/host/src/session.rs:555-564 | the host secret authorizes exactly an attached session and becomes its bind key, and nothing else changes |
| `ManagerEffects.HonestUnattendedViewerBinds` | apps/host/src/session.rs:555-730 | so a viewer that has the secret binds |
| `ManagerEffects.OtherKeyBindsOnlyByCollision` | apps/host/src/session.rs:698-730 | a viewer that answers with another key binds if and only if HMAC gives both keys the same MAC |
| `ManagerEffects.ChallengePendsExactlyWhen` | apps/host/src/session.rs:567-593 | a challenge is pending if and only if a session is attached and authorized, the peer connected and the message sent; otherwise nothing has changed, and the error names the first thing that is missing |
| `ManagerEffects.ResponseTakesTheChallenge` | apps/host/src/session.rs:698-730 | a well-formed response takes the pending challenge, right or wrong, and never unbinds; anything else changes nothing |
| `ManagerEffects.PollOfTwoBatches` | apps/host/src/session.rs:596-623 | a batch can be cut anywhere: the rest goes on from what the first part left, and is lost exactly if the first part failed |
| `ManagerEffects.PollOfOne` | apps/host/src/session.rs:596-623 | which channel a message belongs to decides what handles it |
| `ManagerEffects.InjectedExactlyWhen` | apps/host/src/session.rs:639-674 | each outcome of an input message exactly in its case, and only an injected one gets into the ring |
| `ManagerEffects.MediaStartExactlyWhen` | apps/host/src/session.rs:777-833 | media come up if and only if a session is attached and they are up already, or capture opens and a due offer can be made; a new start queues the offer, if due, and every candidate handed over so far; when the offer fails the plane stays up and the candidates are kept |
| `ManagerEffects.SignalAppliesExactlyWhen` | apps/host/src/session.rs:849-876 | a signal is applied if and only if the transport applies it and it is a description or a candidate; what it queues |
| `ManagerProofs.PollKeepsInv` | apps/host/src/session.rs:596-623 | a batch of data messages, cut short by the first failing identity message, keeps the invariant of the manager |
| `ManagerProofs.RingHoldsTheLast` | apps/host/src/session.rs:454-460 | dropping from the front before each push keeps the last 64 |
| `ManagerProofs.NewChallengeForEachResponse` | apps/host/src/session.rs:698-707 | between two responses of a good trace there is another challenge, which the later one answers |
| `ManagerService.SessionManager.AttachSession` | apps/host/src/session.rs:478-497 | the method makes the transition the theorems speak of |
| `ManagerService.SessionManager.DetachSession` | apps/host/src/session.rs:500-512 | the same for detach |
| `ManagerService.SessionManager.AuthorizeModeA` | apps/host/src/session.rs:515-526 | the code is consumed and the session authorized together, or neither |
| `ManagerService.SessionManager.VerifyModeB` | apps/host/src/session.rs:529-552 | authorized exactly on the right MAC of an attached session |
| `ManagerService.SessionManager.StartIdentityChallenge` | apps/host/src/session.rs:567-593 | a challenge is pending exactly after all four checks and a successful send |
| `ManagerService.SessionManager.HandleIdentityData` | apps/host/src/session.rs:698-730 | the pending challenge is taken before the response is checked |
| `ManagerService.SessionManager.ProcessInputMessage` | apps/host/src/session.rs:639-674 | gate, decoding and the three injector outcomes, each with its counter |
| `ManagerService.SessionManager.PushAcceptedInput` | apps/host/src/session.rs:454-460 | the ring operation |
| `ManagerService.SessionManager.PollInboundMessages` | apps/host/src/session.rs:596-623 | the loop over a batch, with its early return |
| `ManagerService.SessionManager.StartMediaPlane` | apps/host/src/session.rs:777-833 | including the failure after the media plane is already up |
| `AgentProofs.EveryRunKeepsInv` | apps/host/src/agent.rs:116-299 | over any run of commands, polls and authorizations: not killed, manager and control state name the same session; killed, the manager is detached and media, input, unattended and chrome are off; a live session shows chrome; media started implies a media plane; the inject gate is enable_input and not killed; unattended implies the latch is open |
| `AgentProofs.ErrorsChangeNothing` | apps/host/src/agent.rs:373-438 | a command answered with an error leaves the control state exactly as it was |
| `AgentProofs.InputNeedsTheWholeHandshake` | apps/host/src/session.rs:639-674 | an event reaches the injector only after, in the session it is taken in and in this order, an attach, an authorization, a challenge and a verified response to it, with the last accepted policy enabling input and no detach or kill since |
| `AgentProofs.InputReachesExactlyWhenAllowed` | apps/host/src/agent.rs:347-367 | in every reachable state an input message reaches the injector if the agent's gate is open and the message decodes, and is dropped otherwise |
| `AgentProofs.HonestViewerGetsInputThrough` | apps/host/src/session.rs:515-730 | the positive side of the gate: in any live session the shown code, the challenge, an honest answer and an enabling policy open it |
| `AgentProofs.HonestModeBViewerGetsInputThrough` | apps/host/src/session.rs:529-730 | the same for a viewer that shares the Mode B secret |
| `AgentProofs.KilledTakesOnlyAWayOut` | apps/host/src/agent.rs:227-272 | a killed agent acknowledges only another kill, stopping media, the end of its session or a new attach, and only the last two lift the kill |
| `AgentProofs.KilledStartsOver` | apps/host/src/agent.rs:403-410 | after a kill no event reaches the injector before a new attach |
| `AgentProofs.BoundMeansAuthorizedAndAttached` | apps/host/src/agent.rs:343-367 | identity_bound implies authorized, attached and not killed, and the agent's and the manager's input gates say the same |
| `AgentProofs.AcceptedIsTheLast64` | apps/host/src/session.rs:445-460 | the ring is the last 64 events injected since it was last emptied |
| `AgentProofs.OneResponsePerChallenge` | apps/host/src/session.rs:698-707 | on every run two responses never answer the same challenge: between them there is a challenge that the later one answers |
| `AgentProofs.LatchHoldsUntilReenabledLocally` | apps/host/src/agent.rs:66-79 | within one AgentSession no message, detach or re-attach clears the unattended latch, and no policy gets past it |
| `AgentCommands.OtherSessionIsRefused` | apps/host/src/agent.rs:82-299 | a command, attach apart, that names a session other than the attached one is answered with an error and leaves flags and manager as they were |
| `AgentCommands.AcknowledgedExactlyWhen` | apps/host/src/agent.rs:116-299 | in every reachable state, for each of the commands: it is acknowledged if and only if it names the attached session, where it names one, that session is not killed, where that matters, and what it asks for is possible; all others are answered with an error |
| `AgentCommands.RefusedFor` | apps/host/src/agent.rs:82-299 | each error code exactly in its case |
| `AgentCommands.EffectOfAcknowledged` | apps/host/src/agent.rs:116-438 | in every reachable state an acknowledged command does what it says and nothing else: which parts of flags and manager start over, which are set and which stay |
| `AgentCommands.PolicyTakenExactlyWhen` | apps/host/src/agent.rs:147-164 | a policy is acknowledged if and only if its session is the attached one, not killed, and it does not ask for latched unattended access; the two flags are then the requested ones, and otherwise nothing changes |
| `AgentCommands.InputIsEnabledByTheLastPolicy` | apps/host/src/agent.rs:147-164 | on every run input is enabled if and only if the policy accepted last in the present session enables it |
| `AgentTraffic.EveryRunIsCounted` | apps/host/src/session.rs:639-674 | on every run the three counters are what the events since the last attach, detach or kill add up to, capped at u64::MAX |
| `AgentTraffic.CountersAddUp` | apps/host/src/session.rs:639-674 | below that cap no input message is lost or counted twice: gate rejects and inject errors, decode errors, rate limits and injected events add up to the input messages of the session |
| `AgentTraffic.PollCountsItsMessages` | apps/host/src/session.rs:596-623 | a poll that goes through adds exactly the input messages of its batch |
| `AgentTraffic.OutboxCarriesTheAttachedId` | apps/host/src/session.rs:478-512 | on every run every signal in the outbox is an offer or a candidate and carries the id of the attached session; in which session a candidate was gathered is said below |
| `AgentTraffic.OnlyMediaAndDescriptionsQueue` | apps/host/src/session.rs:777-876 | only a start of the media or a remote description for the attached session queues anything, and it queues at most one offer and then every candidate that waits, in order |
| `Candidates.LeavesAtTheNextQueueing` | apps/host/src/session.rs:1048-1062 | on every run a candidate leaves at the first queueing after the transport handed it over and at no other, whatever attach, detach or kill lies between |
| `Candidates.LeavesUnderAnotherSessionExactlyWhen` | apps/host/src/session.rs:478-512 | a candidate leaves under a session it was not gathered in if and only if it was handed over after the last queueing and then, before the next, the same manager was attached to that other session |
| `AgentService.AgentSessionState.HandleMessage` | apps/host/src/agent.rs:116-299 | the method edits the flags as the theorems assume |
| `AgentService.AgentSession.HandleMessage` | apps/host/src/agent.rs:373-438 | the same for control state and manager together |
| `AgentService.AgentSession.PollInbound` | apps/host/src/agent.rs:364-367 | the gate is set from the flags before any input is looked at |
| `ControlLoop.InSyncExactlyUntilAbandoned` | apps/host/src/control_loop.rs:96-123 | in every interleaving of the two ends, what was read, is in flight and is still to be sent is what the agent made of the one open command, and every earlier answer is that of its own command, if and only if no request of the connection was given up before its sentinel |
| `ControlLoop.EveryRequestIsAccountedFor` | apps/host/src/control_loop.rs:96-123 | on every run each command sent was answered, given up or is outstanding, and is in the agent's log or on its way to it |
| `ControlLoop.LateReplyAnswersTheNextRequest` | apps/host/src/control_loop.rs:96-123 | in every state with a session attached and no request out: if the service gives up on a QueryStats, its next request, whatever it is, is returned the StatsPush as its own reply |
| `ControlLoop.ReturnedRequestsAreComplete` | apps/host/src/control_loop.rs:96-123 | on every run: each command sent has had one reply, then forwarded signals, then one sentinel, returned as its own, but for one that is outstanding, no message was unexpected, and a returned request leaves nothing behind, if and only if no request of the connection was given up |
| `ControlLoop.RequestsNeverHang` | apps/host/src/control_loop.rs:301-431 | on every run, abandoned requests included: while a request is out, one of the two ends can move, or the request has met an unexpected message, and that takes an abandoned request before it |
| `ControlLoop.EveryMoveShortensTheRequest` | apps/host/src/control_loop.rs:96-123 | and every such move brings the request closer to its end |
| `ControlLoop.EveryForwardCarriesTheSessionId` | apps/host/src/control_loop.rs:382-397 | on every run the outbox is empty between commands, and every signal that comes back with a reply was asked for by that command and carries the id of the session it names |
| `ControlCandidates.LeavesUnderAnotherSessionExactlyAfterKill` | apps/host/src/control_loop.rs:382-424 | behind the control loop a candidate leaves under a session it was not gathered in if and only if it was handed over after the last queueing, a kill-switch ended its session, and the other session was attached to the same agent, all before the next queueing |
| `ControlCandidates.KilledSessionsCandidateLeavesWithTheNext` | apps/host/src/control_loop.rs:382-424 | a concrete run: attach A, start its media, kill, attach B, start its media; what the poll handed over for A is forwarded under the id of B, whether or not the peer still makes an offer |
| `ControlCandidates.EveryRunIsInLoop` | apps/host/src/control_loop.rs:275-431 | what holds of every agent holds of the one behind the loop; there every detach but that of a kill is followed by a new agent, sessions begin where there is none, and candidates are handed over in sessions only |
| `ControlLoop.NoMethodIsForbidden` | packages/platform-windows/src/ipc/message.rs:87-126 | no method name is on the list of forbidden media methods, without which the agent would answer such a command twice |
| `ControlLoop.OnlySessionsOpenedWithTheSecret` | apps/host/src/control_loop.rs:347-382 | with a boot secret set, agent.handle sees a command only if it is an attach with the secret or the open session was opened by one and not closed since |
| `ControlLoop.SecretMeansEqual` | apps/host/src/control_loop.rs:47-61 | the comparison accepts exactly when no secret is expected or the same one is given |
| `ControlEffects.RefusedExactlyWhen` | apps/host/src/control_loop.rs:347-382 | with a secret expected, an attach without it and any other command without a session is refused and changes nothing; every other command is answered by the agent |
| `ControlEffects.QueuedSignalsFollowTheReply` | apps/host/src/control_loop.rs:382-397 | behind the reply come the queued signals, each once, in order and as they are, and then the sentinel |
| `ControlEffects.LeavesBehind` | apps/host/src/control_loop.rs:382-431 | after an acknowledged detach or shutdown the agent is a new one; after any other command its queue is sent and what was handed over at the poll and the pump is kept |
| `ControlLoop.LatchIsLostExactlyOnRebuild` | apps/host/src/control_loop.rs:422-424 | behind the control loop the unattended latch survives a command if and only if it is not a detach or shutdown of the attached session |
| `ControlLoop.LatchHoldsExactlyUntilForgotten` | apps/host/src/control_loop.rs:275-431 | over whole runs, broken connections included: once set, the latch stays set if and only if no step is a detach or shutdown of the attached session or a new connection |
| `ControlLoop.ReconnectForgetsTheLatch` | apps/host/src/control_loop.rs:275-291 | a concrete run with no detach: kill, broken connection, accept; against apps/host/src/agent.rs:43-47 |
| `ControlService.KillThenDetachReopensUnattended` | apps/host/src/control_loop.rs:422-424 | a concrete series of remote commands that switches unattended access back on after a kill switched it off, against the promise of apps/host/src/agent.rs:43-47 |
| `ControlService.AgentServer.ServeOne` | apps/host/src/control_loop.rs:333-429 | the loop body, with its inner loop over forbidden names and the rebuild of the agent |
| `ControlService.AgentServer.ServeConnection` | apps/host/src/control_loop.rs:307-431 | the loop over the commands of a connection |
| `ControlService.Request` | apps/host/src/control_loop.rs:96-123 | the reading loop of a request |
| `ControlService.RequestReadsOneExchange` | apps/host/src/control_loop.rs:96-123 | a request takes exactly the messages of one exchange off the stream, whatever follows them, and returns what they say |
| `ControlEffects.RequestReadsToTheStop` | apps/host/src/control_loop.rs:96-123 | on any stream: a request reads up to the first message that may not follow a reply; if that is the sentinel it returns the reply and what came between, in order, and leaves the rest, otherwise it fails on it |
| `ControlEffects.DisconnectedExactlyWhen` | apps/host/src/control_loop.rs:96-123 | it finds the connection closed if and only if there is no such message |
| `ControlService.StartSession` | apps/host/src/control_loop.rs:126-156 | attach, policy and start in one go |
| `ControlService.StartOnFreshAgent` | apps/host/src/control_loop.rs:126-156 | on a fresh agent it succeeds if and only if the secret is right and the media plane comes up; it then leaves the session attached with the requested policy and returns the offer and the candidates; a wrong secret changes nothing |
| `DcMessage.HexRoundTrip` | packages/auth/src/identity.rs:551-577 | hex_to_bytes(bytes_to_hex(b)) is b for all bytes |
| `DcMessage.HexDecodes` | packages/auth/src/identity.rs:562-586 | decoding succeeds exactly on an even number of hex digits with white space around them, and encoding the result gives the trimmed digits in lower case |
| `DcMessage.BytesToHex` | packages/auth/src/identity.rs:551-559 | the loop that writes the digits |
| `DcMessage.HexToBytes` | packages/auth/src/identity.rs:562-577 | the loop that reads them, with its errors |
| `DcJson.ChallengeRoundTrip` | packages/auth/src/identity.rs:247-355 | parsing an encoded challenge gives it back for every non-empty nonce, and is refused for the empty one |
| `DcJson.ResponseRoundTrip` | packages/auth/src/identity.rs:265-355 | parsing an encoded response gives it back for every MAC of 32 bytes, and is refused for every other length |
| `DcJson.ScanUndoesEscape` | packages/auth/src/identity.rs:331-355 | the string scanner reads back any text whose quotes and backslashes are escaped, whatever follows |
| `DcJson.SpaceBehindColon` | packages/auth/src/identity.rs:331-355 | white space between a colon and its value does not matter |
| `DcJson.ReadString` | packages/auth/src/identity.rs:331-355 | the scanning loop does what the recursive definition says |
| `DcJson.FindIsFirst` | packages/auth/src/identity.rs:331-340 | the key search finds the first occurrence and fails only when there is none |
| `Transcript.EncodeChallenge` | packages/auth/src/challenge.rs:127-149 | the buffer holds the domain and the four length-prefixed fields |
| `Transcript.EncodeDcBind` | packages/auth/src/identity.rs:360-386 | the same for the bind message |
| `Transcript.EncodeFingerprintBinding` | packages/auth/src/fingerprint.rs:18-28 | the same for the fingerprint binding |
| `Transcript.TranscriptDeterminesFields` | packages/auth/src/challenge.rs:127-149 | for fields below 2^32 bytes, equal transcripts of one kind have equal fields |
| `Transcript.FieldsReadBack` | packages/auth/src/challenge.rs:127-149 | a reader of the format, four bytes of length with the highest first and then the bytes, finds the fields in order and nothing behind them |
| `Transcript.MessagesReadBack` | packages/auth/src/identity.rs:360-386 | so in both four-field messages session, nonce and the two fingerprints are read back in this order behind the domain |
| `Transcript.DcBindMessageInjective` | packages/auth/src/identity.rs:360-386 | the bind message determines session, nonce and both fingerprints |
| `Transcript.ModeBMessageInjective` | packages/auth/src/challenge.rs:127-149 | the Mode B message determines session, nonce and both fingerprints |
| `Transcript.KindsNeverCollide` | packages/auth/src/fingerprint.rs:18-28 | no transcript of one kind equals one of another kind |
| `DeviceId.LuhnCheckDigit` | packages/auth/src/device_id.rs:115-141 | the check digit completes the body to a valid number, and no other digit does |
| `DeviceId.ValidateLuhn` | packages/auth/src/device_id.rs:144-162 | the loop decides the Luhn condition (Annex B of ISO/IEC 7812-1) |
| `DeviceId.SingleDigitErrorDetected` | packages/auth/src/device_id.rs:144-162 | every change of a single digit of a valid number, of any length, is detected |
| `DeviceId.SwapUndetectedOnlyFor09` | packages/auth/src/device_id.rs:144-162 | swapping two different neighbours goes undetected exactly when they are 0 and 9 |
| `DeviceId.Parse` | packages/auth/src/device_id.rs:53-74 | which inputs parse, to what, and which error the others give |
| `DeviceId.Generate` | packages/auth/src/device_id.rs:35-50 | every generated id parses, starts with the first draw plus one and carries the other draws |
| `DeviceId.DisplayRoundTrip` | packages/auth/src/device_id.rs:92-96 | parsing the grouped display form gives the id back |
| `DeviceId.SeparatorsDoNotMatter` | packages/auth/src/device_id.rs:53-74 | a character may be left out of the input anywhere, without changing what is parsed, if and only if it is white space, a hyphen or an underscore |
| `JitterProofs.EveryRunKeepsInv` | packages/media/src/jitter.rs:163-215 | over any run the queue is sorted by PTS, first come first served among equals |
| `JitterProofs.Conservation` | packages/media/src/jitter.rs:163-215 | pushed packets are, as a multiset, the queued, released and dropped ones, and the counters add up |
| `JitterProofs.PopReadyReleasesTheLeast` | packages/media/src/jitter.rs:186-194 | a timed pop releases exactly when the front was held at least the target, and no queued packet comes before what it releases |
| `JitterProofs.PopFrontReleasesTheLeast` | packages/media/src/jitter.rs:211-215 | a forced pop releases the front of a non-empty queue, and nothing queued should go before it |
| `JitterProofs.DropLateRemovesLongestPrefix` | packages/media/src/jitter.rs:198-208 | dropping late packets removes the longest late prefix and nothing else |
| `JitterProofs.TargetStaysInBounds` | packages/media/src/jitter.rs:251-287 | the target stays within its bounds |
| `JitterProofs.JitterFollowsTheRfcUpward` | packages/media/src/jitter.rs:256-261 | the estimate follows section 6.4.1 of RFC 3550 when the transit is at least the estimate, and holds otherwise |
| `JitterProofs.TargetStepHasNoOvershoot` | packages/media/src/jitter.rs:263-274 | below 2^62 microseconds the next target lies between the old and the desired one and covers an eighth of the gap |
| `JitterProofs.AdaptationMovesTowardDesired` | packages/media/src/jitter.rs:263-287 | below 2^62 microseconds a step moves toward the clamped desired value and never past it if and only if the target is in whole microseconds or at its lower bound, or the desired value is not above it or at least 8 microseconds above |
| `JitterProofs.WholeConfigNeverDrifts` | packages/media/src/jitter.rs:263-287 | so with a configuration in whole microseconds it does at every step of every run |
| `JitterProofs.SubMicrosecondTargetDrifts` | packages/media/src/jitter.rs:263-274 | a concrete run of two packets under a configuration with a fraction of a microsecond: the target falls although a higher one is desired |
| `JitterProofs.ClockRemembersThePushes` | packages/media/src/jitter.rs:217-249 | on every run the clock holds the number of the last numbered packet and the times of the reference packet, both read off the packets pushed |
| `JitterProofs.OnlyCountedPacketsAdapt` | packages/media/src/jitter.rs:217-249 | on every run a push changes estimate or target only if it is not the first, and follows the last numbered packet by one modulo 2^16 or, unnumbered, is later than the reference; where no packet is numbered, later than every packet so far |
| `JitterTransit.EstimateIsOfThePackets` | packages/media/src/jitter.rs:217-261 | on every run with times below 2^62 microseconds the estimate is what a definition over the receive times, PTS and numbers of the pushed packets gives: a sixteenth of the variation above it, reference by reference |
| `JitterTransit.PushRaisesExactlyWhen` | packages/media/src/jitter.rs:217-261 | a push raises the estimate if and only if it is not the first, continues the stream and varies by at least 16 microseconds more than the estimate |
| `JitterTransit.PacedStreamHasNoJitter` | packages/media/src/jitter.rs:251-261 | on every run, packets whose receive time minus PTS is constant leave the estimate at zero |
| `JitterTransit.JitterBoundedByLargestVariation` | packages/media/src/jitter.rs:251-261 | the estimate never exceeds the largest difference between the distance of two receive times and that of their PTS, over the packets that count |
| `JitterTransit.JitterNeverFalls` | packages/media/src/jitter.rs:256-261 | and no operation lowers it |
| `JitterTransit.TargetMovesAnEighth` | packages/media/src/jitter.rs:263-276 | a packet that counts moves the target an eighth of the way to twice the estimate, in whole microseconds and into the bounds; no other packet moves it |
| `JitterService.JitterBuffer.PushInner` | packages/media/src/jitter.rs:163-180 | the method makes the transition the theorems speak of |
| `JitterService.JitterBuffer.Pop` | packages/media/src/jitter.rs:186-194 | the same for the timed pop |
| `JitterService.JitterBuffer.DropLatePackets` | packages/media/src/jitter.rs:198-208 | the same for the dropping loop |
| `JitterService.JitterBuffer.AdaptTo` | packages/media/src/jitter.rs:217-249 | the same for the adaptation |
| `JitterService.JitterBuffer.ApplyTransitTo` | packages/media/src/jitter.rs:251-276 | the same for the transit arithmetic, with truncation and saturation |
| `Histogram.NewBuckets` | packages/common/src/metrics.rs:113-124 | a new histogram has bounds from the input, apart by EPSILON, one for every input within EPSILON |
| `Histogram.EveryInterleavingKeepsInv` | packages/common/src/metrics.rs:126-148 | in every interleaving of atomic steps, with spurious failures, each counter is the number of calls that have passed it and the sum that of the calls that have returned |
| `Histogram.QuiescentHistogramIsExact` | packages/common/src/metrics.rs:126-148 | once all calls have returned, each bucket holds the number of observations at or below its bound, the counts are cumulative and at most count, and no addition to the sum is lost |
| `Histogram.ScrapeIsCumulativeExactlyWhen` | packages/common/src/metrics.rs:422-434 | a scrape that loads counters one by one while calls go on prints two buckets, or a bucket and the count, in order if and only if the calls that had passed the first but not the second are made up for by those that had passed the second with a value between the bounds and by what was added meanwhile |
| `Histogram.ScrapeCanSeeDisorder` | packages/common/src/metrics.rs:126-148 | a concrete reachable state that breaks it: the first step of a call on a histogram with the bounds 1 and 2 |
| `Histogram.ScrapeIsCumulativeUpToInFlight` | packages/common/src/metrics.rs:422-434 | in particular the order is broken by no more than the calls under way |
| `InventoryScan.ScanLineCode` | agents/unit-test-agent/src/inventory.rs:523-595 | the loop over the characters with its three string states does what the recursive definition says |
| `InventoryScan.NetIsDepthOfCode` | agents/unit-test-agent/src/inventory.rs:523-595 | the net count is the depth of the code text |
| `InventoryScan.RawInterior` | agents/unit-test-agent/src/inventory.rs:574-591 | a line inside a raw string that nowhere ends it shows no code and no brace |
| `InventoryScan.LiteralsAreInvisible` | agents/unit-test-agent/src/inventory.rs:550-573 | whatever a string literal contains, the line scans as if it were not there |
| `InventoryScan.RawLiteralsAreInvisible` | agents/unit-test-agent/src/inventory.rs:523-595 | the same of a raw string: it ends at the first quote followed by as many hashes as it began with |
| `InventoryTokens.ScanAgreesWithTokens` | agents/unit-test-agent/src/inventory.rs:523-595 | on every line, in every state, on which no block comment begins and every character literal looks like balanced code without quotes and comments, the scan has the brace depth of the tokens of the language and ends in the same kind of string |
| `InventoryTokens.LiteralMovesTheDepth` | agents/unit-test-agent/src/inventory.rs:523-595 | a character literal without double quotes and slashes moves the depth by the braces in it |
| `InventoryTokens.BraceLiteralMovesTheDepth` | agents/unit-test-agent/src/inventory.rs:523-595 | a literal opening brace moves it by one |
| `InventoryTokens.QuoteLiteralOpensAString` | agents/unit-test-agent/src/inventory.rs:523-595 | a literal double quote opens a string that the language does not see |
| `InventoryTokens.BraceInCommentMovesTheDepth` | agents/unit-test-agent/src/inventory.rs:523-595 | a brace in a block comment counts |
| `InventoryAttributes.AllRecognisedExactlyWhen` | agents/unit-test-agent/src/inventory.rs:317-337 | however it is spaced, an attribute cfg(all(...)) is taken for a test attribute if and only if `test` is among its conditions and not the last |
| `InventoryAttributes.TestAsLastConditionIsMissed` | agents/unit-test-agent/src/inventory.rs:317-337 | so of two conditions only the first can be `test` |
| `InventoryAttributes.CfgTestIsRecognised` | agents/unit-test-agent/src/inventory.rs:317-337 | `#[cfg(test)]` is recognised, whatever follows on the line |
| `InventoryService.ParsePublicItems` | agents/unit-test-agent/src/inventory.rs:128-315 | the loop, with its early exits and its lookahead, computes the inventory that is defined over the scans of the lines alone; the depth it carries is the sum of the net counts and its string state the fold of the scans, on every path |
| `InventoryService.GatherUse` | agents/unit-test-agent/src/inventory.rs:230-246 | the lookahead of a multi-line use, with its own depth and string state |
| `InventoryModel.ScannedIsUnique` | agents/unit-test-agent/src/inventory.rs:140-148 | a file has exactly one line-by-line scan |
| `InventoryTheorems.RawStringContentsDoNotMatter` | agents/unit-test-agent/src/inventory.rs:119-148 | replacing the lines inside a raw string by as many others that do not end it leaves the inventory identical |
| `InventoryTheorems.SkippedLinesDeclareNothing` | agents/unit-test-agent/src/inventory.rs:148-162 | while a test module is skipped nothing is declared, and the skip depth follows the file's depth |
| `InventoryTheorems.SkipStartsExactlyWhen` | agents/unit-test-agent/src/inventory.rs:163-195 | of all lines outside a skip, exactly these start one: a line that ends in code, behind a test attribute, and begins with `mod ` and has a brace, or is a lone brace; so `pub mod` and a module on the attribute's own line do not, against the promise at lines 121-126 |
| `InventoryTheorems.PendingLine` | agents/unit-test-agent/src/inventory.rs:163-195 | any line behind a test attribute declares nothing, and the attribute is spent on it unless the line is blank, another attribute or waits for its brace; where no skip starts, only that line is left out |
| `InventoryTheorems.TestModuleIsSkipped` | agents/unit-test-agent/src/inventory.rs:186-195 | if the module line leaves a brace open, the skipping stops exactly where the file's depth is back |
| `InventoryTheorems.BalancedTestModuleHidesTheRest` | agents/unit-test-agent/src/inventory.rs:186-195 | if it does not, everything behind is skipped until the file closes a brace it never opened |
| `InventoryInstances.FunctionBehindEmptyTestModuleIsMissed` | agents/unit-test-agent/src/inventory.rs:186-195 | a concrete file of that kind: a public function behind `mod a {}` is missed |
| `InventoryInstances.FunctionBehindTwoLineTestModuleIsFound` | agents/unit-test-agent/src/inventory.rs:186-195 | with the same module over two lines it is listed, so it is the one line that hides it |
| `InventoryInstances.PublicTestModuleIsListed` | agents/unit-test-agent/src/inventory.rs:121-195 | the body of a `pub mod` behind a test attribute is listed |
| `InventoryInstances.TestModuleOnTheAttributeLineIsListed` | agents/unit-test-agent/src/inventory.rs:121-195 | so is the body of a module on the attribute's own line, but for its first line |
| `InventoryAttributes.InstancesAreRecognised` | agents/unit-test-agent/src/inventory.rs:317-337 | the attribute lines of these files are recognised by the real recogniser, and the other lines are not |
| `InventoryTheorems.ItemsInFileOrder` | agents/unit-test-agent/src/inventory.rs:128-315 | items are listed in file order with numbers of lines of the file |
| `InventoryUse.UseMayBeBroken` | agents/unit-test-agent/src/inventory.rs:230-273 | how a `pub use` is broken into lines, at spaces, with any indentation and blank lines, does not matter: the file lists what it lists with the statement on one line, with higher line numbers behind it only |
| `InventoryUse.GatherStopsAtTheSemicolon` | agents/unit-test-agent/src/inventory.rs:237-246 | the lookahead takes the lines up to the first at which the statement is complete, or to the end of the file, trimmed and joined by single spaces |
| `InventoryUse.UseNamesAreListed` | agents/unit-test-agent/src/inventory.rs:248-260 | the names of a complete statement are listed next, in their order, each with its visibility and the number of the statement's first line |
| `InventoryUse.DeclarationBehindUseIsListed` | agents/unit-test-agent/src/inventory.rs:230-273 | the walk resumes on the line behind the one whose semicolon completes the statement: the names of the statement are listed with its first line, and so is what that next line declares |
| `InventoryImpl.MethodIsListedUnderItsImpl` | agents/unit-test-agent/src/inventory.rs:222-228 | a function declared where the depth never came back to that of an impl line, with no other impl line between, is listed under the type of that block |
| `InventoryImpl.ImplEndsWithItsBraces` | agents/unit-test-agent/src/inventory.rs:305-311 | on the line that brings the depth back the block is left, and the stack is what it was, without outer blocks that end there too |
| `InventoryImpl.ImplEndsWhileSkipping` | agents/unit-test-agent/src/inventory.rs:148-162 | so it is on a line that is skipped |
| `InventoryImpl.FunctionBehindImplIsListed` | agents/unit-test-agent/src/inventory.rs:222-311 | a function behind it is listed under the next outer block that is open, or plainly |
| `InventoryImpl.PopEndedExactly` | agents/unit-test-agent/src/inventory.rs:305-311 | what closing blocks leaves is the longest front of the stack that ends in an open block, and nothing else |
| `InventoryText.SplitCommaTopLevel` | agents/unit-test-agent/src/inventory.rs:489-513 | the loop cuts at every top-level comma and drops a blank last piece |
| `InventoryText.CfgAllArgs` | agents/unit-test-agent/src/inventory.rs:339-368 | the same with round brackets, each piece trimmed, blank ones dropped |
| `InventoryText.JoinRestores` | agents/unit-test-agent/src/inventory.rs:489-513 | the pieces joined by commas are the text |
| `InventoryText.PiecesHaveNoTopComma` | agents/unit-test-agent/src/inventory.rs:489-513 | every cut that can be made is made: no piece has a comma outside brackets |
| `InventoryText.PiecesAreBalanced` | agents/unit-test-agent/src/inventory.rs:489-513 | every cut is allowed: the brackets are balanced in every piece but the last |
| `InventoryText.OnlyOneCut` | agents/unit-test-agent/src/inventory.rs:489-513 | and the cut is the only one: parts that join to the text, have no comma outside brackets and are balanced up to the last are the pieces |
| `InventoryText.BalanceIsNeeded` | agents/unit-test-agent/src/inventory.rs:489-513 | a concrete text with two ways to cut if the balance is not asked for |
| `InventoryText.StatementCompleteAtSemi` | agents/unit-test-agent/src/inventory.rs:387-398 | true exactly when a semicolon stands with no brace open before it |
| `InventoryText.SkipAngle` | agents/unit-test-agent/src/inventory.rs:637-652 | what follows the first closing angle that brings the depth to zero |

## Left out

- InventoryService.ParsePublicItems: the recognisers of one trimmed line (`is_cfg_test_attr`, `parse_impl_type`, `is_pub_use_start`, `parse_pub_use_statement`, `parse_pub_item_line`) are parameters; what is proved holds for all of them.  Of the real ones only `is_cfg_test_attr` is modelled, with `cfg_all_args`, `split_comma_top_level` and `skip_angle`.
- Inventory: `package_has_tests`, workspace metadata and path normalisation, which are file and process I/O; crate name and path of an item, which are constants of a file.
- ControlService.AgentServer.ServeOne: which transport failures and timeouts end the connection is left out, a connection may simply break at any step (`ControlLoop.Reconnect`); a failing rebuild of the agent is not modelled.
- ControlLoop: endpoint parsing and formatting, process start; a client that stays behind on a broken connection; a timeout in the middle of a frame.
- Session manager: capture, encoding, statistics counters per poll, keyframe and bitrate requests, signing of fingerprints; `force_identity_bound_for_tests` and direct edits of the public manager field.
- ManagerService.SessionManager.StartMediaPlane: which step of opening capture or making an offer failed is not distinguished.
- AgentService.AgentSession.HandleMessage: the numbers inside a stats reply are left out.
- HostAuth: the direct Mode B check without a session manager and the hex form of a hash for the server, which add no state; the server's prefilter verdict is ignored by the code and has no counterpart.
- RegistryService.SessionRegistry.CreatePending: the advisory `otp_prefilter` field of the incoming message, always `Skipped` here, is left out.
- Registry: viewer tokens, `send_to` and the WebSocket layer above, persistence, and the helpers that only tests call.
- OtpStore: parsing of the mint request and its TTL check; ids beyond the range of `i64`.
- Cryptography itself: HMAC, SHA-256, ed25519, Argon2 and random generation.
- Histogram: the text format of the exposition, NaN and infinities.
- Jitter: the preset configurations.
