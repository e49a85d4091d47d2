# Verified models of the relay's Bedrock tunnel and of the API's protocol logic

This project models, in Dafny, the concurrent and algorithmic core of the
Minecraft server dashboard and proves what that code is for. `dafny verify
dfyconfig.toml` checks everything.

| file | models |
|---|---|
| `FlowTables.dfy` | the flow table: a value-level specification, and the class with its two maps of shared entries proved against it |
| `IpCaps.dfy` | the per-IP caps, as atomic steps |
| `TunnelSteps.dfy` | one bound tunnel as a step system: reader, sweeper and `run` interleave freely with a non-decreasing clock, each locked section one atomic step |
| `TunnelIsolation.dfy`, `TunnelSessions.dfy`, `TunnelSlots.dfy`, `TunnelPings.dfy` | properties of every run of that system |
| `TunnelHistory.dfy`, `TunnelPromotion.dfy` | what becomes of every reply, every datagram and every idle flow, and when a session starts |
| `TunnelPingWindow.dfy` | when exactly the documented ping cap holds |
| `TunnelTeardown.dfy` | why the teardown of a tunnel always goes on |
| `TunnelLatePromotion.dfy`, `TunnelPingBurst.dfy` | concrete runs that show where two promises stop |
| `FrameQueue.dfy` | buffer pool, bounded channel, shared read buffer, and the wire format |
| `TunnelWire.dfy` | the tunnel and the frame queue put together |
| `PortIndex.dfy` | the port index under takeover, with a mutex and a `sync.Once` that blocks late callers |
| `Shutdown.dfy` | the relay's shutdown sequence |
| `StatusFlights.dfy` | the single-flight table and the exchanges that run through it |
| `DialBack.dfy` | the dial-back rendezvous (`awaitTunnel` against `TokenTable`) and `writePreSplice` against a cancellation |
| `BodyGate.dfy` | the request-body middleware as a state machine over arbitrary ASGI messages |
| `BackupMigration.dfy` | migration 0031 in both directions |
| `MigrationGraph.dfy` | the guard against colliding migrations |
| `Versions.dfy`, `Dependencies.dfy`, `Trailers.dfy`, `Cooldown.dfy` | the supply-chain cooldown gate: version order, what a pull request changes, the trailer check, and the verdict |
| `ByteRanges.dfy`, `Decimals.dfy` | the `Range` header parser and decimal numerals |
| `Wrappers.dfy` | `Option` and `Result` |

A concurrent component is a `State`, a `Step` datatype, `Enabled` and `Do`. A
behaviour is a sequence of states that starts in an initial one and goes on by
enabled steps; theorems quantify over all behaviours. An execution is a behaviour with its
steps, for the laws that count what happened against what was done about it. The flow table, the flight table,
the body gate and the database of the migration are classes, as in the source; their
methods' contracts equate the new state with a function of the old one that the step
system or the theorems run on.

## What the proofs found

- **Ping cap.** The tunnel's documentation (docs/app/BEDROCK_TUNNEL.md, section on
  amplification) says that at most `flowPingsPerSecond` unconnected pings are
  forwarded per flow per second. The window is fixed, not sliding, so nine can pass in
  one second (`TunnelPingBurst.NinePingsInOneSecond`). From a given moment on the cap
  holds for the coming second, whatever happens, if and only if the flow's window is used
  up, is over, or starts at that moment, or the socket is closed
  (`TunnelPingWindow.CapHoldsIff`). In any interval
  of length T at most 5 * ceil(T) + 4 pass, per flow and also per source address across
  evictions and re-creations; whole numbers of seconds attain it
  (`TunnelPingBurst.BoundIsAttained`).
- **Late promotion.** `Promote` does nothing when the flow is gone. A reader that
  stalls for the idle timeout between its deciding `Lookup` and `Promote` strands a
  started session (`TunnelLatePromotion.LatePromotionStrandsSession`). Every start
  has its end if and only if every `Promote` finds its flow
  (`TunnelSessions.AllEndedIffPromotesHit`), and promoting within the idle timeout is
  enough. The shutdown inherits this: after two drains in time every session has its End
  if and only if every `Promote` of every tunnel found its flow
  (`Shutdown.AllReportedIffPromotesHit`).
- **Id wrap.** `Create` keeps the maps inverse to each other if and only if the wrapped
  counter does not land on a live id. Isolation, sessions and pings are proved for
  runs of at most 2^32 creations; slots and gauge for all runs.
- **Unknown parents.** The guard's documentation (scripts/check_migrations.py:45-54)
  says that a `down_revision` naming a nonexistent revision, be it a typo or a deleted
  parent, stays a failure. The code only counts heads: on any tree its report is the one on
  the tree without the unknown names (`MigrationGraph.UnknownParentsIgnored`), so such a name
  alone passes (`MigrationGraph.UnknownParentPasses`). In a clean, judged tree a misspelt id
  is flagged exactly when it leaves the meant parent without a child
  (`MigrationGraph.MisspeltFlaggedIff`), and a deleted parent exactly when it leaves one of
  its own parents without a child (`MigrationGraph.DeletedFlaggedIff`).
- **Lossy downgrade.** `BackupMigration.RoundTripIff` says exactly which databases the
  downgrade of migration 0031 restores.
- **Empty representations.** The range parser answers 416 to any suffix range of an
  empty representation, where section 14.1.2 of RFC 9110 calls a suffix of non-zero
  length satisfiable (`ByteRanges.EmptySuffixDeparts`). The model follows the code; it
  answers 416 exactly as the standard says if and only if it is not that case
  (`ByteRanges.MeetsStandardIff`).

## Model

| member | source | states |
|---|---|---|
| FlowTables.FlowTable.Lookup | relay/internal/bedrock/flowtable.go:81-102 | the entry's update and the answer equal the specification's; promotion fires when the count reaches the threshold, once |
| FlowTables.FlowTable.Create | relay/internal/bedrock/flowtable.go:108-128 | a new entry in both maps under the wrapped counter, nothing else changed |
| FlowTables.FlowTable.Promote | relay/internal/bedrock/flowtable.go:135-142 | stores the session on a live flow, no-op on a dead one |
| FlowTables.FlowTable.AllowPing | relay/internal/bedrock/flowtable.go:150-168 | the fixed window's decision and counting |
| FlowTables.FlowTable.AddrByID | relay/internal/bedrock/flowtable.go:175-184 | the address of a live id, refreshed; None otherwise |
| FlowTables.FlowTable.Evict | relay/internal/bedrock/flowtable.go:191-206 | the loop, in any visiting order, removes exactly the idle flows and returns exactly their addresses and sessions |
| FlowTables.FlowTable.Drain | relay/internal/bedrock/flowtable.go:216-228 | empties the table, returning the number of flows and exactly the open sessions |
| FlowTables.BijectionKept | relay/internal/bedrock/flowtable.go:81-228 | every operation but Create keeps byAddr and byID inverse bijections |
| FlowTables.CreateKeepsBijectionIff | relay/internal/bedrock/flowtable.go:108-128 | Create keeps the bijection exactly when the wrapped counter is not a live id |
| FlowTables.SessionsEvict | relay/internal/bedrock/flowtable.go:191-206 | the sessions handed out by an eviction and those left on flows add up to those before |
| TunnelIsolation.ClientIsolation | relay/internal/bedrock/tunnel.go:283-309 | whatever is delivered under an id goes to the address that id was created for, and whatever is forwarded under it came from there, over any run |
| TunnelIsolation.DeliveredWasCreated | relay/internal/bedrock/tunnel.go:283-309 | every delivery is under an id that some Create gave to that address |
| TunnelIsolation.CreateNeverOverwrites | relay/internal/bedrock/tunnel.go:348-368 | between the reader's Lookup miss and its Create the address stays absent, and the counter meets no live id |
| TunnelHistory.RepliesAreDelivered | relay/internal/bedrock/tunnel.go:283-309 | in every execution and for every client: replies under a live id of its = delivered to it + failed writes to it + the one being written |
| TunnelHistory.DatagramsAreForwarded | relay/internal/bedrock/tunnel.go:319-418 | in every execution each datagram read is forwarded once, or rejected by the caps, or a ping that its window does not let pass, or in the reader's hand |
| TunnelHistory.EvictedIffIdle | relay/internal/bedrock/flowtable.go:191-206 | a sweep takes a flow exactly when neither a datagram of its client nor a reply has touched it for the idle timeout |
| TunnelPromotion.PromotedOnFifth | relay/internal/bedrock/tunnel.go:340-381 | a flow has started its one session exactly when five of its datagrams were connected ones |
| TunnelSessions.PromotionFiresOnce | relay/internal/bedrock/tunnel.go:378-381 | under every interleaving a flow's promotion fires at most once |
| TunnelSessions.EndsFollowStarts | relay/internal/bedrock/tunnel.go:455-465 | at any time no session is started twice, ended twice, or ended unstarted |
| TunnelSessions.EverySessionAccountedFor | relay/internal/bedrock/tunnel.go:183-259 | when run returns each started session was ended once or lost to a promotion that found no flow, never both |
| TunnelSessions.AllEndedIffPromotesHit | relay/internal/bedrock/flowtable.go:130-142 | all starts are ended at return if and only if every Promote found its flow |
| TunnelSessions.InTimeHits | relay/internal/bedrock/tunnel.go:340-381 | a Promote within the idle timeout of its deciding lookup finds its flow |
| TunnelSessions.StartEndPairing | relay/internal/bedrock/tunnel.go:183-259 | with promotions in time every started session has exactly one End by the time run returns |
| TunnelLatePromotion.LatePromotionStrandsSession | relay/internal/bedrock/tunnel.go:378-381 | a complete run in which a late Promote leaves a session without End |
| TunnelSlots.AlwaysBooks | relay/internal/bedrock/tunnel.go:349-368 | at every moment, for every IP, slots held = live flows + acquired-not-yet-created + evicted-not-yet-released + abandoned at teardown, and the gauge is live flows up to the counts still to be made |
| TunnelSlots.LiveFlowsWithinCaps | relay/internal/bedrock/tunnel.go:349-368 | live flows never exceed the cap per source IP, nor the global ceiling |
| TunnelSlots.AdmitsIffBelowCaps | relay/internal/bedrock/tunnel.go:349-365 | the caps admit a new flow exactly while live and not yet released flows are below them, per IP and in total |
| TunnelSlots.ReleaseIsPaired | relay/internal/bedrock/tunnel.go:456-460 | every Release gives back a slot that is held |
| TunnelSlots.QuiescentBooks | relay/internal/bedrock/tunnel.go:455-465 | with nothing in flight, slots held per IP, total and gauge equal the live flows |
| TunnelSlots.GaugeReturnsToZero | relay/internal/bedrock/tunnel.go:245-258 | when run returns the table is empty, the goroutines are joined and the gauge is zero |
| TunnelTeardown.TeardownGoesOn | relay/internal/bedrock/tunnel.go:227-258 | from its close on, run or the goroutine that it joins always has a step that brings run's return nearer |
| TunnelTeardown.TeardownNeverBack | relay/internal/bedrock/tunnel.go:235-246 | no step takes the teardown back, but for one more sweep on a tick that was due |
| TunnelPings.PingsPerAddress | relay/internal/bedrock/tunnel.go:392-395 | one source address forwards at most 5 * ceil(T) + 4 pings in any interval of length T, across flow re-creation |
| TunnelPings.PingsPerFlow | relay/internal/bedrock/flowtable.go:150-168 | the same bound for one flow |
| TunnelPingWindow.CapHoldsIff | relay/internal/bedrock/flowtable.go:150-168 | no continuation forwards more than five further pings of a live flow in the coming second, if and only if its window is used up, over, or just starting, or the socket is closed |
| TunnelPingBurst.BoundIsAttained | relay/internal/bedrock/flowtable.go:150-168 | for every whole number of seconds a run in which one flow attains the bound |
| TunnelPingBurst.NinePingsInOneSecond | relay/internal/bedrock/flowtable.go:150-168 | a run that forwards nine pings of one flow within one second |
| FrameQueue.EncodeRoundTrip | relay/internal/bedrock/tunnel.go:400-403 | a frame decodes to its own flow id and payload |
| FrameQueue.FillFrame | relay/internal/bedrock/tunnel.go:400-404 | the in-place fill writes exactly the frame, and no byte beyond it |
| FrameQueue.BuffersOwnedOnce | relay/internal/bedrock/tunnel.go:129-132 | each buffer is owned by exactly one of pool, reader, queue and sender, keeps its capacity, and the channel its depth |
| FrameQueue.WireIsSubsequence | relay/internal/bedrock/tunnel.go:425-436 | the bytes given to SendDatagram are, in order, frames of a subsequence of the admitted datagrams, although reads overwrite the shared buffer |
| FrameQueue.NothingStranded | relay/internal/bedrock/tunnel.go:209-220 | after the sender exits each admitted datagram was either sent or dropped, never both |
| FrameQueue.SenderFinishes | relay/internal/bedrock/tunnel.go:425-436 | once the reader has stopped the sender always has a step nearer to its exit, and no step takes it back |
| FrameQueue.DropsOnlyWhenFull | relay/internal/bedrock/tunnel.go:405-416 | a datagram is dropped only if at some earlier moment the channel held as many frames as it can, all admitted before it |
| TunnelWire.WireIsTheClients | relay/internal/bedrock/tunnel.go:319-436 | every frame on the wire under a flow's id carries, unchanged and in order, a datagram of the address that the id was created for |
| PortIndex.PortExclusive | relay/internal/bedrock/listener.go:285-327 | at most one open tunnel per port, and it is the registered one or being registered |
| PortIndex.TakeoverFreesThePort | relay/internal/bedrock/listener.go:301-314 | when a handler binds, every earlier tunnel of the port is closed, whoever closed it |
| PortIndex.UnregistersOnlyItself | relay/internal/bedrock/listener.go:337-343 | unregister removes its own tunnel's entry or nothing |
| PortIndex.TornDownOnce | relay/internal/bedrock/tunnel.go:267-273 | a tunnel is torn down at most once, and completely by the time any close has returned |
| PortIndex.NothingLeftRegistered | relay/internal/bedrock/listener.go:189-218 | when all handlers have finished the index is empty and nothing is open |
| PortIndex.NeverStuck | relay/internal/bedrock/listener.go:296-343 | an unfinished handler can step, or the one it waits for can: mutex and once do not deadlock |
| PortIndex.OpenUntilEnded | relay/internal/bedrock/listener.go:264-343 | a tunnel keeps port and connection until its acknowledgement fails, its run ends, or another handler takes its port over |
| PortIndex.RunsWhileServing | relay/internal/bedrock/listener.go:209-217 | a handler runs its tunnel exactly from the acknowledgement to the end of the run |
| Shutdown.ReporterStopsLast | relay/cmd/relay/main.go:221-267 | svcStop runs after both drains; without a timeout starts = ends + sessions lost by Bedrock handlers, so all are ended if and only if none was lost |
| Shutdown.LostIsTheTunnels | relay/internal/bedrock/listener.go:189-218 | what a Bedrock handler loses is what its tunnel's run lost to a promotion that found no flow |
| Shutdown.AllReportedIffPromotesHit | relay/cmd/relay/main.go:221-267 | without a timeout every session has its End at svcStop if and only if in every tunnel every Promote found its flow |
| Shutdown.SilentAfterStop | relay/cmd/relay/main.go:259-267 | without a timeout nothing is reported after svcStop |
| Shutdown.EveryReportPaired | relay/cmd/relay/main.go:221-267 | counted over the reports themselves: each session reported started has one reported end, unless a Bedrock handler lost it, and no other has any |
| Shutdown.InflightIsWorking | relay/internal/game/listener.go:158-162 | a drain waits for exactly the handlers accepted and not finished |
| Shutdown.NeverWaitsUnsignalled | relay/cmd/relay/main.go:244-263 | while the game goroutine waits for bedrockDrained the context is cancelled and the Bedrock side can go on by itself |
| Shutdown.ShutdownProgresses | relay/cmd/relay/main.go:180-267 | no step goes back, and a signalled relay always has a step nearer to svcStop |
| StatusFlights.Flights.Join | relay/internal/game/statusflight.go:26-38 | takes the Join step of the step system: the flight in progress for the slug, or a new one led by the caller |
| StatusFlights.Flights.Finish | relay/internal/game/statusflight.go:43-49 | takes the steps Retire, Write and CloseDone, in that order, on the leader's own flight |
| StatusFlights.Flights.Read | relay/internal/game/listener.go:268-273 | a waiter that done released reads what the step system answers it |
| StatusFlights.OneExchangePerSlug | relay/internal/game/listener.go:249-262 | live exchanges of one slug never overlap |
| StatusFlights.FinishRetiresItsOwn | relay/internal/game/statusflight.go:43-46 | the unconditional delete always removes the finisher's own flight |
| StatusFlights.SharedResult | relay/internal/game/listener.go:264-279 | a waiter released by done reads exactly what its leader obtained |
| StatusFlights.AnswerWasObtained | relay/internal/game/listener.go:249-273 | whoever is answered from a flight gets what its leader's exchange ended with |
| StatusFlights.Fallbacks | relay/internal/game/listener.go:274-278 | a timed-out waiter answers the fallback, a cancelled one nothing |
| StatusFlights.WaitEnds | relay/internal/game/listener.go:268-279 | each of the three ways out of the wait answers at once |
| StatusFlights.ResultFixed | relay/internal/game/statusflight.go:43-49 | a published result never changes |
| StatusFlights.JoinIsNeverStale | relay/internal/game/statusflight.go:40-49 | a join after a result was published never gets that flight |
| StatusFlights.DoneClosedOnce | relay/internal/game/statusflight.go:47-48 | done is closed once, by the leader, after the result was written |
| DialBack.NoConnectionLost | relay/internal/game/listener.go:453-478 | over every race of delivery, timeout, cancellation and sweep a matched connection is returned to the caller or closed |
| DialBack.DeliveredIsReturned | relay/internal/game/listener.go:458-464 | a delivered connection is the one returned, and in use, unless the waiter gave up |
| DialBack.NothingOnlyIfGaveUp | relay/internal/game/listener.go:460-477 | nothing is returned only after giving up, or from a channel that the sweep closed on an expired token |
| DialBack.MatchedOnce | relay/internal/tunnel/tokens.go:90-101 | at most one dial-back is ever matched to a token, whatever became of it, and only that one can reach the waiter |
| DialBack.MatchedIff | relay/internal/tunnel/tokens.go:90-101 | before expiry a dial-back is matched exactly while the waiter still waits and none has been matched |
| DialBack.MatchesAreRecorded | relay/internal/tunnel/tokens.go:90-101 | the matches on record are those that Deliver made |
| DialBack.SendNeverBlocks | relay/internal/tunnel/tokens.go:90-101 | the send outside the lock finds an open channel with room |
| DialBack.SweptOnce | relay/internal/tunnel/tokens.go:132-142 | the sweep closes a channel at most once |
| DialBack.DrainNeverHangs | relay/internal/game/listener.go:469-476 | a Cancel that returns false is followed by a receive that can complete |
| DialBack.SpliceHandedOverOpenOrClosed | relay/internal/game/listener.go:429-448 | true means the cancel-close has not run and cannot run; false means the connection is closed |
| DialBack.SpliceStaysOpen | relay/internal/game/listener.go:440-448 | after true the cancel-close never runs |
| DialBack.SpliceFailsForAReason | relay/internal/game/listener.go:429-448 | it returns false only if the context was cancelled or a write failed |
| BodyGate.Gate.BeforeReceive | api/src/mc_server_dashboard_api/http_body_limit.py:218-227 | credential first, then the declared length; the gate's state change in full |
| BodyGate.Gate.AfterReceive | api/src/mc_server_dashboard_api/http_body_limit.py:227-235 | counts the message, and refuses it exactly when a reading route's bytes then exceed its limit |
| BodyGate.Gate.Unread | api/src/mc_server_dashboard_api/http_body_limit.py:203-216 | how much body is still to come, as the step system has it |
| BodyGate.Gate.TrackingSend | api/src/mc_server_dashboard_api/http_body_limit.py:237-249 | the first start of a response sets the flag and adds the close exactly when the decision and the discard loop come to it; anything else passes unchanged |
| BodyGate.OutcomeIsSteps | api/src/mc_server_dashboard_api/http_body_limit.py:237-249 | that outcome is what the steps of the response, the discarded messages and the deadline lead to |
| BodyGate.Gate.Discard | api/src/mc_server_dashboard_api/http_body_limit.py:162-181 | nothing is received above the budget; otherwise the loop's answer is the specification's |
| BodyGate.RouteNeverExceedsLimit | api/src/mc_server_dashboard_api/http_body_limit.py:218-235 | before the response starts the route never gets more than its limit, for any chunking, concurrent reads and reads after a refusal |
| BodyGate.RouteGetsEverything | api/src/mc_server_dashboard_api/http_body_limit.py:218-235 | as long as at most the limit has been delivered the route has got every byte of it |
| BodyGate.RefusedIffOverLimit | api/src/mc_server_dashboard_api/http_body_limit.py:230-234 | a read is refused after its message exactly when the bytes delivered by then exceed the limit |
| BodyGate.DeclaredRefusedIff | api/src/mc_server_dashboard_api/http_body_limit.py:225-226 | a declared length is refused before anything is received exactly when the real body is over the limit |
| BodyGate.BodyWithinLimitIsHandedOver | api/src/mc_server_dashboard_api/http_body_limit.py:218-235 | with honest framing nothing of a body within the limit is refused or kept from the route |
| BodyGate.ReadGoes | api/src/mc_server_dashboard_api/http_body_limit.py:218-227 | where a route's read goes: credential check, receive, or a 413 |
| BodyGate.ReadsAreAnswered | api/src/mc_server_dashboard_api/http_body_limit.py:218-235 | in every execution reads made = reads answered + reads waiting |
| BodyGate.CredentialFirst | api/src/mc_server_dashboard_api/http_body_limit.py:218-227 | no message is received before the credential check passed, none at all for a declared length past the limit |
| BodyGate.KeptOpenMeansReadThrough | api/src/mc_server_dashboard_api/http_body_limit.py:237-249 | with honest framing a response without the added close means the body was read to its end or the client is gone |
| BodyGate.DiscardWithinBudget | api/src/mc_server_dashboard_api/http_body_limit.py:162-181 | the discard loop never drops more than its budget |
| BodyGate.ResponseDecision | api/src/mc_server_dashboard_api/http_body_limit.py:203-216 | when the response closes, goes through, or discards, in terms of what is really left of the body |
| BodyGate.DiscardSucceedsIff | api/src/mc_server_dashboard_api/http_body_limit.py:171-181 | the loop succeeds exactly when a message that ends it arrives in time |
| BackupMigration.ValidHours | api/migrations/versions/0031_retire_backup_interval.py:98-113 | accepts exactly the numbers 1 to the maximum that are whole, so that the interval fits int4 |
| BackupMigration.FirstFreeIsFirst | api/migrations/versions/0031_retire_backup_interval.py:133-136 | the suffix search ends within one step per existing name (pigeonhole), at the first free suffix |
| BackupMigration.FindUniqueName | api/migrations/versions/0031_retire_backup_interval.py:116-136 | the loop returns the specification's name, which is free |
| BackupMigration.UniqueNameIs | api/migrations/versions/0031_retire_backup_interval.py:116-136 | the plain name if free, otherwise with the least number from 2 on that is free |
| BackupMigration.Database.Upgrade | api/migrations/versions/0031_retire_backup_interval.py:139-180 | the loop over fetched rows computes the specified tables |
| BackupMigration.UpgradeAllUpgrades | api/migrations/versions/0031_retire_backup_interval.py:139-180 | those tables described from the original ones alone, whatever the row order |
| BackupMigration.UpgradeStripsTheKey | api/migrations/versions/0031_retire_backup_interval.py:174-180 | the key is gone from every server and no other setting changed |
| BackupMigration.UpgradeAddsOneEach | api/migrations/versions/0031_retire_backup_interval.py:150-173 | exactly one enabled schedule per valid server, due within the hour, under a fresh name; none for others |
| BackupMigration.DueByDraw | api/migrations/versions/0031_retire_backup_interval.py:159-173 | the first run is due the drawn part of an hour after the migration |
| BackupMigration.UpgradeKeepsConstraints | api/migrations/versions/0031_retire_backup_interval.py:160-173 | UNIQUE(server_id, name) and the int4 bound survive |
| BackupMigration.Database.Downgrade | api/migrations/versions/0031_retire_backup_interval.py:183-207 | the loop computes the specified tables |
| BackupMigration.DowngradeRowsDowngrade | api/migrations/versions/0031_retire_backup_interval.py:183-207 | exactly the eligible schedules are deleted, and each server's key is that of its last one |
| BackupMigration.DowngradeTakes | api/migrations/versions/0031_retire_backup_interval.py:183-207 | exactly the enabled backup schedules without cron and with whole hours are deleted, no other row changes |
| BackupMigration.DowngradeSets | api/migrations/versions/0031_retire_backup_interval.py:194-203 | a server's key becomes the hours of the latest of those schedules; a server without one is untouched |
| BackupMigration.LastIsLatest | api/migrations/versions/0031_retire_backup_interval.py:185-193 | the one that counts has the latest created_at |
| BackupMigration.ValidServerRestoredIff | api/migrations/versions/0031_retire_backup_interval.py:183-207 | a valid server is restored if and only if the last schedule visited has its interval |
| BackupMigration.RestoredWhenLatest | api/migrations/versions/0031_retire_backup_interval.py:183-207 | a valid server is restored when its migrated row is the latest by created_at |
| BackupMigration.RoundTripIff | api/migrations/versions/0031_retire_backup_interval.py:139-207 | upgrade then downgrade is the identity exactly on databases without eligible schedules and without invalid values |
| MigrationGraph.CheckMigrations | scripts/check_migrations.py:219-284 | reports exactly the violations there are; none if and only if the tree is clean |
| MigrationGraph.HeadsJudgedIff | scripts/check_migrations.py:180-202 | the head count is reported exactly on a non-empty tree without one head in which no file declares a dependency or a branch label |
| MigrationGraph.PrefixIff | scripts/check_migrations.py:75-77 | the prefix of a name is its digits before an underscore, and there is none otherwise |
| MigrationGraph.HeadsExactly | scripts/check_migrations.py:274-275 | the computed list is the heads, each once, and has length one exactly when there is one head |
| MigrationGraph.OneHeadIff | scripts/check_migrations.py:266-276 | an acyclic tree has one head if and only if some revision has all others before it |
| MigrationGraph.CleanIsOneHistory | scripts/check_migrations.py:266-282 | passing implies that every revision is the one head or an ancestor of it |
| MigrationGraph.UnmergedIsFlagged | scripts/check_migrations.py:274-282 | two revisions without a common descendant, such as unmerged children of one parent, are flagged |
| MigrationGraph.OneHeadAfterIff | scripts/check_migrations.py:266-275 | a new migration leaves one head if and only if it names all current heads |
| MigrationGraph.ParallelPullRequestsCollide | scripts/check_migrations.py:4-8 | two independently added migrations are flagged together, in either merge order |
| MigrationGraph.UnknownParentsIgnored | scripts/check_migrations.py:45-54 | in any tree, erasing every unknown parent name changes no violation: an unknown parent is never noticed as such |
| MigrationGraph.MisspeltFlaggedIff | scripts/check_migrations.py:45-54 | in a clean tree that is judged, a misspelt parent id is flagged exactly when the meant revision exists and no other migration names it |
| MigrationGraph.DeletedFlaggedIff | scripts/check_migrations.py:45-54 | in a clean tree that is judged, deleting a migration that others build on is flagged exactly when a parent of its own is left without a child |
| MigrationGraph.UnknownParentPasses | scripts/check_migrations.py:266-282 | a clean tree with an unknown parent |
| MigrationGraph.CyclePasses | scripts/check_migrations.py:266-282 | a clean tree with a cycle outside the head's history: acyclicity is a real assumption |
| Versions.NumericVersion | scripts/supply_chain_cooldown.py:437-443 | the loop returns the segments without trailing zeros; anything but dotted numerals raises |
| Versions.SplitJoins | scripts/supply_chain_cooldown.py:437-440 | the segments joined with dots are the version, and no segment contains one |
| Versions.StrippedOrder | scripts/supply_chain_cooldown.py:440-443 | tuple comparison after stripping is comparison padded with zeros |
| Versions.Trichotomy | scripts/supply_chain_cooldown.py:437-443 | the padded order is total |
| Versions.OlderIsTransitive | scripts/supply_chain_cooldown.py:437-443 | the padded order is transitive |
| Versions.RequirementAdmits | scripts/supply_chain_cooldown.py:446-456 | the conjunction of the clauses in the padded order; an unsupported clause raises wherever it stands |
| Versions.DotZeroAdmitted | scripts/supply_chain_cooldown.py:437-456 | a trailing `.0` changes no requirement's answer |
| Trailers.RequirementUpdate | scripts/supply_chain_cooldown.py:459-477 | unless reading fails: true exactly when a changed pyproject file gains a requirement that admits the version and newly names or newly admits it |
| Trailers.ValidateOne | scripts/supply_chain_cooldown.py:480-506 | accepts a package only if the pull request adopts exactly one version of it, spelled as the trailer says, or only moves a Python requirement to it; and always then, if everything can be read |
| Trailers.Validate | scripts/supply_chain_cooldown.py:480-506 | the same for every package of the trailer |
| Trailers.SpellsIff | scripts/supply_chain_cooldown.py:226-227 | which pins spell a version, ecosystem by ecosystem: Go without the v, an action's tags and the commit of the first that exists |
| Trailers.CountsIff | scripts/supply_chain_cooldown.py:487-488 | every file's pins count but a pyproject file's in the Python ecosystem |
| Trailers.NewPinIsTheTrailers | scripts/supply_chain_cooldown.py:484-506 | although pins are compared by position, no version new to a file enters it unless it spells the trailer's |
| Dependencies.BaseNameIff | scripts/supply_chain_cooldown.py:560 | a path has a base name exactly if it is that name or ends in a slash and that name |
| Cooldown.IsLockIff | scripts/supply_chain_cooldown.py:560 | the lock files are the files of that name in whatever directory |
| Cooldown.CanonicalIs | scripts/supply_chain_cooldown.py:773-774 | a canonical name has single hyphens and no upper case |
| Cooldown.CanonicalFixed | scripts/supply_chain_cooldown.py:773-774 | a canonical name is its own |
| Cooldown.CanonicalIgnoresKind | scripts/supply_chain_cooldown.py:773-774 | neither case nor the kind of a separator matters |
| Cooldown.CanonicalIgnoresRuns | scripts/supply_chain_cooldown.py:773-774 | nor does the length of a run of separators |
| Cooldown.NewlyResolved | scripts/supply_chain_cooldown.py:553-579 | raises exactly when a lock file, in whatever directory, is unreadable or something new is not publicly sourced; otherwise exactly the newly adopted releases |
| Cooldown.Evaluate | scripts/supply_chain_cooldown.py:750-808 | passes only if the trailer is believable, the locks are public and every bumped release has a known age of seven days, and always then, if the Python requirements can be read; says when it raises and what it blocks for |
| Cooldown.PassCovers | scripts/supply_chain_cooldown.py:553-579 | a pass covers every trailer package, every pin of one that is new at head, and every lock identity new at head |
| Cooldown.PassCoversLocks | scripts/supply_chain_cooldown.py:553-579 | file by file: no entry new in a lock file of any directory is private, or young and not adopted before |
| Cooldown.UnblocksWhenNewestAged | scripts/supply_chain_cooldown.py:786-808 | a verdict that blocks for the newest release stays until that release is a week old and is a pass from then on, unless a requirement cannot be read |
| Cooldown.PassIsStable | scripts/supply_chain_cooldown.py:786-787 | after a pass every later verdict is a pass, unless a requirement cannot be read |
| Cooldown.Head.EvaluatePr | scripts/supply_chain_cooldown.py:725-747 | success is posted only when justified, whichever calls fail; blocking and every reported exception leave a failure last |
| ByteRanges.ParserMeetsGrammar | api/src/mc_server_dashboard_api/http_range.py:48-83 | every header that denotes a range gets that range's outcome, every other one is ignored |
| ByteRanges.UnsatisfiableExactly | api/src/mc_server_dashboard_api/http_range.py:48-113 | 416 exactly for well-formed ranges that this code cannot satisfy |
| ByteRanges.MeetsStandardIff | api/src/mc_server_dashboard_api/http_range.py:103-113 | 416 agrees with section 14.1.2 of RFC 9110 if and only if the range is not a non-zero suffix of an empty representation |
| ByteRanges.EmptySuffixDeparts | api/src/mc_server_dashboard_api/http_range.py:103-113 | the departure at `bytes=-1` and size 0 |
| ByteRanges.ParseByteRange | api/src/mc_server_dashboard_api/http_range.py:48-83 | a part always lies inside the representation |
| ByteRanges.ParserServesSelected | api/src/mc_server_dashboard_api/http_range.py:48-113 | a denoted range is answered with exactly the positions that it asks for and the representation has, 416 if there are none, and ignored if invalid |
| ByteRanges.UnitIff | api/src/mc_server_dashboard_api/http_range.py:58-60 | the unit is bytes in any case |
| ByteRanges.PrintParse | api/src/mc_server_dashboard_api/http_range.py:70-83 | the part for `bytes=a-b` is (a, b) if b exists and (a, size - 1) otherwise |
| ByteRanges.PrintedBytes | api/src/mc_server_dashboard_api/http_range.py:70-83 | so it carries exactly the bytes of positions a to b that exist |
| ByteRanges.SuffixBytes | api/src/mc_server_dashboard_api/http_range.py:103-113 | the part for `bytes=-n` is the last n bytes, or all of them |
| ByteRanges.ResumeRebuilds | api/src/mc_server_dashboard_api/http_range.py:48-83 | the first n bytes and the part for `bytes=n-` rebuild the representation |
| Decimals.ValueOfNumeral | api/src/mc_server_dashboard_api/http_range.py:70-83 | reading a printed number gives the number |

## Left out

Not modelled:

- Sockets, QUIC, TLS, gRPC, metrics other than the active-flows gauge, and logging: only the events the properties count remain.
- The per-IP join-rate window of `AllowJoin` (relay/internal/ipcaps/ipcaps.go): an admission may be rejected at any time instead.
- The split of `Acquire` and `Release` into an atomic total and a locked map: each is one step.
- `TokenTable` for several tokens at once: the rendezvous is that of one token, which the API mints once.
- The session reporter's buffering, the status cache's contents, and byte copying inside a splice.
- Serve's derived context that ends established splices, accept back-off, and the `firstFailure` cell: only when Serve returns and who signals matters here; the parent context of `run` is never cancelled.
- Wall-clock timeouts: a timeout is a step that may happen at any time. The tunnel's clock is non-decreasing and idle times are compared as the code does.
- Liveness beyond the progress lemmas: no fairness is assumed.
- How HTTP headers reach the body gate, and an unparsable Content-Length, which the server in front rejects.
- Python's limit of 4300 digits for `int`, digits outside ASCII, and lower-casing outside ASCII.
- `updated_at` columns, the numeric scale of a JSON number (24.0 against 24), SQL transactions, and columns of the schedule table that neither direction of the migration reads.
- Parsing of migration files and the wording and sorting of messages; a violation names its files by position.
- Registry and GitHub look-ups, the parsing of manifests, locks, pins, clauses and trailers, and the detection of security updates: their results are inputs of the gate. The test for a public source is an input too.
- The order in which newly resolved packages are listed: it decides only which of several unknown releases a message names.
- `config.py`, handshake framing, host names, and the remaining migrations: short straight-line code.

Weaker than the source's own words:

- TunnelPings.PingsPerFlow: states 5 * ceil(T) + 4 instead of the documented five per second, which `TunnelPingBurst.NinePingsInOneSecond` refutes; when five holds is `TunnelPingWindow.CapHoldsIff`.
- TunnelSessions.StartEndPairing: assumes promotions within the idle timeout and at most 2^32 creations; the exact condition is `TunnelSessions.AllEndedIffPromotesHit`.
- TunnelIsolation.ClientIsolation: assumes at most 2^32 creations in one tunnel, as the source's comment on `Create` does.
- MigrationGraph.CleanIsOneHistory: assumes acyclicity, which the code does not check; `MigrationGraph.CyclePasses` shows that it is needed.
- Shutdown.ReporterStopsLast: a game handler returns only with its session ended, which is what the deferred End in `spliceLogin` does; a Bedrock handler may lose sessions.
- Cooldown.Head.EvaluatePr: a failing call to the GitHub API while reporting an exception leaves no failure status, as in the code.
