# Verified models of the application kit's protocols and algorithms

This project models, in Dafny 4.11, the parts of the application kit whose correctness is hardest to see
by reading: protocols that several goroutines, replicas or processes run at once and that may stop at any
step, and parsers and algorithms that promise an exact relation between input and output.
`dafny verify dfyconfig.toml` checks everything.

Where the kit changes state step by step the model does too. A protocol has two layers: a state machine
whose steps are the statements, critical sections and channel operations of the code (`...Machine`), with
its invariants over all runs (`...Safety`, `...Theorems`), and a class whose methods are the code's own
functions (`...Relay`, `...Middleware`, `...Endpoint`, `...Service`, `...Runner`). The class records its
history as a run of the machine, and between any two of its steps everybody else may take any number of
steps. Loops that wait for something outside are bounded by an arbitrary patience, which stands for the
caller's context. I/O failures, crashes, clock readings, the choice of a ready `select` case and the order
of a map iteration are arbitrary.

**Transactional file apply** (`Workspace*`). A plan of creates, updates, deletes and assertions over
distinct, non-nested paths is staged, each original is renamed to a backup, the new content is renamed
into place, a journal in memory says what was done, and failures are undone in reverse. Every operation
may fail, any number of times, during rollback too. Every tree the disk goes through is recoverable: called
again from there without a fault, the whole operation ends with every target final, with one exception
(`WorkspaceRecovery.ApplyPlan`). Two exact conditions came out of it. A directory whose creation could not
be synced is not recorded. The disk keeps a log of its operations, and after a failed commit and a
fault-free rollback the public tree is restored exactly when the operation that failed the commit was not
the sync right after a directory was made (`WorkspaceApply.Apply`); the rollback reports success all the
same unless the directory lies inside a recorded one, as `WorkspaceApply.LeakedDirectory` shows on a plan
of one file and one fault. And an interrupted transaction cannot be recovered exactly when its record is
torn, or is missing while the plan changes nothing (`WorkspaceRecovery.StuckTransactions`).

**Outbox** (`Outbox*`). Relays claim batches under a lease and a token, deliver without a lock and settle
each row only while the token matches; consumers put an inbox row and their effect into one transaction;
operators put dead letters back. A statement works with the time it started at.

**Event streams** (`Sse*`). `SseStandard` writes down the interpretation of sections 9.2.5 and 9.2.6 of
the WHATWG HTML Standard on its own. The byte-at-a-time decoder refines it up to its stricter rules,
`SseFrames.StopsExactly` says where exactly these stop it and why, and it inverts the server's printer.
The printer refuses a cursor with NUL, CR or LF but lets one through that is not UTF-8, which the decoder
then refuses; `SsePrinter.SurvivesIff` gives the exact condition.

**In-process streams** (`Stream*`). One direction of a bidirectional stream and the session both ends
share: the sending gate, the bounded queue or rendezvous, half-close, the one-shot terminal and the drain.
A Send that was already waiting when the session ended can still get its value in, and it is the only one.

**Idempotency keys** (`Idem*`). Insert, read or take over after the TTL; settle under the owner token;
replay. A statement works with the time it started at, which may lie before the moment it takes effect,
and its answer may be lost after its effect. `IdemResponse` holds what net/http sends of a handler's calls
against what is recorded of them. The status recorded is that of the first header or write, so it is the
wrong one after an informational header, and after a flush, which sends a 200 that the capturing writer does
not note; `IdemResponse.RecordedIsSentIff` gives the exact condition. The headers recorded are those at the
end of the handler. `IdemTheorems.ReplayIsFaithful` says exactly when a replay is what the first client got
all the same: writing out a record with an informational status sends a 200, which may be right.

**Schema diagram** (`Schema*`, `SortedNames`). Union-find with path halving and least-name roots computes
connected components. A foreign key may name a table outside the list, and groups then join through it;
`SchemaComponents.UnlistedMatterIff` says exactly when that makes a difference.

**Registry** (`Registry`). Memoising depth-first construction with a stack that finds cycles.

**References** (`Ref*`). The strict JSON parser of flat string objects, with escapes, surrogate pairs and a
size bound, against an independent grammar and against the writer. A text is a sequence of Unicode scalar
values; byte limits are counted in UTF-8.

**Money** (`Decimals`, `Money`). Canonical amount text. The comment at money/money.go:121-122 promises that
every amount has a bounded rendering, but arithmetic checks nothing, and with a positive exponent even the
rendering of a checked amount can be longer than what `Parse` accepts. `Money.WrittenAmountReturnsIff` gives
the exact condition under which any amount survives being written and read.

**WebSocket limits and hub** (`TokenBucket`, `Hub*`). The bucket is modelled over the reals. Callers sample
the clock before they take the lock. What is granted in a window is bounded by a burst plus the rate times
its length and the longest lag of a sample behind its lock; without the lag in it the bound holds for all
runs exactly if there is none (`TokenBucket.PlainBoundIff`). The hub's `Drain` is documented to
stop new upgrades; one that comes before `Start` is forgotten (`HubMachine.DrainIsFinalIff`).

**Migrations** (`Migration*`). Replicas over one list of files, one transaction a file under an advisory
lock, with crashes anywhere and commits whose answer is lost.

## Model

| member | source | states |
|---|---|---|
| `WorkspaceModel.OriginalsPreserved` | internal/workspace/apply.go:228-325 | in every moment from which the transaction can be recovered, each file that existed before is whole at its target or at its backup, unless the transaction has been committed and closed |
| `WorkspaceApply.Apply` | internal/workspace/apply.go:109-325 | every tree on the way is recoverable whatever fails; a disposition other than "nothing" means all targets are final; a failed commit followed by a fault-free rollback leaves every target as before, and the whole public tree exactly when the operation that failed the commit was not the sync right after a directory was made, which is read off the log of operations; from the final state nothing is changed |
| `WorkspaceApply.LeakedDirectory` | internal/workspace/apply.go:504-546 | a concrete plan and a single failing sync after which the public tree is not as before although the rollback reports success |
| `WorkspaceApply.CommitAll` | internal/workspace/apply.go:228-300 | the commit loop followed by the final capture: success means every target is final; it fails only at an operation made to fail, leaving a journal and a directory list from which everything can be undone, with a directory unrecorded exactly when the last two operations are its creation and the failed sync of its parent |
| `WorkspaceApply.CommitChange` | internal/workspace/apply.go:228-282 | one round of the loop (parents, move aside, journal, install) keeps the undo information complete at every step that can fail; whenever the change creates below a missing directory there is a fault that leaves that directory unrecorded |
| `WorkspaceApply.Classify` | internal/workspace/apply.go:386-406 | before, final or unknown, the final state first when a plan changes nothing; a failing read is unknown |
| `WorkspaceApply.StageWrites` | internal/workspace/apply.go:446-485 | the staged contents are in place and checked, and no target has been touched |
| `WorkspaceApply.Discard` | internal/workspace/apply.go:642-650 | a transaction that has not moved any target may be deleted, wholly or in part, without losing a target state |
| `WorkspaceApply.Prepare` | internal/workspace/recovery.go:83-121 | the recovery record is complete before anything public moves |
| `WorkspaceApply.Finalize` | internal/workspace/recovery.go:307-319 | closing a committed transaction never changes a target |
| `WorkspaceApply.FailCommit` | internal/workspace/apply.go:570-581 | after a failed commit the tree stays recoverable; without further faults all targets are as before, and the public tree too exactly when no directory is unrecorded |
| `WorkspaceCommit.EnsureTargetParents` | internal/workspace/apply.go:504-546 | missing directories are created from the top down and recorded; one is left unrecorded if and only if the last two operations were its successful creation and the failed sync of its parent, and below a missing directory there is always a fault that brings this about |
| `WorkspaceCommit.MoveAside` | internal/workspace/apply.go:236-258 | the original is at its backup exactly when the journal says so, also when the sync after the rename fails |
| `WorkspaceCommit.Install` | internal/workspace/apply.go:259-282 | the staged content replaces nothing that is not already backed up |
| `WorkspaceRollback.Rollback` | internal/workspace/apply.go:583-640 | in every moment of the rollback each original is at its target or its backup; the transaction directory is given up only after all targets were verified; fault-free it restores every target, and reports success exactly when no unrecorded directory lies inside a recorded one |
| `WorkspaceRollback.UndoEntry` | internal/workspace/apply.go:596-618 | whatever fails, the original stays at its target or its backup, and when nothing fails the target is as it was |
| `WorkspaceRollback.UndoJournal` | internal/workspace/apply.go:595-618 | the journal is undone last entry first and a failing entry does not stop the rest |
| `WorkspaceRollback.RemoveCreated` | internal/workspace/apply.go:619-628 | created directories go deepest first and only when empty; without a fault those that stay still hold something, and with every target back that is so only above an unrecorded directory |
| `WorkspaceRollback.VerifyBefore` | internal/workspace/apply.go:629-636 | success requires a last capture in which every target is as before |
| `WorkspaceModel.ShapeRestored` | internal/workspace/apply.go:583-640 | with every target back and no directory left over, the public tree equals the one the commit started from |
| `WorkspaceModel.PublicKeepsStates` | internal/workspace/apply.go:386-418 | whether a target set is before or final depends on the public tree only |
| `WorkspaceModel.UntouchedRecoverable` | internal/workspace/apply.go:642-650 | a transaction whose targets are all as before may lose any of its private files |
| `WorkspaceRecovery.Recover` | internal/workspace/recovery.go:123-205 | the next apply of the same plan keeps every original, and success leaves a complete target set and no transaction; fault-free it fails exactly for a transaction whose record is torn, or not there while the plan changes nothing, and a torn record is left untouched |
| `WorkspaceRecovery.ApplyPlan` | internal/workspace/apply.go:109-180 | sweep, recovery and apply together: from any moment of an interrupted apply of the plan, a call without faults ends with every target final and no transaction, exactly when recovery can finish, and every moment of the call is again one to start from |
| `WorkspaceRecovery.TornIsStuck` | internal/workspace/recovery.go:123-205 | a transaction interrupted while its record was written is a recoverable moment recovery cannot finish |
| `WorkspaceRecovery.IdleIsStuck` | internal/workspace/recovery.go:170-180 | nor can it finish a transaction without a record of a plan that changes nothing |
| `WorkspaceRecovery.StuckTransactions` | internal/workspace/recovery.go:170-180 | both make every further apply of the plan fail though no operation does |
| `WorkspaceRecovery.RollbackPrepared` | internal/workspace/recovery.go:207-305 | an interrupted commit is undone last change first and nothing is lost on the way |
| `WorkspaceRecovery.RecoverTarget` | internal/workspace/recovery.go:257-296 | one target goes back to its state before the plan, or stays in a state the plan knows |
| `WorkspaceRecovery.InspectTargets` | internal/workspace/recovery.go:207-250 | without faults no target of an interrupted transaction is refused, and looking changes nothing |
| `OutboxSafety.ExactlyOnceEffect` | outbox/relay.go:253-302 | for every interleaving of relays, crashes, expired leases and put-back dead letters, each (consumer, event) effect commits at most once, and every consumer subscribed to a published event has committed it exactly once |
| `OutboxSafety.AttemptsExact` | outbox/relay.go:127-156 | live rows have fewer attempts than the maximum, dead rows exactly the maximum, published rows are never dead, and while a row carries a batch token its attempts are those the batch read |
| `OutboxSafety.PublishedForever` | outbox/relay.go:137-140 | a published row stays published |
| `OutboxSafety.SharedOnlyAfterExpiry` | outbox/relay.go:305-357 | two unsettled batches share an event only if the earlier lease had expired when the later claim took effect, though its statement may have started before |
| `OutboxSafety.DueMeansExpired` | outbox/relay.go:127-136 | a row that an unsettled batch holds is due to a statement, whenever that started, only after its lease |
| `OutboxSafety.NewlyPublished` | outbox/relay.go:275-285 | a row becomes published only through a batch all of whose handlers accepted it |
| `OutboxSafety.InvAlong` | outbox/relay.go:253-413 | the invariant of rows, relays, tokens, leases, inbox and effects holds in every state of every run |
| `OutboxMachine.Backoff` | outbox/relay.go:416-425 | the doubling loop on wrapping 64-bit durations yields min(base * 2^attempts, cap) for every positive base and every attempt count |
| `OutboxRelay.Relay.RelayOnce` | outbox/relay.go:253-302 | a round is a run of the machine whatever others do between its statements, and it reports success only if every event it claimed is published |
| `OutboxRelay.Relay.ClaimBatch` | outbox/relay.go:305-357 | a claim that finds rows and whose answer comes back leaves this relay holding them under the batch token, about to deliver the first; otherwise it holds nothing, even when the claim took effect |
| `OutboxRelay.Relay.Deliver` | outbox/relay.go:362-386 | success moves the batch to its next event after all handlers of this one; no handler, unreadable meta, a failing or a panicking handler ends the batch at this event |
| `OutboxRelay.Relay.SettleBatch` | outbox/relay.go:275-302 | after the three statements, each of which may be lost, the relay holds nothing; success means nothing failed and every delivered event is published |
| `OutboxRelay.FullMatch` | outbox/relay.go:278-285 | an affected-row count equal to the number of events means each of them was still held |
| `OutboxRelay.DirectBus.Subscribe` | outbox/bus.go:37-44 | a subscription is appended to its topic and no other topic changes |
| `OutboxRelay.Wire` | outbox/bus.go:35-44 | the bus holds what was subscribed, in order, per topic |
| `OutboxSafety.EffectsStep` | outbox/inbox.go:57-75 | every step keeps that the effects are exactly the inbox rows, each once: row and effect commit together, and a second delivery has no effect |
| `OutboxSafety.RowStep` | outbox/deadletter.go:86-100 | every step, putting dead letters back included, keeps the attempt bounds of every row |
| `SseFrames.DecodeRefinesStandard` | httpserver/sse_client_parser.go:38-96 | the frames are the events of section 9.2.6 of the WHATWG HTML Standard in order, with the same cursor, up to the point where a stricter rule stops; a stream read to its end yields them all |
| `SseFrames.StopsExactly` | httpserver/sse_client_parser.go:38-96 | decoding stops exactly at the first block that is over the limit, has a line that is not UTF-8, is not closed or is of an unsupported type, for that reason in this order; one frame was yielded for every block before, and the events of the Standard still missing are those from that block on |
| `SseFrames.StreamRefinesStandard` | httpserver/sse_client_parser.go:34-96 | the same for a whole stream from its first byte, byte order mark included |
| `SseFrames.ReadToTheEndIff` | httpserver/sse_client_parser.go:55-75 | within the limit a stream is read to its end exactly if all its lines are UTF-8 and all its dispatched event types are message or error |
| `SseFrames.ScanRefines` | httpserver/sse_client_parser.go:43-95 | one block yields the event of its lines and leaves the lines that follow |
| `SseFrames.CountedBytes` | httpserver/sse_client_parser.go:98-126 | the bytes counted for a block are its own, all but the line feed after a dispatching CR |
| `SseFrames.DataWithinLimit` | httpserver/sse_client_parser.go:86-89 | no frame carries more data than the limit |
| `SseFrames.DataWithinCount` | httpserver/sse_client_parser.go:86-126 | what a block accumulates never exceeds the bytes counted for it |
| `SseFrames.SameLinesSameFrames` | httpserver/sse_client_parser.go:98-137 | streams with the same lines give the same frames however the lines are ended, unless the limit cuts one of them |
| `SseFrames.PlainEndingsAgree` | httpserver/sse_client_parser.go:128-133 | with one byte to every line end not even the limit can tell them apart |
| `SseFrames.EncodingsAgree` | httpserver/sse_client_parser.go:98-137 | LF, CR LF, CR and every unambiguous mix of them decode alike where the limit has room |
| `SseFrames.UniformEndingsUnambiguous` | httpserver/sse_client_parser.go:98-101 | lines all ended alike read back unambiguously |
| `SseText.LinesOfEncode` | httpserver/sse_client_parser.go:128-137 | splitting into lines inverts joining them with any unambiguous line ends |
| `SseDecoder.Decoder.ReadLine` | httpserver/sse_client_parser.go:102-138 | the byte loop returns the next line, skips the line feed of a CR LF already acted upon, and counts every byte but the free one |
| `SseDecoder.Decoder.Next` | httpserver/sse_client_parser.go:38-96 | one call reads exactly one block of the declarative form, within the limit |
| `SseDecoder.Decoder.DecodeAll` | httpserver/sse_client.go:257-298 | the client loop sees every frame up to the first call that returns none |
| `SsePrinter.DecodePrinted` | httpserver/sse.go:293-311 | any sequence of data, heartbeat and error frames is read back as exactly those frames in order, each with the last nonempty ID so far or the initial cursor |
| `SsePrinter.ScanPrinted` | httpserver/sse.go:293-311 | one printed frame is one block and every byte of it is counted |
| `SsePrinter.SurvivesIff` | httpserver/sse.go:293-296 | an event the printer accepts survives the trip exactly if its cursor is UTF-8 |
| `SsePrinter.NotEveryCursorSurvives` | httpserver/sse.go:293-296 | the printer accepts a cursor that is not UTF-8: a lone continuation byte |
| `SsePrinter.MarshalEvent` | httpserver/sse.go:293-311 | the frame text of an event, or a refusal of a cursor with NUL, CR or LF |
| `SsePrinter.ScanHeartbeat` | httpserver/sse.go:216 | the keep-alive comment is a block without an event |
| `SsePrinter.ScanErrorName` | httpserver/sse.go:364-369 | the error frame is a block of event type error |
| `StreamTheorems.NothingLost` | contract/stream.go:429-541 | in every run the accepted values are the received values followed by the queue, and the queue respects its capacity, zero included |
| `StreamTheorems.ExactlyOnce` | contract/stream.go:429-541 | each accepted value belongs to one Send that reports success and each received value to one Recv, in the same order |
| `StreamTheorems.EofIsTheEnd` | contract/stream.go:521-529 | half-close is reported only when everything accepted has been received, and nothing is accepted afterwards |
| `StreamTheorems.ClosedMeansQuiet` | contract/stream.go:216-252 | a closed side has no Send in flight |
| `StreamTheorems.EndAfterDrain` | contract/stream.go:504-517 | the end of the session is reported to a receiver only after every value accepted before it |
| `StreamTheorems.AtMostOneLate` | contract/stream.go:440-489 | after the end of the session at most one more value is accepted |
| `StreamTheorems.OneTerminal` | contract/stream.go:310-343 | every call that reports the end of the session reports the same terminal |
| `StreamTheorems.AtMostTwoRounds` | contract/stream.go:503-540 | the receive loop runs at most twice |
| `StreamTheorems.CloseNeverStopsASend` | contract/stream.go:482-483 | the closed-side case of the sending select is dead |
| `StreamTheorems.CloserWakes` | contract/stream.go:195-252 | a closer that waits for a Send misses no wake-up |
| `StreamSafety.InvStep` | contract/stream.go:195-541 | every critical section, channel operation and read keeps the invariant |
| `StreamSafety.SendKeepsSenders` | contract/stream.go:484-488 | no step makes a Send report success without its value accepted, or the reverse |
| `StreamSafety.RecvKeepsTakers` | contract/stream.go:505-514 | no step takes a value for two receives or for none |
| `StreamEndpoint.Direction.Send` | contract/stream.go:429-489 | success means this value is among the accepted under this call; any other result means it never was |
| `StreamEndpoint.Direction.Recv` | contract/stream.go:491-541 | a result is the value this call took, io.EOF with nothing left, or the terminal after the drain; the loop ends |
| `StreamEndpoint.Direction.CloseSend` | contract/stream.go:216-252 | success means the side is closed and no Send is in flight |
| `StreamEndpoint.Direction.Begin` | contract/stream.go:195-207 | a Send is refused exactly if in the moment it asked the side was closed or another Send was at work; otherwise it holds the gate |
| `StreamEndpoint.Direction.Enter` | contract/stream.go:429-436 | a Send whose context has ended before the gate is asked returns that and touches nothing |
| `IdemTheorems.ClaimsApart` | idem/idem.go:170-208 | claims of one key lie more than the TTL apart and carry the same fingerprint |
| `IdemTheorems.FinishedForever` | idem/idem.go:232-261 | a completed or executed record never changes and its key is never claimed again |
| `IdemTheorems.AtMostOneStart` | idem/idem.go:473-520 | if every holder settles within the TTL, a handler is started at most once per key, for any number of concurrent requests; one that panicked or died counts |
| `IdemTheorems.AtMostOneRun` | idem/idem.go:473-520 | under the same condition no two handlers that returned are of one key |
| `IdemTheorems.ClaimRate` | idem/idem.go:192-203 | in general a key is claimed at most once more per TTL that passes |
| `IdemTheorems.RunsHaveClaims` | idem/idem.go:473-520 | no claim is executed twice |
| `IdemTheorems.ReplayIsFaithful` | idem/idem.go:528-550 | a replay is what the record of a handler run with the same key and fingerprint, whose writes all went out, sends when it is written out: its client gets the body that run sent, and the same status exactly if the status was recorded as it was sent, or an informational one was recorded and a 200 sent; for a handler that left the header map alone after the header had gone out, the whole response, less the headers never replayed and marked as a replay, exactly then |
| `IdemTheorems.ReplaysAgree` | idem/idem.go:532-542 | all replays of a key are the same response |
| `IdemTheorems.VerdictsStand` | idem/idem.go:528-550 | a mismatch and an "already executed" answer are never taken back |
| `IdemTheorems.ReadFindsItsRow` | idem/idem.go:185-188 | the read after a conflicting insert always finds its row, because the middleware never releases |
| `IdemSafety.StepKeepsInv` | idem/idem.go:170-276 | every statement, also one whose answer is lost, keeps the invariant of tokens, rows, runs and answers |
| `IdemSafety.ClaimKeepsInv` | idem/idem.go:174-202 | a claim, by insert or take-over, keeps the row of a key its latest claim |
| `IdemSafety.SettleKeepsInv` | idem/idem.go:232-261 | settling is fenced by the token that claimed |
| `IdemKeys.StoredKeyInjective` | idem/idem.go:349-376 | scope and key can be read off the stored key: no two scopes share a record |
| `IdemKeys.ForgeableWithoutTheCheck` | idem/idem.go:349-354 | without the check on control characters two scopes can collide |
| `IdemKeys.CheckKeyPart` | idem/idem.go:372-381 | accepts exactly the parts without control characters |
| `IdemKeys.SepOfStored` | idem/idem.go:443-450 | the separator stands exactly where the scope ends |
| `IdemResponse.RecordedIsSentIff` | idem/idem.go:563-596 | the recorded status is the one the client got exactly if the first header the handler writes before any body, if there is one, is a 200, or is neither informational nor preceded by a flush |
| `IdemResponse.RecordedWhole` | idem/idem.go:483-515 | for a handler that leaves the header map alone after the header has gone out, the whole recorded response is the sent one under just that condition |
| `IdemResponse.InformationalFirst` | idem/idem.go:563-568 | an informational header followed by a 200 is recorded as 103 |
| `IdemResponse.FlushFirst` | idem/idem.go:563-596 | a flush followed by a 404 header is recorded as 404 while the client got 200 |
| `IdemResponse.LateHeader` | idem/idem.go:505-515 | a header changed after the first write is recorded though the client did not get it |
| `IdemResponse.ReplayIsSentIff` | idem/idem.go:532-542 | the same for any calls of a handler: body, status and whole response of the replay against what was sent |
| `IdemResponse.InformationalReplayed` | idem/idem.go:532-542 | 103, then 200 and a body: the record says 103, and the replay is what was sent all the same |
| `IdemResponse.InformationalMisreplayed` | idem/idem.go:532-542 | 103, then 404: the record says 103, and the replay sends a 200 |
| `IdemCapture.CaptureWriter.Write` | idem/idem.go:570-587 | the copy is whole exactly as long as everything written fits the limit, and a short or failed write is remembered |
| `IdemCapture.CaptureWriter.WriteHeader` | idem/idem.go:563-568 | the first status is the one noted, whatever it is |
| `IdemCapture.CaptureWriter.Flush` | idem/idem.go:589-596 | a flush is passed on and leaves the noted status alone |
| `IdemMiddleware.Table.Claim` | idem/idem.go:170-208 | at most three tries; a request that does not get the claim has been answered |
| `IdemMiddleware.Table.Serve` | idem/idem.go:424-521 | a request runs the machine from its arrival to its answer, and a replay or mismatch is true of the table when it is given |
| `IdemMiddleware.Table.Finish` | idem/idem.go:483-520 | the statement chosen by the flags of the capturing writer is the settling step of the machine for the calls the handler made, and the client has what those calls sent |
| `SchemaComponents.Components` | internal/schemadoc/diagram.go:114-139 | returns the connected components of the foreign keys: sorted groups of all connected listed tables, larger groups first, then by first table |
| `SchemaComponents.SameGroupIff` | internal/schemadoc/diagram.go:109-139 | two listed tables share a group exactly if the foreign keys connect them |
| `SchemaComponents.ComponentsUnique` | internal/schemadoc/diagram.go:127-138 | the output is determined by the tables and the edges alone, not by the order of tables, edges or a map iteration |
| `SchemaComponents.RootIsLeastConnected` | internal/schemadoc/diagram.go:160-171 | each root is the least name connected to it, whatever the order of the edges |
| `SchemaComponents.SameRootIff` | internal/schemadoc/diagram.go:151-171 | two names have one root exactly if they are connected |
| `SchemaComponents.UnlistedMatterIff` | internal/schemadoc/diagram.go:119-121 | groups join through tables outside the list; they are the components of the listed tables alone exactly if the children of each such table are connected without it |
| `SchemaComponents.UnlistedJoins` | internal/schemadoc/diagram.go:119-121 | two tables that name one table outside the list form a group though nothing listed links them |
| `SchemaForest.UnionFind.Find` | internal/schemadoc/diagram.go:151-158 | path halving ends at the root and moves nobody to another root |
| `SchemaForest.UnionFind.Union` | internal/schemadoc/diagram.go:160-171 | the two trees become one under the smaller root, all others stay |
| `SchemaForest.HalvingKeeps` | internal/schemadoc/diagram.go:153-156 | pointing a name at its grandparent keeps every root |
| `SchemaForest.ParentIsBelow` | internal/schemadoc/diagram.go:153-156 | a climb ends because a parent has strictly fewer smaller names |
| `SchemaComponents.EdgesOf` | internal/schemadoc/diagram.go:30-65 | the edges are the named references of the tables and nothing else |
| `SortedNames.SortedUnique` | internal/schemadoc/diagram.go:129-138 | a sorted list is determined by what it holds |
| `Registry.Registry.ResolveAll` | registry.go:329-342 | succeeds exactly if every local binding can be constructed: nothing below it is missing, fails or depends on itself; then exactly the reachable constructors ran, each once |
| `Registry.Registry.Resolve` | registry.go:288-316 | an instance made at most once, or an error that names a missing provider, a failing constructor or a real dependency cycle |
| `Registry.MadeIsConstructible` | registry.go:304-315 | whatever has been made has only sound keys below it and no cycle |
| `Registry.ObstacleAbove` | registry.go:307-312 | what stands in the way of a dependency stands in the way of its dependent |
| `Registry.OnStack` | registry.go:302-303 | the reported stack, from the repeated key on, is a real dependency cycle |
| `RefValues.ValuesRoundTrip` | refs/values.go:80-153 | reading what was written for a valid collection gives it back, in whatever order it was listed |
| `RefValues.EncodingFits` | refs/values.go:12-17 | the written form of every valid collection is within the limit for reading |
| `RefValues.AcceptedIsValid` | refs/values.go:105-153 | whatever is accepted obeys the rules of NewValues and no member was dropped |
| `RefJson.EncodeReads` | refs/values.go:80-153 | every list of members is read back from its text, escapes included |
| `RefJson.SurrogatePairReads` | refs/values.go:244-262 | a character outside the basic plane is read from its pair of surrogate escapes |
| `RefJson.LoneSurrogateRefused` | refs/values.go:249-261 | a surrogate escape that is not part of such a pair is refused |
| `RefParser.DecodeJSON` | refs/values.go:105-153 | accepts exactly the texts that are one object with distinct valid keys and valid IDs within the limits, and returns their members |
| `RefParser.JsonParser.StringValue` | refs/values.go:220-270 | the scanning loop accepts exactly the JSON strings without lone surrogates and gives their value |
| `RefParser.JsonParser.HexUnit` | refs/values.go:272-293 | four hexadecimal digits of either case |
| `RefParser.NewValues` | refs/values.go:32-57 | accepts exactly the valid inputs and holds what they hold |
| `RefParser.MarshalJSON` | refs/values.go:80-85 | the members in the order of their keys, which reading gives back as the same collection |
| `RefParser.ListingUnique` | refs/values.go:78-85 | a collection has one such text |
| `RefValues.ValidReferenceKey` | refs/values.go:155-178 | lowercase segments begun by a letter and joined by dots, at most 64 bytes |
| `RefValues.ValidOpaqueId` | refs/values.go:180-190 | nonempty, at most 256 bytes, without Unicode spaces or control characters |
| `Money.CanonicalRoundTrip` | money/money.go:100-119 | an accepted text is printed back byte for byte |
| `Money.CanonicalUnique` | money/money.go:95-119 | two accepted texts of equal value with equally many fraction digits are the same text |
| `Money.CanonicalAcceptsIff` | money/money.go:95-136 | accepted are exactly the canonical texts of at most 64 bytes, 38 digits and 18 fraction digits that are not a negative zero |
| `Money.MatchIff` | money/money.go:95 | the regular expression taken as a decision recognises and takes apart exactly its texts |
| `Money.WrittenAmountReturnsIff` | money/money.go:121-253 | any amount, however it was made, survives being written and parsed again exactly if its currency is well formed, its scale and digits are within bounds, and with a positive exponent the digits of its plain notation are |
| `Money.ProductReturnsIff` | money/money.go:180-184 | an accepted amount times any factor returns exactly if the sum of the scales and the digits are within bounds |
| `Money.SumReturnsIff` | money/money.go:164-178 | a sum or difference of accepted amounts has a scale within bounds and returns exactly if its digits are too |
| `Money.ProductRefused` | money/money.go:180-184 | the smallest amount times itself is written out with 36 fraction digits and refused |
| `Money.SumRefused` | money/money.go:164-170 | two accepted amounts whose sum has 39 digits and does not return |
| `Money.WrittenAmountRefused` | money/money.go:220-253 | 123456789 with exponent 30 is accepted, and what it is printed as is refused |
| `Money.FormatIsShape` | money/money.go:220-225 | the printed amount has its own scale, trailing zeros included |
| `TokenBucket.WindowBound` | httpserver/websocket_limits.go:171-190 | what is sampled and granted inside a window is at most a burst plus the rate times its length, however callers interleave and samples lag |
| `TokenBucket.LaggedWindowBound` | httpserver/websocket_limits.go:171-190 | the tokens granted in any window are at most a burst plus the rate times the length of the window and the longest time a sample lies before its lock |
| `TokenBucket.PlainBoundIff` | httpserver/websocket_limits.go:176-182 | at every rate and burst, a burst plus the rate times the length bounds every window of every run exactly if samples do not lag at all |
| `TokenBucket.LagExceeds` | httpserver/websocket_limits.go:176-182 | for every positive lag, rate and burst a run that grants more than that in a window |
| `TokenBucket.LevelInRange` | httpserver/websocket_limits.go:177-187 | the level stays between zero and the burst |
| `TokenBucket.DelaySufficesIff` | httpserver/websocket_limits.go:188-197 | after the computed delay a lone request is granted exactly if the delay was not cut off at the longest duration |
| `TokenBucket.DelayCutOff` | httpserver/websocket_limits.go:188-197 | a rate so low that the longest sleep does not suffice |
| `TokenBucket.LongerSuffices` | httpserver/websocket_limits.go:200-211 | sleeping longer does no harm |
| `TokenBucket.Limiter.Locked` | httpserver/websocket_limits.go:176-198 | the critical section refills up to the sample, grants or computes the delay |
| `TokenBucket.Limiter.Wait` | httpserver/websocket_limits.go:161-213 | a grant is one of the attempts, and only a count beyond the burst is refused |
| `HubMachine.WithinLimit` | httpserver/websocket.go:268-290 | reservations and connections together never exceed the limit, and a hub that accepts is started and not closed |
| `HubMachine.ShutOnlyShrinks` | httpserver/websocket.go:223-266 | once a started hub drains, or any hub closes, the number of reservations and connections only falls and no reservation is added; after Close no connection is |
| `HubMachine.DrainIsFinalIff` | httpserver/websocket.go:172-191 | draining is final exactly if the hub had been started or closed, or can never be started: a Drain before Start is forgotten |
| `HubMachine.ForgottenDrain` | httpserver/websocket.go:172-191 | a fresh hub that is drained and then started takes on a reservation |
| `HubMachine.SettledForGood` | httpserver/websocket.go:377-403 | a reservation is settled once and never pending again |
| `HubMachine.EveryConnectionIsTold` | httpserver/websocket.go:223-239 | while a drain is on every connection, also one that joins late, has been told or is about to be |
| `HubMachine.WaiterWakes` | httpserver/websocket.go:333-356 | when the hub has become empty the signal of every waiter has fired |
| `HubService.WebSocketHub.Drain` | httpserver/websocket.go:223-239 | every connection there was has been told; success means the hub was empty; a started hub stays shut, and a drain that gives up leaves no reservation it has not forced |
| `HubService.WebSocketHub.Close` | httpserver/websocket.go:242-266 | the hub is closed for good and only shrinks; everything that was pending or connected has been forced, so whatever remains has been |
| `HubService.WebSocketHub.Attach` | httpserver/websocket.go:292-313 | a pending reservation becomes a connection unless the hub closed, and one that joins a draining hub is told at once |
| `HubService.WebSocketHub.Reserve` | httpserver/websocket.go:268-290 | a place exactly when the hub accepts and the two kinds leave room |
| `HubService.WebSocketHub.Start` | httpserver/websocket.go:172-191 | opens a configured hub once |
| `HubService.WebSocketHub.Release` | httpserver/websocket.go:315-322 | a reservation is given back once |
| `HubService.WebSocketHub.WaitEmpty` | httpserver/websocket.go:340-356 | success means nothing was pending or connected; giving up forces everything that was pending or connected in that moment |
| `HubService.WebSocketHub.ForceAll` | httpserver/websocket.go:358-375 | everything pending or connected when the lock was held has been forced, whatever others do meanwhile |
| `MigrationMachine.PrefixInOrder` | pgmigrate/pgmigrate.go:61-79 | whatever crashes where, the recorded versions are the beginning of the sorted list and each body took effect exactly once, in order |
| `MigrationMachine.ChecksumForever` | pgmigrate/pgmigrate.go:184-206 | a recorded checksum never changes and no version is forgotten |
| `MigrationMachine.FinishedAgree` | pgmigrate/pgmigrate.go:179-206 | replicas that finish shipped the same contents |
| `MigrationMachine.OneTransaction` | pgmigrate/pgmigrate.go:81-107 | two replicas are never inside a transaction at once |
| `MigrationMachine.CommitKeeps` | pgmigrate/pgmigrate.go:141-177 | what a transaction read under the lock still holds when it commits |
| `MigrationMachine.InvAlong` | pgmigrate/pgmigrate.go:61-206 | the invariant of history, replicas and lock holds in every state of every run |
| `MigrationRunner.Database.ApplySet` | pgmigrate/pgmigrate.go:61-79 | success means every file is recorded with this replica's contents |
| `MigrationRunner.Database.ApplyFile` | pgmigrate/pgmigrate.go:141-177 | one file in one transaction is a piece of a run of the machine, whatever others do between its statements |

## Left out

- WorkspaceRecovery.ApplyPlan: a restart after a recovery under a commit gate is not modelled, gates being steps that may fail here.
- WorkspaceRecovery.Recover: does not remove the directories an interrupted commit had created, nor check their guards (internal/workspace/recovery.go:243-245 and 298-303), because the record of directory guards is not part of this model; and it recovers with the plan the transaction was made from.
- WorkspaceApply.Apply: path, lock, commit-gate and directory-guard checks are steps that may fail and change nothing; transaction directory names never collide; durability below a rename and a sync is not modelled; contents are compared themselves instead of their digests.
- OutboxRelay.Relay.ClaimBatch: does not model that the oldest rows are claimed first, because no safety property depends on it.
- OutboxSafety.ExactlyOnceEffect: subscriptions are fixed once the relays run, consumer names are distinct and every consumer is wrapped by the inbox; all relays run with one attempt limit.
- SseDecoder.Decoder.Next: does not model read errors other than the end of the stream, which end the call the same way.
- SseFrames.DecodeRefinesStandard: works on bytes where the Standard decodes UTF-8 first; the decoder stops at a line that is not UTF-8.
- StreamEndpoint.Direction.Send: metrics, spans and the first non-blocking attempt, which only starts a timer, are not modelled.
- IdemMiddleware.Table.Serve: `Store.Release`, which the middleware never calls, is not modelled; the fingerprint is an abstract value, so two requests with one sha256 digest count as equal.
- IdemResponse.RecordedIsSentIff: the underlying writer is the one of net/http, which can flush; headers it adds of its own, trailers, hijacking and the bodiless statuses are not modelled.
- IdemTheorems.ReplayIsFaithful: compares headers for handlers that leave the header map alone after the header has gone out; for the others it says what is replayed, and `IdemResponse.LateHeader` that this can differ. Header names are canonical, and headers that other layers put in beforehand are not modelled.
- SchemaComponents.EdgesOf: labels, cardinalities and the order of the edges, which the output does not depend on.
- Registry.Registry.Resolve: a constructor asks for a fixed list of dependencies and passes their errors on; contributions and named bindings are not modelled.
- RefParser.DecodeJSON: input that is not UTF-8, which the code refuses before parsing; `encoding/json` is its string grammar and its escaping rules.
- Money.Parse: decimal notations other than plain digits with an optional point, which `ParseCanonical` refuses before; the exponents of products stay within 32 bits.
- TokenBucket.Limiter.Wait: float64 rounding, because the code's promise is about rates, not about the last bit.
- HubService.WebSocketHub.Close: what forcing does to a raw connection, and that a told or forced one then leaves, are outside the hub.
- MigrationRunner.Database.ApplySet: a body is one atomic change that does not control its own transaction; creating the schema and its history table, and changes operators make by hand, are not modelled.
- Liveness: that a waiting call is ever served, that a relay makes progress, that a drained hub empties.
- PostgreSQL below a statement, network and TLS, real timers and scheduling.
- Tokens and identifiers are numbered as they are drawn, which stands for their being distinct.
- The WebSocket and HTTP wire layers, security modes, configuration, code generation, scaffolding, command line, telemetry: reading one branch settles most of it.
