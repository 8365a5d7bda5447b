# Notch: a verified model of its stateful cores

Notch watches coding agents. Hooks report events to a host process; the host keeps a bounded registry
of sessions, mirrors it to a repository and streams every change to a renderer; it also relays human
decisions back to waiting hooks, installs itself into vendor configuration files, and attributes live
processes to sessions. This project models those parts in Dafny 4.11 and proves what they promise over
every input, every run or every reachable state. `dafny verify dfyconfig.toml` checks all of it.

## How the model is laid out

| part | files |
|---|---|
| host to renderer replication | `Protocol`, `Views`, `Coalescing`, `Registry`, `HostCore`, `HostSync`, `HostRuns`, `HostLeaks`, `Renderer`, `RendererLaws`, `RendererEvents`, `Replication`, `EventReplication` |
| what each host command does, in its caller's terms | `HostEffects`, `HostStarts`, `HostUpkeep`, `HostRefusals`, `HostMoves` |
| the host as objects updated in place | `RegistryService`, `StreamService`, `HostSteps`, `HostService`, `RendererService` |
| restart and bootstrap | `Restart`, `Bootstrap`, `Sorting` |
| decision broker | `Broker`, `BrokerRuns`, `BrokerAudit`, `BrokerTalks`, `BrokerReuse`, `BrokerService` |
| connector merge, remove, repair | `Json`, `ConnectorMerge`, `ConnectorLaws`, `ConnectorInstall`, `ConnectorForeign`, `ConnectorOps` |
| transactional apply and rollback | `ConnectorApply`, `ConnectorWorkspace` |
| process-tree attribution | `ProcessTree` |
| offline spool | `Lex`, `Spool`, `SpoolService` |
| line diff | `DiffText`, `LineDiff` |
| shared | `Options`, `Sequences`, `Text` |

**Host.** `HostCore` says what each command does: a decision (refuse, refuse after a partial write,
begin, touch), its effect on registry and repository, and the payloads it queues, which are coalesced,
drained in any hash-map order and numbered. `HostService.AppCore` performs the same commands step by
step on mutable objects, with the early returns and partial writes of the original, and `Perform` is
proved to move the object exactly as `HostCore.Exec` says. `Replication` puts host and renderer side by
side: commands, bootstraps captured at any time and installed late, frames delivered late, twice, out
of order or never, and a provider that is cleaned up while frames are still on their way. The replicated
view is sessions without `lastEventAt` and metric (fields the host changes without a frame), adapters and
settings. Events have their own theorem, `EventReplication`. Runs exist: `EmptyHostStarts` gives a host to
start from, and `Perform` returns a valid choice for every command in every reachable state. What a command
asks for and leaves behind is stated apart from how it is decided: `HostEffects`, `HostStarts` and `HostUpkeep`
compare the host before and after, `HostRefusals` says which reason a caller gets.

**Shown events.** The renderer trims its list to 256 before a removal can make room again, so after a removal
it may show fewer events than there are survivors; `PushedOutStaysOut` is such a case. What always holds is
that every survivor among the last 256 events is shown and that only survivors are, without a hole; without
removals the list is exactly the last 256.

**Two refusals leave a mark.** `session_update` writes label and workspace before it checks the
transition, and `session_end` writes and saves the session before it checks the summary. Stream and
repository then no longer tell the host's state. `HostLeaks` states exactly which commands do this, and
the replication and restart theorems cover all other commands, accepted or refused.

**Broker.** Every lock-held region is one step of a per-nonce state machine; waits, submissions, timers,
reply writes and transport reports interleave freely. `BrokerService.DecisionServer` runs the same steps on
mutable maps, one method per region, and is proved to move every nonce as the state machine does. Delivery
promises need each nonce to be waited on once (hooks mint a fresh UUID); `BrokerReuse` says for which
decisions a second wait breaks them and for which it cannot.

**Apply.** The file system is a map from paths to text. Which operation on which path fails at which moment
is an arbitrary function fixed in advance, so the contracts can say what holds whatever fails, what holds
for files that can be read, and what must succeed when nothing fails. `Workspace.history` records each
intermediate state, so safety is stated about all of them.

## Model

| member | source | states |
|---|---|---|
| `Replication.PrefixConsistent` | crates/notch-core/src/app_core.rs:929-947 | in every world of every run of host commands, captures, clean-ups and arbitrary frame deliveries, a renderer with a bootstrap since its last clean-up shows the fold of exactly the frames up to its cursor, its mirrors are in step, and it equals the host's own view at any earlier point where the host had emitted just that many frames |
| `Replication.CleanedUpTakesAnyFrame` | src/state/NativeStateProvider.tsx:201-205 | after a clean-up, which drops the cursor, a late frame is taken whatever its number: why the theorem asks for a bootstrap since |
| `Replication.NextKeepsWorld` | src/state/NativeStateProvider.tsx:85-139 | one step of either party keeps the replication invariant and never withdraws a frame |
| `Replication.DeliverKeeps` | src/native/streamProcessor.ts:8-25 | accepting, ignoring or refusing any emitted frame by its sequence number keeps the renderer at a prefix of the stream |
| `Replication.CaptureIsCoherent` | crates/notch-core/src/app_core.rs:158-178 | what the core captures for a bootstrap has distinct session ids and only events of those sessions, the renderer's condition for its mirrors |
| `EventReplication.EventsReplicated` | crates/notch-core/src/app_core.rs:825-855 | in every world of every run a current renderer shows, of some bootstrap's events followed by those told since up to its cursor, all survivors among the last 256 and only survivors without a hole, exactly the last 256 while no known session was removed, and of each session its last 96 |
| `EventReplication.NextKeepsEvents` | src/state/NativeStateProvider.tsx:85-139 | one step of either party keeps that relation between what was told and what is shown |
| `Replication.MetricsAgreeAfterFrame` | crates/notch-core/src/app_core.rs:105-150 | a metrics command emits one frame, and applying it to a renderer in step gives every session the host's own latest metric |
| `RendererService.NativeProvider.OnFrame` | src/state/NativeStateProvider.tsx:86-110 | gap and resync request dispatch a reason and ask for a resync, a duplicate changes nothing, the rest moves cursor and state together; while subscribed only the very next frame moves the cursor |
| `RendererService.NativeProvider.BeginResync` | src/state/NativeStateProvider.tsx:115-124 | at most one resync is under way and none after cancellation; the old subscription stops and the cursor stays |
| `RendererService.NativeProvider.FinishResync` | src/state/NativeStateProvider.tsx:126-160 | a bootstrap is installed even when subscribing then fails; an incompatible protocol and any other error are reported each in its own way and keep the cursor; a cancelled resync changes nothing |
| `RendererService.NativeProvider.Connect` | src/state/NativeStateProvider.tsx:162-197 | a first bootstrap of this protocol version leaves the very state a resync would, with the same error cases |
| `RendererService.NativeProvider.CleanUp` | src/state/NativeStateProvider.tsx:201-205 | nothing under way may finish, the cursor and the subscription are dropped at once, the state stays |
| `RendererLaws.FrameRefinesPayload` | src/state/native.reducer.ts:290-373 | applying a frame changes the renderer's view exactly as its payload says, and records its sequence |
| `RendererLaws.ReduceKeepsMirrors` | src/state/native.reducer.ts:259-373 | an action keeps order, map, snapshot, settings and event mirrors in step if and only if a snapshot it carries has distinct ids and events of its own sessions |
| `RendererLaws.MirrorsAlwaysOk` | src/state/native.reducer.ts:229-257 | from the initial state any sequence of coherent actions keeps every mirror in step: order duplicate-free and exactly the keys, snapshot repeating sessions, adapters and settings, caps 256 and 96, last 96 global events a suffix of the session's own |
| `RendererLaws.SnapshotMirrorsExactly` | src/state/native.reducer.ts:56-103 | the exact condition under which a snapshot leaves the mirrors in step |
| `RendererEvents.EventIsShown` | src/state/native.reducer.ts:35-54 | after an event frame the event is last in the global list and in its session's list; before it stands the old list, less its oldest exactly when it held 256 or 96; every other list and field is unchanged |
| `RendererEvents.RemovalHidesEvents` | src/state/native.reducer.ts:198-227 | a removal takes exactly the events of a shown session from both stores; of an unknown one nothing |
| `RendererEvents.FrameShowsFeed` | src/state/native.reducer.ts:290-373 | every frame keeps global and per-session lists in step with the feed it extends |
| `RendererEvents.ShownExactly` | src/state/native.reducer.ts:27-33 | without removals the global list is the last 256 of the first events and all events fed |
| `RendererEvents.PushedOutStaysOut` | src/state/native.reducer.ts:198-227 | for every full list, an event and the removal of its session leave fewer events than survive: what was pushed out does not come back |
| `RendererLaws.AppendKeepsEvents` | src/state/native.reducer.ts:35-54 | trimming the global list and the session list independently keeps the suffix relation, for every session |
| `RendererLaws.RemoveKeepsEvents` | src/state/native.reducer.ts:198-227 | dropping a session's events from both stores keeps the suffix relation for every other session |
| `Renderer.IndexSessions` | src/state/native.reducer.ts:12-25 | one pass builds the map in which later sessions win, and the ids in order, repeats included |
| `Coalescing.CoalescingIsExact` | crates/notch-core/src/stream.rs:20-41 | draining in any hash-map order has the effect of the pushed payloads if and only if no upsert in the batch is undone by a later removal |
| `Coalescing.PendingAfter` | crates/notch-core/src/stream.rs:20-31 | after any batch the pending set holds the last upsert of each session and every other payload in the order pushed |
| `HostRuns.EffectBatchSafe` | crates/notch-core/src/app_core.rs:447-498 | every batch the core queues meets that condition and holds no snapshot |
| `HostRuns.ExecKeepsCore` | crates/notch-core/src/app_core.rs:98-103 | every command, accepted or refused, keeps the registry invariant, empties the coalescer and numbers frames without gaps |
| `HostRuns.ExecInSync` | crates/notch-core/src/app_core.rs:929-947 | the stream still tells the host's view after a command if and only if the command is not one of the marking refusals |
| `HostRuns.ExecRepoSync` | crates/notch-core/src/app_core.rs:391-505 | memory and repository stay equal after a command if and only if it is neither a marking refused update nor a prune that drops rows |
| `HostRuns.RunKeepsCore` | crates/notch-core/src/registry.rs:115-207 | over every run: at most 128 sessions, index an exact bijection, events only of live sessions, consecutive sequences, at most 10,000 each, distinct ids |
| `HostRuns.RunStaysInSync` | crates/notch-core/src/app_core.rs:929-947 | over every run without marking refusals, folding all emitted frames from the start gives the host's view |
| `HostRuns.RunStaysSaved` | crates/notch-core/src/app_core.rs:825-855 | over every run without such marks, the repository holds exactly the live sessions and events |
| `HostRuns.OnlyRemovalDrops` | crates/notch-core/src/registry.rs:123-132 | a session disappears only by explicit removal, or as an oldest terminal session evicted by a start at capacity |
| `HostEffects.NamedCommandDoes` | crates/notch-core/src/app_core.rs:507-771 | an accepted update, end, note, attention report or process root makes of the session named by source and external id exactly what it asks, appends one event with the next number to its window and the stream, and changes nothing else |
| `HostEffects.UpdateDoes` | crates/notch-core/src/app_core.rs:526-551 | after an accepted update the session has the given status, label and workspace, its old ones where none is given, and the event's time; every other field and session is unchanged; one status event was appended |
| `HostEffects.AcceptedExactly` | crates/notch-core/src/app_core.rs:507-771 | a command by name is accepted if and only if some stored session and adapter fit it: bounds, capability, legal transition |
| `HostEffects.CommandByIdDoes` | crates/notch-core/src/app_core.rs:315-357 | an acknowledgement, cleared root or verified terminal changes that session as asked, a root already absent or an unknown id changes nothing, and no event is appended |
| `HostEffects.CoalescingKeepsEvents` | crates/notch-core/src/stream.rs:20-41 | coalescing drops no event and keeps their order, whatever the drain order |
| `HostStarts.StartDoes` | crates/notch-core/src/app_core.rs:391-505 | an accepted start of an unknown session stores it as described with one first event and its key; at capacity exactly an oldest terminal session leaves with its key and events |
| `HostStarts.StartAcceptedExactly` | crates/notch-core/src/app_core.rs:391-470 | when a start is accepted: valid fields, and a replay, or a capable source with a legal first status and a known session or room to be made |
| `HostStarts.RestartDoesNothing` | crates/notch-core/src/app_core.rs:402-446 | an accepted start of a known session changes no session and tells nothing |
| `HostUpkeep.TickDoes` | crates/notch-core/src/app_core.rs:902-927 | exactly the live sessions silent for half an hour become stale from now on, without a metric; all others stay |
| `HostUpkeep.RecordMetricsDoes` | crates/notch-core/src/app_core.rs:105-150 | every live session takes the frame's sample for it or none, every ended one none |
| `HostUpkeep.RemoveSessionDoes` | crates/notch-core/src/app_core.rs:297-313 | accepted exactly for a stored id of legal length; session, key and events go, nothing else |
| `HostUpkeep.UpkeepDoes` | crates/notch-core/src/app_core.rs:89-217 | settings are replaced whole and each purge empties its own part, nothing else |
| `HostUpkeep.IntegrationDoes` | crates/notch-core/src/app_core.rs:773-800 | a reported adapter stands for its source from then on, those of other sources keep their places |
| `HostUpkeep.PruneDoes` | crates/notch-core/src/app_core.rs:192-202 | of each session's rows exactly those not older than the cutoff are left, in order |
| `HostRefusals.RefusalReasons` | crates/notch-core/src/app_core.rs:507-771 | which reason a refused command by name gets: bad fields first, then an unsupported capability, then an unknown session, each exactly |
| `HostRefusals.BadMoveRefused` | crates/notch-core/src/domain/transitions.rs:6-29 | an illegal status change is refused as such if and only if nothing checked before it is wrong |
| `HostMoves.ExecMovesLegally` | crates/notch-core/src/domain/transitions.rs:6-20 | whatever the command, accepted or refused, every session that stays keeps identity and start time and its status moves along a legal transition |
| `HostMoves.EndedForGood` | crates/notch-core/src/domain/transitions.rs:6-37 | over every run, a session that ended never comes back to life while it is kept |
| `HostLeaks.ViewLeakExactly` | crates/notch-core/src/app_core.rs:526-537 | which refused updates and ends change the host's view without a frame, read off the command and the stored session |
| `HostLeaks.RepoLeakExactly` | crates/notch-core/src/app_core.rs:584-594 | which refused updates and prunes leave memory ahead of the repository; a refused end never does |
| `HostLeaks.RefusedRelabelIsKept` | crates/notch-core/src/app_core.rs:526-537 | a sound host and a refused update whose label stays in memory, untold and unsaved |
| `HostLeaks.RefusedEndIsSaved` | crates/notch-core/src/app_core.rs:584-594 | a sound host and an end refused for its empty summary: memory and repository hold the session as completed, no frame tells so |
| `HostLeaks.PruneForgets` | crates/notch-core/src/app_core.rs:192-202 | a prune drops the row of an old event that memory keeps; `PruneForgetsOldEvent` is a sound host where it does |
| `HostSync.DecisionsAreSound` | crates/notch-core/src/app_core.rs:373-389 | every handler overwrites a session only by a version of itself, announces what the view shows, and begins a session only under an unused key and with room or an oldest terminal victim |
| `Registry.ExternalKeyInjective` | crates/notch-core/src/registry.rs:11-13 | external keys of different sources or ids never collide |
| `Registry.AppendKeeps` | crates/notch-core/src/registry.rs:161-196 | the core's own next sequence is never refused and keeps the registry invariant |
| `Registry.InsertKeeps` | crates/notch-core/src/registry.rs:134-159 | inserting a session under an unused key meets an unused id and keeps the invariant |
| `Registry.RemoveKeeps` | crates/notch-core/src/registry.rs:198-207 | removal drops one session, its key and its events, and keeps the invariant |
| `HostService.AppCore.Perform` | crates/notch-core/src/app_core.rs:98-103 | running a command on the mutable core, early returns and partial writes included, ends in exactly the state the specification gives for a valid choice of victim and hash-map orders, and reports the refusal it gives |
| `HostService.AppCore.SessionStart` | crates/notch-core/src/app_core.rs:391-505 | replay, capability, transition, capacity and insertion paths; refused for capacity only when no terminal session could make room |
| `HostService.AppCore.RecordKey` | crates/notch-core/src/app_core.rs:402-420 | a start is a replay exactly when its key was seen in memory or repository and its session is known; otherwise the key is stored |
| `HostService.AppCore.MakeRoom` | crates/notch-core/src/app_core.rs:447-456 | at capacity an oldest terminal session leaves registry, repository and stream together, or nothing changes |
| `HostService.AppCore.WriteUpdate` | crates/notch-core/src/app_core.rs:526-538 | an accepted update has written the given status, label, workspace and time and nothing else; a refused one what it wrote before the check that refused it |
| `HostService.AppCore.ApplyEnd` | crates/notch-core/src/app_core.rs:579-604 | an end, including the session saved before a summary is refused |
| `HostService.AppCore.NoteEvent` | crates/notch-core/src/app_core.rs:613-688 | lifecycle and tool notes move the last-event time and append one event, with no announcement |
| `HostService.AppCore.ReportOn` | crates/notch-core/src/app_core.rs:690-771 | attention and process-root reports behind their capabilities |
| `HostService.AppCore.ChangeById` | crates/notch-core/src/app_core.rs:315-357 | acknowledgement, cleared root and verified terminal by session id; a root already absent changes nothing |
| `HostService.AppCore.RecordMetrics` | crates/notch-core/src/app_core.rs:122-149 | the loop over all sessions gives each live one its sample or none, each terminal one none, in memory and repository |
| `HostService.AppCore.MarkStale` | crates/notch-core/src/app_core.rs:902-927 | exactly the silent non-terminal sessions become stale, are saved and announced |
| `HostService.AppCore.FlushPending` | crates/notch-core/src/app_core.rs:933-947 | everything pending is emitted once, numbered consecutively, and nothing stays queued |
| `HostService.AppCore.SnapshotWithSequence` | crates/notch-core/src/app_core.rs:158-178 | lists every session once, latest activity first, with the cursor and a valid event selection: what a capture step of the replication model takes |
| `HostService.ReplaceAdapter` | crates/notch-core/src/app_core.rs:784-792 | the first adapter of the source is replaced in place, a new source goes to the end |
| `HostRuns.ReplaceFirstIsMerge` | src/state/native.reducer.ts:340-355 | with one adapter per source the host's replacement and the renderer's agree |
| `HostService.StartCore` | crates/notch-core/src/app_core.rs:53-79 | start-up restores the registry from the rows or refuses, with stream and coalescer empty |
| `StreamService.StreamCoalescer.Drain` | crates/notch-core/src/stream.rs:33-41 | everything pending comes out, upserts in some order of the keys, and nothing stays |
| `StreamService.StreamReplayBuffer.Push` | crates/notch-core/src/stream.rs:61-67 | the buffer is always the newest 1024 of all frames ever pushed |
| `StreamService.ReplayCompleteExactly` | crates/notch-core/src/stream.rs:69-75 | a replay from k is all frames after k if and only if at most 1024 were missed |
| `StreamService.ReplayLossShows` | crates/notch-core/src/stream.rs:69-75 | a lossy replay starts past the next sequence, so the renderer's check sees a gap |
| `Restart.RestartIsTransparent` | crates/notch-core/src/registry.rs:209-240 | after every run without marks, restoring any listing of the repository's rows rebuilds the live sessions, index and event windows |
| `Restart.RestoreRebuilds` | crates/notch-core/src/registry.rs:209-240 | restoring a registry's rows in any order gives that registry back |
| `Restart.SequenceOrderIsUnique` | crates/notch-core/src/registry.rs:228-238 | a set of events has only one strict sequence order, so sorting rebuilds a window |
| `Restart.RestoreKeepsBest` | crates/notch-core/src/registry.rs:218-272 | of more rows than fit exactly 128 are kept, and none left out is live or unresolved where a kept one is not, nor more recently active among equals |
| `RegistryService.SessionRegistry.Restore` | crates/notch-core/src/registry.rs:209-240 | sorting, truncation, index and capped windows; of more rows than fit the live, unresolved and most recently active stay; refused exactly when a kept row has an unusable external id |
| `RegistryService.SessionRegistry.InsertNewSession` | crates/notch-core/src/registry.rs:134-159 | invalid id, replay, full registry and insertion are told apart, and only insertion changes anything |
| `RegistryService.SessionRegistry.AppendEvent` | crates/notch-core/src/registry.rs:161-189 | unknown session and wrong sequence are refused; otherwise the window gains the event and keeps the newest 10,000 |
| `RegistryService.SessionRegistry.RemoveSession` | crates/notch-core/src/registry.rs:198-207 | session, key and events go together, or nothing does |
| `RegistryService.SessionRegistry.OldestTerminalSessionId` | crates/notch-core/src/registry.rs:252-259 | none exactly when no session is terminal, otherwise one that no terminal session precedes in age |
| `RegistryService.SessionRegistry.CapacityEvictionCandidate` | crates/notch-core/src/registry.rs:123-132 | below capacity nothing, at capacity an oldest terminal session or the capacity error |
| `RegistryService.BootstrapEvents` | crates/notch-core/src/registry.rs:62-105 | at most 256 events, distinct ids, sorted by time then sequence, the latest event of every active or unresolved session, and nothing omitted unless full and no newer than every unreserved event included |
| `RegistryService.PickReserved` | crates/notch-core/src/registry.rs:72-87 | the reservation loop picks exactly the latest events of the active sessions and never runs out of budget |
| `BrokerRuns.HonestDelivery` | crates/notch-decision/src/broker.rs:272-307 | over every interleaving a row says Delivered only if one submission was accepted, its output is not neutral and is all that was written; a neutral reply is never recorded as delivered |
| `BrokerRuns.HookSeesOneOutput` | crates/notch-ipc/src/server.rs:375-419 | a hook is sent at most one output, the neutral one or the accepted answer |
| `BrokerRuns.SingleAnswer` | crates/notch-decision/src/broker.rs:192-270 | at most one submission succeeds, before expiry, and the audited response is its response |
| `BrokerRuns.ResponseNeverChanges` | crates/notch-decision/src/store.rs:132-158 | an audited response survives every continuation of the run |
| `BrokerAudit.SubmissionIsAudited` | crates/notch-decision/src/broker.rs:192-270 | exactly a yes or no to a pending, actionable, unexpired decision with a usable output is accepted; the row then holds its response and time, or, where the adapter refused it, the failure with its detail; any other submission changes nothing |
| `BrokerAudit.AcceptedIsAudited` | crates/notch-decision/src/broker.rs:260-266 | over every run: the accepted answer stays the only one of its nonce, and its response and time stand in the row for good if and only if its own write succeeded on an existing row |
| `BrokerAudit.AnswerIsFinal` | crates/notch-decision/src/store.rs:132-158 | once an answer was accepted no step accepts another or touches what is audited of it |
| `BrokerTalks.AnswerArrives` | crates/notch-decision/src/broker.rs:104-190 | a question and its timely answer, step by step: the hook is sent that output, the row says delivered with response and time, nothing stays in the broker |
| `BrokerTalks.RefusedAnswerIsNeutral` | crates/notch-decision/src/broker.rs:213-259 | an answer the adapter cannot express: the hook gets the neutral output and the row says failed and why |
| `BrokerTalks.SilenceExpires` | crates/notch-decision/src/broker.rs:164-190 | nobody answers: the hook gets the neutral output, the row says expired, nothing stays |
| `BrokerReuse.StolenWhenChosen` | crates/notch-decision/src/broker.rs:107-110 | a foreign wait on any chosen nonce: three steps later its neutral reply is recorded as the answer's delivery |
| `BrokerReuse.StolenWhilePending` | crates/notch-decision/src/broker.rs:107-110 | a foreign wait on any pending nonce: an answer accepted after the neutral reply was written counts as delivered by it |
| `BrokerReuse.AnsweredTwice` | crates/notch-decision/src/broker.rs:144-161 | a second wait of the same connection puts a chosen nonce back to pending, and a second answer is accepted |
| `BrokerReuse.HarmlessWhenSettled` | crates/notch-decision/src/broker.rs:107-114 | a second wait on a nonce whose decision failed or expired is answered at once, and no step sequence without a further wait ever records a delivery |
| `BrokerReuse.SecondWaitBreaksHonesty` | crates/notch-decision/src/broker.rs:107-161 | a concrete run with a reused nonce in which a neutral write is recorded as delivered |
| `BrokerRuns.StepKeepsSlotOk` | crates/notch-decision/src/broker.rs:104-190 | every step of every party keeps the per-nonce invariant |
| `BrokerService.DecisionBroker.CheckExisting` | crates/notch-decision/src/broker.rs:104-114 | a wait goes on exactly when its nonce is unknown, or its own and unsettled; only a delivered answer of the same connection is ever repeated, everything else is answered neutrally |
| `BrokerService.DecisionBroker.AuditWait` | crates/notch-decision/src/broker.rs:144-152 | a wait resets the row to pending and keeps a response already audited, or makes a pending row; a failing store changes nothing |
| `BrokerService.DecisionBroker.RegisterWaiter` | crates/notch-decision/src/broker.rs:154-160 | a waiter already registered under the nonce is shared, otherwise the caller's own is registered |
| `BrokerService.DecisionBroker.Finalize` | crates/notch-decision/src/broker.rs:362-370 | the row is marked expired with its reason and its response left alone |
| `BrokerService.DecisionBroker.SubmitDecision` | crates/notch-decision/src/broker.rs:192-270 | accepted exactly for a yes or no to a pending, actionable, unexpired decision with a usable output, which is then chosen and audited with its time; what the adapter refuses is audited as failed with its detail; each other refusal has its exact cause and changes nothing; other nonces untouched |
| `BrokerService.DecisionBroker.ConfirmDelivery` | crates/notch-decision/src/broker.rs:272-292 | exactly a chosen decision is recorded as delivered, keeps its audited response and leaves the broker; anything else is refused and changes nothing; other nonces stay |
| `BrokerService.DecisionBroker.FailDelivery` | crates/notch-decision/src/broker.rs:294-307 | exactly a chosen decision is recorded as failed with its detail, keeps its audited response and leaves the broker; anything else is refused and changes nothing; other nonces stay |
| `BrokerService.DecisionBroker.UpdateRow` | crates/notch-decision/src/store.rs:132-158 | the state is replaced; response, time and detail are replaced only by a given value and kept otherwise; a missing row stays missing |
| `BrokerService.DecisionServer.Perform` | crates/notch-decision/src/broker.rs:104-190 | one step of one task on the mutable broker, through its lock-held regions, moves its nonce exactly as the interleaving model says and leaves every other nonce alone |
| `BrokerService.DecisionServer.PerformAll` | crates/notch-ipc/src/server.rs:375-419 | from an empty server any interleaving ends where the model says; with nonces used once, every row that says Delivered is of the one accepted answer, and that is all its hook was sent |
| `ConnectorLaws.RepairConverges` | crates/notch-connectors/src/preview.rs:40-46 | repairing an install of any older template equals repairing the original, if and only if the slots it overwrote are ones the new template visits and its version does not stick |
| `ConnectorLaws.RepairIdempotent` | crates/notch-connectors/src/preview.rs:40-46 | repairing twice is repairing once, for both shapes and every document |
| `ConnectorLaws.RepairKeepsStaleVersion` | crates/notch-connectors/src/merge.rs:206-275 | a concrete pair of templates whose version change repair does not pick up |
| `ConnectorLaws.MergeIdempotent` | crates/notch-connectors/src/merge.rs:206-275 | installing twice is installing once, for both shapes and every document |
| `ConnectorLaws.RemoveIdempotent` | crates/notch-connectors/src/merge.rs:277-314 | removing twice is removing once |
| `ConnectorLaws.RemoveUndoesMerge` | crates/notch-connectors/src/merge.rs:548-597 | remove after merge gives the baseline back, up to a `hooks` object and a version, if and only if its slots hold no managed entry and none would be dropped or overwritten |
| `ConnectorLaws.MergeKeepsForeign` | crates/notch-connectors/src/merge.rs:503-545 | the collected foreign commands are the same after a merge |
| `ConnectorLaws.RemoveKeepsForeign` | crates/notch-connectors/src/merge.rs:503-545 | the collected foreign commands are the same after a removal |
| `ConnectorLaws.RepairKeepsForeign` | crates/notch-connectors/src/preview.rs:40-46 | the collected foreign commands are the same after a repair |
| `ConnectorInstall.MergeInstalls` | crates/notch-connectors/src/merge.rs:206-413 | after a merge every managed template hook is held where its event and matcher say, unless the first group with that matcher was there before and takes no hooks; everything added is the template's own value, behind what was there |
| `ConnectorInstall.RemoveUninstalls` | crates/notch-connectors/src/merge.rs:277-314 | after a removal no array slot holds a managed hook, an empty group or nothing at all |
| `ConnectorForeign.RemoveTakesOnlyManaged` | crates/notch-connectors/src/merge.rs:277-314 | a removal keeps every foreign value as it is and in order, every other member of the document and every slot that is no array |
| `ConnectorForeign.ForeignExactly` | crates/notch-connectors/src/merge.rs:503-545 | the preserved list names every foreign command of every slot and nothing else |
| `ConnectorOps.MergeConfig` | crates/notch-connectors/src/merge.rs:206-275 | the in-place merge of either shape computes the merge the laws are about, so every managed template hook is installed and nothing else is added |
| `ConnectorOps.MergeMatcherGroups` | crates/notch-connectors/src/merge.rs:317-413 | the group loop leaves every managed template hook in the first group with its matcher, unless that group was there before and takes no hooks; every group is kept, with template hooks at most added behind its own, and a new group holds its matcher and template hooks only |
| `ConnectorOps.RemoveManaged` | crates/notch-connectors/src/merge.rs:277-314 | the retain loops of either shape compute the removal the laws are about: no managed hook is left, every foreign value is |
| `ConnectorOps.ForeignCommands` | crates/notch-connectors/src/merge.rs:503-545 | the collection loop lists exactly the foreign commands, events in key order |
| `ConnectorOps.PlanConfig` | crates/notch-connectors/src/preview.rs:40-52 | an install holds every managed template hook, a removal keeps exactly the foreign part, a repair is an install on that part, and the preserved list is that of the target |
| `ConnectorWorkspace.Workspace.ApplyPlan` | crates/notch-connectors/src/apply.rs:19-99 | in every intermediate state each file that existed holds its baseline, or merged bytes with a journalled backup of the baseline; success installs all; after a failure part-way with compensation completed every file that can be read holds its original bytes; nothing but plan files and backups appears; without faults it is rejected exactly when a file is not as planned and applied whenever the backup names are free |
| `ConnectorWorkspace.Workspace.ApplySingleFile` | crates/notch-connectors/src/apply.rs:132-190 | backup first, replace second; a rejected file changes no tracked file; without faults a file that holds its baseline is installed |
| `ConnectorWorkspace.Workspace.CreateBackup` | crates/notch-connectors/src/apply.rs:192-234 | the baseline is on disk under a fresh name and in the journal before anything is replaced; without faults it succeeds whenever the name is free |
| `ConnectorWorkspace.Workspace.Compensate` | crates/notch-connectors/src/apply.rs:236-264 | once completed, every original that can be read holds its bytes again and only unreadable ones were passed over; without faults it completes; safety holds throughout |
| `ConnectorWorkspace.RollbackRoundTrip` | crates/notch-connectors/src/rollback.rs:15-143 | apply, preview the rollback, apply it: without faults all three succeed, and whenever they do an exact restore was offered and the original bytes are back |
| `ConnectorWorkspace.PreviewRollback` | crates/notch-connectors/src/rollback.rs:15-79 | an exact restore is offered exactly for an unedited file with its intact backup, and only an unreadable file or backup can stand in the way |
| `ConnectorApply.BackupPathRecovered` | crates/notch-connectors/src/rollback.rs:145-152 | the backup path is recovered from its display form for every display path |
| `ProcessTree.CollectDescendants` | crates/notch-metrics/src/graph.rs:43-63 | terminates on any table, cycles included, with exactly the reachable set |
| `ProcessTree.ChildrenIndex` | crates/notch-metrics/src/graph.rs:29-40 | every parent maps to exactly its children, ascending |
| `ProcessTree.AssignProcessOwners` | crates/notch-metrics/src/graph.rs:66-88 | each process gets the first session of the closest valid root fewer than 256 links up, and none exactly when there is no such root; a session whose root is gone or whose pid was reused owns nothing |
| `ProcessTree.ReusedPidOwnsNothing` | crates/notch-metrics/src/graph.rs:9-27 | a session whose root is gone, or whose pid started a second or more apart, owns no process; a root that still runs is owned by a session registered for it |
| `ProcessTree.NearestRegisteredOwner` | crates/notch-metrics/src/graph.rs:91-105 | the parent walk finds the closest valid root within the limit, and nothing only when there is none |
| `ProcessTree.NearestIsClosest` | crates/notch-metrics/src/graph.rs:91-105 | the owner found is rooted above with no valid root in between |
| `ProcessTree.NearestIsExact` | crates/notch-metrics/src/graph.rs:91-105 | both directions of the walk's answer, for every table, process and limit |
| `ProcessTree.OwnedPathIsOwned` | crates/notch-metrics/src/graph.rs:66-105 | every process on the way from an owned one to its session's root has the same owner and lies below that root |
| `ProcessTree.OverlapIsExact` | crates/notch-metrics/src/graph.rs:108-119 | a tree overlaps if and only if another valid root lies strictly below, or an earlier session shares the root and something lies below it |
| `ProcessTree.OverlapWithDistinctRoots` | crates/notch-metrics/src/graph.rs:108-119 | with distinct root pids: exactly when another session's valid root lies below |
| `ProcessTree.TreeHasOverlap` | crates/notch-metrics/src/graph.rs:108-119 | the expression computes that overlap |
| `ProcessTree.OwnedSetHasNoGaps` | crates/notch-metrics/src/aggregate.rs:133-141 | on the set of processes a session owns, which is what the gap test is given, no parent chain breaks off before the root, so the test is never true |
| `ProcessTree.TreeHasParentGaps` | crates/notch-metrics/src/graph.rs:122-146 | true exactly when some member's parent chain ends within 256 links without passing the root |
| `ProcessTree.GapIsBreak` | crates/notch-metrics/src/graph.rs:128-144 | the gap walk reports a process exactly when its chain breaks off before the root |
| `Spool.NameOrderIsNumeric` | crates/notch-ipc/src/spool.rs:31-53 | for keys that fit the padding, name order is the numeric order of time, tie breaker, counter and id |
| `Spool.TooWideBreaksOrder` | crates/notch-ipc/src/spool.rs:31-53 | a tie breaker wider than the padding sorts too early |
| `SpoolService.EvictFrames` | crates/notch-ipc/src/spool.rs:75-93 | terminates, drops the lowest-sorted frames first and no more than needed |
| `SpoolService.EventSpool.SpoolMessage` | crates/notch-ipc/src/spool.rs:31-53 | the directory is the old one less the fewest lowest-sorted frames that make room, plus the new frame under its name; exactly those count as evicted; at most 1,000 frames remain |
| `SpoolService.EventSpool.Drain` | crates/notch-ipc/src/server.rs:481-514 | frames are accepted in listed order up to the first refusal or failed delete |
| `SpoolService.DrainConserves` | crates/notch-ipc/src/server.rs:481-514 | each listed frame was accepted or is still on disk unchanged |
| `SpoolService.DrainOrderIsNumeric` | crates/notch-ipc/src/spool.rs:55-66 | frames are offered in numeric order of their keys |
| `LineDiff.UnifiedDiff` | crates/notch-connectors/src/diff.rs:2-78 | identical texts print nothing; otherwise the text after the two labels is itself a patch: read back, it turns the old lines into the new ones |
| `DiffText.PrintedReadsBack` | crates/notch-connectors/src/diff.rs:58-73 | reading the printed text, rows sorted by their first character and header numbers parsed, gives back every hunk's starts, removed and added lines |
| `LineDiff.LinesJoin` | crates/notch-connectors/src/diff.rs:7-8 | lines joined again are the text, up to a last terminator; `JoinedComesApart` is the other direction for both terminators |
| `LineDiff.DiffLines` | crates/notch-connectors/src/diff.rs:7-75 | for all line lists both loops terminate, each hunk's start and counts match the lines it removes and adds |

## Left out

- Antigravity named hook blocks: the third configuration shape, one more flat case of the same merge.
- The `removed` list reported by removals, diff truncation, summaries, plan expiry and capability tables: easy members only.
- Command parsing (`is_managed_command`, `entry_command`, path validation) is a predicate on the command text, not tokenised.
- Additive rollback recomputation: when a file was edited after apply, the preview falls back to removal; only that it does so is modelled.
- Lossy UTF-8 decoding of backups: files are text; a backup that is not valid UTF-8, or a target that becomes unreadable while an exact restore is being built, is outside the model.
- ConnectorWorkspace.Workspace.Compensate: promises nothing for a file whose bytes cannot be read, which the code silently passes over, and newly created files are not undone.
- Symlinks, hard links, advisory locks, replace fallbacks and file permissions: a replace is one atomic step.
- `session_id_for` is an injective function and event ids are fresh; SHA-256 is injective.
- The repository is infallible and follows its trait contract: rows keyed by id, events trimmed to the window; SQL, migrations and metric buckets are not modelled.
- Prune by database size and its reset of latest metrics: only the age rule for events is modelled.
- Alerts, health probes, history pages and settings persistence.
- Sockets, tokens, peer credentials, rate limits and queue capacities of the ingest server.
- `observe_effect`, `list_pending` and replay of delivered entries in the broker.
- Replication.PrefixConsistent: says nothing about runs with a marking refusal (see `HostLeaks`), nor about a renderer between a clean-up and its next bootstrap, nor that a gap is eventually repaired; delivery and resync may never happen.
- BrokerReuse.HarmlessWhenSettled: a second wait on a nonce whose entry has already left the broker is a new decision under the same audit row; it is not classified.
- Spool.NameOrderIsNumeric: is stated for fields of at most 20 digits, which 64-bit times and counters and a nanosecond clock of this age meet; `TooWideBreaksOrder` shows what happens beyond.
- SpoolService.EventSpool.SpoolMessage: spool writes and renames do not fail in the model.
- History and display fields of the renderer, and `coalesceStreamFrames`, which only the preview client calls.
- LineDiff.UnifiedDiff: says nothing of whether a last line had a terminator, which the diff does not print.
- EventReplication.EventsReplicated: like the other replication theorem it says nothing about runs with a marking refusal or a renderer between a clean-up and its next bootstrap.
