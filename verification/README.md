# modelctl, proved

A Dafny model of the parts of modelctl that must not go wrong when processes crash,
messages get lost and two controllers disagree: the replicated controller, the
crash-safe event forwarder, the LiteLLM capacity split and config splice with its
guarded apply, the OMP policy cache with its canonical JSON, loop containment, token
budgets and model selection.

How it is arranged, module by module:

- `Replay`, `ControllerTables` hold one controller's database as a value and every
  transaction as a function on it; `Replication` runs a pair of databases through whole
  calls of one epoch; `Failover` runs the same transactions one at a time, in any order,
  with crashes, lost replies, fences and promotions in between; `Convergence` says when
  the two agree again after any run of those steps in one epoch; `Controllers` has the
  classes whose methods are proved equal to those functions.
- `Origins` says over the same runs where what the controllers hold comes from: which requests,
  and which promotions.
- `Forwarder` is the step machine of the event forwarder over its three durable files,
  with a crash possible after each effect, and the class that takes those steps.
- `Sorting`, `Capacity`, `Distribution` split an engine's slots; `JsonText`, `Markers`,
  `ManagedText`, `ManagedRegion` write the rendered entries between two marker lines;
  `GuardedApply` and `RouteTables` put the result in place or put everything back.
- `CanonicalJson` is the printer behind digests and signatures, in both its TypeScript
  and its Python dialect; `PolicyCaches`, `Containment`, `Budgets` and `Selection` model
  the OMP extension and the selection engine.

Code that updates state in place is a class or a method with loops, proved against a
specification function or a stated property; expressions and recursion are functions.

Where the code does less than its documentation suggests, the model follows the code
and the exact condition is proved:

- A mutation that was given up may leave its prepared row at the standby, when the active
  crashed or its abort was lost. `Convergence.ConvergesExactly` says when recovery still makes
  the controllers agree: exactly if no operation was committed while the standby held a row of
  another kind, payload, generation or policy for it. Crashes never bring that about
  (`Convergence.CrashesConverge`), a lost abort can (`Convergence.LostAbortDiverges`): a
  prepare that finds a row compares fingerprints, and not generations.
- A policy whose route alias, model, base URL or id contains a marker text is accepted
  and renders once; after that the config is refused. `ManagedRegion.RenderTwice` proves
  that this is the only case, `ManagedRegion.MarkerAliasRendersOnce` gives an instance.
- Two rendered entries can have one backend id, engines "a" and "a:b" with aliases "b:c" and
  "c" for instance. `Distribution.BackendIdsUnique` proves that a colon moved between id and
  alias is the only way, `Distribution.BackendIdsCollide` that every such pair collides.
- The policy cache accepts a bundle again once it has forgotten it: after a restart that could
  not restore the file, and, when another bundle is applied then, for good.
  `PolicyCaches.ReplayExactly` says for every run what is accepted, `PolicyCaches.NoReplayExactly`
  exactly which runs accept no sequence or nonce again; `PolicyCaches.ReplayAfterReadError` and
  `PolicyCaches.ReplayAfterOverwrite` give instances.
- An automatic budget admission reserves nothing. `Budgets.AdmittedSpentExactly` says exactly
  when admitted requests that spend their estimates stay within a limit,
  `Budgets.AdmissionsDoNotReserve` gives an instance that does not.
- A revoked policy key stays distrusted until the next restart only
  (`PolicyCaches.RevokedStays`, `PolicyCaches.RestartForgetsRevocations`).
- A route table whose rollback failed loses track of its file exactly if the file was replaced
  and not put back (`RouteTables.FailedRollback`, instance `RouteTables.RollbackLosesTrack`),
  and then refuses every later switch until it is repaired by hand (`RouteTables.LostTrackRefuses`).

## Model

| member | source | states |
|---|---|---|
| Replay.RecordKeepsConsistent | src/modelctl/controller/store.py:163-171 | accepting a nonce keeps each key's recorded sequence the maximum over its retained nonces |
| Replay.RemoveKeepsConsistent | src/modelctl/controller/store.py:174-185 | so does removing one, down to no entry when no nonce is left |
| Replay.FenceOverRuns | src/modelctl/controller/store.py:162-185 | over every sequence of accepts and removes the fence is that maximum, absent without nonces |
| Replay.RemoveUndoesRecord | src/modelctl/controller/store.py:162-185 | accept then remove restores both tables exactly |
| Replay.RemoveUndoesTwoRecords | src/modelctl/controller/api.py:421-424 | the two accepts of a prepare are undone by the two removes of its abort, even under one key |
| Replay.SpentNonceRefused | src/modelctl/controller/store.py:164-168 | a retained nonce is never accepted again under any key or sequence |
| Replay.SpentNonceKept | src/modelctl/controller/store.py:163-185 | other accepts and removes do not release a spent nonce |
| ControllerTables.ReserveKeeps | src/modelctl/controller/api.py:265-285 | reserving the replay slot keeps the database sound and changes nothing else |
| ControllerTables.PrepareKeeps | src/modelctl/controller/api.py:408-441 | preparing keeps it sound and takes nothing back |
| ControllerTables.LocalCommitKeeps | src/modelctl/controller/api.py:309-340 | the local commit applies the payload once, in epoch order, with one outbox row per pending operation |
| ControllerTables.MarkReplicatedKeeps | src/modelctl/controller/store.py:371-376 | acknowledging drops exactly the outbox row of the operation it commits |
| ControllerTables.CommitKeeps | src/modelctl/controller/api.py:443-492 | a commit call applies at most once and never lowers epoch or generation |
| ControllerTables.CommitYesMeansCommitted | src/modelctl/controller/api.py:446-448 | a commit call answers yes exactly if the operation is committed there afterwards |
| ControllerTables.AbortKeeps | src/modelctl/controller/api.py:494-508 | an abort keeps the database sound and touches no operation or policy |
| ControllerTables.FenceKeeps | src/modelctl/controller/api.py:555-576 | a successful fence leaves a follower at exactly the fencing epoch |
| ControllerTables.PromoteSwapKeeps | src/modelctl/controller/api.py:605-613 | the promotion swap keeps the database sound under a greater epoch |
| ControllerTables.AbortUndoesPrepare | src/modelctl/controller/api.py:494-508 | a newly recorded prepare followed by its abort is the identity on every table |
| ControllerTables.ForgedPrepareRefused | src/modelctl/controller/api.py:380-406 | a prepare whose envelopes do not authenticate, or whose message, kind, payload, id or fingerprint do not match them, is refused and changes nothing |
| Replication.GiveUpRestores | src/modelctl/controller/api.py:341-356 | giving up restores both databases whatever became of the prepare call |
| Replication.PendingPaired | src/modelctl/controller/api.py:302-331 | after prepare and local commit the pair is paired with one more pending operation |
| Replication.CommitPaired | src/modelctl/controller/api.py:443-490 | committing a held operation at the standby succeeds and keeps the pair paired |
| Replication.MarkPaired | src/modelctl/controller/api.py:226-241 | acknowledging a committed operation keeps the pair paired |
| Replication.MutateOutcomes | src/modelctl/controller/api.py:243-360 | mutate ends committed at both, pending with an outbox row and held by the peer, or refused with every table unchanged on both sides |
| Replication.MutateExactly | src/modelctl/controller/api.py:243-360 | a request is accepted exactly if it is authentic and valid and either already committed with its fingerprint, or new, of a known kind, with the epoch and generation it expects, with nonces and sequences neither side has spent, and both peer calls are authentic and answered; it is left pending exactly if only the commit is not answered; all by the request's and the tables' own fields |
| Replication.ForgedMutateRefused | src/modelctl/controller/api.py:249-253 | a request that does not authenticate is refused with both databases unchanged |
| Replication.RecoverRowPaired | src/modelctl/controller/api.py:542-549 | recovering one row only marks it, and clears it when the peer answers |
| Replication.RecoverPaired | src/modelctl/controller/api.py:539-550 | recovery keeps the pair paired under any fates and clears every row whose calls were answered |
| Replication.RecoveredExactly | src/modelctl/controller/api.py:539-550 | recovery reports exactly the rows both of whose calls were authentic and answered, in row order |
| Replication.RecoveredInOrder | src/modelctl/controller/api.py:539-550 | so against an answering peer every outbox row |
| Replication.RunPaired | src/modelctl/controller/api.py:243-550 | every sequence of mutates and recoveries in one epoch keeps the pair paired |
| Replication.RecoveryConverges | src/modelctl/controller/api.py:539-550 | from every pair that whole calls reach, recovery against an answering standby empties the outbox and leaves equal operation ids, fingerprints and policies, with nothing prepared |
| Failover.StepSafe | src/modelctl/controller/api.py:243-626 | every single transaction, crash, lost reply, fence and promotion of either controller keeps the invariant, and nothing goes backwards |
| Failover.RunSafe | src/modelctl/controller/api.py:243-626 | so does every interleaving of them |
| Failover.NeverTwoActive | src/modelctl/controller/api.py:555-626 | the two controllers are never both active, under every interleaving with two promotions at once and lost fence replies |
| Failover.AcknowledgedSurvive | src/modelctl/controller/api.py:237-241 | once mutate returned accepted, both operations tables hold that id with that fingerprint ever after, promotions included |
| Failover.AppliedOnceInEpochOrder | src/modelctl/controller/api.py:443-492 | at each controller an id's payload is applied at most once, applied epochs never decrease, and outbox ids are exactly the pending ids |
| Failover.MutateIsARun | src/modelctl/controller/api.py:243-360 | the whole mutate call is a run of the single steps and accepts exactly when they do |
| Failover.PromoteIsARun | src/modelctl/controller/api.py:600-613 | the whole promote call is a run of two single steps |
| Failover.RecoverIsARun | src/modelctl/controller/api.py:539-550 | the whole recovery is a run of single steps and ends where they do |
| Failover.PromoteExactly | src/modelctl/controller/api.py:578-626 | a promotion succeeds exactly if an authentic request with a verified receipt asks a controller that is not active for a later epoch, the peer may be fenced there and answers, and the promotion envelope is fresh; otherwise the caller is unchanged, and a forged request or receipt does not even fence the peer |
| Origins.AppliedWasAsked | src/modelctl/controller/api.py:248-285 | after every run, whatever either controller has applied, every operation it knows and every policy it serves comes from a request of the run that was authentic and valid and that found the epoch and the generation it expected |
| Origins.ActiveWasGranted | src/modelctl/controller/api.py:578-626 | in every run a controller becomes active only by completing a promotion to a later epoch for which it asked before, with an authentic request and a verified receipt, and heard that its peer is fenced |
| Origins.ForgedIgnored | src/modelctl/controller/api.py:583-600 | forged mutations, forged promotions and promotions with a receipt that does not verify are steps that change nothing at either side |
| Convergence.StepInEpoch | src/modelctl/controller/api.py:243-550 | every step of either controller in one epoch, crash or lost call, keeps the pair fitting: what the standby holds or has applied for an operation of the active is what the active applied, whatever rows of abandoned operations it holds besides; unless the step is a misfiled commit |
| Convergence.ConvergesExactly | src/modelctl/controller/api.py:539-550 | after any run of one epoch, with crashes between any two steps and any call or abort lost, recovery against an answering standby gives both controllers the same operations, applied payloads and policies exactly if no commit of the run was misfiled |
| Convergence.CrashesNeverMisfile | src/modelctl/controller/api.py:281-282 | as long as no abort is lost no commit is misfiled: a row left behind by a crash keeps its nonce spent at the active, so its envelope is never sent again (fingerprints being digests of envelopes, equal ones have equal nonces) |
| Convergence.CrashesConverge | src/modelctl/controller/api.py:539-550 | so crashes of either controller and lost prepare and commit calls never cost convergence |
| Convergence.RetryMisfiles | src/modelctl/controller/api.py:416-418 | a policy that is sent again while the standby holds its row of another generation is prepared there and committed by the active all the same |
| Convergence.LostAbortDiverges | src/modelctl/controller/http_peer.py:62-64 | any policy that loses its prepare reply and its abort and is sent again after another policy leaves a pair that recovery cannot make agree |
| Controllers.ControllerStore.ReplayAccept | src/modelctl/controller/store.py:163-171 | accepts exactly the acceptable sequences and updates both tables as the fence function says |
| Controllers.ControllerStore.SelectMax | src/modelctl/controller/store.py:179-181 | the greatest sequence among the key's rows, none if there is none |
| Controllers.ControllerStore.ReplayRemove | src/modelctl/controller/store.py:174-185 | deletes the matching row and resets the fence to the remaining maximum |
| Controllers.ControllerStore.NextOutboundSequence | src/modelctl/controller/store.py:188-192 | counts the key's signed envelopes from one |
| Controllers.ControllerStore.ApplyPayload | src/modelctl/controller/api.py:193-220 | writes what the payload kind calls for, or raises without writing |
| Controllers.ControllerStore.MarkRow | src/modelctl/controller/store.py:372-376 | commits the operation and deletes its outbox row |
| Controllers.ControllerStore.Rollback | src/modelctl/controller/store.py:123-133 | undoes everything the transaction wrote |
| Controllers.Controller.PrepareReplication | src/modelctl/controller/api.py:408-441 | refines the prepare transaction |
| Controllers.Controller.CommitReplication | src/modelctl/controller/api.py:443-492 | refines the commit transaction, rolled back when applying raises |
| Controllers.Controller.AbortReplication | src/modelctl/controller/api.py:494-508 | refines the abort transaction |
| Controllers.Controller.FenceOff | src/modelctl/controller/api.py:555-576 | refines the fence transaction |
| Controllers.Controller.CommitLocally | src/modelctl/controller/api.py:309-345 | refines the local commit, rolled back when it raises |
| Controllers.Controller.ReserveSlot | src/modelctl/controller/api.py:265-285 | refines the first transaction of mutate |
| Controllers.Controller.Mutate | src/modelctl/controller/api.py:243-360 | from a paired pair it ends paired with one of the three outcomes |
| Controllers.Controller.Replicate | src/modelctl/controller/api.py:299-349 | sends, commits locally, commits at the peer, or gives up |
| Controllers.Controller.RecoverOne | src/modelctl/controller/api.py:543-549 | recovers one outbox row |
| Controllers.Controller.RecoverPendingOperations | src/modelctl/controller/api.py:539-550 | the loop over the outbox ends where the recovery function does and reports the recovered ids |
| Controllers.Controller.Promote | src/modelctl/controller/api.py:578-626 | fences the peer first, then swaps its own role and epoch |
| Forwarder.NextLine | src/modelctl/telemetry/event_forwarder.py:341-345 | a line read from a boundary ends at a boundary, starts there and contains no other |
| Forwarder.StepSafe | src/modelctl/telemetry/event_forwarder.py:311-364 | every durable write, post, crash and log append keeps the forwarder safe |
| Forwarder.RunSafe | src/modelctl/telemetry/event_forwarder.py:311-364 | so does every interleaving of them |
| Forwarder.CrashSafety | src/modelctl/telemetry/event_forwarder.py:311-364 | each line goes out under at most one envelope, in log order with strictly increasing sequences, the cursor never passes an unaccepted line, and the pending envelope belongs to the line at the cursor |
| Forwarder.PendingIsNext | src/modelctl/telemetry/event_forwarder.py:319-329 | a pending line ahead of the cursor is the next line |
| Forwarder.LogIsAppended | src/modelctl/telemetry/event_forwarder.py:341-345 | the forwarder never writes the log: after every run it holds what was there and what was appended |
| Forwarder.EventForwarder.Deliver | src/modelctl/telemetry/event_forwarder.py:262-286 | posts once to each controller in turn unless the machine stops, records every post as it was answered, counts the refusals, and accepts exactly if some answer did |
| Forwarder.EventForwarder.Settle | src/modelctl/telemetry/event_forwarder.py:325-329 | moves the cursor past the accepted line before it drops the pending file |
| Forwarder.EventForwarder.Enqueue | src/modelctl/telemetry/event_forwarder.py:347-353 | makes a fresh sequence durable, then the signed envelope of the next line |
| Forwarder.EventForwarder.DeliverPending | src/modelctl/telemetry/event_forwarder.py:319-329 | an unaccepted envelope stays pending with the cursor where it was |
| Forwarder.EventForwarder.ForwardLine | src/modelctl/telemetry/event_forwarder.py:345-362 | an accepted line moves the cursor to its end and leaves nothing pending |
| Forwarder.EventForwarder.Scan | src/modelctl/telemetry/event_forwarder.py:341-364 | reports the lines passed and the posts refused, and why it stopped |
| Forwarder.EventForwarder.Forward | src/modelctl/telemetry/event_forwarder.py:311-364 | one pass takes only steps of the machine; every post is recorded as it was answered, the cursor moves only if some answer accepted, it ends early only when the machine stops, and its report adds up |
| Forwarder.RefusedStays | src/modelctl/telemetry/event_forwarder.py:323-324 | so a pass in which every controller refuses leaves the cursor where it was |
| Capacity.ShareOrderIndependent | src/modelctl/adapters/litellm/core.py:274-288 | a route's share does not depend on the order of the routes |
| Capacity.ShareIsFloorOrCeiling | src/modelctl/adapters/litellm/core.py:274-288 | each share is the floor or ceiling of capacity times weight over total, and exact where that is whole |
| Capacity.HeavierGetsNoLess | src/modelctl/adapters/litellm/core.py:282-287 | a heavier route never gets fewer slots than a lighter one |
| Capacity.SharesAddUp | src/modelctl/adapters/litellm/core.py:274-288 | the shares of a nonempty list sum exactly to the capacity |
| Capacity.LeftOverBounds | src/modelctl/adapters/litellm/core.py:281 | no slot is left over when every share is whole; otherwise at least one is, and fewer than the routes with a remainder |
| Capacity.HandOutFloors | src/modelctl/adapters/litellm/core.py:280 | every alias starts with its floor |
| Capacity.HandOutExtras | src/modelctl/adapters/litellm/core.py:282-287 | the best ranked aliases get one more |
| Capacity.WeightedSplit | src/modelctl/adapters/litellm/core.py:274-288 | gives every alias its share |
| Distribution.EngineBounds | src/modelctl/adapters/litellm/core.py:251-260 | an engine hands out at most its available slots, and at most its borrowable slots to routes that are not interactive |
| Distribution.EngineShares | src/modelctl/adapters/litellm/core.py:251-260 | an engine gives its interactive routes exactly the reserved slots that are free and its other routes exactly the rest, and a kind without routes gets none |
| Distribution.DistributedEngines | src/modelctl/adapters/litellm/core.py:126-148 | a distribution covers exactly the active, healthy or degraded engines with a route, each with exactly the aliases of its routes that are not manual |
| Distribution.DistributionTotals | src/modelctl/adapters/litellm/core.py:126-148 | every row of a distribution adds up to those totals, kind by kind |
| Distribution.RendererAgrees | src/modelctl/adapters/litellm/core.py:74-148 | when both succeed, the rendered entries are exactly the nonzero allocations, each once |
| Distribution.RenderingUnique | src/modelctl/adapters/litellm/core.py:91-103 | the rendered entries and their order are determined by engines and routes |
| Distribution.BackendIdsUnique | THEORY.MD:85 | the rendered entries have different backend ids exactly if no two of them differ by a colon moved between engine id and alias, so always for engine ids without colons |
| Distribution.BackendIdsCollide | src/modelctl/adapters/litellm/core.py:297 | every such pair of engines and aliases is rendered with one id |
| Distribution.SlotsOrderIndependent | src/modelctl/adapters/litellm/core.py:251-260 | the two sort orders give every route the same slots |
| Distribution.EnginesById | src/modelctl/adapters/litellm/core.py:234-241 | indexes the engines, refusing exactly duplicate ids |
| Distribution.GroupByEngine | src/modelctl/adapters/litellm/core.py:82-88 | groups the routes that are not manual, refusing exactly unknown engines |
| Distribution.UniqueAliases | src/modelctl/adapters/litellm/core.py:263-271 | refuses exactly a repeated alias |
| Distribution.EngineDistribution | src/modelctl/adapters/litellm/core.py:251-260 | gives each route of the engine its slots |
| Distribution.CalculateDistribution | src/modelctl/adapters/litellm/core.py:126-148 | covers exactly the eligible engines with routes, and refuses exactly inconsistent inputs |
| Distribution.RenderEngine | src/modelctl/adapters/litellm/core.py:98-102 | one entry per route with slots, refused exactly when one would lack its base URL |
| Distribution.RenderGroup | src/modelctl/adapters/litellm/core.py:96-102 | the entries of one eligible engine by alias |
| Distribution.RenderManagedRegion | src/modelctl/adapters/litellm/core.py:74-103 | one entry per nonzero allocation, by engine id and alias, and refuses exactly inconsistent inputs and missing base URLs |
| Distribution.MissingUrlExactly | src/modelctl/adapters/litellm/core.py:291-293 | of consistent inputs the renderer refuses exactly those whose distribution gives slots to an engine without a base URL |
| ManagedText.ManagedContains | src/modelctl/adapters/litellm/core.py:291-307 | the rendered bytes contain a marker exactly if an alias, model, base URL or id does |
| ManagedText.ManagedWholeLines | src/modelctl/adapters/litellm/core.py:103 | the rendered bytes are whole lines |
| ManagedText.RegionReadsBack | src/modelctl/adapters/litellm/core.py:291-307 | the rendered region, read by its keys, gives every entry's alias, base URL, slots, model, weight and id, in order |
| ManagedText.EntryReadsBack | src/modelctl/adapters/litellm/core.py:291-307 | so does each entry, whatever follows it |
| ManagedText.EntryContains | src/modelctl/adapters/litellm/core.py:291-307 | only the four quoted strings of an entry can bring a marker into it |
| ManagedRegion.ModelctlProper | src/modelctl/adapters/litellm/core.py:15-16 | the two marker texts are proper, so every theorem about markers applies to them, and neither begins the other |
| ManagedRegion.Count | src/modelctl/adapters/litellm/core.py:321 | counting without overlap finds one exactly when there is one occurrence |
| ManagedRegion.SplitLines | src/modelctl/adapters/litellm/core.py:323-328 | the text cut into lines after "\n", "\r\n" and "\r", none left out |
| ManagedRegion.FirstMarkerLine | src/modelctl/adapters/litellm/core.py:329-330 | finds the line that is the marker if there is one |
| ManagedRegion.StrippedExactly | src/modelctl/adapters/litellm/core.py:336-337 | a line is a marker's exactly if it is the marker with nothing but terminators after it |
| ManagedRegion.MarkerLines | src/modelctl/adapters/litellm/core.py:318-333 | succeeds exactly when each marker occurs once, as a whole line, begin before end |
| ManagedRegion.LensLaws | src/modelctl/adapters/litellm/core.py:58-71 | a rendered config keeps every byte outside the region, its region is the rendered text, rendering again changes nothing and forgets what was there; all exactly when the rendered text has no marker |
| ManagedRegion.RenderTwice | src/modelctl/adapters/litellm/core.py:58-71 | the same for policies: p then p is p, p then q is q, exactly when no string of a rendered entry of p carries a marker |
| ManagedRegion.MarkerAliasRendersOnce | src/modelctl/adapters/litellm/core.py:31-35 | an accepted policy renders into a well-marked config, and the result is not well marked any more |
| ManagedRegion.RenderConfig | src/modelctl/adapters/litellm/core.py:58-71 | renders the policy into the region, and refuses exactly malformed markers and refused policies |
| GuardedApply.Deployment.Proceed | src/modelctl/adapters/litellm/apply.py:265-283 | stops at the first failure, a wanted service restart included, with exactly the calls made until then, and says whether the runtime may have heard of the new config |
| GuardedApply.Deployment.RollBack | src/modelctl/adapters/litellm/apply.py:284-321 | restores the file, tells the runtime the original digest if it was touched, and records which of the two failed |
| GuardedApply.Deployment.Apply | src/modelctl/adapters/litellm/apply.py:211-321 | all or nothing under any failure of any call: the outcome is determined by the failures; a success leaves the rendered bytes, the runtime told of them and restarted if it wants to be; a rollback leaves the original ones, the runtime last told the original digest and restarted after that if it wants to be; a failed or escaped rollback leaves the rendered bytes exactly if the write took effect and the restore did not; a refusal changes nothing but a backup that was already due |
| GuardedApply.OutcomeExactly | src/modelctl/adapters/litellm/apply.py:211-321 | applied exactly if lock, read, match, backup, write, update, wanted restart, smoke check and receipt all succeed; rolled back exactly if one after the backup fails and nothing that undoes it does |
| GuardedApply.CallsInOrder | src/modelctl/adapters/litellm/apply.py:284-300 | the runtime hears of the original only once it is back in the file, and is restarted only right after it was told of something |
| RouteTables.RouteTable.Activate | src/modelctl/evals/litellm_routes.py:86-93 | makes the route current and remembers the previous one only after a successful apply |
| RouteTables.RouteTable.Rollback | src/modelctl/evals/litellm_routes.py:95-101 | the same without remembering |
| RouteTables.RunTracks | src/modelctl/evals/litellm_routes.py:127-129 | the expected digest is the file's digest after every run with no failed rollback |
| RouteTables.FailedRollback | src/modelctl/adapters/litellm/apply.py:287-317 | after a failed rollback the file is the original or the rendered one by which replacements took effect, and the digest is tracked exactly if the original was put back or never replaced, or both have one digest |
| RouteTables.RollbackLosesTrack | src/modelctl/adapters/litellm/apply.py:287-317 | one failed smoke check with a restore that fails early loses track |
| RouteTables.LostTrackRefuses | src/modelctl/adapters/litellm/apply.py:260-261 | a table that lost track refuses every switch and changes nothing, backups included |
| RouteTables.RunServes | src/modelctl/evals/litellm_routes.py:86-125 | after any such run the file is the current route's rendering of the file the run began with: leaving a route and coming back restores its bytes |
| RouteTables.PoliciesForget | src/modelctl/evals/litellm_routes.py:110-125 | routes that render marker-free policies satisfy what that needs |
| RouteTables.RunHistory | src/modelctl/evals/litellm_routes.py:86-101 | over every run the current route is that of the last applied move, and the history holds the routes that applied activations left, in order |
| JsonText.ReadQuoted | extensions/omp/src/policyCache.ts:92-95 | a string literal reads back as its string by section 7 of RFC 8259, whatever follows it, lone surrogates included |
| JsonText.ReadDecimal | extensions/omp/src/policyCache.ts:92 | a printed integer reads back as its value unless a digit follows |
| JsonText.EscapeForms | extensions/omp/src/policyCache.ts:92 | the seven short escapes, lower-case four-digit escapes for other control characters and, in JavaScript only, lone surrogates, and everything else as it is |
| JsonText.PairsKept | extensions/omp/src/policyCache.ts:92 | a surrogate pair is written as it is |
| JsonText.DecimalForm | extensions/omp/src/policyCache.ts:92 | a sign exactly for negative integers and no superfluous zero |
| CanonicalJson.ReadPrinted | extensions/omp/src/policyCache.ts:91-96 | a printed value inside any document reads back as the value it denotes, and ends where it was printed to end |
| CanonicalJson.RoundTrip | src/modelctl/policy/signing.py:52-61 | reading the canonical text as JSON gives the value, with nothing left over |
| CanonicalJson.SameMeaningSameText | src/modelctl/policy/signing.py:52-61 | equal values print equally, whatever order their members were added in |
| CanonicalJson.CanonicalText | extensions/omp/src/policyCache.ts:91-96 | two documents print equally exactly when they are equal as JSON values, in both dialects |
| CanonicalJson.SignatureCoversHeader | src/modelctl/policy/signing.py:78-90 | the signed bytes are equal only if expiry, issue time, key, nonce, payload digest and sequence all are |
| Containment.LoopsByRun | extensions/omp/src/containment.ts:89 | the sliding-window rule counts the outputs that repeat the newest one within the window |
| Containment.NextRing | extensions/omp/src/containment.ts:82-87 | filtering and truncation keep exactly what the rule still needs of the whole history |
| Containment.RingsObserved | extensions/omp/src/containment.ts:81-91 | one more output keeps every transcript's ring in step with its history |
| Containment.ContainmentDetector.Observe | extensions/omp/src/containment.ts:74-92 | an unparked transcript reports park exactly when its outputs since the last resume or policy update end in a loop, also with parking switched off; counts the repetition up to one past the threshold |
| Containment.ContainmentDetector.UpdatePolicy | extensions/omp/src/containment.ts:68-72 | new limits, at least one, forget every history but no parking |
| Containment.ContainmentDetector.Resume | extensions/omp/src/containment.ts:98-101 | unparks one transcript and forgets its history |
| PolicyCaches.ReplayFenced | extensions/omp/src/policyCache.ts:175-245 | accepted sequences strictly increase and no nonce is accepted twice, through failed writes and restarts, if nothing is accepted while an accepted bundle is forgotten |
| PolicyCaches.RunTracked | extensions/omp/src/policyCache.ts:175-229 | over every run memory and file hold exactly the fences of the bundles they remember |
| PolicyCaches.ReplayExactly | extensions/omp/src/policyCache.ts:231-245 | after every run a bundle is accepted, for the first time or again, exactly if it is genuine and has a greater sequence and another nonce than every bundle remembered; with every write reported those are the accepted bundles since the last that was forgotten |
| PolicyCaches.NoReplayExactly | extensions/omp/src/policyCache.ts:175-245 | a run accepts strictly increasing sequences without a repeated nonce exactly if no bundle it accepts is behind one forgotten by then |
| PolicyCaches.ForgottenAfterFailedRestore | extensions/omp/src/policyCache.ts:197-223 | a restart with a refused restore forgets every accepted bundle and leaves the file |
| PolicyCaches.ReplayAfterReadError | extensions/omp/src/policyCache.ts:199-204 | one unreadable file and the same bundle is accepted twice |
| PolicyCaches.ReplayAfterOverwrite | extensions/omp/src/policyCache.ts:182-186 | a bundle applied after that takes the fences out of the file, and a later restore that succeeds does not bring them back |
| PolicyCaches.RunMirrored | extensions/omp/src/policyCache.ts:175-229 | over every run whose writes were reported the file holds the last accepted bundle and no bundle that was not accepted |
| PolicyCaches.RestoreExactly | extensions/omp/src/policyCache.ts:197-229 | the file holds the last accepted bundle with exactly the fences of the accepted ones from its floor on, all of them after a careful run, and a restart gets them back exactly when it is readable, it parses, and the bundle is still trusted, verified and in date |
| PolicyCaches.RestoredExactly | extensions/omp/src/policyCache.ts:197-229 | a restore adopts the file exactly if it is readable, parses, is genuine, fences its own bundle, and is ahead of the active bundle if there is one |
| PolicyCaches.FirstRestoreReason | extensions/omp/src/policyCache.ts:205-222 | a refused restore names the first check that fails |
| PolicyCaches.AcceptedIsServed | extensions/omp/src/policyCache.ts:188-194 | an accepted bundle is the active one, a refused one changes nothing, a restored one is the file's |
| PolicyCaches.AddedKeyIsTrusted | extensions/omp/src/policyCache.ts:157-160 | a key that is not revoked is trusted once added, with the material given last, and no other key is affected |
| PolicyCaches.PolicyCache.ApplyNow | extensions/omp/src/policyCache.ts:175-195 | accepts exactly valid bundles whose write was reported, and adopts them only after the write |
| PolicyCaches.PolicyCache.RestoreNow | extensions/omp/src/policyCache.ts:197-229 | adopts the file's state exactly when no check refuses it, and otherwise changes nothing |
| PolicyCaches.RevokedStays | extensions/omp/src/policyCache.ts:157-169 | over every run until the next restart, no bundle of a revoked key is accepted, restored or active, and adding the key changes nothing |
| PolicyCaches.RestartForgetsRevocations | extensions/omp/src/policyCache.ts:137-147 | a restart forgets every revocation and trusts the configured keys again |
| PolicyCaches.FirstReason | extensions/omp/src/policyCache.ts:231-245 | the reason given is that of the first check that fails, in the order digest, key, signature, issue time, expiry, sequence, nonce |
| PolicyCaches.PolicyCache.RevokeKey | extensions/omp/src/policyCache.ts:166-169 | drops the active bundle of a revoked key but keeps the fences |
| Budgets.AdmittedExactly | extensions/omp/src/budgets.ts:44-58 | an open transcript is admitted exactly if it is manual or stays within every limited scope after the estimate; the reason tells breached from would be exceeded |
| Budgets.WithinEveryScope | extensions/omp/src/budgets.ts:124-149 | which is: within the limit of the agent, and of the project and the provider if it has them |
| Budgets.AmountMeaning | extensions/omp/src/budgets.ts:81 | tokens count as their whole part, negative ones as none |
| Budgets.AdmitOpens | extensions/omp/src/budgets.ts:44-58 | a refused admission changes nothing, an admitted one opens its transcript if it is not open |
| Budgets.AccountExactly | extensions/omp/src/budgets.ts:80-91 | over every run without its resume an open transcript's account grows by exactly the tokens accepted from it |
| Budgets.ClosedUntilResume | extensions/omp/src/budgets.ts:93-114 | over every run until its resume a closed transcript is neither admitted, manual or not, nor charged |
| Budgets.ResumeStartsAfresh | extensions/omp/src/budgets.ts:111-114 | a resumed transcript is judged and charged as a new one |
| Budgets.NewLimitsJudge | extensions/omp/src/budgets.ts:40-42 | new limits judge the next request and change nothing else |
| Budgets.Conservation | extensions/omp/src/budgets.ts:44-114 | over every run total agent usage is all tokens accepted, project and provider totals are at most that, each agent's usage covers its open transcripts, and the closed set is the open transcripts flagged closed |
| Budgets.ConsumeConserves | extensions/omp/src/budgets.ts:80-91 | consuming adds the same amount to the transcript and to each of its scopes |
| Budgets.AdmittedSpendingWithin | extensions/omp/src/budgets.ts:51-54 | spending no more than estimated right after an automatic admission stays within the limits |
| Budgets.RunUse | extensions/omp/src/budgets.ts:44-114 | over every run of calls the use of an agent, project or provider grows by exactly the tokens accepted from the transcripts charged to it |
| Budgets.SpendsExactly | extensions/omp/src/budgets.ts:80-91 | after any spends, by any transcripts, a limited scope is within its limit exactly if its use before and the tokens charged to it are |
| Budgets.AdmittedSpentExactly | extensions/omp/src/budgets.ts:51-58 | requests admitted one after the other that spend their estimates in full leave a scope within its limit exactly if its use and all their estimates charged to it fit together |
| Budgets.AdmissionsDoNotReserve | extensions/omp/src/budgets.ts:55-58 | two admissions that fit alone overrun the limit together |
| Budgets.BudgetManager.Admit | extensions/omp/src/budgets.ts:44-59 | every automatic admission leaves every limited scope within its limit after the estimate |
| Budgets.BudgetManager.Observe | extensions/omp/src/budgets.ts:61-74 | reports what admit would refuse, and opens the transcript anyway |
| Budgets.BudgetManager.Consume | extensions/omp/src/budgets.ts:80-91 | charges an open transcript that is not closed, and no other |
| Budgets.BudgetManager.Close | extensions/omp/src/budgets.ts:93-105 | closes an open transcript and returns what it consumed |
| Budgets.BudgetManager.Resume | extensions/omp/src/budgets.ts:111-114 | forgets the transcript but not its usage |
| Budgets.BudgetManager.UpdateLimits | extensions/omp/src/budgets.ts:40-42 | replaces the limits and nothing else |
| Selection.BestIsMaximal | src/modelctl/selection/engine.py:180-195 | the estimate used for an account is the one made last, of those the one with the largest use, unknown use counting as infinite, and of those the first listed |
| Selection.RunwayIndex | src/modelctl/selection/engine.py:184-195 | indexes that estimate for every provider and account that has one |
| Selection.GateExactly | src/modelctl/selection/engine.py:211-252 | the chain of checks lets through exactly the available, unexpired, admitted, promoted candidates under their quota |
| Selection.FirstGate | src/modelctl/selection/engine.py:211-230 | the reason recorded is the first check that fails, in the order listed, available, in date, mode, promoted |
| Selection.FirstMeterGate | src/modelctl/selection/engine.py:231-251 | and then, for metered candidates, estimate, unit, age, maximum, use, share |
| Selection.RungModes | src/modelctl/selection/engine.py:71-75 | a strict-local role takes local candidates only, another one every cloud candidate and local ones if it allows them |
| Selection.EvaluateRole | src/modelctl/selection/engine.py:198-253 | the first eligible candidate is the first listed one that passes every gate; every other reference has its first failed gate |
| Selection.ChainMembers | src/modelctl/selection/engine.py:291-296 | a chain holds the role's other rungs and, for a strict-local role, no cloud candidate |
| Selection.ChainOrder | src/modelctl/selection/engine.py:292-296 | a chain keeps the order of the role's list |
| Selection.AssignedIsPlan | src/modelctl/selection/engine.py:273-313 | one more role changes only its own keys |
| Selection.SelectModels | src/modelctl/selection/engine.py:256-320 | every role gets its first eligible candidate or keeps its primary, its chain behind it; unmanaged keys are untouched; changed and blocked roles are listed |
| Selection.PlanExactly | src/modelctl/selection/engine.py:256-320 | by the request's own fields: every role gets its first listed candidate that is available, promoted, in date, of an admitted mode and covered by its account's best estimate, else keeps what it had; its chain holds exactly its other usable candidates; changed and blocked roles are exactly those |
| Selection.SelectionIsAFixpoint | src/modelctl/selection/engine.py:256-320 | selecting again from the output changes nothing |
| Selection.PromotedIds | src/modelctl/selection/engine.py:167-177 | the ids of the promoted candidates |

## Left out

- Signatures, digests, base64, timestamps and payload parsing: authentication, fingerprints, payload validity and digests are inputs or functions the model is given.
- SQLite, file systems and HTTP: a transaction is one step, a replaced file holds the old or the new bytes, a peer call is refused, lost after taking effect, or answered.
- A peer that is not configured, observe-only controllers, replay of control envelopes, the apply_replication shortcut and the lag monitor beyond its flag.
- The last-replication fields, event rows, host reports, quotas and apply receipts: rows that no decision of replication reads; only their effect of raising or not is kept.
- Deadlock and timeouts of the mutation lock: a controller's call holds it as one job, while fences and promotions are modelled as if they did not wait for it, which allows more interleavings than the code.
- Replication.MutateOutcomes: whole calls with aborts that take effect; lost aborts and crashes inside a call are Convergence's subject.
- Convergence.CrashesConverge: takes it that envelopes with one fingerprint have one nonce, as digests do; ConvergesExactly assumes nothing of fingerprints.
- Convergence.ConvergesExactly: one epoch only; a failover that leaves a pending policy can give two policies one generation. Rows of abandoned operations are never cleaned up at the standby, and nothing is claimed about them.
- Forwarder.EventForwarder.Forward: log lines end in a newline, one forwarder at a time; unreadable or inconsistent state files, which the code refuses with an error, are not modelled.
- Liveness when envelopes expire, for the outbox and for a pending event: only what stays safe is stated.
- Routes, engines and policies as parsed objects: positive weights and unique engine fields are what their constructors demand; reading them from YAML or JSON is left out.
- The str form of render_config, the unified diff and the receipt dictionary of a render.
- ManagedText.ManagedContains: text without surrogates, which Python refuses to encode.
- GuardedApply.Deployment.Backup: a backup that fails part-way may leave any backup file; the model leaves none or a whole one, and the config file is untouched either way.
- CanonicalJson.CanonicalText: integers only; floats, negative zero, key types that str() makes equal, and the agreement of the two languages on key order outside the basic plane are left out.
- Containment.ContainmentDetector.Observe: the default equality, integer limits and a clock that does not go back; normalizeOutput is a function the model is given.
- PolicyCaches.ReplayFenced: for runs that accept nothing while an accepted bundle is forgotten; without that it can be false, and NoReplayExactly gives the exact condition.
- The promise chain that serializes cache operations, a cache without a file system or without rename, and files written by anyone else.
- Budget events, names such as "constructor" that collide with JavaScript's object prototype, and token counts that are not numbers.
- Selection reasons as text: a decision keeps the excluded references and their gates instead.
- Budgets and containment options read from a policy payload, key rotation beyond adding a key.
- Fleet collectors, the dashboard, command lines, privacy scanning, judges, escalation and recovery controllers.
- The host agent and its reports; of its files only the durable sequence is modelled, as the sequence file of Forwarder.
- Reading the latest policy from the store: the policy tables by generation are modelled, and equal tables have equal latest rows.
