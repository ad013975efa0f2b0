# Wavelength: verified models

Dafny models of the parts of the Wavelength client where a mistake costs money
or strands it, with proofs over every run, interleaving or input.

- **Credit operations** (`Credit*.dfy`, `SnapshotCodec.dfy`). The per-operation
  durable actor is a transition system over a row, the memory of the running
  child, and the outside world. Its events are turns, durable writes that land,
  are lost, or land while reporting failure, crashes, redeliveries and boot
  repairs. `CreditMachine` defines the system, `CreditRuns` proves what every
  run keeps, and one module each covers redemptions, pays, top-up funding and
  poll caps. `CreditOutcomes` says what every reply leads to, in the fields of
  the row, and `CreditCauses` what a terminal row of any run goes back to.
  `CreditOpActor` is the actor as an object that mutates its fields;
  each turn is proved to be a run of the system. `CreditRegistry` covers
  admission, the redeem interlock and the boot repair over the whole table.
- **Block-epoch hub** (`BlockEpochHub*.dfy`). Each mutex-held section of the
  shared stream hub is one step, so any sequence of steps is an interleaving.
  `BlockEpochHubRuns` proves what every interleaving keeps and
  `BlockEpochHubSteps` what each step does to every registration;
  `BlockEpochHubObject` is the hub as an object, proved to take those steps.
- **Failure budget** (`DowntimeBudget.dfy`). The `downSince`/`openedAt`
  bookkeeping shared by the block-epoch actor and the hub's reader, against an
  observer that only adds up the time without a stream.
- **Confirmation and spend watches** (`Lifecycle*.dfy`). The sequence-stamping
  forwarder, the two signal channels, the select loop with its off-loop armer,
  and finality synthesis. The confirmation and the spend actor run the same
  loop; one machine stands for both. `LifecycleRuns` proves what every run keeps;
  `LifecycleReports` that nothing owed goes unreported. `LifecycleActor` is the watch as an object
  with its channels and goroutines; under any schedule it is a run of the machine.
- **Tree paths and ancestry depth** (`TreePath*.dfy`, `AncestryDepth.dfy`).
  Flattening a tree, rebuilding it from an untrusted array, and the depth claim.
- **Coin selection** (`CoinSelect*.dfy`). Largest-first selection in exact and
  in 64-bit arithmetic.
- **Ancestry store** (`AncestryCodec.dfy`, `AncestryStore.dfy`). The index
  column, the decode cache, batched and single loads, and the replace-all write.

`Basics.dfy` holds options and fixed-width integers.

`dafny verify dfyconfig.toml` checks the whole project.

## How it is modelled

The outside world is a parameter: each call's reply and each write's outcome is
an argument of the step, so a theorem over all runs is a theorem over all
replies. Stage and Commit are atomic durable writes. The OOR daemon is
idempotent by key and answers an existing-only probe truthfully; whether a send
whose reply was lost bound its key is settled when the call returns. Tree
serialization and parsing are an inverse pair, and hashes are collision-free
where a statement says so. A public key or signature is a wire field that
parses to a value or does not. Widths are explicit where they matter: 32-bit poll counters
and heights, 64-bit sums and durations, 32-bit counts in the index column.

## What turned out false, and exactly when it holds

- The poll cap bounds polls only for 0 < N < 2^32 - 1. At N = 2^32 - 1 the
  counter wraps before it can exceed the cap, and runs of any length stay in the
  awaiting state (`CreditPollRuns.UncappedPolls`, `CreditPollRuns.CapFiresExactly`).
- A synthesized Done is at least depth - 1 deep if and only if its tip is
  non-negative, the depth is below 2^31 and the positive's height is below
  2^31 + 2 (`LifecycleRuns.DoneNamesStandingPositive`). The source casts an
  unchecked uint32 height and depth to int32. `LifecycleRuns.EarlyDone` gives a
  failing run for every height and depth out of range, for example height
  2^32 - 1 at depth 6, and `LifecycleRuns.NegativeTipFinalizes` one for a
  negative tip. `LifecycleWatch.DepthTestExact`, which speaks of the test alone,
  takes tips to be non-negative.
- A standing positive at height 0 can be stranded, because the loop reads height
  0 as "no positive" (`LifecycleRuns.ZeroHeightStrands`). At any other height it
  cannot (`LifecycleRuns.FinalityIsOwned`).
- An empty operation key is never found by the lookup. Only the unique index
  keeps keys unique there, so a second request under it is refused instead of
  replayed (`CreditRegistry.Registry.Admission`).
- A slice of 2^32 or more indices does not survive its column
  (`AncestryCodec.EncodeDecodes`).
- 64-bit coin selection is the exact one only while the largest-first prefix it
  ends on sums below 2^63 (`CoinSelectInt64.Int64IsExactWhenTotalFits`), with a counterexample in
  `CoinSelectInt64.OverflowReportsShortfall`.

Where code and comments disagree the code is modelled. `credit/transition_table.go`
misses edges the code has (for example from top-up funding to failed), so it is
not used as a specification. The comment on `ErrChangeBelowMin` suggests that no
exact-fit selection exists; the code only tries largest-first prefixes, and
`CoinSelect.ChangeBelowMinExactly` says so.

## Model

| member | source | states |
|---|---|---|
| `CreditTypes.DecodeColumn` | credit/states.go:142-193 | the column decodes to a known state or is kept verbatim; either way its text is what was stored |
| `CreditTypes.StateRoundTrip` | credit/states.go:97-193 | every state is decoded back from the text it renders as |
| `CreditTypes.ReasonTextExact` | credit/registry.go:739-745 | of all failure reasons only the legacy poll-cap one renders as the text the boot repair looks for, and only no failure as the empty text |
| `SnapshotCodec.SizeRoundTrips` | credit/snapshot.go:50-101 | a variable-size type or length is read back with its value and width from in front of any bytes |
| `SnapshotCodec.ParseRecord` | credit/snapshot.go:105-137 | a record in front of any stream is absorbed and parsing continues right behind it |
| `SnapshotCodec.SnapshotRoundTrips` | credit/snapshot.go:50-137 | decoding the encoding of any snapshot gives that snapshot |
| `SnapshotCodec.SnapshotLayout` | credit/snapshot.go:50-101 | the stream byte by byte: types 1, 2, 3 and 5 in that order, only for fields that are set, the flag as one byte 1 and the poll count in four bytes, most significant first |
| `SnapshotCodec.UnknownIsSkipped` | credit/snapshot.go:105-137 | a record of any other type changes nothing; an empty blob is the zero snapshot |
| `SnapshotCodec.MalformedIsRefused` | credit/snapshot.go:118-130 | a record out of order, or a flag or poll count of another size, refuses the whole stream |
| `SnapshotCodec.AnyFlagIsRead` | credit/snapshot.go:131-137 | a flag byte means credit-only exactly when it is not zero |
| `SnapshotCodec.LongSizeIsRefused` | credit/snapshot.go:105-137 | a type or length in a longer form than it needs is refused |
| `SnapshotCodec.EncodeSnapshot` | credit/snapshot.go:50-101 | appending the non-zero fields produces exactly the specified stream |
| `SnapshotCodec.DecodeSnapshot` | credit/snapshot.go:105-137 | the reading loop accepts exactly the specified streams (increasing types, exact widths, nothing truncated) and yields the specified snapshot |
| `CreditMachine.DebitedMeansProven` | credit/transitions.go:780-812 | a pay is seen as debited if and only if the first ledger operation under its hash is debited with an amount above zero and within the cap |
| `CreditMachine.TriggerIsSafe` | credit/transitions.go:554-614 | a redeem is triggered exactly when enabled, readable, and the balance free of earmarks clears both the watermark and a live floor; it is for exactly that balance |
| `CreditMachine.PersistRestores` | credit/op_actor.go:242-271 | restoring a persisted operation gives back its memory |
| `CreditMachine.RunConcat` | credit/op_actor.go:276-324 | a run of two histories is the second run from where the first ended |
| `CreditRuns.TopupCreateClimbs` | credit/transitions.go:71-103 | whatever replies the step gets: it stays on the flow of its kind, keeps the authority, parks in place or strictly raises the rank, and checkpoints before any awaiting state |
| `CreditRuns.TopupFundClimbs` | credit/transitions.go:134-169 | whatever replies the step gets: it stays on the flow of its kind, keeps the authority, parks in place or strictly raises the rank, and checkpoints before any awaiting state |
| `CreditRuns.TopupAwaitClimbs` | credit/transitions.go:177-202 | whatever replies the step gets: it stays on the flow of its kind, keeps the authority, parks in place or strictly raises the rank, and checkpoints before any awaiting state |
| `CreditRuns.StartPayClimbs` | credit/transitions.go:212-248 | whatever replies the step gets: it stays on the flow of its kind, keeps the authority, parks in place or strictly raises the rank, and checkpoints before any awaiting state |
| `CreditRuns.PayAwaitClimbs` | credit/transitions.go:255-300 | whatever replies the step gets: it stays on the flow of its kind, keeps the authority, parks in place or strictly raises the rank, and checkpoints before any awaiting state |
| `CreditRuns.ReceiveCreateClimbs` | credit/transitions.go:306-344 | whatever replies the step gets: it stays on the flow of its kind, keeps the authority, parks in place or strictly raises the rank, and checkpoints before any awaiting state |
| `CreditRuns.ReceiveAwaitClimbs` | credit/transitions.go:355-392 | whatever replies the step gets: it stays on the flow of its kind, keeps the authority, parks in place or strictly raises the rank, and checkpoints before any awaiting state |
| `CreditRuns.RedeemReserveClimbs` | credit/transitions.go:401-425 | whatever replies the step gets: it stays on the flow of its kind, keeps the authority, parks in place or strictly raises the rank, and checkpoints before any awaiting state |
| `CreditRuns.RedeemSubmitClimbs` | credit/transitions.go:434-464 | whatever replies the step gets: it stays on the flow of its kind, keeps the authority, parks in place or strictly raises the rank, and checkpoints before any awaiting state |
| `CreditRuns.RedeemAwaitClimbs` | credit/transitions.go:470-529 | whatever replies the step gets: it stays on the flow of its kind, keeps the authority, parks in place or strictly raises the rank, and checkpoints before any awaiting state |
| `CreditRuns.StepClimbs` | credit/op_actor.go:440-485 | the same for every state, so a turn that does not park makes progress and runFSM ends |
| `CreditRuns.InvNext` | credit/op_actor.go:276-324 | every event (turn, write lost or landed, crash, redelivery, repair) keeps memory at or past the row and moves a healthy row only forward |
| `CreditRuns.InvRun` | credit/op_actor.go:276-324 | the invariant holds in every run, and the log of effects only grows |
| `CreditRuns.OnlyRepairLeavesTerminal` | credit/registry.go:739-790 | a terminal row changes only by the boot repair of a receive with the exact legacy error, to what the server reports |
| `CreditRuns.RowNeverRetreats` | credit/op_actor.go:563-580 | over any run the durable row of an operation this client admitted never moves backwards, a terminal row never changes, and identity and pay authority are fixed |
| `CreditRuns.EffectsPrecede` | credit/transitions.go:134-248 | an external effect is issued only from a state before the one that retires it |
| `CreditRuns.EffectNotReissued` | credit/op_actor.go:288-306 | once the row records the awaiting state an effect leads to, no later part of any run issues that effect again |
| `CreditRuns.CorruptNext` | credit/op_actor.go:374-388 | whatever happens, a corrupt row stays as it is until a landed commit leaves it healthy and failed |
| `CreditRuns.CorruptRowFails` | credit/op_actor.go:374-388 | a row with an unknown state is durably failed by one committed turn, issues no effect, and is not respawned |
| `CreditRedeemRuns.RedeemRun` | credit/transitions.go:401-464 | in every run the row, the memory and the log agree on one destination, script and amount for the redemption |
| `CreditRedeemRuns.OneDestination` | credit/transitions.go:401-464 | all RedeemCredit calls of any run carry the admitted amount and one destination; a write of that destination landed before each; every payout lookup uses the script allocated with it |
| `CreditPayRuns.CompletesOnlyWhenDebited` | credit/transitions.go:212-300 | in every run a credit-only pay with a hash completes only after a snapshot showed the hash debited, above zero and within the admitted cap |
| `CreditPayRuns.ContradictionHolds` | credit/transitions.go:255-300 | once contradictory evidence is committed, nothing terminates the pay or clears the evidence until a consistent snapshot names the hash, across crashes and restarts |
| `CreditFundRuns.FundingIsExact` | credit/transitions.go:112-169 | a pay failed for a refused top-up has no transfer under its key even if an earlier reply was lost; every send carries the destination staged by a landed write; a bound transfer pays exactly that destination the admitted amount |
| `CreditPollRuns.CapBoundsPolls` | credit/op_actor.go:516-522 | for every cap and run, across restarts and ambiguous writes, the persisted counter is the number of committed polls of the state in 32 bits; with an effective cap N it is that number and never exceeds N |
| `CreditPollRuns.UndecidedPolls` | credit/transitions.go:177-202 | a reading that decides and contradicts nothing is one counted poll that parks in place, or fails for the cap; besides the counter only the error of the row changes |
| `CreditPollRuns.CapFiresAtN` | credit/op_actor.go:516-522 | with an effective cap N an undecided, uncontradicted poll fails the operation for its cap reason exactly when N polls are committed; the commit makes the row failed, and below N the row holds the same state with one more poll |
| `CreditPollRuns.UncappedPolls` | credit/op_actor.go:516-522 | with a cap of 0 or 2^32 - 1, for every k a run commits k more polls and is still in the same awaiting state |
| `CreditPollRuns.CapFiresExactly` | credit/op_actor.go:516-522 | from any resting state the committed polls are bounded over all runs if and only if 0 < N < 2^32 - 1; at 2^32 - 1 the counter wraps |
| `CreditPollRuns.CountedPayPoll` | credit/transitions.go:255-300 | a pay poll counts exactly when it does not contradict and no contradiction stands unanswered |
| `CreditPollRuns.ReceiveFailsOnlyByServer` | credit/transitions.go:306-392 | in every run a receive is failed only by what the server reported, never by a poll count |
| `CreditOutcomes.QuoteDecides` | credit/transitions.go:55-63 | a pay goes straight to paying without a top-up and to creating one with it, its terms untouched |
| `CreditOutcomes.TopupCreateDecides` | credit/transitions.go:71-103 | a top-up is created under the operation key for the top-up amount; by the reply it is staged with the server id and destination, failed for its exact reason, or retried |
| `CreditOutcomes.SendAccepted` | credit/transitions.go:134-169 | an accepted send leaves the row the session bound to its key, the earlier one if the key was bound before |
| `CreditOutcomes.LostSendMayBind` | credit/transitions.go:134-169 | a send whose reply was lost binds its key at most to this very transfer and never over an earlier one |
| `CreditOutcomes.SendRefused` | credit/transitions.go:112-169 | a send error is retried unless its code is one of the three admission refusals; then a bound transfer is taken over, none fails the pay, and an unanswered probe retries |
| `CreditOutcomes.TopupReadingDecides` | credit/transitions.go:177-202 | the first ledger operation with the server id: credited goes on to paying, ended fails with that state |
| `CreditOutcomes.StartDecides` | credit/transitions.go:212-248 | the pay is started with its invoice, fee limit and credit limit; accepted, it waits for settlement exactly if it is credit-only and has a hash, and completes otherwise |
| `CreditOutcomes.DebitCompletes` | credit/transitions.go:255-300 | a first operation under the hash that is debited, above zero and within the cap leaves the row completed without an error |
| `CreditOutcomes.EndedFailsPay` | credit/transitions.go:255-300 | a first operation under the hash that ended leaves the row failed with that state, whatever its amount |
| `CreditOutcomes.ContradictionIsRecorded` | credit/transitions.go:780-812 | an amount above the cap, or none where one is held, is recorded by name and nothing else changes: the pay stays open and no poll is counted |
| `CreditOutcomes.UnseenKeepsContradiction` | credit/transitions.go:255-300 | a ledger without the hash leaves a standing contradiction and the row exactly as they are |
| `CreditOutcomes.ReceiveCreateDecides` | credit/transitions.go:306-344 | a receive is created under its key for its amount; the invoice and hash of the reply become its terms, and each refusal has its outcome |
| `CreditOutcomes.ReceiveReadingDecides` | credit/transitions.go:355-392 | the first ledger operation with the server id: credited completes the receive, ended fails it with that state, any other leaves the row as it is |
| `CreditOutcomes.ReceiveUnlistedWaits` | credit/transitions.go:355-392 | a receive the ledger does not list stays as it is |
| `CreditOutcomes.SettledReceiveTriggers` | credit/transitions.go:379-392 | a credited receive asks for a redemption of exactly what the watermark clears on the ledger it read |
| `CreditOutcomes.ReserveDecides` | credit/transitions.go:401-425 | a destination is allocated once, staged with its script, and reused when the row has both |
| `CreditOutcomes.SubmitDecides` | credit/transitions.go:434-464 | the redemption is asked for under its key, amount and destination; by the reply it waits with the server id, fails for its exact reason, or is retried |
| `CreditOutcomes.EndedFailsRedeem` | credit/transitions.go:470-529 | a redemption the server ended fails with that state before any payout is looked for |
| `CreditOutcomes.PayoutCompletes` | credit/transitions.go:470-529 | a payout found above zero completes the redemption and its amount is what is recorded |
| `CreditOutcomes.UnreadFaults` | credit/transitions.go:355-365 | a ledger that cannot be read, in any awaiting state, changes no row and retries |
| `CreditOutcomes.RepairDecides` | credit/registry.go:644-790 | the row a boot repair leaves, for every server state and whether or not the key was taken meanwhile |
| `CreditOutcomes.AmbiguousCommitResumes` | credit/op_actor.go:276-324 | after a commit that reported failure the next delivery resumes from what is durable: the new operation if the write landed, the old one if it was lost |
| `CreditCauses.FailsOnlyForCause` | credit/transitions.go:71-529 | in every run a failed row carries a reason of its kind; an ended top-up, receive or pay is one that some logged ledger read shows first under its server id or hash in that state, and a poll cap fired only after more reads than it allows |
| `CreditCauses.ReceiveCompletesOnlyWhenCredited` | credit/transitions.go:355-392 | in every run a receive is completed only if some logged ledger read shows the first operation with its server id credited |
| `CreditCauses.CauseRun` | credit/op_actor.go:276-324 | the causes behind row and memory hold in every run, whatever is lost or redelivered |
| `CreditOpActor.World.Write` | credit/op_actor.go:504-510 | a durable write may report failure whether or not it landed; what landed is logged and counted |
| `CreditOpActor.OpBehavior.constructor` | credit/op_actor.go:242-271 | a child built from a pending row is in the state the machine spawns |
| `CreditOpActor.OpBehavior.Apply` | credit/op_actor.go:455-482 | applying one transition is one driven step of the machine, staging included |
| `CreditOpActor.OpBehavior.RunFSM` | credit/op_actor.go:440-485 | the loop terminates and is a run of the machine ending ready to commit or faulted; it parks only in awaiting states, and what it asks to be redeemed is what the last step asked for |
| `CreditOpActor.OpBehavior.FailCorruptRow` | credit/op_actor.go:374-388 | mirrors the failure of an unknown state onto the record |
| `CreditOpActor.OpBehavior.CommitAck` | credit/op_actor.go:541-559 | the commit is the machine's commit step; success means the row holds the memory |
| `CreditOpActor.OpBehavior.DispatchTurn` | credit/op_actor.go:331-366 | fails a corrupt row, leaves a terminal one, drives any other, as the machine dispatches |
| `CreditOpActor.OpBehavior.Receive` | credit/op_actor.go:276-324 | a whole turn, whatever fails in it, is a run of the machine from the state before it |
| `CreditRegistry.BuildRow` | credit/op_actor.go:394-436 | a request becomes a pending row in the initial state of its kind carrying exactly the requested terms |
| `CreditRegistry.ChildWritesAllowed` | credit/op_actor.go:563-580 | every write of a running child, over a healthy row or a corrupt one, keeps identity, terminal status and pay authority |
| `CreditRegistry.RepairMatchesMachine` | credit/registry.go:644-728 | the registry's boot repair writes what the machine's repair event writes |
| `CreditRegistry.KeysStayUnique` | credit/registry.go:334-422 | after any history of admissions, child writes and repairs at most one non-failed row exists per key |
| `CreditRegistry.AuthorityIsFixed` | credit/registry.go:984-1003 | no history changes the identity, terms or credit-only flag of a pay row |
| `CreditRegistry.OneRedeemPending` | credit/registry.go:858-928 | if redeems come only through ConsiderRedeem, at most one is pending at any point of any history |
| `CreditRegistry.Registry.Lookup` | db/credit_operation_store.go:239-270 | finds an owning row exactly when the key is non-empty and owned |
| `CreditRegistry.Registry.Upsert` | db/credit_operation_store.go:159-205 | the partial unique index rejects a second non-failed row for a key and leaves the table alone |
| `CreditRegistry.Registry.EnsureChild` | credit/registry.go:509-538 | spawns a child exactly for a pending row that decodes |
| `CreditRegistry.Registry.Reap` | credit/registry.go:306-327 | drops a child only when its row is gone or terminal |
| `CreditRegistry.Registry.WriteFresh` | credit/registry.go:334-422 | the first write of an admitted row succeeds exactly for an unowned key, keeps keys unique and spawns the child |
| `CreditRegistry.Registry.AnswerReplay` | credit/registry.go:351-386 | a replayed pay is refused unless the row grants exactly what it asks; any other replay gets the row's invoice and hash and a resident child |
| `CreditRegistry.Registry.Admission` | credit/registry.go:334-422 | a replay is answered by the owning row and, for a pay, only with identical terms and credit-only flag; a fresh row carries exactly the requested terms and, for a receive, the invoice, hash and id of the reply, and is written exactly for an unowned key and a usable reply; an empty owned key is refused; the children resident afterwards |
| `CreditRegistry.Registry.ConsiderRedeem` | credit/registry.go:858-928 | admits one redeem of the whole available balance under the new key when no row is a pending pay or redeem, and none otherwise |
| `CreditRegistry.Registry.RepairOne` | credit/registry.go:644-728 | one candidate: the row becomes what the server reports, or superseded if another row owns its key; a failure report needs no lookup |
| `CreditRegistry.Registry.RepairLegacy` | credit/registry.go:568-734 | whatever the order of candidates and whichever lookups and writes fail, only exact legacy failures change and keys stay unique; one handled without an error carries its repair and stays failed against a live server state only if its key is owned |
| `CreditRegistry.Registry.RestoreChildren` | credit/registry.go:541-562 | afterwards every pending row that reads and decodes has a resident child |
| `LifecycleWatch.DepthTestMeans` | chainsource/conf_actor.go:455-478 | on real heights the 32-bit depth test means tip >= height + depth - 1, for every depth below 2^31 |
| `LifecycleWatch.PassedMeansDeep` | chainsource/conf_actor.go:455-478 | over every uint32 height and depth, a tip that passes the test is really depth - 1 above the height if and only if it is non-negative, the depth is below 2^31 and the height below 2^31 + 2 |
| `LifecycleWatch.DepthTestExact` | chainsource/conf_actor.go:455-478 | no non-negative tip passes early if and only if the depth is below 2^31 and the height below 2^31 + 2, over all uint32 heights and depths |
| `LifecycleRuns.OrderNext` | chainsource/conf_actor.go:292-343 | every event keeps the queues stamped and the view the one set by the highest sequence taken |
| `LifecycleRuns.ViewIsNewest` | chainsource/conf_actor.go:292-343 | for any order of draining the two channels the view is the highest sequence consumed, and once both are empty the forwarder's last event |
| `LifecycleRuns.DeliveriesInOrder` | chainsource/conf_actor.go:403-426 | deliveries report forwarded signals in forwarder order without repeats; Done comes at most once, last, and ends the watch |
| `LifecycleRuns.DoneNamesStandingPositive` | chainsource/conf_actor.go:512-550 | a delivered Done names the newest positive, not reorged since; a synthesized one came from a tip at least depth - 1 above it if and only if that tip is non-negative and height and depth survive their casts |
| `LifecycleRuns.EarlyDone` | chainsource/conf_actor.go:771-771 | for every height and depth out of that range, a run that finalizes on a non-negative tip below height + depth - 1 |
| `LifecycleRuns.NegativeTipFinalizes` | chainsource/conf_actor.go:455-478 | a run that finalizes a positive at height 2 on a negative tip |
| `LifecycleRuns.LatestIsNewest` | chainsource/conf_actor.go:586-604 | draining a stream yields its newest epoch |
| `LifecycleRuns.FinalizingTip` | chainsource/conf_actor.go:430-462 | the tip that finalizes was read by the armer just taken or is the newest epoch of a stream still open; a closed buffer never finalizes |
| `LifecycleRuns.FinalityIsOwned` | chainsource/conf_actor.go:554-652 | a live watch never holds two armers or an armer and a stream; a standing positive at a nonzero height has one of them; every registration is held once or cancelled, all of them after exit |
| `LifecycleRuns.CloseStrands` | chainsource/conf_actor.go:554-575 | a watch counting from height zero is stranded by the next stream close |
| `LifecycleRuns.ZeroHeightStrands` | chainsource/conf_actor.go:430-437 | a concrete run in which a positive at height zero is stranded, for every reorg-aware configuration with a depth |
| `LifecycleReports.DeliveriesAreComplete` | chainsource/conf_actor.go:294-426 | under any schedule the reports delivered are exactly those owed for the signals taken: each signal newer than all before it, once, in order, reorgs only to a caller that wants them |
| `LifecycleReports.BackendDoneIsDelivered` | chainsource/conf_actor.go:421-426 | a backend Done taken while the positive stands is delivered to a caller that wants it and ends the watch; taken before one it is kept and nothing is delivered |
| `LifecycleReports.KeptDoneIsReleased` | chainsource/conf_actor.go:294-349 | a kept Done is delivered behind the next positive, and the watch ends |
| `LifecycleReports.ReorgDropsKeptDone` | chainsource/conf_actor.go:403-419 | a fresh reorg forgets the positive, its height and a kept Done |
| `LifecycleReports.ArmedTipDecides` | chainsource/conf_actor.go:365-401 | the tip an armer read finalizes exactly when it is deep enough over a standing height; otherwise the registration is held |
| `LifecycleReports.NewestEpochDecides` | chainsource/conf_actor.go:430-499 | of what a live stream buffered the newest epoch, and only it, decides finality |
| `LifecycleReports.EndsExactly` | chainsource/conf_actor.go:294-508 | in every run a live watch ends on an event if and only if one of the listed reasons holds |
| `LifecycleReports.FreshPositiveArms` | chainsource/conf_actor.go:350-363 | a fresh positive of a watch with a depth launches an armer exactly when none is on its way and no stream is held |
| `LifecycleReports.ClosedStreamIsReplaced` | chainsource/conf_actor.go:554-575 | a stream that closed is cancelled, and a standing height gets an armer for a new one |
| `LifecycleReports.LostArmerIsReplaced` | chainsource/conf_actor.go:365-379 | an armer that gave up makes room for the one a fresh positive launches |
| `LifecycleReports.DoneFollowsPositive` | chainbackends/lnd.go:435-488 | in every history a Done in the channel is the forwarder's last word and follows a positive |
| `LifecycleReports.DoneIsForwarded` | chainbackends/lnd.go:435-488 | a backend Done leaves at once behind a standing positive and otherwise behind the next one |
| `LifecycleReports.ReorgDropsDeferredDone` | chainbackends/lnd.go:461-471 | after a reorg the next positive does not bring a deferred Done back |
| `LifecycleActor.PositiveDoneOrder.ObservePositive` | chainsource/lifecycle_order.go:14-20 | records the positive and releases a pending done |
| `LifecycleActor.PositiveDoneOrder.ObserveReorg` | chainsource/lifecycle_order.go:22-28 | forgets the positive and any pending done |
| `LifecycleActor.PositiveDoneOrder.ObserveDone` | chainsource/lifecycle_order.go:30-38 | releases at once after a positive, else remembers |
| `LifecycleActor.SignalForwarder.StampPositive` | chainbackends/lnd.go:435-459 | stamps the next sequence; a deferred done may follow |
| `LifecycleActor.SignalForwarder.StampReorg` | chainbackends/lnd.go:461-471 | stamps the next sequence on a reorg and forgets the positive |
| `LifecycleActor.SignalForwarder.SeeDone` | chainbackends/lnd.go:473-488 | passes a done on after a standing positive and remembers it otherwise |
| `LifecycleActor.Watch.constructor` | chainsource/conf_actor.go:244-292 | a fresh registration is the initial state of the machine |
| `LifecycleActor.Watch.TakePositive` | chainsource/spend_actor.go:281-336 | the positive arm is the machine's event: the queue, the filter by sequence, deliveries, cancels and the armer launched |
| `LifecycleActor.Watch.TakeReorg` | chainsource/spend_actor.go:376-399 | the reorg arm is the machine's event |
| `LifecycleActor.Watch.TakeDone` | chainsource/conf_actor.go:421-426 | the done arm is the machine's event |
| `LifecycleActor.Watch.TakeArmed` | chainsource/conf_actor.go:365-401 | the hand-off arm is the machine's event, for a registration or for an armer that gave up |
| `LifecycleActor.Watch.TakeEpochs` | chainsource/conf_actor.go:428-499 | the epoch arm is the machine's event, nil epochs and closed buffers included |
| `LifecycleActor.Watch.TakeCtx` | chainsource/conf_actor.go:501-506 | the cancellation arm is the machine's event |
| `LifecycleActor.Watch.RearmAfterClose` | chainsource/conf_actor.go:554-575 | after a close the old stream is cancelled and an armer launched exactly for a standing height |
| `LifecycleActor.Watch.EvaluateTip` | chainsource/conf_actor.go:455-499 | finality against one tip takes exactly the specified turn |
| `LifecycleActor.Watch.DrainToLatest` | chainsource/conf_actor.go:586-604 | the drain loop returns the newest epoch of the queue |
| `LifecycleActor.Watch.ForwardPositive` | chainbackends/lnd.go:435-459 | forwarding a positive is the machine's event |
| `LifecycleActor.Watch.ForwardReorg` | chainbackends/lnd.go:461-471 | forwarding a reorg is the machine's event |
| `LifecycleActor.Watch.ForwardDone` | chainbackends/lnd.go:473-488 | seeing a done is the machine's event |
| `LifecycleActor.Watch.ForwardFinish` | chainbackends/lnd.go:450-456 | the deferred done leaves and the forwarder returns |
| `LifecycleActor.Watch.ArmerObtains` | chainsource/conf_actor.go:615-644 | an armer that registered holds what it got |
| `LifecycleActor.Watch.ArmerQuits` | chainsource/conf_actor.go:640-652 | an armer whose hand-off lost to the end of the watch cancels what it got |
| `LifecycleActor.Watch.Step` | chainsource/conf_actor.go:291-508 | any step of the loop or of a goroutine around it is one event of the machine |
| `LifecycleActor.Watch.Select` | chainsource/conf_actor.go:291-508 | the loop under any schedule is a run of the machine |
| `LifecycleActor.Monitor` | chainsource/conf_actor.go:244-508 | a watch from registration on, under any schedule: what it delivers is exactly what the signals taken call for, its view is the newest of them, Done is last, finality is owned and no registration is leaked |
| `BlockEpochHub.StructureNext` | chainbackends/block_epoch_hub.go:268-414 | every mutex-held section keeps one upstream, matching membership, and channels closed at most once and never sent to after |
| `BlockEpochHubRuns.InvRun` | chainbackends/block_epoch_hub.go:268-591 | the structure and the window invariant hold in every interleaving |
| `BlockEpochHubRuns.OneSharedUpstream` | chainbackends/block_epoch_hub.go:268-368 | in every interleaving at most one upstream exists, opening or installed; no channel operation panics; each channel is closed at most once |
| `BlockEpochHubRuns.ClosedIsFinal` | chainbackends/block_epoch_hub.go:399-414 | whatever follows a close, the channel stays closed, closed once, and receives nothing more |
| `BlockEpochHubRuns.JoinsAtTip` | chainbackends/block_epoch_hub.go:373-394 | a registration is admitted only before a stop, and starts with exactly the cached tip of its generation |
| `BlockEpochHubRuns.QueueIsWindow` | chainbackends/block_epoch_hub.go:539-568 | for any steps before and after a join, everything queued is one contiguous stretch of the generation's published epochs starting at the tip of the join, complete while open |
| `BlockEpochHubRuns.ReconnectResumesFromLast` | chainbackends/block_epoch_hub.go:485-533 | a reconnect that happens, in any interleaving, asks for the stream from the newest epoch its generation has published; so did every one before it |
| `BlockEpochHubRuns.StopIsFinal` | chainbackends/block_epoch_hub.go:669-678 | once stop has returned every registration is closed, none is ever admitted, and no upstream opens |
| `BlockEpochHubSteps.PublishReaches` | chainbackends/block_epoch_hub.go:539-568 | an epoch is queued for each registration of the generation with fewer unread epochs than the queue holds, and closes once and drops one whose queue is full, keeping what it has queued |
| `BlockEpochHubSteps.PublishSpares` | chainbackends/block_epoch_hub.go:539-568 | a publish leaves every other registration as it is |
| `BlockEpochHubSteps.PublishCancels` | chainbackends/block_epoch_hub.go:539-568 | a publish cancels its generation exactly if every queue was full |
| `BlockEpochHubSteps.ClosedOnlyBy` | chainbackends/block_epoch_hub.go:399-591 | in every interleaving a registration is closed only by its own cancel, by the end of its generation, or by a publish that found its queue full |
| `BlockEpochHubSteps.CancelDecides` | chainbackends/block_epoch_hub.go:399-414 | a cancel closes its registration and no other, and cancels the generation exactly if no other is left |
| `BlockEpochHubSteps.EndDecides` | chainbackends/block_epoch_hub.go:573-591 | the end of a generation closes what is left of it with what it has queued and lets a new one open |
| `BlockEpochHubSteps.DrainTakes` | chainbackends/block_epoch_hub.go:373-394 | a receive takes exactly the oldest unread epoch and touches nothing else |
| `BlockEpochHubSteps.RegisterJoins` | chainbackends/block_epoch_hub.go:268-316 | a registration joins exactly an upstream that is not on its way out, and never a stopped hub |
| `BlockEpochHubSteps.RegisterOpens` | chainbackends/block_epoch_hub.go:268-316 | an open is launched exactly when there is neither an upstream nor an open, and the hub is not stopped |
| `BlockEpochHubSteps.ResolveDecides` | chainbackends/block_epoch_hub.go:320-368 | an open that resolves installs its generation with the waiting registration exactly if it succeeded and no stop came first |
| `BlockEpochHubSteps.StopAdmitsNone` | chainbackends/block_epoch_hub.go:669-672 | after the locked half of stop no step admits a registration or installs an upstream |
| `BlockEpochHubSteps.StopCancelsAll` | chainbackends/block_epoch_hub.go:674-678 | the other half sets every generation on its way out, and only stop takes it |
| `BlockEpochHubObject.OfferEach` | chainbackends/block_epoch_hub.go:539-568 | visiting registrations in any order sends to those with room and closes and drops the full ones |
| `BlockEpochHubObject.CloseEach` | chainbackends/block_epoch_hub.go:573-591 | visiting registrations in any order closes each once |
| `BlockEpochHubObject.EpochHub.constructor` | chainbackends/block_epoch_hub.go:245-264 | a new hub is the machine's initial state |
| `BlockEpochHubObject.EpochHub.AddSub` | chainbackends/block_epoch_hub.go:373-394 | adds a registration seeded with the cached tip |
| `BlockEpochHubObject.EpochHub.RegisterPass` | chainbackends/block_epoch_hub.go:268-316 | one pass of register is the machine's step and tells the caller to join, wait, open or give up exactly when it should |
| `BlockEpochHubObject.EpochHub.Resolve` | chainbackends/block_epoch_hub.go:320-368 | resolving an open is the machine's step; a stop wins over a stream that opened |
| `BlockEpochHubObject.EpochHub.RemoveSub` | chainbackends/block_epoch_hub.go:399-414 | cancelling is the machine's step; it reports that the generation is to be cancelled exactly if no registration is left |
| `BlockEpochHubObject.EpochHub.PublishEpoch` | chainbackends/block_epoch_hub.go:539-568 | the fan-out is the machine's step |
| `BlockEpochHubObject.EpochHub.AdvanceCursor` | chainbackends/block_epoch_hub.go:470-476 | after a publish the reader moves its cursor to that epoch |
| `BlockEpochHubObject.EpochHub.Reopen` | chainbackends/block_epoch_hub.go:485-533 | a reconnect opens from the cursor and is the machine's step |
| `BlockEpochHubObject.EpochHub.Receive` | chainbackends/block_epoch_hub.go:373-394 | a receiver gets the oldest epoch still queued |
| `BlockEpochHubObject.EpochHub.EndUpstream` | chainbackends/block_epoch_hub.go:573-591 | ending a generation is the machine's step and leaves it no open registration |
| `BlockEpochHubObject.EpochHub.MarkStop` | chainbackends/block_epoch_hub.go:669-672 | the first half of stop is the machine's step |
| `BlockEpochHubObject.EpochHub.CancelStreams` | chainbackends/block_epoch_hub.go:674-678 | the second half leaves every generation exiting |
| `DowntimeBudget.DownSinceAccounts` | chainsource/block_epoch_actor.go:400-531 | in every run downSince accounts exactly for the time without a stream since the last new block identity |
| `DowntimeBudget.FatalExactlyOnBudget` | chainsource/block_epoch_actor.go:328-336 | a step escalates if and only if it is a check, a hook is installed, the stream is down and the observed down time has reached the budget |
| `DowntimeBudget.FatalSpentBudget` | chainbackends/block_epoch_hub.go:485-533 | an escalated run contains a check made after a full budget of observed down time |
| `DowntimeBudget.ReplaysAndSilenceSpendNothing` | chainbackends/block_epoch_hub.go:427-478 | in any run, silence on an open stream and replays of the last tip leave downSince, openedAt and the last identity as they were |
| `DowntimeBudget.SilenceIsNotCharged` | chainbackends/block_epoch_hub.go:440-455 | when the stream is then lost, the budget stands exactly where it stood before, and a check escalates on that alone |
| `DowntimeBudget.BackoffDoubles` | chainsource/block_epoch_actor.go:374-385 | the delay is the capped double if and only if doubling cannot leave 64 bits |
| `DowntimeBudget.DelayAfterFailures` | chainsource/block_epoch_actor.go:433-478 | from the minimum delay, n failed attempts in a row double it n times up to the cap, in both loops |
| `DowntimeBudget.DelayStartsOver` | chainsource/block_epoch_actor.go:518-531 | the actor starts over at the minimum delay when a stream opens; the hub's reader doubles even then and starts over when an epoch arrives |
| `DowntimeBudget.StreamMonitor.constructor` | chainsource/block_epoch_actor.go:389-417 | monitoring starts with a healthy stream and an untouched budget |
| `DowntimeBudget.StreamMonitor.StreamLost` | chainsource/block_epoch_actor.go:484-516 | a lost stream stamps or credits downSince as the machine does |
| `DowntimeBudget.StreamMonitor.TryReconnect` | chainsource/block_epoch_actor.go:433-478 | one reconnect pass is a check, the wait and an attempt of the machine |
| `DowntimeBudget.StreamMonitor.EpochArrived` | chainsource/block_epoch_actor.go:518-531 | a new identity clears the budget and a replay does not |
| `TreePath.DataRoundTrips` | arkrpc/tree_path_convert.go:296-338 | a node's wire data decodes exactly when its output values are non-negative, and then to the same data |
| `TreePath.BudgetAmounts` | rpc/roundpb/convert.go:372-410 | two outputs and ten co-signers per admitted node, 5000 nodes by default, never past the largest integer |
| `TreePath.Child` | arkrpc/tree_path_convert.go:150-187 | a wired child lies strictly after its parent and inside the array |
| `TreePathShape.ShapeMeansOneTree` | arkrpc/tree_path_convert.go:123-187 | the shape checks accept exactly the arrays with forward edges on existing outputs in which every node has one and only one path from node 0 |
| `TreePathShape.WalkVisitsEachOnce` | arkrpc/ancestry_path_convert.go:163-190 | a recursive walk over an accepted array visits every node exactly once |
| `TreePathShape.OneParent` | arkrpc/tree_path_convert.go:150-170 | on an accepted array a node has a single parent edge |
| `TreePathRoundTrip.FlattenedAccepted` | arkrpc/tree_path_convert.go:88-205 | a flattened tree is accepted if and only if it has no nil child, children only on existing outputs, no negative value, and fits the three budgets |
| `TreePathRoundTrip.RoundTrip` | arkrpc/tree_path_convert.go:19-205 | rebuilding a flattened tree gives the same tree if it is well formed and is refused otherwise |
| `TreePathRoundTrip.ChildrenInOrder` | arkrpc/tree_path_convert.go:238-293 | the array is in pre-order: the subtrees of a node follow it one behind the other, in order of output index |
| `TreePathConvert.SortedKeys` | arkrpc/tree_path_convert.go:272-280 | the keys of a child map, each once, in increasing order |
| `TreePathConvert.Flattener.Flatten` | arkrpc/tree_path_convert.go:238-293 | the recursion appends exactly the pre-order array and reports the position the index map holds |
| `TreePathConvert.TreePathFromTree` | arkrpc/tree_path_convert.go:19-39 | the path of a tree is its pre-order array and batch fields; a missing tree has none |
| `TreePathConvert.CheckBudget` | arkrpc/tree_path_convert.go:209-234 | the running totals with early exit decide exactly whether the aggregate totals fit |
| `TreePathConvert.NodeFromProto` | arkrpc/tree_path_convert.go:296-338 | the conversion loops accept exactly the decodable nodes and decode them |
| `TreePathConvert.DecodeAll` | arkrpc/tree_path_convert.go:115-121 | all nodes are decoded, or some node is not decodable |
| `TreePathConvert.WireChildren` | arkrpc/tree_path_convert.go:150-170 | in any map order: every edge allowed and the claims extended, or an edge that is not allowed or a position claimed twice |
| `TreePathConvert.CountDecides` | arkrpc/tree_path_convert.go:181-187 | counting claims against nodes decides whether the claims form one tree |
| `TreePathConvert.WireAll` | arkrpc/tree_path_convert.go:150-187 | wiring succeeds if and only if the array forms one tree, whatever the map order |
| `TreePathConvert.DerefIsBuild` | arkrpc/tree_path_convert.go:170-205 | following pointers in the wired arena gives the specified tree |
| `TreePathConvert.TreePathToTree` | arkrpc/tree_path_convert.go:88-205 | the rebuild returns exactly the specified outcome |
| `AncestryDepth.NodeMaxDepth` | arkrpc/ancestry_path_convert.go:163-190 | in any child order the walk returns the true depth if it is at most 32 and an error otherwise, having visited each node once |
| `AncestryDepth.TreeMaxDepth` | arkrpc/ancestry_path_convert.go:152-158 | the depth of a tree is that of its root, 0 without one |
| `AncestryDepth.RebuiltWalkIsLinear` | arkrpc/ancestry_path_convert.go:163-190 | a walk over the tree rebuilt from an accepted array makes exactly as many visits as the array has nodes |
| `AncestryDepth.AncestryPathFromTree` | arkrpc/ancestry_path_convert.go:29-56 | succeeds if and only if there is a tree of height at most 32, and then claims its height |
| `AncestryDepth.ValidateAncestryPathDepth` | arkrpc/ancestry_path_convert.go:90-122 | accepts a claim if and only if it is within 1..32 and is the height of the tree, if there is one |
| `AncestryDepth.ClaimSurvives` | arkrpc/ancestry_path_convert.go:29-122 | for every well-formed tree that can be sent, the receiver rebuilds it and the sender's claim, and no other, is valid for it |
| `CoinSelect.SortSorts` | coinselect/selector.go:113-119 | sorting gives a descending permutation in which equal amounts keep their order |
| `CoinSelect.LargestDominate` | coinselect/selector.go:129-162 | no set of m coins is worth more than the m largest |
| `CoinSelect.SelectAll` | coinselect/selector.go:169-183 | a sweep returns every candidate with the 64-bit total |
| `CoinSelect.LargestFirst` | coinselect/selector.go:98-165 | the loop returns exactly the specified outcome in 64-bit arithmetic |
| `CoinSelect.SelectionIsMinimal` | coinselect/selector.go:129-150 | a selection covers the target with correct total and change, and no smaller set of candidates reaches the target plus the floor |
| `CoinSelect.ShortfallExactly` | coinselect/selector.go:160-165 | shortfall is returned if and only if all candidates together miss the target |
| `CoinSelect.ChangeBelowMinExactly` | coinselect/selector.go:146-162 | the change error is returned exactly when all candidates cover the target but not the floor and no prefix fits exactly; then no set of candidates clears the floor |
| `CoinSelectInt64.Int64IsExactWhenTotalFits` | coinselect/selector.go:129-165 | on non-negative amounts the 64-bit selection is the exact one if and only if a sum over the candidates fits 64 bits: all of them for a sweep, the largest-first prefix it ends on for a bounded request |
| `CoinSelectInt64.OverflowReportsShortfall` | coinselect/selector.go:129-165 | two coins that cover the target and are reported as a shortfall because their sum wraps |
| `AncestryCodec.EncodeDecodes` | db/ancestry_codec.go:434-489 | a slice survives its column if and only if its length fits 32 bits |
| `AncestryCodec.DecodeEncodes` | db/ancestry_codec.go:434-489 | non-empty bytes that decode are exactly the encoding of what they decode to |
| `AncestryCodec.ColumnIsBigEndian` | db/ancestry_codec.go:434-452 | the count and each element are four bytes, most significant first, the count in front |
| `AncestryCodec.EncodeUint32SliceBE` | db/ancestry_codec.go:434-452 | the byte writes produce exactly the specified column |
| `AncestryCodec.DecodeUint32SliceBE` | db/ancestry_codec.go:457-489 | the reads accept exactly the specified columns |
| `AncestryStore.TreeCache.GetOrDecode` | db/ancestry_codec.go:100-127 | under collision-free hashing and any evictions a path decodes to what it decodes to without the cache |
| `AncestryStore.TreeCache.RowToDomain` | db/ancestry_codec.go:394-429 | a row decodes through the cache as it does without it |
| `AncestryStore.TreeCache.Load` | db/ancestry_codec.go:313-343 | loading rows through the cache equals loading them without it |
| `AncestryStore.TreeCache.Group` | db/ancestry_codec.go:362-390 | a successful grouping gives each outpoint exactly what its own load gives; it fails exactly when some row does not decode |
| `AncestryStore.SerializeFragment` | db/ancestry_codec.go:234-262 | a fragment's stored bytes and identity, or the failure of either serialization |
| `AncestryStore.Validate` | db/ancestry_codec.go:230-262 | accepts exactly the fragments that all serialize and are pairwise distinct |
| `AncestryStore.Table.Replace` | db/ancestry_codec.go:216-296 | succeeds exactly on at most 64 serializable, distinct fragments when no database call fails; a rejected validation leaves every row as it was |
| `AncestryStore.Table.Upsert` | db/ancestry_codec.go:216-296 | in its transaction the write replaces the outpoint's rows or, on any validation or database error, changes nothing |
| `AncestryStore.WriteThenLoad` | db/ancestry_codec.go:216-343 | after an accepted write the outpoint loads back every fragment in order, from rows numbered from 0, with its own fields and tree under its own policy or else the tree's; every other outpoint loads as before |
| `AncestryStore.DuplicatesAreRefused` | db/ancestry_codec.go:234-262 | under a collision-free fragment hash two fragments are duplicates exactly if commitment and tree without policy agree |

## Left out

- Dedicated block streams (`registerDedicated`): one stream per caller with no sharing, so they only add easy members.
- Waiting itself: `register` blocking on a reader or an open, `stop` blocking on the wait group, and liveness of any kind; the model says what each section does and what holds when a wait is over.
- Signals stamped with sequence 0: unstamped backends promise no order between the two channels, so the order theorems are about stamped ones.
- LifecycleActor.Watch.TakePositive: a registration channel that closes or yields a missing detail ends the watch with an error, which is modelled as an exit without the error value.
- The actor framework, leases, dead letters, timers, metrics and logging: only "redelivered until committed" is kept.
- How a failed ledger read is redelivered (`postponeListCreditsFetch`, `transientLedgerReadError`): postponed or retried, it is a returned error, which is one step of the model.
- Redeem exclusivity for a redeem request sent straight to the registry: `admit` does not apply the interlock, so `CreditRegistry.OneRedeemPending` is about redeems that come through ConsiderRedeem.
- SnapshotCodec.SnapshotRoundTrips: lengths are below 2^64, as every slice length is.
- TreePath.Child: node positions are unbounded integers; arrays of 2^32 or more nodes, whose positions the source truncates to 32 bits, are not modelled.
- Nil entries in a wire path's node array: no decoder produces them.
- The index map of the flattening is keyed by node identity; a value has no identity, so the map is replaced by the position the recursion returns.
- CoinSelect.SortSorts: the library's stable sort is modelled by its result, not by its in-place algorithm.
- AncestryStore.Table.Upsert: the surrounding transaction is modelled by its rollback; what else it wrote is not.
- AncestryStore.TreeCache.GetOrDecode: the recency order of the cache is not modelled; any entries may be gone at any use, which covers it.
- DowntimeBudget.StreamMonitor.TryReconnect: the jitter of the budget and the sleep itself; the budget is a constant of the run and time passes by any amount.
- Forwarding an epoch to its consumer in `monitorBlocks` and the fatal hook's own effect.
- Server, daemon, lnd, SQL and gRPC: environment only, as described above.
- `db/activity_store.go`, generated protobuf code, fee estimation, configuration and wallet wiring: I/O or thin wrappers.
