# Digital Objects driver: models and proofs

This project models the parts of the Digital Objects repository where state is
hard to keep right, and proves what they promise on all inputs and over all
runs.

- **The transaction lifecycle of the driver** (`Lifecycle`, `LifecycleSafety`,
  `LifecycleTheorems`): prove, record, submit, settle, prune and delete as the
  small steps they take between releases of the store lock, interleaved with
  each other, with crashes and with a growing chain that may include a posted
  payload in any block, any number of times. `Holds` is the in-memory hold table
  itself. A run is a sequence of states from the empty one; the theorems speak
  of every state of every run.
- **The object store on disk** (`Naming`, `ObjectStore`, `StoreMoves`,
  `StoreTheorems`; `Reconcile`, `Settlement`, `ChainSync`, `Recording`,
  `StoreSteps`, `StoreDriver`). `StoreMoves` is a state machine of single file
  operations on live and nullified objects, records, temporary records and
  payloads, each guarded by what the code has checked when it makes it;
  `StoreTheorems` proves what holds over every run of it from the empty store,
  which may stop between any two operations. `StoreDriver` has the driver's
  operations as methods: record, delete, mark, submit, settle, prune, rename and
  import. The store carries its history, and each method is proved to extend it
  by moves of the machine, so the theorems are about runs of the operations. A
  write or a removal may fail with or without effect; a rename takes effect or
  fails. `faults` counts the failures, so that contracts can say what happens when
  there are none. `Progress` describes every point a reconciliation can stop at
  relative to the store it started from, and `Done` its end.
- **Both together** (`Joint`): the lifecycle and the store share their records, so
  what the chain decides and what becomes of the files fit.
- **The in-memory DON ledger** (`ChainRules`, `Ledger`): acceptance rules and the
  redundant indexes. The chain of the lifecycle uses the same rules.
- **Feasibility of an action** (`Feasibility`), **predicate analysis** (`Inlining`,
  `StateChain`, `GraphView`), **codecs** (`Bytes`, `Blob`, `PayloadCodec`), the
  **binary swap** (`BinarySwap`) and the **command store** (`CommandStore`). `Text`
  has the string operations these share, `Filters` and `Runs` what it means to keep
  elements of a list or runs of a text. `Chains` shows that the ledger and the chain
  of the lifecycle agree.

Inputs that come from outside are parameters: the chain's answers, the clock,
which file operations fail, whether a hold exists. Hashes are opaque values that
determine what they are hashes of; an object is its class prefix with the 16
leading hex digits of its stable identifier and commitment, which its generated
name spells out. Outputs of a transaction are new objects, unlike each other, and
each is the new version of one input at most; what it spends was a live input when
it was proved, from a file of another transaction. File systems are case-sensitive
and every stored file parses.

## Where the code does not keep what is said of it

- A rejection is called final where settlement relies on it
  (libs/driver/src/pipeline.rs:621-622). `RejectionFinalIff` gives the exact
  condition: the root was known or the lists clash. Records are grounded on known
  roots, so `ExpiryIsSound` holds without further assumption.
- An object is not always in exactly one file. From the write that files it as
  spent until its live file is removed it is in two, and stays so when the driver
  stops in between or the removal fails. Under a custom name the store still
  loads, and lists the object twice; under the generated name, where the failure
  is not even reported (libs/driver/src/object_store.rs:239-250), every later scan
  fails: `RunIsOrdered`, `StrandedOnlyBySpending`, `StrandedFileBlocksLoading`.
  Reconciling the record that spends it repairs it as long as the record still
  names the live file (`StoppedRunsConverge`, `RerunsConverge`, `PlanStillNamed`, and
  for pruning and settling the contracts of `PruneTransactions` and `SettleFiles`).
  After a
  failure that was not reported, pruning takes the record as reconciled, visits it
  again only when it is due, and then removes it; from then on no reconciliation
  reaches the file (`StrandedStays`).
- A nullified object does not always stay nullified: giving a landed record's
  output its status or its transaction hash, while it is in both directories under
  one name, removes the nullified copy. `NullifiedUnlessTakenBack` says that this is
  the only way, `TakenBackIff` exactly when it is possible, and
  `NullifiedCanBeTakenBack` has the run: the chain reports an output before its
  transaction is settled, a second transaction spends it and lands with the removal
  failing, then the first lands. The object itself is not lost. For the same reason
  reconciling such a record need not converge: `StrandedOutputDiverges`; in every
  other case it does, `ConvergesIff`.
- Deleting a transaction removes its outputs before its record. If it stops in
  between, the record can still be submitted and land, with its output files gone:
  `DeletedOutputCanLand`. `AppliedOutputsAreKept` and `ExpiredOutputsNeverLand` say
  what does hold of outputs.
- The feasibility report can miss a way of filling the slots when one object is
  in two files of different kinds: `TwoKindsMislead`. Only a file edited by hand gets
  there: the driver never gives an object two live files, so for its own stores the
  report is exact, `StoreReportIsExact`.
- An entry of a parameter bound to anything but a wildcard is inlined as an entry
  of the caller's wildcard of the same index, and a predicate that is itself a
  wildcard is left to be read in the caller: `SubstituteArgExact`,
  `SubstituteStatementExact`.
- Statements are found by value at their last position, so rewrites can lead back
  to where they came from, and resolving them does not end: `LaterCopiesLoop`,
  `UnchangedRewriteLoops`; `EndsUnlessLooped` gives the exact condition, and
  `DrawableIff` that of drawing a graph, under which the graph theorems are stated.
- A payload consisting of its two magic bytes alone makes the reader index past
  the end instead of returning an error: `PanicsIff`.
- Removing a newly installed binary is not checked on rollback, so without a
  previous binary the new one can stay: `RollbackEntry` states exactly when.

## Model

| member | source | states |
|---|---|---|
| ChainRules.NoClashIff | libs/driver/src/mock_don.rs:169-186 | walking a list with a growing seen-set finds no clash exactly when it has no duplicates and is disjoint from the known set |
| ChainRules.AcceptedIff | libs/driver/src/mock_don.rs:158-188 | a payload is accepted exactly when root, age, creation and nullifier rules all hold, whatever the order of the checks |
| ChainRules.RejectionMeans | libs/driver/src/mock_don.rs:158-188 | what each reason means by itself: an unknown root, a root more than 50400 blocks behind, or a first offending element that repeats an earlier one or is known, nullifiers only after created objects |
| ChainRules.RejectionIsFinal | libs/driver/src/mock_don.rs:158-188 | a rejection under a known root, or for clashing lists, stays a rejection in every longer chain |
| ChainRules.RejectionFinalIff | libs/driver/src/pipeline.rs:621-658 | a rejection is final if and only if the root was known or the lists clash; a payload rejected for an unknown root alone can be accepted one block later |
| Ledger.FindClash | libs/driver/src/mock_don.rs:169-186 | the checking loop computes the first clash |
| Ledger.MockDon.constructor | libs/driver/src/mock_don.rs:111-139 | genesis: consistent indexes, head at block 1 |
| Ledger.MockDon.RecordHead | libs/driver/src/mock_don.rs:141-155 | completes the derived states: with all earlier blocks' there and the other indexes in agreement, every index of the chain agrees afterwards |
| Ledger.MockDon.Reject | libs/driver/src/mock_don.rs:158-188 | reads the state only and returns what the acceptance rules say |
| Ledger.MockDon.AppendCreated | libs/driver/src/mock_don.rs:191-196 | commitments are appended in order and indexed by position |
| Ledger.MockDon.SpendNullifiers | libs/driver/src/mock_don.rs:197-200 | the nullifier set and its hash set grow together |
| Ledger.MockDon.Apply | libs/driver/src/mock_don.rs:190-216 | the new state is the specified one and every redundant index still agrees with what it indexes |
| Ledger.MockDon.Process | libs/driver/src/mock_don.rs:224-253 | an unseen payload gets a status free of error if and only if the rules accept it, and then a block of its own; a new job has its txFinal and root, and nothing else changes |
| Ledger.MockDon.Submit | libs/driver/src/mock_don.rs:218-253 | unreadable bytes change nothing, a known txFinal answers its first job and changes nothing, anything else is processed so |
| Ledger.MockDon.GroundingWitness | libs/driver/src/mock_don.rs:267-286 | fails exactly when some commitment is not created; otherwise names each one at its array position under the head |
| Ledger.RunConsistent | libs/driver/src/mock_don.rs:111-253 | in every reachable state the created index is a bijection onto array positions, the history holds exactly the non-head roots in block order, and derived states cover exactly blocks 1 to head |
| Ledger.RunConserves | libs/driver/src/mock_don.rs:190-253 | the created array and the nullifier set of every run are exactly those of the applied payloads, in order |
| Ledger.AppliedDisjoint | libs/driver/src/mock_don.rs:158-253 | any two applied payloads of a run have disjoint created sets and disjoint nullifier sets |
| Ledger.AppliedWellFormed | libs/driver/src/mock_don.rs:158-253 | no applied payload repeats a commitment or a nullifier |
| Ledger.ResubmissionIsIdempotent | libs/driver/src/mock_don.rs:221-223 | resubmitting a txFinal after any further requests changes nothing and answers the first job |
| Ledger.JobsOneToOne | libs/driver/src/mock_don.rs:229-253 | in every reachable state job ids and txFinals correspond one to one |
| Ledger.StatusIsFirstVerdict | libs/driver/src/mock_don.rs:218-253 | over every run exactly the txFinals received have a status, and it is the verdict on the first payload with it in the state that payload met |
| Ledger.StatusIffApplied | libs/driver/src/mock_don.rs:224-241 | over every run a status is free of error if and only if a payload with that txFinal was applied |
| Chains.ChainsAgree | libs/driver/src/mock_don.rs:190-253 | the chain of the lifecycle, with a block for each payload applied, has the same head, roots, objects and nullifiers over every run, and counts exactly the applied ones as applied |
| Ledger.RunExtends | libs/driver/src/mock_don.rs:190-253 | every run only extends what the rules look at |
| Ledger.RejectedForever | libs/driver/src/mock_don.rs:158-216 | a payload rejected under a known root is rejected in every state reachable by further requests |
| Holds.HoldTable.Take | libs/driver/src/holds.rs:41-67 | all files or none: taken exactly when none is held or locked, otherwise the table is unchanged and the refusal names a file that is |
| Holds.HoldTable.Release | libs/driver/src/holds.rs:29-36 | exactly the holder's files are released |
| Holds.HoldTable.TakeAndRelease | libs/driver/src/holds.rs:29-67 | dropping what was taken gives the table back as it was |
| Lifecycle.SettleLoop | libs/driver/src/pipeline.rs:600-658 | an open queried record lands if and only if its status is applied, and expires if and only if it is rejected, or not seen with the head more than 50400 blocks past its grounding; one offered after the statuses were read waits |
| LifecycleSafety.BlockKeeps | libs/driver/src/mock_don.rs:158-216 | a block including any payloads, any number of times, keeps the invariant |
| LifecycleSafety.TakeHoldsKeeps | libs/driver/src/pipeline.rs:152-163 | taking the holds of a proof keeps the invariant |
| LifecycleSafety.CommitRecordKeeps | libs/driver/src/pipeline.rs:258-370 | recording a proof, which hands its inputs over to an open record, keeps the invariant |
| LifecycleSafety.DeleteKeeps | libs/driver/src/pipeline.rs:374-398 | deleting a recorded, never offered transaction keeps the invariant |
| LifecycleSafety.OpenSubmitKeeps | libs/driver/src/driver.rs:153-165 | taking a submission lock from the weak table keeps one live lock per txFinal |
| LifecycleSafety.AdvanceKeeps | libs/driver/src/pipeline.rs:402-434 | the unlocked reads of a submission keep the invariant |
| LifecycleSafety.MarkAttemptKeeps | libs/driver/src/pipeline.rs:435-444 | persisting the attempt mark keeps the invariant |
| LifecycleSafety.PostKeeps | libs/driver/src/pipeline.rs:446-450 | posting the payload after its mark keeps the invariant |
| LifecycleSafety.SaveSubmittedKeeps | libs/driver/src/pipeline.rs:451-463 | saving the relayer's answer keeps the invariant, whatever settled in between |
| LifecycleSafety.ReadHeadKeeps | libs/driver/src/pipeline.rs:567-579 | reading the head outside the lock keeps the invariant |
| LifecycleSafety.ReadStatusKeeps | libs/driver/src/pipeline.rs:580-587 | reading one status after the head keeps the invariant |
| LifecycleSafety.ApplySettleKeeps | libs/driver/src/pipeline.rs:596-658 | applying stale answers under the lock keeps the invariant |
| LifecycleSafety.PruneKeeps | libs/driver/src/pipeline.rs:748-833 | pruning a terminal record keeps the invariant |
| LifecycleSafety.CrashKeeps | libs/driver/src/pipeline.rs:152-464 | losing all memory (holds, locks, calls in progress) at any moment keeps the invariant |
| LifecycleTheorems.StepKeeps | libs/driver/src/pipeline.rs:129-833 | every step of every interleaving keeps the invariant |
| LifecycleTheorems.RunInv | libs/driver/src/pipeline.rs:129-833 | the invariant holds in every reachable state |
| LifecycleTheorems.ExpiryIsSound | libs/driver/src/pipeline.rs:531-658 | an expired record's transaction is applied in no later state of any run, however head reads, status reads, recording, submission, deletion and chain growth interleave |
| LifecycleTheorems.LandingIsSound | libs/driver/src/pipeline.rs:623-630 | a landed record's transaction is applied |
| LifecycleTheorems.AppliedLands | libs/driver/src/pipeline.rs:580-630 | a settlement that read the status of an open transaction after the chain applied it lands its record, whatever happens in between |
| LifecycleTheorems.StatusIsRead | libs/driver/src/pipeline.rs:580-587 | a status read tells exactly whether the chain applied the transaction, rejected it or has not seen it |
| LifecycleTheorems.DeadForever | libs/driver/src/mock_don.rs:158-216 | once a transaction can no longer be applied, it never can |
| LifecycleTheorems.RecordsMoveForward | libs/driver/src/pipeline.rs:402-464 | landed and expired are absorbing, open records never go backward, and a removed record never comes back, under all interleavings of submission, settlement and deletion |
| LifecycleTheorems.DeletedIsNeverPosted | libs/driver/src/pipeline.rs:374-398 | a deleted transaction's payload was never posted, never will be and is never applied |
| LifecycleTheorems.PostedIsMarked | libs/driver/src/pipeline.rs:435-450 | every posted payload of a record has its attempt mark on disk, and only posted ones are applied |
| LifecycleTheorems.OneRequestInFlight | libs/driver/src/driver.rs:153-165 | at most one relayer request per txFinal is in flight |
| LifecycleTheorems.SubmittedIsAccepted | libs/driver/src/pipeline.rs:451-463 | a submitted record's transaction was accepted by the relayer |
| LifecycleTheorems.NoRequestAfterAcceptance | libs/driver/src/pipeline.rs:402-464 | once an accepted response is saved, no run makes another request for that transaction |
| LifecycleTheorems.InputsAreExclusive | libs/driver/src/pipeline.rs:258-281 | in every reachable state no two open records share an input, no two proofs hold one file, and a file both held and spent belongs to one proof and its own record |
| LifecycleTheorems.NoUnclaimedMoment | libs/driver/src/pipeline.rs:152-163 | a claimed input becomes unclaimed only by a crash, by dropping a proof with no open record, or because the very record spending it is settled or deleted |
| Naming.GeneratedNameRoundTrip | libs/driver/src/object_store.rs:23-42 | a generated name has the generated shape and is parsed back to its object |
| Naming.GeneratedNameSpelled | libs/driver/src/object_store.rs:30-42 | class prefix, stable identifier and commitment at their places in the name |
| Naming.GeneratedNameInjective | libs/driver/src/object_store.rs:30-42 | different objects have different generated names |
| Naming.NamedObject | libs/driver/src/object_store.rs:62-79 | every name of generated shape is some object's generated name |
| Naming.CustomFileName | libs/driver/src/object_store.rs:84-125 | a name is accepted, with its extension, if and only if it is not blank, hidden, reserved or too long, has no forbidden character, and is of generated shape only if it is this object's |
| Naming.RefusalMeans | libs/driver/src/object_store.rs:84-125 | what each refusal means, in the order of the checks |
| Naming.UniqueFileName | libs/driver/src/object_store.rs:128-140 | the name itself if free, otherwise the first free numbered variant; never a taken one |
| Naming.UniqueSpelled | libs/driver/src/object_store.rs:128-140 | a name in use gets the least number from 2 on that gives a free name, in decimal digits behind a blank |
| Naming.FirstFree | libs/driver/src/object_store.rs:135-139 | the search ends and skips taken numbers only |
| Naming.UniqueNotGenerated | libs/driver/src/object_store.rs:128-140 | making a chosen name unique never yields a generated shape |
| Naming.PendingFileName | libs/driver/src/object_store.rs:158-162 | a pending name is free |
| Naming.PendingSpelled | libs/driver/src/object_store.rs:158-162 | the custom name with -pending before its extension, made unique like any other |
| Naming.PendingNotGenerated | libs/driver/src/object_store.rs:158-162 | a pending name is never of generated shape |
| Naming.ChosenNamesAreOwn | libs/driver/src/object_store.rs:143-153 | neither renaming nor importing gives an object the form of another object's generated name |
| ObjectStore.LoadDirectory | libs/driver/src/object_store.rs:291-353 | succeeds exactly when every file fits its directory and no name repeats, and then adds them all |
| ObjectStore.LoadObjectFiles | libs/driver/src/object_store.rs:355-367 | succeeds exactly when directories match statuses and share no name; never fails on a store in order |
| ObjectStore.ValidIsLoadable | libs/driver/src/object_store.rs:322-346 | one file per object and own generated names imply that loading succeeds |
| ObjectStore.LoadableIff | libs/driver/src/object_store.rs:322-346 | with each directory in order, loading fails if and only if some object is both live and nullified under its generated name |
| ObjectStore.ValidIff | libs/driver/src/object_store.rs:322-346 | with each directory in order, every object has one file if and only if none is stranded: nullified with its live file still there |
| Reconcile.NullifyingProgresses | libs/driver/src/object_store.rs:258-278 | every stopping point of nullifying a file is on the way: filed as spent before it is removed as live |
| Reconcile.StrandedFileBlocksLoading | libs/driver/src/object_store.rs:215-278 | stopping between the spent file's write and the live file's removal leaves the object in two files, and blocks loading if and only if the live file has the generated name |
| Reconcile.RenamingProgresses | libs/driver/src/object_store.rs:282-289 | a rename to a free own name loses and overwrites nothing |
| Reconcile.DoneIsUnique | libs/driver/src/pipeline.rs:950-1034 | whatever the path, a finished reconciliation shows the same objects with the same statuses in the same directories |
| Reconcile.DoneValidIff | libs/driver/src/pipeline.rs:950-1034 | after it every object has one file if and only if each one stranded before was one it had to nullify |
| Reconcile.DoneLive | libs/driver/src/pipeline.rs:969-1021 | the live objects and statuses at the end, in terms of the start alone |
| Reconcile.DoneSpent | libs/driver/src/pipeline.rs:981-998 | the nullified objects at the end are those at the start and the planned ones |
| Reconcile.ProgressKeeps | libs/driver/src/pipeline.rs:950-1034 | no stopping point loses an object, makes a known one unknown or, but for a stranded output written back, takes a nullified one back |
| Reconcile.StrandedStays | libs/driver/src/pipeline.rs:950-1034 | an object stranded, neither to be nullified nor an output still to be rewritten, stays stranded, under its name unless that is pending: once the record listing it is pruned, reconciling no longer repairs it |
| Settlement.StoppedRunsConverge | libs/driver/src/pipeline.rs:950-1034 | reconciling a landed record is crash-convergent unless an output is in both directories under one name and still to be rewritten: all finished runs agree, whenever earlier ones stopped, only objects whose nullifier the record lists are newly nullified, and each object has one file again if and only if the stranded ones were the record's own |
| Settlement.CanFinish | libs/driver/src/pipeline.rs:968-1021 | from every stopping point a rerun without failures finishes |
| Settlement.StrandedOutputDiverges | libs/driver/src/pipeline.rs:1001-1020 | with such an output there are two finished runs that differ: its nullified copy goes or stays with a removal whose failure is not reported |
| Settlement.ConvergesIff | libs/driver/src/pipeline.rs:950-1034 | all finished runs agree if and only if there is no such output |
| StoreSteps.RecordsConvergeIff | libs/driver/src/pipeline.rs:950-1034 | and so for every landed record in every reachable state of the store |
| Settlement.RerunsConverge | libs/driver/src/pipeline.rs:1022-1034 | reruns with the record as the one before left it, be it after a stop, a failure or an unreported failure taken for a success, end in the view the first start determines |
| Settlement.ReconciledIsFinished | libs/driver/src/pipeline.rs:950-1034 | a reconciliation that did all the record asks for is a finished run |
| StoreSteps.RecordStarts | libs/driver/src/pipeline.rs:981-989 | a record on file spends no file its own transaction made, so its files can be reconciled from where the store is |
| StoreSteps.LockedMeans | libs/driver/src/transactions.rs:106-112 | a file is locked if and only if a recorded or submitted transaction has it as input |
| Settlement.ReconcilingAgainChangesNothing | libs/driver/src/pipeline.rs:1022-1034 | with the record it left, reconciling again changes nothing that shows |
| Settlement.PlanStillNamed | libs/driver/src/pipeline.rs:1022-1031 | what a stopped or unfinished reconciliation left to nullify is still under an input name of the record on file, so the next one finds it |
| Settlement.RenamedAllNames | libs/driver/src/pipeline.rs:1024-1030 | renaming names in a record yields old names and new ones only, and keeps every name not renamed |
| Settlement.UnfinishedInOrder | libs/driver/src/pipeline.rs:1073-1078 | exactly the unfinished pending names are retained, in order |
| Settlement.MendedAll | libs/driver/src/pipeline.rs:764-796 | one complete reconciliation brings the stranded objects it reaches back to one file and leaves the others within reach of theirs |
| ChainSync.ChainFileStatus | libs/driver/src/pipeline.rs:1146-1163 | a file is nullified exactly when it was or its nullifier is on chain, and never moves back |
| ChainSync.SyncedView | libs/driver/src/pipeline.rs:688-727 | a finished pass moves exactly the objects whose nullifier is on chain and makes exactly the created unknown ones live; each object has one file afterwards if and only if those stranded before are reported spent |
| StoreMoves.RunGrows | libs/driver/src/pipeline.rs:258-833 | a run continued by one file operation is a run |
| StoreTheorems.FileMoveEffect | libs/driver/src/object_store.rs:215-289 | what one operation on object files may do: directories stay in order, known objects stay known, and an object that leaves, is taken back or newly stands in two files does so by the one operation that may do it |
| StoreTheorems.MoveKeeps | libs/driver/src/pipeline.rs:258-833 | every single file operation keeps the invariant of the store |
| StoreTheorems.RunInv | libs/driver/src/pipeline.rs:258-833 | the invariant holds in every state of every run from the empty store |
| StoreTheorems.RunIsOrdered | libs/driver/src/pipeline.rs:258-833 | in every state of every run statuses match directories, generated names are own and no object has two live files; each object has exactly one file, and loading succeeds, but for objects spent on chain whose live file is still to be removed, as the exact conditions say |
| StoreTheorems.StrandedOnlyBySpending | libs/driver/src/object_store.rs:258-278 | over every run an object comes to stand in two files only by the write that files it as spent |
| StoreTheorems.KnownObjectsAreKept | libs/driver/src/pipeline.rs:258-833 | over every run an object once live or nullified stays in the store as one of the two |
| StoreTheorems.ObjectsLeaveOnlyAsUnknownOutputs | libs/driver/src/pipeline.rs:1127-1144 | over every run an object leaves the store only as an unknown output of a transaction expired, being deleted, or whose recording is being rolled back |
| StoreTheorems.NullifiedUnlessTakenBack | libs/driver/src/pipeline.rs:1004-1020 | over every run a nullified object stays nullified unless it was an output of a landed record, in both directories under one name and not up to date, which is then rewritten and its nullified copy removed |
| StoreTheorems.TakenBackIff | libs/driver/src/pipeline.rs:1004-1020 | and exactly such an output can be taken back |
| StoreTheorems.NullifiedCanBeTakenBack | libs/driver/src/object_store.rs:240-252 | for every object there is a run from the empty store in which it is nullified and then no longer is |
| StoreTheorems.ClaimedFilesKeepTheirName | libs/driver/src/pipeline.rs:1064-1066 | over every run a file an action holds or an open transaction spends keeps its name as long as it is live |
| StoreTheorems.NewRecordsAreComplete | libs/driver/src/pipeline.rs:335-353 | over every run a record becomes visible only with its payload and all its outputs there, every input live and no other open transaction's |
| StoreTheorems.DeletedOutputCanLand | libs/driver/src/pipeline.rs:392-393 | deleting that stops between outputs and record leaves a record that can still be submitted and land, with its output gone |
| StoreDriver.Store.WriteObjectFile | libs/driver/src/object_store.rs:215-253 | the file is in the directory its status names; the stale one may remain only when its removal failed, which is not reported |
| StoreDriver.Store.NullifyObjectFile | libs/driver/src/object_store.rs:258-278 | every stopping point is on the way; a success leaves the live file only if it has the generated name and its removal failed unreported |
| StoreDriver.Store.RenameLive | libs/driver/src/object_store.rs:282-289 | refuses an existing target; otherwise moves the file |
| StoreDriver.Store.PersistInput | libs/driver/src/pipeline.rs:970-1000 | an input file is nullified if and only if the record lists its nullifier; a reported success leaves it live only under the name it is filed under, its generated one |
| StoreDriver.Store.PersistInputs | libs/driver/src/pipeline.rs:968-1000 | after a success every input the record spends is filed as spent, after a clean one none has a live file |
| StoreDriver.Store.PersistOutput | libs/driver/src/pipeline.rs:1001-1020 | a file up to date is left alone, any other of the record's own transaction gets status and hash; without failures a nullified namesake goes if and only if the output was not up to date |
| StoreDriver.Store.PersistOutputs | libs/driver/src/pipeline.rs:1001-1021 | after a success no output is of unknown status and each has the hash of the record, if it has one; no object is touched otherwise |
| StoreDriver.Store.FinishPendingName | libs/driver/src/pipeline.rs:1055-1072 | a pending output still there moves to the first free variant of its final name; one that an action holds or an open transaction spends stays |
| StoreDriver.Store.FinishPendingNames | libs/driver/src/pipeline.rs:1040-1091 | finishing names keeps what the input and output passes achieved, renames no file in use, and leaves pending only those; the outputs are under the names reported |
| StoreDriver.Store.RemoveUnknownOutputs | libs/driver/src/pipeline.rs:1127-1144 | exactly the record's unknown outputs are removed |
| StoreDriver.Store.PersistSettledObjects | libs/driver/src/pipeline.rs:950-1034 | from any reachable store: every stopping point is on the way; a reported success has done all the record asks for but for live files that kept the name they are filed under, a clean one that too; without failures it is one; the record returned names what is left undone and the outputs where they are |
| StoreDriver.Store.WriteRecord | libs/driver/src/transactions.rs:78-92 | a temporary file, then a rename: a reader sees the old record or all of the new one, at every stopping point |
| StoreDriver.Store.RemoveTransaction | libs/driver/src/transactions.rs:94-103 | success removes record and payload; a failure may stop half way |
| StoreDriver.Store.MarkAttempt | libs/driver/src/pipeline.rs:435-444 | a recorded transaction is marked on disk before it is offered; any other is left as it is |
| StoreDriver.Store.SaveSubmitted | libs/driver/src/pipeline.rs:451-462 | the relayer's answer is saved unless the record has moved on |
| StoreDriver.Store.SettleRecords | libs/driver/src/pipeline.rs:600-658 | an open record asked about lands if and only if its transaction was applied, and expires if and only if it was rejected, or not seen with the head more than 50400 blocks past its grounding; its hash is the one of the status or else of the job; nothing else changes, the records reported are exactly those that differ, and stopped anywhere each is as it was or so |
| StoreDriver.Store.ReconcileRecord | libs/driver/src/pipeline.rs:667-682 | reconciling and saving one settled record: after a saved success the record on file names its outputs where they are and asks for nothing more, and at every stopping point what is left to nullify is still named by it |
| StoreDriver.Store.DeleteTransaction | libs/driver/src/pipeline.rs:374-398 | refused unless recorded and never offered; loses the transaction's unknown outputs and nothing else, and the record only after them |
| StoreDriver.Store.PruneTransaction | libs/driver/src/pipeline.rs:764-818 | removed only when due and, like being known as reconciled, only after a reconciliation that succeeded; a failed one retains it; without failures a due one is removed |
| StoreDriver.Store.PruneTransactions | libs/driver/src/pipeline.rs:748-833 | from any reachable store: open and undue records stay, every record removed or newly known as reconciled was reconciled with success in this pass, without failures no due one stays and the removed ones are exactly those reported, no file in use changes its name, and if every visit succeeds and the stranded objects are within reach of a visited record, each object has one file afterwards |
| StoreDriver.Store.SyncFile | libs/driver/src/pipeline.rs:690-726 | one scanned file gets the status the chain and the hash the records give it, and no other changes |
| StoreDriver.Store.SyncFiles | libs/driver/src/pipeline.rs:688-727 | a store that cannot be loaded is left alone; otherwise every stopping point of the pass is on the way, and a clean finish is all of it, for every scanned live file |
| StoreDriver.Store.ReconcileChanged | libs/driver/src/pipeline.rs:665-682 | every settled record changed, but for the ones left over, has been reconciled with success; without failures none is left over |
| StoreDriver.Store.SettleFiles | libs/driver/src/pipeline.rs:665-727 | the same, then the pass over all files: no file in use changes its name; after a clean finish no object reported spent is live, and each has one file if the chain reports every stranded one spent; without failures a store with one file per object keeps that |
| StoreDriver.Store.Settle | libs/driver/src/pipeline.rs:596-727 | the locked part as a whole: records settled by the answers, and the files of all that were reconciled with success but for those left over |
| StoreDriver.Store.RenameObject | libs/driver/src/driver.rs:354-411 | succeeds, but for failures, if and only if the name is allowed and either its own already or free, with the file live and neither held, spent nor still to be created; then one file moves and nothing else changes |
| StoreDriver.Store.ImportFileName | libs/driver/src/driver.rs:751-781 | an object the store has, a refused name and one in use are refused; otherwise the requested name, made unique, or the generated one |
| StoreDriver.Store.ImportObject | libs/driver/src/driver.rs:596-690 | succeeds, but for failures, if and only if class, type, content hash and creation proof are right, the chain reports the object created and unspent, and the name can be had; then one file is added under it |
| StoreDriver.Store.NameOutputs | libs/driver/src/pipeline.rs:298-319 | output names are free, different and own; exactly the custom names of mutated inputs are passed on, and every other output has its generated name |
| StoreDriver.Store.CheckInputs | libs/driver/src/pipeline.rs:261-296 | recording goes on exactly when the store loads, the transaction is new, every input is live and free and no output name is taken |
| StoreDriver.Store.WriteOutputs | libs/driver/src/pipeline.rs:336-351 | stopped anywhere, only output files have been added |
| StoreDriver.Store.WriteAll | libs/driver/src/pipeline.rs:336-354 | stopped anywhere, a record is visible only with its payload and all its outputs |
| StoreDriver.Store.RollBack | libs/driver/src/pipeline.rs:355-368 | if every removal works, files are as before and no payload remains |
| StoreDriver.Store.Record | libs/driver/src/pipeline.rs:258-370 | all or nothing: it succeeds, but for failures, if and only if the checks pass; a visible record has its payload and all its output files under the names promised, and a rolled back failure leaves files and records as they were |
| Recording.PendingNameFits | libs/driver/src/pipeline.rs:310-318 | giving one output a pending name keeps names free, different and own |
| Recording.NextOutputIsNew | libs/driver/src/pipeline.rs:336-351 | each output is written under a free name, its object not being there yet |
| Joint.RunInv | libs/driver/src/pipeline.rs:129-833 | lifecycle and store, sharing their records, keep both invariants in every state of every joint run |
| Joint.AppliedOutputsAreKept | libs/driver/src/pipeline.rs:600-658 | an object whose creating transaction the chain has applied is never removed from the store, whatever the driver, the chain and crashes do from then on |
| Joint.ExpiredOutputsNeverLand | libs/driver/src/pipeline.rs:960-967 | an output removed because its transaction expired belongs to a transaction the chain applies in no later state |
| Joint.EndedIsNotApplied | libs/driver/src/pipeline.rs:374-398 | an output is removed, by expiry, deletion or a rolled back recording, only while the chain has not applied its transaction |
| Joint.SettlingAgrees | libs/driver/src/pipeline.rs:600-658 | given the answers the lifecycle read, the records the driver saves agree with the lifecycle's step, for whichever it got to |
| Feasibility.Exchange | libs/driver/src/driver.rs:529-546 | another slot wanting a chosen object has the same candidates, so the choice can be exchanged |
| Feasibility.GreedyStep | libs/driver/src/driver.rs:529-546 | taking any candidate for the first slot decides nothing about the rest |
| Feasibility.FindCandidate | libs/driver/src/driver.rs:531-538 | finds the first unused match, exactly when there is one |
| Feasibility.ReportIsExact | libs/driver/src/driver.rs:529-546 | with each object of one kind the report misses no way of filling the slots |
| Feasibility.StoreReportIsExact | libs/driver/src/driver.rs:498-546 | for the files of any store the driver can get to, that is so: no object has two live files |
| Feasibility.CheckAction | libs/driver/src/driver.rs:498-553 | the slots split into two lists in order: those filled, each with the first live and free entry of its class and type whose object no earlier one has, and exactly the missing ones, whose matches all went to earlier slots; with each object of one kind no filling leaves fewer empty |
| Feasibility.ReportIsLeast | libs/driver/src/driver.rs:529-546 | with each object of one kind the number missing is the least any filling leaves |
| Feasibility.ReportFills | libs/driver/src/driver.rs:529-546 | and the report itself leaves that many |
| Feasibility.TwoKindsMislead | libs/driver/src/driver.rs:531-540 | with one object in two files of different kinds, which takes a file edited by hand, the report can find a slot missing although the slots can be filled |
| Paths.BasenameIff | libs/driver/src/driver.rs:883-891 | the basename of a path is exactly its last name, with nothing but trailing separators after it |
| Feasibility.ValidateExecuteRequest | libs/driver/src/execute.rs:21-47 | accepts exactly as many inputs as slots with pairwise different basenames |
| Feasibility.ResolveInputs | libs/driver/src/execute.rs:69-122 | succeeds exactly when each input is a live file matching its slot by class and by type hash |
| Feasibility.ReportedFilesExecute | libs/driver/src/driver.rs:498-553 | the reported files in order pass validation and resolution and are neither held nor locked |
| Feasibility.HoldInputs | libs/driver/src/pipeline.rs:144-163 | proving's input phase succeeds exactly when the request validates, every input resolves and none is held or locked, and otherwise leaves the holds alone |
| Feasibility.CheckThenHold | libs/driver/src/driver.rs:498-553 | in the same state an action is reported feasible exactly when its reported files can be held for proving |
| Inlining.InlineAction | libs/pexe/src/inspect.rs:1236-1260 | the flat list is the caller followed by each called helper's body, substituted at the call's own offset |
| Inlining.CallsInOrder | libs/pexe/src/inspect.rs:1236-1278 | the calls expanded are exactly those of statements that name a predicate of the batch, in order |
| Inlining.ExpandedAt | libs/pexe/src/inspect.rs:1236-1278 | each statement of the flat list is the corresponding one of its helper, with the call's arguments for parameters and other wildcards moved by 10000 for each call up to its own |
| Inlining.PushBody | libs/pexe/src/inspect.rs:1255-1257 | the helper's statements are pushed substituted, in order |
| Inlining.SubstituteArgExact | libs/pexe/src/inspect.rs:1278-1320 | substitution keeps an argument's value in every interpretation and assignment if and only if it is not an entry of a parameter bound to something other than a wildcard |
| Inlining.SubstituteStatementExact | libs/pexe/src/inspect.rs:1262-1276 | substituting a statement keeps its truth in every interpretation and assignment if and only if its arguments are expressible and its predicate is no wildcard other than a parameter bound to the caller's wildcard of the same index |
| Inlining.StatementKeepsMeaning | libs/pexe/src/inspect.rs:1262-1276 | an inlinable statement, substituted, holds exactly when the helper's does in its scope |
| Inlining.InliningKeepsMeaning | libs/pexe/src/inspect.rs:1236-1320 | an assignment satisfies the flat list exactly when it satisfies the caller and each called helper's body under its arguments |
| Inlining.PrivateWildcardsApart | libs/pexe/src/inspect.rs:1241-1253 | with fewer than 10,000 wildcards each, a wildcard two expanded calls share is an argument of both: private ones never coincide, nor meet the caller's |
| Inlining.WildcardsMeetAtTheBound | libs/pexe/src/inspect.rs:1241-1245 | at 10,000 they do, and two calls that hold each by itself lose their common solution |
| Inlining.InliningKeepsSolutions | libs/pexe/src/inspect.rs:1229-1260 | an assignment of the caller's wildcards extends to a solution of the flat list exactly when the action holds under it with private wildcards of each call's own |
| StateChain.Pass | libs/pexe/src/inspect.rs:1366-1383 | one pass adds only connected states, and adds none exactly when the set is closed |
| StateChain.TraceStateChain | libs/pexe/src/inspect.rs:1360-1385 | ends with exactly the states a walk over dictionary operations leads to from the focused one: old root first, new root fourth for insert and update and third for delete |
| StateChain.ChainMeans | libs/pexe/src/inspect.rs:1360-1404 | the states of a chain are exactly those that share with the focused one every entry the scope does not touch, however the scope is made true |
| StateChain.TransitionIff | libs/pexe/src/inspect.rs:1391-1404 | a statement links two states exactly if it is one of the six operations with them as its old and its new root |
| StateChain.WalksStayInside | libs/pexe/src/inspect.rs:1360-1385 | no walk over transitions leaves a closed set |
| GraphView.IndexStatements | libs/pexe/src/inspect.rs:595-600 | each statement is found at its last position |
| GraphView.BuildRewriteSource | libs/pexe/src/inspect.rs:589-619 | the map is the plan's rewrite map |
| GraphView.RewriteSourceIff | libs/pexe/src/inspect.rs:589-619 | a statement is mapped exactly when its operation replaces a value, to the last position of the statement it rewrites |
| GraphView.EndsIff | libs/pexe/src/inspect.rs:746-751 | following the rewrites of a statement ends if and only if it meets no cycle |
| GraphView.EndsUnlessLooped | libs/pexe/src/inspect.rs:589-619 | in terms of statements and operations: it ends if and only if no chain of rewrites, each of the statement last found at the next position, comes back to one it passed |
| GraphView.EarlierSourcesEnd | libs/pexe/src/inspect.rs:746-751 | rewrites of statements last found earlier always end |
| GraphView.LaterCopiesLoop | libs/pexe/src/inspect.rs:595-616 | in A, B, A with the second rewriting A and the third B, following either does not end |
| GraphView.UnchangedRewriteLoops | libs/pexe/src/inspect.rs:595-616 | nor does a rewrite whose result equals its source |
| GraphView.Resolve | libs/pexe/src/inspect.rs:746-751 | follows the rewrites to the statement they end at |
| GraphView.DrawableIff | libs/pexe/src/inspect.rs:734-751 | resolving every dependency the drawing looks at ends if and only if none of them leads into such a loop |
| GraphView.EmptyQueueIsExact | libs/pexe/src/inspect.rs:783-805 | an exhausted worklist has visited exactly what is reachable through hidden statements |
| GraphView.EdgesInto | libs/pexe/src/inspect.rs:780-806 | a statement is linked exactly to the different visible statements it reaches through hidden ones, and to the external ones these need |
| GraphView.NodesAre | libs/pexe/src/inspect.rs:753-768 | nodes are all statements or, compressed, the custom and introduced ones that no operation rewrites |
| GraphView.BuildGraphView | libs/pexe/src/inspect.rs:734-815 | for the rewrites the plan's own operations make, the view has exactly those edges for exactly the visible statements, and all external references of them |
| Bytes.LeRoundTrip | libs/payload/src/payload.rs:16-37 | little-endian bytes of a number in range are read back |
| Bytes.FromLeRoundTrip | libs/payload/src/payload.rs:24-37 | and the bytes read are those written for the number read |
| Bytes.BeRoundTrip | libs/payload/src/blob.rs:62-63 | big-endian bytes of the length are read back |
| Blob.PutChunk | libs/payload/src/blob.rs:66-70 | one chunk goes behind its zero byte and touches no other element |
| Blob.EncodeSimpleBlob | libs/payload/src/blob.rs:50-73 | refused exactly when too long; otherwise the length is in bytes 1 to 8, most significant first, byte k of the data in element k / 31 + 1 behind its first byte, and every other byte zero |
| Blob.ElementsAreCanonical | libs/payload/src/blob.rs:50-73 | every 32-byte element is below BLS_MODULUS |
| Blob.BlobRoundTrip | libs/payload/src/blob.rs:11-48 | decoding an encoded blob returns the data |
| Blob.DecodesIff | libs/payload/src/blob.rs:11-48 | data is decoded if and only if the length and each of its bytes are at these positions of a blob of whole elements that can hold them |
| Blob.ChunksAt | libs/payload/src/blob.rs:42-47 | where each decoded byte is read from |
| Blob.DecodedIsEncodedIff | libs/payload/src/blob.rs:11-73 | a decodable full-size blob is the encoding of its data if and only if its padding is zero |
| PayloadCodec.WriteElems | libs/payload/src/payload.rs:16-22 | appends eight little-endian bytes per element |
| PayloadCodec.ReadElems | libs/payload/src/payload.rs:24-37 | reads exactly the specified elements or reports the specified error |
| PayloadCodec.ElemsRoundTrip | libs/payload/src/payload.rs:16-37 | elements are read back whatever follows |
| PayloadCodec.ParsedElems | libs/payload/src/payload.rs:24-37 | elements read are canonical: the bytes are their encoding |
| PayloadCodec.WriteHashes | libs/payload/src/payload.rs:41-49 | appends count and hashes |
| PayloadCodec.ReadHashes | libs/payload/src/payload.rs:51-62 | reads exactly the counted hashes |
| PayloadCodec.HashesRoundTrip | libs/payload/src/payload.rs:41-62 | a list of at most 255 hashes is read back whatever follows |
| PayloadCodec.ToBytes | libs/payload/src/payload.rs:111-122 | byte by byte: 0b d1 00, the proof, transaction, state root, count and nullifiers, count and created objects, eight little-endian bytes per element |
| PayloadCodec.FromBytes | libs/payload/src/payload.rs:124-148 | a payload is read if and only if its parts are at these positions; other magic is refused |
| PayloadCodec.PayloadRoundTrip | libs/payload/src/payload.rs:111-148 | decoding undoes encoding whatever bytes follow |
| PayloadCodec.DecodesIff | libs/payload/src/payload.rs:111-148 | bytes decode to a payload if and only if they begin with its encoding |
| PayloadCodec.PanicsIff | libs/payload/src/payload.rs:124-136 | the reader indexes past the end if and only if the bytes are the bare magic |
| PayloadCodec.ThroughBlob | libs/payload/src/blob.rs:11-73 | payload to bytes to blob and back gives the payload, and every element of the blob is canonical |
| BinarySwap.Installation.InstallFile | interfaces/cli/src/update.rs:694-701 | the staged content is installed, or the destination is as it was |
| BinarySwap.Installation.MoveOneAside | interfaces/cli/src/update.rs:662-674 | the binary is in its backup, or in place as it was |
| BinarySwap.Installation.MoveAside | interfaces/cli/src/update.rs:661-674 | stopped anywhere, the journal tells the truth |
| BinarySwap.Installation.InstallAll | interfaces/cli/src/update.rs:675-679 | stopped anywhere, the journal tells the truth; a success installed every new binary |
| BinarySwap.Installation.RollbackEntry | interfaces/cli/src/update.rs:708-718 | the path is as it was if the restoring rename worked or, without a previous binary, the removal; otherwise it is absent or holds the new binary |
| BinarySwap.Installation.Rollback | interfaces/cli/src/update.rs:706-720 | exactly the entries whose undoing worked are as they were |
| BinarySwap.Installation.SwapBinaries | interfaces/cli/src/update.rs:650-689 | without failures it succeeds; all new on success with a truthful journal; on failure every undone path holds its original content or absence |
| BinarySwap.Installation.SwapThenUndo | interfaces/cli/src/update.rs:650-720 | rolling back the returned journal restores the originals |
| CommandStore.NormalizeName | interfaces/mcp/src/commands.rs:216-238 | the loop computes the specified slug |
| CommandStore.NormalizedShape | interfaces/mcp/src/commands.rs:211-238 | an accepted name is a slug with exactly the letters and digits asked for, and a name is refused as empty exactly when it has none |
| CommandStore.NormalizedKeepsRuns | interfaces/mcp/src/commands.rs:216-238 | runs of letters and digits stay runs, and what was apart stays apart, by a single dash |
| CommandStore.NormalizedIdempotent | interfaces/mcp/src/commands.rs:216-238 | normalizing a normalized name changes nothing |
| CommandStore.SlugIsUnchanged | interfaces/mcp/src/commands.rs:216-238 | every slug is left alone |
| CommandStore.SingleLineShape | interfaces/mcp/src/commands.rs:187-189 | a description keeps its words, becomes one trimmed line, and a second pass changes nothing |
| CommandStore.SingleLineKeepsRuns | interfaces/mcp/src/commands.rs:187-189 | words stay as they are, a single blank apart |
| CommandStore.FrontmatterEndsOnce | interfaces/mcp/src/commands.rs:176-201 | the first closing delimiter is the one rendering wrote, whatever description and body hold |
| CommandStore.SplitRendered | interfaces/mcp/src/commands.rs:193-201 | splitting a rendered README gives its frontmatter and body |
| CommandStore.DescriptionFound | interfaces/mcp/src/commands.rs:204-209 | the description is found in the rendered frontmatter |
| CommandStore.ReadRendered | interfaces/mcp/src/commands.rs:161-181 | reading a rendered README gives the command back |
| CommandStore.ReadPlain | interfaces/mcp/src/commands.rs:193-201 | without a frontmatter block the whole text is the body |
| CommandStore.ReadParts | interfaces/mcp/src/commands.rs:161-209 | otherwise the description is the first such field between the delimiters and the body what follows the first closing one |
| CommandStore.Store.Save | interfaces/mcp/src/commands.rs:125-142 | refuses exactly bad names and empty bodies, without effect, and otherwise, but for a failure, writes exactly the README spelled out |
| CommandStore.Store.Get | interfaces/mcp/src/commands.rs:116-119 | reads the command of the normalized name |
| CommandStore.Store.Delete | interfaces/mcp/src/commands.rs:146-155 | a refused name and a failed removal are errors; otherwise removes exactly that command and tells whether it was there |
| CommandStore.Store.SaveThenGet | interfaces/mcp/src/commands.rs:116-142 | get after save returns exactly the saved command, by the name given or by its slug, and no other changes |

## Left out

- Proof generation, circuit shrinking, plonky2 and pod2 internals and the Rhai SDK: commitments, nullifiers and proof bytes are opaque values, the proof's bytes a self-delimiting codec given as a parameter.
- HTTP clients, relayer, synchronizer and archiver services: the chain follows the acceptance rules of the in-memory ledger.
- `discard_object_unsafe`: it gives up the driver's guarantees by its own description.
- Pending names are not claimed to be finished eventually: the reconciliation cache and pruning can retire a record whose pending output is still held. Only the safety of the renames is stated.
- Creation proofs of stored objects, relayer annotations, imported-key fingerprints, object summaries and the lists of changed and removed files: they are carried along and decide nothing modelled here.
- Case-insensitive file systems, torn writes, unreadable JSON and the Windows path forms of `with_extension`: side conditions without harder properties.
- CLI printing, daemon control, GUI, MCP tool wiring, update download and version checks, CPU priority, beacon shim, Bitcraft generator and packaging: wrappers and text generation.
- StoreDriver.Store.ImportObject: whether the creation proof of an imported file holds is given as a flag.
- StoreDriver.Store.PruneTransactions: the retention arithmetic and retry times are reduced to the time a record is due.
- Lifecycle.SettleLoop: failure reasons, timestamps and relayer texts are not kept in the record.
- GraphView.BuildGraphView: statements are given by value as numbers, and which of them are custom or introduced as flags; their printing is not modelled.
- CommandStore.Store.Save: sibling scripts in a command's directory are not modelled.
