/** What holds over every run of the lifecycle. */
module LifecycleTheorems {
  import opened Wrappers
  import opened TxStates
  import opened ChainRules
  import opened Lifecycle
  import opened LifecycleSafety

  /** Steps of a proof or of a submitting call. */
  predicate IsProofStep(step: Step) {
    || step.TakeHoldsStep? || step.GroundStep? || step.FinishProofStep? || step.CommitRecordStep? || step.DropProofStep?
  }

  predicate IsSubmitStep(step: Step) {
    || step.OpenSubmitStep? || step.AdvanceStep? || step.MarkAttemptStep? || step.PostStep?
    || step.SaveSubmittedStep? || step.EndSubmitStep?
  }

  lemma ProofStepKeeps(s: Sys, step: Step, s': Sys)
    requires Inv(s) && Takes(s, step, s') && IsProofStep(step)
    ensures Inv(s')
  {
    hide Inv, CanCommitRecord, CanTakeHolds, WithStage;
    if step.TakeHoldsStep? { TakeHoldsKeeps(s, step.p, step.files); }
    if step.GroundStep? { GroundKeeps(s, step.p, step.root); }
    if step.FinishProofStep? { FinishProofKeeps(s, step.p, step.payload); }
    if step.CommitRecordStep? { CommitRecordKeeps(s, step.p); }
    if step.DropProofStep? { DropProofKeeps(s, step.p); }
  }

  lemma SubmitStepKeeps(s: Sys, step: Step, s': Sys)
    requires Inv(s) && Takes(s, step, s') && IsSubmitStep(step)
    ensures Inv(s')
  {
    hide Inv, Opened, CanAdvance, LockAlive;
    if step.OpenSubmitStep? { OpenSubmitKeeps(s, step.t, step.tx); }
    if step.AdvanceStep? { AdvanceKeeps(s, step.t, step.stage); }
    if step.MarkAttemptStep? { MarkAttemptKeeps(s, step.t); }
    if step.PostStep? { PostKeeps(s, step.t); }
    if step.SaveSubmittedStep? { SaveSubmittedKeeps(s, step.t); }
    if step.EndSubmitStep? { EndSubmitKeeps(s, step.t); }
  }

  lemma OtherStepKeeps(s: Sys, step: Step, s': Sys)
    requires Inv(s) && Takes(s, step, s') && !IsProofStep(step) && !IsSubmitStep(step)
    ensures Inv(s')
  {
    hide Inv, SettledRecords, CanMakeBlock, NextBlock;
    if step.BlockStep? { BlockKeeps(s, step.payloads, step.root); }
    if step.DeleteStep? { DeleteKeeps(s, step.tx); }
    if step.PruneStep? { PruneKeeps(s, step.tx); }
    if step.CrashStep? { CrashKeeps(s); }
    if step.OpenSettleStep? { OpenSettleKeeps(s, step.t, step.queried, step.needed); }
    if step.ReadHeadStep? { ReadHeadKeeps(s, step.t); }
    if step.ReadStatusStep? { ReadStatusKeeps(s, step.t, step.tx); }
    if step.ApplySettleStep? { ApplySettleKeeps(s, step.t, step.done); }
    if step.EndSettleStep? { EndSettleKeeps(s, step.t); }
  }

  /** Every step keeps the invariant. */
  lemma StepKeeps(s: Sys, step: Step, s': Sys)
    requires Inv(s) && Takes(s, step, s')
    ensures Inv(s')
  {
    hide Inv, Takes;
    if IsProofStep(step) {
      ProofStepKeeps(s, step, s');
    } else if IsSubmitStep(step) {
      SubmitStepKeeps(s, step, s');
    } else {
      OtherStepKeeps(s, step, s');
    }
  }

  lemma InitInv(s: Sys)
    requires Init(s)
    ensures Inv(s)
  {
  }

  lemma {:induction false} RunInv(tr: seq<Sys>, i: nat)
    requires Run(tr) && i < |tr|
    ensures Inv(tr[i])
  {
    hide Inv, Takes;
    if i == 0 {
      InitInv(tr[0]);
    } else {
      RunInv(tr, i - 1);
      assert Next(tr[i - 1], tr[i]);
      var step :| Takes(tr[i - 1], step, tr[i]);
      StepKeeps(tr[i - 1], step, tr[i]);
    }
  }

  lemma {:induction false} RunStep(tr: seq<Sys>, i: nat) returns (step: Step)
    requires Run(tr) && i + 1 < |tr|
    ensures Inv(tr[i]) && Takes(tr[i], step, tr[i + 1])
  {
    RunInv(tr, i);
    assert Next(tr[i], tr[i + 1]);
    step :| Takes(tr[i], step, tr[i + 1]);
  }

  // ------------------------------------------------------------------
  // Expiry and landing

  lemma DeadStays(s: Sys, step: Step, s': Sys, tx: Hash)
    requires Inv(s) && Takes(s, step, s')
    requires tx in s.log.proved && Dead(s.chain, s.log.proved[tx])
    ensures tx in s'.log.proved && s'.log.proved[tx] == s.log.proved[tx] && Dead(s'.chain, s'.log.proved[tx])
  {
    hide SettledRecords, Opened, CanAdvance, CanCommitRecord, Locked, LockAlive, CanTakeHolds, WithStage, NextBlock;
    hide SubmitSide, ProofSide;
    if step.BlockStep? {
      BlockVerdict(s.chain, step.payloads, step.root, s.log.proved[tx]);
    }
  }

  lemma {:induction false} DeadForever(tr: seq<Sys>, i: nat, j: nat, tx: Hash)
    requires Run(tr) && i <= j < |tr|
    requires tx in tr[i].log.proved && Dead(tr[i].chain, tr[i].log.proved[tx])
    ensures tx in tr[j].log.proved && Dead(tr[j].chain, tr[j].log.proved[tx])
  {
    hide Inv, Takes;
    if i < j {
      DeadForever(tr, i, j - 1, tx);
      var step := RunStep(tr, j - 1);
      DeadStays(tr[j - 1], step, tr[j], tx);
    }
  }

  /** Expiry is sound in every interleaving: once a record is expired, its
      transaction is applied in no later state, however the chain grows and
      whatever other calls do. */
  lemma ExpiryIsSound(tr: seq<Sys>, i: nat, j: nat, tx: Hash)
    requires Run(tr) && i <= j < |tr|
    requires tx in tr[i].records && tr[i].records[tx].state.Expired?
    ensures !IsApplied(tr[j].chain, tx)
  {
    RunInv(tr, i);
    RunInv(tr, j);
    assert RecordOk(tr[i].chain, tr[i].log.proved, tr[i].log.requests, tx, tr[i].records[tx]);
    DeadForever(tr, i, j, tx);
  }

  /** A record is landed only if the chain applied it, and stays applied. */
  lemma LandingIsSound(tr: seq<Sys>, i: nat, tx: Hash)
    requires Run(tr) && i < |tr|
    requires tx in tr[i].records && tr[i].records[tx].state.Landed?
    ensures IsApplied(tr[i].chain, tx)
  {
    RunInv(tr, i);
    assert RecordOk(tr[i].chain, tr[i].log.proved, tr[i].log.requests, tx, tr[i].records[tx]);
  }

  // ------------------------------------------------------------------
  // Records only move forward

  predicate Forward(a: TxState, b: TxState) {
    a == b || a.Recorded? || (a.Submitted? && !b.Recorded?)
  }

  /** Recorded at some time, so no proof can record it again. */
  ghost predicate RecordedOnce(s: Sys, tx: Hash) {
    tx in s.log.proved && forall p :: p in s.mem.proofs && s.mem.proofs[p].stage.Proved? ==>
      s.mem.proofs[p].stage.payload.txFinal != tx
  }

  lemma RecordIsRecordedOnce(s: Sys, tx: Hash)
    requires Inv(s) && tx in s.records
    ensures RecordedOnce(s, tx)
  {
  }

  lemma StepForward(s: Sys, step: Step, s': Sys, tx: Hash)
    requires Inv(s) && Takes(s, step, s') && RecordedOnce(s, tx)
    ensures RecordedOnce(s', tx)
    ensures tx in s'.records ==> tx in s.records && Forward(s.records[tx].state, s'.records[tx].state)
  {
    hide Inv;
    StaysRecordedOnce(s, step, s', tx);
    StateForward(s, step, s', tx);
  }

  lemma StaysRecordedOnce(s: Sys, step: Step, s': Sys, tx: Hash)
    requires Takes(s, step, s') && RecordedOnce(s, tx)
    ensures RecordedOnce(s', tx)
  {
    hide SettledRecords, NextBlock, CanMakeBlock, CanCommitRecord, CanAdvance, Locked, LockAlive;
  }

  lemma StateForward(s: Sys, step: Step, s': Sys, tx: Hash)
    requires Takes(s, step, s') && RecordedOnce(s, tx)
    ensures tx in s'.records ==> tx in s.records && Forward(s.records[tx].state, s'.records[tx].state)
  {
    hide NextBlock, Opened, CanMakeBlock, CanAdvance, Locked, LockAlive, CanTakeHolds, WithStage;
  }

  /** Landed and Expired are absorbing: from any state of any run on, a record
      that is terminal keeps its state until it is pruned, and never comes back
      after that; an open one never goes backward. */
  lemma {:induction false} RecordsMoveForward(tr: seq<Sys>, i: nat, j: nat, tx: Hash)
    requires Run(tr) && i <= j < |tr| && tx in tr[i].records
    ensures tx in tr[j].records ==> Forward(tr[i].records[tx].state, tr[j].records[tx].state)
    ensures tx in tr[j].records ==> forall k :: i <= k <= j ==> tx in tr[k].records
    ensures RecordedOnce(tr[j], tx)
  {
    hide Inv, Takes;
    if i == j {
      RunInv(tr, i);
      RecordIsRecordedOnce(tr[i], tx);
    } else {
      RecordsMoveForward(tr, i, j - 1, tx);
      var step := RunStep(tr, j - 1);
      StepForward(tr[j - 1], step, tr[j], tx);
    }
  }

  // ------------------------------------------------------------------
  // Deletion and posting

  lemma LogGrows(s: Sys, step: Step, s': Sys)
    requires Takes(s, step, s')
    ensures s.log.deleted <= s'.log.deleted && s.log.accepted <= s'.log.accepted
  {
  }

  /** A deleted transaction's payload was never posted, never will be, and the
      chain never applies it. */
  lemma {:induction false} DeletedIsNeverPosted(tr: seq<Sys>, i: nat, j: nat, tx: Hash)
    requires Run(tr) && i <= j < |tr| && tx in tr[i].log.deleted
    ensures tx in tr[j].log.deleted
    ensures tx !in tr[j].log.requests && tx !in tr[j].records && !IsApplied(tr[j].chain, tx)
  {
    hide Inv, Takes;
    if i < j {
      DeletedIsNeverPosted(tr, i, j - 1, tx);
      var step := RunStep(tr, j - 1);
      LogGrows(tr[j - 1], step, tr[j]);
    }
    RunInv(tr, j);
    DeletedFacts(tr[j], tx);
  }

  lemma DeletedFacts(s: Sys, tx: Hash)
    requires Inv(s) && tx in s.log.deleted
    ensures tx !in s.log.requests && tx !in s.records && !IsApplied(s.chain, tx)
  {
  }

  /** Every posted payload has its attempt mark on disk, and only posted ones
      of ours are ever applied. */
  lemma PostedIsMarked(tr: seq<Sys>, i: nat, tx: Hash)
    requires Run(tr) && i < |tr| && tx in tr[i].records
    ensures tx in tr[i].log.requests ==> tr[i].records[tx].attempted
    ensures IsApplied(tr[i].chain, tx) ==> tx in tr[i].log.requests
  {
    RunInv(tr, i);
    assert RecordOk(tr[i].chain, tr[i].log.proved, tr[i].log.requests, tx, tr[i].records[tx]);
  }

  // ------------------------------------------------------------------
  // Relayer requests

  /** At most one call per txFinal is past its lock, so at most one relayer
      request for it is in flight. */
  lemma OneRequestInFlight(tr: seq<Sys>, i: nat, t: nat, u: nat)
    requires Run(tr) && i < |tr|
    requires t in tr[i].mem.submits && u in tr[i].mem.submits
    requires tr[i].mem.submits[t].tx == tr[i].mem.submits[u].tx
    requires tr[i].mem.submits[t].stage.InFlight? && tr[i].mem.submits[u].stage.InFlight?
    ensures t == u
  {
    RunInv(tr, i);
  }

  lemma AcceptedStep(s: Sys, step: Step, s': Sys, tx: Hash)
    requires Inv(s) && Takes(s, step, s') && tx in s.log.accepted
    ensures multiset(s'.log.requests)[tx] == multiset(s.log.requests)[tx]
  {
    if step.PostStep? {
      hide Takes;
      TakesPost(s, step.t, s');
      PostedIsNotAccepted(s, step.t);
    } else {
      hide Inv;
      OnlyPostRequests(s, step, s');
    }
  }

  lemma TakesPost(s: Sys, t: nat, s': Sys)
    requires Takes(s, PostStep(t), s')
    ensures CanPost(s, t) && s' == Post(s, t)
  {
  }

  lemma PostedIsNotAccepted(s: Sys, t: nat)
    requires Inv(s) && t in s.mem.submits && s.mem.submits[t].stage.Marked?
    ensures s.mem.submits[t].stage.payload.txFinal !in s.log.accepted
  {
    hide ProofSide;
    assert SubmitOk(s.log, s.records, s.mem.submits[t]);
  }

  lemma OnlyPostRequests(s: Sys, step: Step, s': Sys)
    requires Takes(s, step, s') && !step.PostStep?
    ensures s'.log.requests == s.log.requests
  {
    hide SettledRecords, Opened, CanMakeBlock, CanAdvance, CanCommitRecord, Locked, LockAlive, CanTakeHolds, WithStage;
    hide NextBlock;
  }

  lemma SubmittedStep(s: Sys, step: Step, s': Sys, tx: Hash)
    requires Takes(s, step, s')
    requires tx in s'.records && s'.records[tx].state.Submitted?
    ensures tx in s'.log.accepted || (tx in s.records && s.records[tx].state.Submitted?)
  {
  }

  lemma {:induction false} SubmittedIsAccepted(tr: seq<Sys>, i: nat, tx: Hash)
    requires Run(tr) && i < |tr| && tx in tr[i].records && tr[i].records[tx].state.Submitted?
    ensures tx in tr[i].log.accepted
  {
    hide Inv, Takes;
    if i > 0 {
      var step := RunStep(tr, i - 1);
      SubmittedStep(tr[i - 1], step, tr[i], tx);
      LogGrows(tr[i - 1], step, tr[i]);
      if tx in tr[i - 1].records && tr[i - 1].records[tx].state.Submitted? {
        SubmittedIsAccepted(tr, i - 1, tx);
      }
    }
  }

  lemma {:induction false} AcceptedCount(tr: seq<Sys>, i: nat, j: nat, tx: Hash)
    requires Run(tr) && i <= j < |tr| && tx in tr[i].log.accepted
    ensures tx in tr[j].log.accepted
    ensures multiset(tr[j].log.requests)[tx] == multiset(tr[i].log.requests)[tx]
  {
    hide Inv, Takes;
    if i < j {
      AcceptedCount(tr, i, j - 1, tx);
      var step := RunStep(tr, j - 1);
      AcceptedStep(tr[j - 1], step, tr[j], tx);
      LogGrows(tr[j - 1], step, tr[j]);
    }
  }

  /** Once the relayer's acceptance is saved, no further request for that
      transaction is made, in any continuation. */
  lemma NoRequestAfterAcceptance(tr: seq<Sys>, i: nat, j: nat, tx: Hash)
    requires Run(tr) && i <= j < |tr|
    requires tx in tr[i].records && tr[i].records[tx].state.Submitted?
    ensures multiset(tr[j].log.requests)[tx] == multiset(tr[i].log.requests)[tx]
  {
    SubmittedIsAccepted(tr, i, tx);
    AcceptedCount(tr, i, j, tx);
  }

  // ------------------------------------------------------------------
  // Input exclusivity

  /** The live proof `p` holds the file. */
  predicate HeldBy(s: Sys, p: nat, f: File) {
    p in s.mem.proofs && f in s.mem.proofs[p].files
  }

  /** No two open records share an input; no two live proofs hold one file; and
      a file both held and spent belongs to one proof and its own record. */
  lemma InputsAreExclusive(tr: seq<Sys>, i: nat, f: File)
    requires Run(tr) && i < |tr|
    ensures var s := tr[i];
      && (forall tx, ty :: Spends(s.records, tx, f) && Spends(s.records, ty, f) ==> tx == ty)
      && (forall p, q :: HeldBy(s, p, f) && HeldBy(s, q, f) ==> p == q)
      && (forall p, tx :: p in s.mem.proofs && f in s.mem.proofs[p].files && Spends(s.records, tx, f) ==>
            s.mem.proofs[p].stage == Committed(tx))
  {
    RunInv(tr, i);
    var s := tr[i];
    assert forall p :: p in s.mem.proofs && f in s.mem.proofs[p].files ==> s.mem.holds[f] == p;
  }

  /** A claim on an input: a live proof's hold or an open record. */
  ghost predicate Claimed(s: Sys, f: File) {
    f in s.mem.holds || Locked(s.records, f)
  }

  /** How a claim can end: the process dies, the proof is dropped without an
      open record of its own, or the record spending the file is settled or
      deleted. */
  ghost predicate ClaimEnds(s: Sys, step: Step, s': Sys, f: File) {
    || step.CrashStep?
    || (step.DropProofStep? && step.p in s.mem.proofs && f in s.mem.proofs[step.p].files
        && forall tx :: s.mem.proofs[step.p].stage == Committed(tx) ==> tx !in s.records || !IsOpen(s.records[tx]))
    || (step.ApplySettleStep? && exists tx :: SettledNow(s, s', tx, f))
    || (step.DeleteStep? && Spends(s.records, step.tx, f))
  }

  /** The open record spending `f` became terminal. */
  ghost predicate SettledNow(s: Sys, s': Sys, tx: Hash, f: File) {
    Spends(s.records, tx, f) && tx in s'.records && !IsOpen(s'.records[tx])
  }

  /** Ownership passes from hold to record with no unowned moment. */
  lemma NoUnclaimedMoment(tr: seq<Sys>, i: nat, step: Step, f: File)
    requires Run(tr) && i + 1 < |tr| && Takes(tr[i], step, tr[i + 1])
    requires Claimed(tr[i], f) && !Claimed(tr[i + 1], f)
    ensures ClaimEnds(tr[i], step, tr[i + 1], f)
  {
    RunInv(tr, i);
    hide Inv, Takes;
    ClaimStep(tr[i], step, tr[i + 1], f);
  }

  lemma ClaimStep(s: Sys, step: Step, s': Sys, f: File)
    requires Inv(s) && Takes(s, step, s')
    requires Claimed(s, f) && !Claimed(s', f)
    ensures ClaimEnds(s, step, s', f)
  {
    if step.DropProofStep? {
      DropClaim(s, step.p, f);
    } else {
      hide Inv;
      OtherClaim(s, step, s', f);
    }
  }

  lemma OtherClaim(s: Sys, step: Step, s': Sys, f: File)
    requires Takes(s, step, s') && !step.DropProofStep?
    requires Claimed(s, f) && !Claimed(s', f)
    ensures ClaimEnds(s, step, s', f)
  {
    hide NextBlock, CanMakeBlock, CanAdvance, LockAlive;
    if Locked(s.records, f) {
      var tx :| tx in s.records && IsOpen(s.records[tx]) && f in s.records[tx].inputs;
      assert Spends(s.records, tx, f);
      assert Spends(s'.records, tx, f) ==> Locked(s'.records, f);
      if step.ApplySettleStep? { assert SettledNow(s, s', tx, f); }
    }
  }

  lemma DropClaim(s: Sys, p: nat, f: File)
    requires Inv(s) && p in s.mem.proofs
    requires Claimed(s, f) && !Claimed(DropProof(s, p), f)
    ensures ClaimEnds(s, DropProofStep(p), DropProof(s, p), f)
  {
  }

  // ------------------------------------------------------------------
  // Settling decides what the chain says

  /** A status read tells exactly whether the chain applied the transaction,
      rejected it, or has not seen it. */
  lemma StatusIsRead(s: Sys, t: nat, tx: Hash, s': Sys)
    requires Takes(s, ReadStatusStep(t, tx), s')
    ensures t in s'.mem.settles && tx in s'.mem.settles[t].statuses
    ensures var status := s'.mem.settles[t].statuses[tx];
      && (status == Some(Applied) <==> IsApplied(s.chain, tx))
      && (status == Some(Rejected) <==> tx in s.chain.verdicts && !IsApplied(s.chain, tx))
      && (status == None <==> tx !in s.chain.verdicts)
  {
    if tx in s.chain.verdicts { assert s.chain.verdicts[tx].Applied? || s.chain.verdicts[tx].Rejected?; }
  }

  /** The locked part gives each record it gets to exactly the state the answers
      mean, and leaves the others alone. */
  lemma SettlingDecides(s: Sys, t: nat, done: set<Hash>, s': Sys)
    requires Takes(s, ApplySettleStep(t, done), s')
    ensures t in s.mem.settles && s'.records.Keys == s.records.Keys
    ensures forall tx :: tx in s.records && tx in done ==>
      IsSettledTo(s.mem.settles[t], tx, s.records[tx], s'.records[tx])
    ensures forall tx :: tx in s.records && tx !in done ==> s'.records[tx] == s.records[tx]
  {
    hide SettledRecord, IsSettledTo;
    forall tx | tx in s.records
      ensures IsSettledTo(s.mem.settles[t], tx, s.records[tx], SettledRecord(s.mem.settles[t], tx, s.records[tx]))
    {
      SettledRecordIs(s.mem.settles[t], tx, s.records[tx]);
    }
  }

  lemma AnswerStays(s: Sys, step: Step, s': Sys, t: nat, tx: Hash)
    requires Takes(s, step, s') && t in s.mem.settles && t in s'.mem.settles && tx in s.mem.settles[t].statuses
    ensures tx in s'.mem.settles[t].statuses && s'.mem.settles[t].statuses[tx] == s.mem.settles[t].statuses[tx]
    ensures s'.mem.settles[t].queried == s.mem.settles[t].queried
  {
    hide NextBlock, SettledRecords, LockAlive, CanAdvance, CanCommitRecord, CanTakeHolds, CanMakeBlock;
  }

  lemma {:induction false} AnswerIsKept(tr: seq<Sys>, i: nat, j: nat, t: nat, tx: Hash)
    requires Trace(tr) && i <= j < |tr| && forall k :: i <= k <= j ==> t in tr[k].mem.settles
    requires tx in tr[i].mem.settles[t].statuses
    ensures tx in tr[j].mem.settles[t].statuses
    ensures tr[j].mem.settles[t].statuses[tx] == tr[i].mem.settles[t].statuses[tx]
    ensures tr[j].mem.settles[t].queried == tr[i].mem.settles[t].queried
  {
    hide Takes;
    if i < j {
      AnswerIsKept(tr, i, j - 1, t, tx);
      assert Next(tr[j - 1], tr[j]);
      var step :| Takes(tr[j - 1], step, tr[j]);
      AnswerStays(tr[j - 1], step, tr[j], t, tx);
    }
  }

  /** A settlement that read the status of an open transaction after the chain
      applied it lands its record, whatever else happens in between, unless it is
      stopped before it gets to the record. */
  lemma AppliedLands(tr: seq<Sys>, i: nat, j: nat, t: nat, tx: Hash, done: set<Hash>)
    requires Trace(tr) && i < j && j + 1 < |tr| && (forall k :: i < k <= j ==> t in tr[k].mem.settles)
    requires Takes(tr[i], ReadStatusStep(t, tx), tr[i + 1]) && IsApplied(tr[i].chain, tx)
    requires Takes(tr[j], ApplySettleStep(t, done), tr[j + 1]) && tx in done
    requires tx in tr[j].records && IsOpen(tr[j].records[tx]) && tx in tr[j].mem.settles[t].queried
    ensures tr[j + 1].records[tx].state == Landed
  {
    hide Takes;
    StatusIsRead(tr[i], t, tx, tr[i + 1]);
    AnswerIsKept(tr, i + 1, j, t, tx);
    SettlingDecides(tr[j], t, done, tr[j + 1]);
  }
}
