/** Safety of the lifecycle over every interleaving. */
module LifecycleSafety {
  import opened Wrappers
  import opened TxStates
  import opened ChainRules
  import opened Lifecycle

  // ------------------------------------------------------------------
  // Invariants

  /** Not applied, and rejected by every rule check from here on. */
  ghost predicate Dead(c: Chain, p: Payload) {
    p.root in c.view.roots && !IsApplied(c, p.txFinal) && Rejection(c.view, p).Some?
  }

  ghost predicate ChainInv(c: Chain, proved: map<Hash, Payload>, requests: seq<Hash>) {
    && (forall tx :: tx in proved ==> proved[tx].txFinal == tx && proved[tx].root in c.view.roots)
    && (forall tx :: tx in proved && tx in c.verdicts ==> tx in requests)
    && (forall tx :: tx in proved && tx in c.verdicts && c.verdicts[tx] == Rejected ==> Dead(c, proved[tx]))
  }

  ghost predicate RecordOk(c: Chain, proved: map<Hash, Payload>, requests: seq<Hash>, tx: Hash, r: Record) {
    && tx in proved && r.payload == proved[tx]
    && r.payload.root in c.view.roots && c.view.roots[r.payload.root] == r.groundingBlock
    && (tx in requests || r.state.Submitted? ==> r.attempted)
    && (r.state.Landed? ==> IsApplied(c, tx))
    && (r.state.Expired? ==> Dead(c, r.payload))
  }

  ghost predicate RecordsInv(c: Chain, proved: map<Hash, Payload>, requests: seq<Hash>, records: map<Hash, Record>) {
    forall tx :: tx in records ==> RecordOk(c, proved, requests, tx, records[tx])
  }

  ghost predicate LogInv(log: History, records: map<Hash, Record>) {
    && (forall tx :: tx in log.requests ==> tx in log.proved)
    && (forall tx :: tx in log.deleted ==> tx in log.proved && tx !in log.requests && tx !in records)
    && (forall tx :: tx in log.accepted ==> tx in log.proved)
    && (forall tx :: tx in log.accepted && tx in records ==> !records[tx].state.Recorded?)
  }

  ghost predicate AgedDead(c: Chain, head: int, p: Payload) {
    p.root in c.view.roots && GroundingAgedOut(head, c.view.roots[p.root]) ==> Dead(c, p)
  }

  /** A settle pass never knows more than the chain: what it read still holds,
      and an absent status under an old enough head means the payload is dead. */
  ghost predicate SettleOk(c: Chain, proved: map<Hash, Payload>, x: Settling) {
    && (x.head.Some? ==> x.head.value <= c.view.head)
    && (forall tx :: tx in x.statuses ==> x.head.Some? && StatusOk(c, proved, x.head.value, tx, x.statuses[tx]))
  }

  ghost predicate StatusOk(c: Chain, proved: map<Hash, Payload>, head: int, tx: Hash, status: Option<Verdict>) {
    && (status.Some? ==> tx in c.verdicts)
    && (status == Some(Applied) ==> IsApplied(c, tx))
    && (status == Some(Rejected) && tx in proved ==> Dead(c, proved[tx]))
    && (status == None && tx in proved ==> AgedDead(c, head, proved[tx]))
  }

  ghost predicate SettlesInv(c: Chain, proved: map<Hash, Payload>, settles: map<nat, Settling>) {
    forall t :: t in settles ==> SettleOk(c, proved, settles[t])
  }

  predicate Early(stage: SubmitStage) { stage.Waiting? || stage.Entered? }

  predicate Attempted(stage: SubmitStage) { stage.Marked? || stage.InFlight? || stage.Responded? }

  ghost predicate SubmitOk(log: History, records: map<Hash, Record>, x: Submission) {
    && (!Early(x.stage) ==> x.tx in log.proved && x.tx !in log.accepted)
    && (x.stage.Loaded? || x.stage.Marked? ==> x.stage.payload == log.proved[x.tx])
    && (Attempted(x.stage) ==> x.tx !in log.deleted && (x.tx in records ==> records[x.tx].attempted))
  }

  ghost predicate SubmitsInv(log: History, records: map<Hash, Record>, submits: map<nat, Submission>) {
    forall t :: t in submits ==> SubmitOk(log, records, submits[t])
  }

  /** All live calls for one txFinal share the table's lock, and locks of
      different txFinals differ. */
  ghost predicate LocksInv(locks: map<Hash, nat>, nextLock: nat, submits: map<nat, Submission>) {
    && (forall t :: t in submits ==> submits[t].tx in locks && locks[submits[t].tx] == submits[t].lock)
    && (forall x :: x in locks ==> locks[x] < nextLock)
    && (forall x, y :: x in locks && y in locks && locks[x] == locks[y] ==> x == y)
  }

  /** At most one call per txFinal is past its lock. */
  ghost predicate Mutex(submits: map<nat, Submission>) {
    forall t, u ::
      t in submits && u in submits && t != u && submits[t].tx == submits[u].tx
      ==> submits[t].stage.Waiting? || submits[u].stage.Waiting?
  }

  predicate HasTx(stage: ProofStage) { stage.Proved? || stage.Committed? }

  function TxOf(stage: ProofStage): Hash
    requires HasTx(stage)
  {
    if stage.Proved? then stage.payload.txFinal else stage.tx
  }

  ghost predicate RootAt(roots: map<Root, int>, root: Root, block: int) {
    root in roots && roots[root] == block
  }

  ghost predicate ProofOk(roots: map<Root, int>, proved: map<Hash, Payload>, stage: ProofStage) {
    match stage
    case Holding => true
    case Grounded(root, block) => RootAt(roots, root, block)
    case Proved(p, block) => p.txFinal in proved && proved[p.txFinal] == p && RootAt(roots, p.root, block)
    case Committed(tx) => tx in proved
  }

  ghost predicate ProofsInv(roots: map<Root, int>, proved: map<Hash, Payload>, proofs: map<nat, Proof>) {
    && (forall p :: p in proofs ==> ProofOk(roots, proved, proofs[p].stage))
    && (forall p, q ::
          p in proofs && q in proofs && p != q && HasTx(proofs[p].stage) && HasTx(proofs[q].stage)
          ==> TxOf(proofs[p].stage) != TxOf(proofs[q].stage))
  }

  /** A transaction proved but not recorded is nowhere else. */
  ghost predicate Unrecorded(log: History, records: map<Hash, Record>, submits: map<nat, Submission>, tx: Hash) {
    && tx !in records && tx !in log.requests && tx !in log.deleted && tx !in log.accepted
    && (forall t :: t in submits && submits[t].tx == tx ==> Early(submits[t].stage))
  }

  ghost predicate UnrecordedInv(
    log: History, records: map<Hash, Record>, submits: map<nat, Submission>, proofs: map<nat, Proof>)
  {
    forall p :: p in proofs && proofs[p].stage.Proved? ==>
      Unrecorded(log, records, submits, proofs[p].stage.payload.txFinal)
  }

  /** Every hold is a live proof's, and every file of a live proof is held. */
  ghost predicate HoldsInv(holds: map<File, nat>, proofs: map<nat, Proof>) {
    && (forall p, f :: p in proofs && f in proofs[p].files ==> f in holds && holds[f] == p)
    && (forall f :: f in holds ==> holds[f] in proofs && f in proofs[holds[f]].files)
  }

  predicate Spends(records: map<Hash, Record>, tx: Hash, f: File) {
    tx in records && IsOpen(records[tx]) && f in records[tx].inputs
  }

  /** An input that is held and spent by an open record is that record's own
      proof's; open records share no input. */
  ghost predicate ExclusiveInv(proofs: map<nat, Proof>, records: map<Hash, Record>) {
    && (forall p, f, tx ::
          p in proofs && f in proofs[p].files && Spends(records, tx, f) ==> proofs[p].stage == Committed(tx))
    && (forall tx, ty, f :: Spends(records, tx, f) && Spends(records, ty, f) ==> tx == ty)
  }

  /** A record whose proof is still alive spends exactly its held files. */
  ghost predicate HandoverInv(proofs: map<nat, Proof>, records: map<Hash, Record>) {
    forall p :: p in proofs && proofs[p].stage.Committed? && proofs[p].stage.tx in records
      ==> records[proofs[p].stage.tx].inputs == proofs[p].files
  }

  ghost predicate ChainSide(s: Sys) {
    && ChainInv(s.chain, s.log.proved, s.log.requests)
    && RecordsInv(s.chain, s.log.proved, s.log.requests, s.records)
    && SettlesInv(s.chain, s.log.proved, s.mem.settles)
  }

  ghost predicate SubmitSide(s: Sys) {
    && LogInv(s.log, s.records)
    && SubmitsInv(s.log, s.records, s.mem.submits)
    && LocksInv(s.mem.locks, s.mem.nextLock, s.mem.submits)
    && Mutex(s.mem.submits)
  }

  ghost predicate ProofSide(s: Sys) {
    && ProofsInv(s.chain.view.roots, s.log.proved, s.mem.proofs)
    && UnrecordedInv(s.log, s.records, s.mem.submits, s.mem.proofs)
    && HoldsInv(s.mem.holds, s.mem.proofs)
    && ExclusiveInv(s.mem.proofs, s.records)
    && HandoverInv(s.mem.proofs, s.records)
  }

  ghost predicate Inv(s: Sys) {
    ChainSide(s) && SubmitSide(s) && ProofSide(s)
  }

  // ------------------------------------------------------------------
  // The chain

  lemma IncludedExtends(c: Chain, q: Payload)
    ensures Extends(c.view, Included(c, q).view)
    ensures Included(c, q).view.roots == c.view.roots && Included(c, q).view.head == c.view.head
    ensures forall tx :: IsApplied(c, tx) ==> IsApplied(Included(c, q), tx)
    ensures forall tx :: tx in c.verdicts ==> tx in Included(c, q).verdicts
    ensures forall tx :: tx in Included(c, q).verdicts ==> tx in c.verdicts || tx == q.txFinal
  {
  }

  /** A dead payload is not revived by an inclusion. */
  lemma IncludedKeepsDead(c: Chain, q: Payload, p: Payload)
    requires Dead(c, p)
    requires q.txFinal == p.txFinal ==> q == p
    ensures Dead(Included(c, q), p)
  {
    IncludedExtends(c, q);
    RejectionIsFinal(c.view, Included(c, q).view, p);
  }

  /** An inclusion of one of our payloads that does not apply it leaves it dead. */
  lemma IncludedRejectedIsDead(c: Chain, p: Payload)
    requires p.root in c.view.roots
    requires !IsApplied(Included(c, p), p.txFinal)
    ensures Dead(Included(c, p), p)
  {
  }

  lemma {:induction false} AllIncludedFacts(c: Chain, ps: seq<Payload>)
    ensures var d := AllIncluded(c, ps);
            && Extends(c.view, d.view) && d.view.roots == c.view.roots && d.view.head == c.view.head
            && (forall tx :: IsApplied(c, tx) ==> IsApplied(d, tx))
            && (forall tx :: tx in c.verdicts ==> tx in d.verdicts)
            && (forall tx :: tx in d.verdicts ==> tx in c.verdicts || exists q :: q in ps && q.txFinal == tx)
    decreases |ps|
  {
    if ps != [] {
      var c1, d := Included(c, ps[0]), AllIncluded(c, ps);
      IncludedExtends(c, ps[0]);
      AllIncludedFacts(c1, ps[1..]);
      ExtendsTransitive(c.view, c1.view, d.view);
      forall tx | tx in d.verdicts && tx !in c.verdicts
        ensures exists q :: q in ps && q.txFinal == tx
      {
        if tx in c1.verdicts {
          assert ps[0] in ps;
        } else {
          var q :| q in ps[1..] && q.txFinal == tx;
          assert q in ps;
        }
      }
    }
  }

  lemma {:induction false} AllIncludedDead(c: Chain, ps: seq<Payload>, p: Payload)
    requires forall q :: q in ps && q.txFinal == p.txFinal ==> q == p
    requires p.root in c.view.roots
    requires Dead(c, p) || (p.txFinal in c.verdicts && c.verdicts[p.txFinal] == Applied)
          || (p.txFinal !in c.verdicts && p.txFinal in AllIncluded(c, ps).verdicts)
    ensures IsApplied(AllIncluded(c, ps), p.txFinal) || Dead(AllIncluded(c, ps), p)
    ensures Dead(c, p) ==> Dead(AllIncluded(c, ps), p)
    decreases |ps|
  {
    if ps != [] {
      var c1 := Included(c, ps[0]);
      assert ps[0] in ps;
      assert forall q :: q in ps[1..] ==> q in ps;
      IncludedExtends(c, ps[0]);
      if Dead(c, p) {
        IncludedKeepsDead(c, ps[0], p);
      } else if ps[0] == p && !IsApplied(c1, p.txFinal) {
        IncludedRejectedIsDead(c, p);
      }
      AllIncludedDead(c1, ps[1..], p);
    }
  }

  /** What a block does to one payload of ours: it is applied, stays dead, or
      becomes dead, or is untouched. */
  lemma BlockVerdict(c: Chain, ps: seq<Payload>, root: Root, p: Payload)
    requires root !in c.view.roots && p.root in c.view.roots
    requires forall q :: q in ps && q.txFinal == p.txFinal ==> q == p
    requires p.txFinal in c.verdicts && c.verdicts[p.txFinal] == Rejected ==> Dead(c, p)
    ensures var d := NextBlock(c, ps, root);
            && (Dead(c, p) ==> Dead(d, p))
            && (p.txFinal in d.verdicts && d.verdicts[p.txFinal] == Rejected ==> Dead(d, p))
  {
    var e, d := AllIncluded(c, ps), NextBlock(c, ps, root);
    AllIncludedFacts(c, ps);
    if p.txFinal in e.verdicts || Dead(c, p) {
      AllIncludedDead(c, ps, p);
      if Dead(e, p) {
        assert Extends(e.view, d.view);
        RejectionIsFinal(e.view, d.view, p);
      }
    }
  }

  lemma BlockGrows(c: Chain, ps: seq<Payload>, root: Root)
    requires root !in c.view.roots
    ensures var d := NextBlock(c, ps, root);
            && d.view.head == c.view.head + 1
            && (forall r :: r in c.view.roots ==> r in d.view.roots && d.view.roots[r] == c.view.roots[r])
            && (forall tx :: IsApplied(c, tx) ==> IsApplied(d, tx))
            && (forall tx :: tx in c.verdicts ==> tx in d.verdicts)
            && (forall tx :: tx in d.verdicts ==> tx in c.verdicts || exists q :: q in ps && q.txFinal == tx)
  {
    AllIncludedFacts(c, ps);
  }

  /** Old enough at a head already passed means rejected from here on. */
  lemma AgedIsDead(c: Chain, p: Payload, head: int)
    requires p.root in c.view.roots && head <= c.view.head
    requires GroundingAgedOut(head, c.view.roots[p.root])
    requires !IsApplied(c, p.txFinal)
    ensures Dead(c, p)
  {
  }

  lemma SettleOkGrows(c: Chain, d: Chain, proved: map<Hash, Payload>, x: Settling)
    requires SettleOk(c, proved, x) && c.view.head <= d.view.head
    requires forall tx :: IsApplied(c, tx) ==> IsApplied(d, tx)
    requires forall tx :: tx in c.verdicts ==> tx in d.verdicts
    requires forall tx :: tx in proved ==> proved[tx].root in c.view.roots
    requires forall r :: r in c.view.roots ==> r in d.view.roots && d.view.roots[r] == c.view.roots[r]
    requires forall tx :: tx in proved && Dead(c, proved[tx]) ==> Dead(d, proved[tx])
    ensures SettleOk(d, proved, x)
  {
  }

  /** One block keeps everything that speaks of the chain. */
  lemma BlockKeepsChainSide(s: Sys, ps: seq<Payload>, root: Root)
    requires ChainSide(s) && CanMakeBlock(s, ps, root)
    ensures ChainSide(MakeBlock(s, ps, root))
  {
    var c, d, proved := s.chain, NextBlock(s.chain, ps, root), s.log.proved;
    BlockGrows(c, ps, root);
    forall tx | tx in proved
      ensures Dead(c, proved[tx]) ==> Dead(d, proved[tx])
      ensures tx in d.verdicts && d.verdicts[tx] == Rejected ==> Dead(d, proved[tx])
    {
      BlockVerdict(c, ps, root, proved[tx]);
    }
    forall t | t in s.mem.settles ensures SettleOk(d, proved, s.mem.settles[t]) {
      SettleOkGrows(c, d, proved, s.mem.settles[t]);
    }
  }

  lemma BlockKeeps(s: Sys, ps: seq<Payload>, root: Root)
    requires Inv(s) && CanMakeBlock(s, ps, root)
    ensures Inv(MakeBlock(s, ps, root))
  {
    BlockKeepsChainSide(s, ps, root);
    BlockGrows(s.chain, ps, root);
  }

  // ------------------------------------------------------------------
  // Records only move forward

  /** What a change of state does to a record: its contents stay, its attempt
      mark stays, and it does not reopen. */
  predicate Ages(r: Record, r': Record) {
    && r'.payload == r.payload && r'.groundingBlock == r.groundingBlock && r'.inputs == r.inputs
    && (r.attempted ==> r'.attempted)
    && (IsOpen(r') ==> IsOpen(r))
    && (r'.state.Recorded? ==> r.state.Recorded?)
  }

  ghost predicate Shrinks(records: map<Hash, Record>, records': map<Hash, Record>) {
    forall tx :: tx in records' ==> tx in records && Ages(records[tx], records'[tx])
  }

  lemma ShrinkExclusive(proofs: map<nat, Proof>, records: map<Hash, Record>, records': map<Hash, Record>)
    requires ExclusiveInv(proofs, records) && Shrinks(records, records')
    ensures ExclusiveInv(proofs, records')
  {
    assert forall tx, f :: Spends(records', tx, f) ==> Spends(records, tx, f);
  }

  lemma ShrinkProofSide(s: Sys, records': map<Hash, Record>)
    requires ProofSide(s) && Shrinks(s.records, records')
    ensures ProofSide(s.(records := records'))
  {
    ShrinkExclusive(s.mem.proofs, s.records, records');
  }

  lemma ShrinkSubmitSide(s: Sys, records': map<Hash, Record>)
    requires SubmitSide(s) && Shrinks(s.records, records')
    ensures SubmitSide(s.(records := records'))
  {
  }

  lemma DeleteKeeps(s: Sys, tx: Hash)
    requires Inv(s) && CanDelete(s, tx)
    ensures Inv(Delete(s, tx))
  {
    var t := s.(records := s.records - {tx});
    ShrinkProofSide(s, s.records - {tx});
    ShrinkSubmitSide(s, s.records - {tx});
    assert tx !in s.log.requests;
    DeletedSubmitSide(s, tx);
    DeletedProofSide(s, tx);
  }

  lemma DeletedSubmitSide(s: Sys, tx: Hash)
    requires SubmitSide(s) && CanDelete(s, tx) && tx !in s.log.requests && tx in s.log.proved
    ensures SubmitSide(Delete(s, tx))
  {
  }

  lemma DeletedProofSide(s: Sys, tx: Hash)
    requires ProofSide(s) && tx in s.records
    ensures ProofSide(Delete(s, tx))
  {
    ShrinkProofSide(s, s.records - {tx});
  }

  lemma PruneKeeps(s: Sys, tx: Hash)
    requires Inv(s) && CanPrune(s, tx)
    ensures Inv(Prune(s, tx))
  {
    ShrinkProofSide(s, s.records - {tx});
    ShrinkSubmitSide(s, s.records - {tx});
  }

  /** Settling a record lands it only if applied and expires it only if dead. */
  lemma SettledOk(c: Chain, proved: map<Hash, Payload>, requests: seq<Hash>, tx: Hash, r: Record, x: Settling)
    requires ChainInv(c, proved, requests) && RecordOk(c, proved, requests, tx, r) && SettleOk(c, proved, x)
    ensures RecordOk(c, proved, requests, tx, SettledRecord(x, tx, r))
    ensures Ages(r, SettledRecord(x, tx, r))
  {
    if SettledRecord(x, tx, r) != r {
      if tx !in x.statuses {
        assert tx !in c.verdicts;
        AgedIsDead(c, r.payload, x.head.value);
      } else {
        var status := x.statuses[tx];
        assert StatusOk(c, proved, x.head.value, tx, status);
        assert status == None || status.value.Applied? || status.value.Rejected?;
      }
    }
  }

  lemma ApplySettleKeeps(s: Sys, t: nat, done: set<Hash>)
    requires Inv(s) && CanApplySettle(s, t)
    ensures Inv(ApplySettle(s, t, done))
  {
    var records' := SettledRecords(s.mem.settles[t], done, s.records);
    forall tx | tx in s.records
      ensures RecordOk(s.chain, s.log.proved, s.log.requests, tx, records'[tx]) && Ages(s.records[tx], records'[tx])
    {
      SettledOk(s.chain, s.log.proved, s.log.requests, tx, s.records[tx], s.mem.settles[t]);
    }
    ShrinkProofSide(s, records');
    ShrinkSubmitSide(s, records');
  }

  lemma CrashKeeps(s: Sys)
    requires Inv(s)
    ensures Inv(Crash(s))
  {
  }

  // ------------------------------------------------------------------
  // prove and record

  lemma TakeHoldsKeeps(s: Sys, p: nat, files: seq<File>)
    requires Inv(s) && CanTakeHolds(s, p, files)
    ensures Inv(TakeHolds(s, p, files))
  {
    var m := TakeHolds(s, p, files).mem;
    TakenHolds(s.mem.holds, s.mem.proofs, p, files);
    assert ExclusiveInv(m.proofs, s.records) by {
      forall f | f in files ensures forall tx :: !Spends(s.records, tx, f) {
        assert !Locked(s.records, f);
      }
    }
  }

  lemma TakenHolds(holds: map<File, nat>, proofs: map<nat, Proof>, p: nat, files: seq<File>)
    requires HoldsInv(holds, proofs) && p !in proofs
    requires forall f :: f in files ==> f !in holds
    ensures HoldsInv(holds + map f | f in files :: p, proofs[p := Proof(files, Holding)])
  {
  }

  /** A proof that is not committed may move to another stage without touching
      what the holds and records agree on. */
  lemma StageKeepsHolds(s: Sys, p: nat, stage: ProofStage)
    requires p in s.mem.proofs
    requires HoldsInv(s.mem.holds, s.mem.proofs) && ExclusiveInv(s.mem.proofs, s.records)
    requires HandoverInv(s.mem.proofs, s.records)
    requires !s.mem.proofs[p].stage.Committed? && !stage.Committed?
    ensures var m := WithStage(s.mem, p, stage);
            HoldsInv(m.holds, m.proofs) && ExclusiveInv(m.proofs, s.records) && HandoverInv(m.proofs, s.records)
  {
  }

  lemma GroundKeeps(s: Sys, p: nat, root: Root)
    requires Inv(s) && CanGround(s, p, root)
    ensures Inv(Ground(s, p, root))
  {
    StageKeepsHolds(s, p, Grounded(root, s.chain.view.head));
  }

  lemma FinishProofKeeps(s: Sys, p: nat, payload: Payload)
    requires Inv(s) && CanFinishProof(s, p, payload)
    ensures Inv(FinishProof(s, p, payload))
  {
    FinishedChainSide(s, p, payload);
    FinishedSubmitSide(s, p, payload);
    StageKeepsHolds(s, p, Proved(payload, s.mem.proofs[p].stage.block));
    FinishedProofs(s, p, payload);
  }

  lemma FinishedChainSide(s: Sys, p: nat, payload: Payload)
    requires ChainSide(s) && CanFinishProof(s, p, payload)
    requires payload.root in s.chain.view.roots
    ensures ChainSide(FinishProof(s, p, payload))
  {
    var c, proved' := s.chain, s.log.proved[payload.txFinal := payload];
    forall t | t in s.mem.settles ensures SettleOk(c, proved', s.mem.settles[t]) {
      var x := s.mem.settles[t];
      forall tx | tx in x.statuses ensures StatusOk(c, proved', x.head.value, tx, x.statuses[tx]) {
        assert StatusOk(c, s.log.proved, x.head.value, tx, x.statuses[tx]);
        if tx == payload.txFinal && GroundingAgedOut(x.head.value, c.view.roots[payload.root]) {
          AgedIsDead(c, payload, x.head.value);
        }
      }
    }
  }

  lemma FinishedSubmitSide(s: Sys, p: nat, payload: Payload)
    requires SubmitSide(s) && CanFinishProof(s, p, payload)
    ensures SubmitSide(FinishProof(s, p, payload))
  {
  }

  lemma FinishedProofs(s: Sys, p: nat, payload: Payload)
    requires Inv(s) && CanFinishProof(s, p, payload)
    ensures var u := FinishProof(s, p, payload);
            && ProofsInv(u.chain.view.roots, u.log.proved, u.mem.proofs)
            && UnrecordedInv(u.log, u.records, u.mem.submits, u.mem.proofs)
  {
    hide SettlesInv, HoldsInv, ExclusiveInv, HandoverInv, LocksInv, Mutex, RecordsInv;
    var tx := payload.txFinal;
    RecordsKnown(s);
    assert Unrecorded(s.log, s.records, s.mem.submits, tx);
  }

  lemma RecordsKnown(s: Sys)
    requires Inv(s)
    ensures forall tx :: tx in s.records ==> tx in s.log.proved
  {
  }

  lemma CommitRecordKeeps(s: Sys, p: nat)
    requires Inv(s) && CanCommitRecord(s, p)
    ensures Inv(CommitRecord(s, p))
  {
    var tx := s.mem.proofs[p].stage.payload.txFinal;
    assert Unrecorded(s.log, s.records, s.mem.submits, tx);
    CommittedChainSide(s, p);
    CommittedSubmitSide(s, p);
    CommittedProofs(s, p);
    CommittedHolds(s, p);
  }

  lemma CommittedChainSide(s: Sys, p: nat)
    requires ChainSide(s) && CanCommitRecord(s, p)
    requires ProofOk(s.chain.view.roots, s.log.proved, s.mem.proofs[p].stage)
    requires s.mem.proofs[p].stage.payload.txFinal !in s.log.requests
    ensures ChainSide(CommitRecord(s, p))
  {
  }

  lemma CommittedSubmitSide(s: Sys, p: nat)
    requires SubmitSide(s) && CanCommitRecord(s, p)
    requires Unrecorded(s.log, s.records, s.mem.submits, s.mem.proofs[p].stage.payload.txFinal)
    ensures SubmitSide(CommitRecord(s, p))
  {
  }

  lemma CommittedProofs(s: Sys, p: nat)
    requires ProofSide(s) && CanCommitRecord(s, p)
    ensures var u := CommitRecord(s, p);
            && ProofsInv(u.chain.view.roots, u.log.proved, u.mem.proofs)
            && UnrecordedInv(u.log, u.records, u.mem.submits, u.mem.proofs)
  {
    assert HasTx(s.mem.proofs[p].stage);
    forall q | q in s.mem.proofs && q != p && s.mem.proofs[q].stage.Proved?
      ensures s.mem.proofs[q].stage.payload.txFinal != s.mem.proofs[p].stage.payload.txFinal
    {
      assert TxOf(s.mem.proofs[q].stage) != TxOf(s.mem.proofs[p].stage);
    }
  }

  /** Ownership of the inputs passes from the hold to the record. */
  lemma CommittedHolds(s: Sys, p: nat)
    requires ProofSide(s) && CanCommitRecord(s, p)
    ensures var u := CommitRecord(s, p);
            && HoldsInv(u.mem.holds, u.mem.proofs) && ExclusiveInv(u.mem.proofs, u.records)
            && HandoverInv(u.mem.proofs, u.records)
  {
    CommittedExclusive(s, p);
    CommittedHandover(s, p);
  }

  lemma CommittedHandover(s: Sys, p: nat)
    requires ProofsInv(s.chain.view.roots, s.log.proved, s.mem.proofs) && HoldsInv(s.mem.holds, s.mem.proofs)
    requires HandoverInv(s.mem.proofs, s.records) && CanCommitRecord(s, p)
    ensures var u := CommitRecord(s, p); HoldsInv(u.mem.holds, u.mem.proofs) && HandoverInv(u.mem.proofs, u.records)
  {
    var tx := s.mem.proofs[p].stage.payload.txFinal;
    forall q | q in s.mem.proofs && q != p && s.mem.proofs[q].stage.Committed? ensures s.mem.proofs[q].stage.tx != tx {
      assert TxOf(s.mem.proofs[q].stage) != TxOf(s.mem.proofs[p].stage);
    }
  }

  lemma CommittedExclusive(s: Sys, p: nat)
    requires HoldsInv(s.mem.holds, s.mem.proofs) && ExclusiveInv(s.mem.proofs, s.records) && CanCommitRecord(s, p)
    ensures var u := CommitRecord(s, p); ExclusiveInv(u.mem.proofs, u.records)
  {
    var u, tx, files := CommitRecord(s, p), s.mem.proofs[p].stage.payload.txFinal, s.mem.proofs[p].files;
    forall f, ty ensures Spends(u.records, ty, f) <==> if ty == tx then f in files else Spends(s.records, ty, f) {
    }
    forall f, ty | f in files ensures !Spends(s.records, ty, f) {
      assert !Locked(s.records, f);
    }
    forall q, f, ty | q in u.mem.proofs && f in u.mem.proofs[q].files && Spends(u.records, ty, f)
      ensures u.mem.proofs[q].stage == Committed(ty)
    {
      assert f in s.mem.proofs[q].files && s.mem.holds[f] == q;
      if ty == tx {
        assert s.mem.holds[f] == p;
      }
    }
  }

  lemma DropProofKeeps(s: Sys, p: nat)
    requires Inv(s) && p in s.mem.proofs
    ensures Inv(DropProof(s, p))
  {
    DroppedHolds(s.mem.holds, s.mem.proofs, p);
  }

  lemma DroppedHolds(holds: map<File, nat>, proofs: map<nat, Proof>, p: nat)
    requires HoldsInv(holds, proofs) && p in proofs
    ensures HoldsInv(holds - Elements(proofs[p].files), proofs - {p})
  {
  }

  // ------------------------------------------------------------------
  // submit

  lemma OpenSubmitKeeps(s: Sys, t: nat, tx: Hash)
    requires Inv(s) && t !in s.mem.submits
    ensures Inv(OpenSubmit(s, t, tx))
  {
    hide ChainInv, RecordsInv, SettlesInv, LogInv, LocksInv, SubmitsInv, Mutex, ProofsInv, UnrecordedInv, HoldsInv;
    hide ExclusiveInv, HandoverInv, LockAlive;
    var n := Opened(s.mem, t, tx);
    OpenedLocks(s.mem, t, tx);
    OpenedSubmits(s, t, tx, n.submits[t].lock);
  }

  lemma OpenedSubmits(s: Sys, t: nat, tx: Hash, lock: nat)
    requires SubmitSide(s) && ProofSide(s) && t !in s.mem.submits
    ensures var submits := s.mem.submits[t := Submission(tx, lock, Waiting)];
            && SubmitsInv(s.log, s.records, submits) && Mutex(submits)
            && UnrecordedInv(s.log, s.records, submits, s.mem.proofs)
  {
  }

  /** The weak table never has two live locks for one txFinal. */
  lemma OpenedLocks(m: Memory, t: nat, tx: Hash)
    requires LocksInv(m.locks, m.nextLock, m.submits) && t !in m.submits
    ensures var n := Opened(m, t, tx); LocksInv(n.locks, n.nextLock, n.submits)
  {
    forall u | u in m.submits ensures LockAlive(m, m.submits[u].tx) {
    }
  }

  lemma AdvanceKeeps(s: Sys, t: nat, stage: SubmitStage)
    requires Inv(s) && CanAdvance(s, t, stage)
    ensures Inv(Advance(s, t, stage))
  {
    var x := s.mem.submits[t];
    if stage.RecordRead? {
      assert RecordOk(s.chain, s.log.proved, s.log.requests, x.tx, s.records[x.tx]);
    }
    if stage.Loaded? {
      assert RecordOk(s.chain, s.log.proved, s.log.requests, x.tx, s.records[x.tx]);
    }
    AdvancedSubmitSide(s, t, stage);
    AdvancedUnrecorded(s, t, stage);
  }

  lemma AdvancedSubmitSide(s: Sys, t: nat, stage: SubmitStage)
    requires SubmitSide(s) && t in s.mem.submits
    requires SubmitOk(s.log, s.records, s.mem.submits[t].(stage := stage))
    requires s.mem.submits[t].stage.Waiting? ==>
      forall u :: u in s.mem.submits && s.mem.submits[u].lock == s.mem.submits[t].lock ==>
        s.mem.submits[u].stage.Waiting?
    ensures SubmitSide(Advance(s, t, stage))
  {
  }

  lemma AdvancedUnrecorded(s: Sys, t: nat, stage: SubmitStage)
    requires ProofSide(s) && t in s.mem.submits
    requires Early(stage) || s.mem.submits[t].tx in s.records || !Early(s.mem.submits[t].stage)
    ensures ProofSide(Advance(s, t, stage))
  {
  }

  lemma MarkAttemptKeeps(s: Sys, t: nat)
    requires Inv(s) && CanMarkAttempt(s, t)
    ensures Inv(MarkAttempt(s, t))
  {
    var x := s.mem.submits[t];
    var records' := s.records[x.tx := s.records[x.tx].(attempted := true)];
    var u := s.(records := records');
    assert RecordOk(s.chain, s.log.proved, s.log.requests, x.tx, s.records[x.tx]);
    ShrinkProofSide(s, records');
    ShrinkSubmitSide(s, records');
    AdvancedSubmitSide(u, t, Marked(x.stage.payload));
    AdvancedUnrecorded(u, t, Marked(x.stage.payload));
  }

  lemma PostKeeps(s: Sys, t: nat)
    requires Inv(s) && CanPost(s, t)
    ensures Inv(Post(s, t))
  {
    var x := s.mem.submits[t];
    var u := Advance(s, t, InFlight);
    AdvancedSubmitSide(s, t, InFlight);
    AdvancedUnrecorded(s, t, InFlight);
    assert x.stage.payload.txFinal == x.tx;
    PostedChainSide(u, x.tx);
    PostedSubmitSide(u, x.tx);
    PostedProofSide(u, x.tx, t);
  }

  function WithRequest(s: Sys, tx: Hash): Sys {
    s.(log := s.log.(requests := s.log.requests + [tx]))
  }

  lemma PostedChainSide(s: Sys, tx: Hash)
    requires ChainSide(s)
    requires tx in s.records ==> s.records[tx].attempted
    ensures ChainSide(WithRequest(s, tx))
  {
  }

  lemma PostedSubmitSide(s: Sys, tx: Hash)
    requires SubmitSide(s) && tx in s.log.proved && tx !in s.log.deleted
    ensures SubmitSide(WithRequest(s, tx))
  {
  }

  lemma PostedProofSide(s: Sys, tx: Hash, t: nat)
    requires ProofSide(s)
    requires t in s.mem.submits && s.mem.submits[t].tx == tx && !Early(s.mem.submits[t].stage)
    ensures ProofSide(WithRequest(s, tx))
  {
  }

  lemma EndSubmitKeeps(s: Sys, t: nat)
    requires Inv(s)
    ensures Inv(EndSubmit(s, t))
  {
  }

  lemma SaveSubmittedKeeps(s: Sys, t: nat)
    requires Inv(s) && CanSaveSubmitted(s, t)
    ensures Inv(SaveSubmitted(s, t))
  {
    var tx := s.mem.submits[t].tx;
    var u := EndSubmit(s, t);
    EndSubmitKeeps(s, t);
    var records' := s.records[tx := s.records[tx].(state := Submitted)];
    OthersWait(s, t);
    hide ProofSide, SubmitSide;
    assert RecordOk(s.chain, s.log.proved, s.log.requests, tx, s.records[tx]);
    ShrinkProofSide(u, records');
    ShrinkSubmitSide(u, records');
    AcceptedSides(u.(records := records'), tx);
  }

  lemma OthersWait(s: Sys, t: nat)
    requires Inv(s) && CanSaveSubmitted(s, t)
    ensures var tx := s.mem.submits[t].tx;
      && SubmitOk(s.log, s.records, s.mem.submits[t])
      && forall v :: v in s.mem.submits && v != t && s.mem.submits[v].tx == tx ==> s.mem.submits[v].stage.Waiting?
  {
  }

  lemma AcceptedSides(s: Sys, tx: Hash)
    requires SubmitSide(s) && ProofSide(s)
    requires tx in s.log.proved && tx in s.records && !s.records[tx].state.Recorded?
    requires forall v :: v in s.mem.submits && s.mem.submits[v].tx == tx ==> s.mem.submits[v].stage.Waiting?
    ensures var u := s.(log := s.log.(accepted := s.log.accepted + {tx})); SubmitSide(u) && ProofSide(u)
  {
  }

  // ------------------------------------------------------------------
  // settle

  lemma SettlingKeeps(s: Sys, t: nat, x: Settling)
    requires Inv(s) && SettleOk(s.chain, s.log.proved, x)
    ensures Inv(WithSettling(s, t, x))
  {
  }

  lemma OpenSettleKeeps(s: Sys, t: nat, queried: set<Hash>, needed: set<Hash>)
    requires Inv(s)
    ensures Inv(OpenSettle(s, t, queried, needed))
  {
  }

  lemma ReadHeadKeeps(s: Sys, t: nat)
    requires Inv(s) && CanReadHead(s, t)
    ensures Inv(ReadHead(s, t))
  {
  }

  lemma ReadStatusKeeps(s: Sys, t: nat, tx: Hash)
    requires Inv(s) && CanReadStatus(s, t, tx)
    ensures Inv(ReadStatus(s, t, tx))
  {
    var x := ReadStatus(s, t, tx).mem.settles[t];
    assert SettleOk(s.chain, s.log.proved, s.mem.settles[t]);
    assert StatusOk(s.chain, s.log.proved, x.head.value, tx, x.statuses[tx]) by {
      if tx in s.log.proved && tx !in s.chain.verdicts {
        var p := s.log.proved[tx];
        if GroundingAgedOut(x.head.value, s.chain.view.roots[p.root]) {
          AgedIsDead(s.chain, p, x.head.value);
        }
      }
    }
    SettlingKeeps(s, t, x);
  }

  lemma EndSettleKeeps(s: Sys, t: nat)
    requires Inv(s)
    ensures Inv(EndSettle(s, t))
  {
  }
}
