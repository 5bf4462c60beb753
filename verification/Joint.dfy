/** The lifecycle and the store together: both see the same records, so what
    the chain decides and what becomes of the object files fit. */
module Joint {
  import opened Wrappers
  import opened TxStates
  import opened ChainRules
  import L = Lifecycle
  import LS = LifecycleSafety
  import LT = LifecycleTheorems
  import opened Naming
  import opened ObjectStore
  import opened Settlement
  import opened StoreMoves
  import opened StoreTheorems
  import S = StoreSteps

  datatype Joint = Joint(sys: L.Sys, store: State)

  /** The same transactions, in the same state, marked and grounded alike. */
  predicate Agree(r: map<Hash, L.Record>, q: map<Tx, Rec>) {
    r.Keys == q.Keys && forall tx :: tx in r ==> IsSame(r[tx], q[tx])
  }

  predicate IsSame(r: L.Record, q: Rec) {
    r.state == q.state && r.attempted == q.attempted && r.groundingBlock == q.groundingBlock
  }

  /** The moves by which records change. */
  predicate ChangesRecords(m: Move) {
    m.PutDraft? || m.CommitDraft? || m.DropRecord? || m.DropDraft? || m.DropPayload?
  }

  ghost predicate CommitStep(s: State, t: State) {
    exists m :: ChangesRecords(m) && Takes(s, m, t)
  }

  /** Some records were written or removed, one after the other. */
  ghost predicate Commits(run: seq<State>, s: State, t: State) {
    && run != [] && run[0] == s && run[|run| - 1] == t
    && forall i, j :: 0 <= i < j < |run| && j == i + 1 ==> CommitStep(run[i], run[j])
  }

  /** A step of the lifecycle, with what it does to the records on disk. */
  ghost predicate LifecycleStep(j: Joint, k: Joint) {
    && (exists step :: L.Takes(j.sys, step, k.sys))
    && exists run :: Commits(run, j.store, k.store)
  }

  /** A proof of the transaction is ready to be recorded. */
  ghost predicate IsProved(s: L.Sys, tx: Hash) {
    exists p :: p in s.mem.proofs && s.mem.proofs[p].stage.Proved? && s.mem.proofs[p].stage.payload.txFinal == tx
  }

  /** A move of the store; only a proved transaction is recorded. */
  ghost predicate StoreMove(j: Joint, m: Move, k: Joint) {
    k.sys == j.sys && Takes(j.store, m, k.store) && (m.StartWriting? ==> IsProved(j.sys, m.tx))
  }

  ghost predicate Next(j: Joint, k: Joint) {
    Agree(k.sys.records, k.store.records) && (LifecycleStep(j, k) || exists m :: StoreMove(j, m, k))
  }

  ghost predicate Run(js: seq<Joint>) {
    && js != [] && L.Init(js[0].sys) && Init(js[0].store)
    && forall i, j :: 0 <= i < j < |js| && j == i + 1 ==> Next(js[i], js[j])
  }

  // ------------------------------------------------------------------
  // Invariant

  /** A transaction being recorded has been proved and is nowhere else. */
  ghost predicate WritingOk(s: L.Sys, writing: Option<Writing>) {
    writing.Some? ==>
      && writing.value.tx in s.log.proved
      && LS.Unrecorded(s.log, s.records, s.mem.submits, writing.value.tx)
  }

  ghost predicate JointInv(j: Joint) {
    LS.Inv(j.sys) && Inv(j.store) && Agree(j.sys.records, j.store.records) && WritingOk(j.sys, j.store.writing)
  }

  lemma CommitKeeps(s: State, t: State)
    requires CommitStep(s, t) && Inv(s)
    ensures Inv(t) && t.disk == s.disk && (t.writing == s.writing || t.writing == None)
  {
    var m :| ChangesRecords(m) && Takes(s, m, t);
    RecordMoveKeeps(s, m, t);
    hide Inv, MayUpdate, MayCommit, ToldBy, FileMove;
  }

  lemma FrontCommits(run: seq<State>, s: State, t: State)
    requires Commits(run, s, t) && |run| > 1
    ensures Commits(run[..|run| - 1], s, run[|run| - 2]) && CommitStep(run[|run| - 2], t)
  {
  }

  lemma {:induction false} CommitsKeep(run: seq<State>, s: State, t: State)
    requires Commits(run, s, t) && Inv(s)
    ensures Inv(t) && t.disk == s.disk && (t.writing == s.writing || t.writing == None)
    decreases |run|
  {
    hide CommitStep, Inv;
    if |run| > 1 {
      FrontCommits(run, s, t);
      CommitsKeep(run[..|run| - 1], s, run[|run| - 2]);
      CommitKeeps(run[|run| - 2], t);
    }
  }

  lemma UnrecordedStays(s: L.Sys, step: L.Step, s': L.Sys, tx: Hash)
    requires LS.Inv(s) && L.Takes(s, step, s') && tx in s.log.proved && tx !in s'.records
    requires LS.Unrecorded(s.log, s.records, s.mem.submits, tx)
    ensures tx in s'.log.proved && LS.Unrecorded(s'.log, s'.records, s'.mem.submits, tx)
  {
    if step.PostStep? {
      LT.TakesPost(s, step.t, s');
      PostIsOther(s, step.t, tx);
    } else {
      hide LS.Inv;
      OtherUnrecorded(s, step, s', tx);
    }
  }

  lemma PostIsOther(s: L.Sys, t: nat, tx: Hash)
    requires LS.Inv(s) && L.CanPost(s, t) && LS.Unrecorded(s.log, s.records, s.mem.submits, tx)
    ensures s.mem.submits[t].stage.payload.txFinal != tx && s.mem.submits[t].tx != tx
  {
  }

  lemma OtherUnrecorded(s: L.Sys, step: L.Step, s': L.Sys, tx: Hash)
    requires L.Takes(s, step, s') && !step.PostStep? && tx in s.log.proved && tx !in s'.records
    requires LS.Unrecorded(s.log, s.records, s.mem.submits, tx)
    ensures tx in s'.log.proved && LS.Unrecorded(s'.log, s'.records, s'.mem.submits, tx)
  {
    hide L.NextBlock, L.CanMakeBlock, L.LockAlive, L.CanTakeHolds, L.SettledRecord, L.Locked;
  }

  lemma LifecycleStepKeeps(j: Joint, k: Joint)
    requires JointInv(j) && LifecycleStep(j, k) && Agree(k.sys.records, k.store.records)
    ensures JointInv(k)
  {
    var step :| L.Takes(j.sys, step, k.sys);
    var run :| Commits(run, j.store, k.store);
    LT.StepKeeps(j.sys, step, k.sys);
    CommitsKeep(run, j.store, k.store);
    if k.store.writing.Some? {
      NewIsUnrecorded(k);
      hide LS.Inv, L.Takes, Inv, Commits, LS.Unrecorded;
      UnrecordedStays(j.sys, step, k.sys, k.store.writing.value.tx);
    }
    hide LS.Inv, L.Takes, Inv, Commits, LS.Unrecorded;
  }

  lemma NewIsUnrecorded(k: Joint)
    requires Inv(k.store) && Agree(k.sys.records, k.store.records) && k.store.writing.Some?
    ensures k.store.writing.value.tx !in k.sys.records
  {
  }

  lemma StoreMoveKeeps(j: Joint, m: Move, k: Joint)
    requires JointInv(j) && StoreMove(j, m, k) && Agree(k.sys.records, k.store.records)
    ensures JointInv(k)
  {
    hide LS.Inv, Inv, Takes, Agree, WritingOk;
    MoveKeeps(j.store, m, k.store);
    MovedWriting(j.store, m, k.store);
    if m.StartWriting? {
      StartedWriting(j.sys, m, k.store.writing);
    } else {
      StillWriting(j.sys, j.store.writing, k.store.writing);
    }
  }

  lemma MovedWriting(s: State, m: Move, t: State)
    requires Takes(s, m, t)
    ensures if m.StartWriting? then t.writing == Some(Writing(m.tx, m.names))
            else t.writing == s.writing || t.writing == None
  {
  }

  lemma StartedWriting(s: L.Sys, m: Move, writing: Option<Writing>)
    requires LS.Inv(s) && m.StartWriting? && IsProved(s, m.tx) && writing == Some(Writing(m.tx, m.names))
    ensures WritingOk(s, writing)
  {
  }

  lemma StillWriting(s: L.Sys, before: Option<Writing>, after: Option<Writing>)
    requires WritingOk(s, before) && (after == before || after == None)
    ensures WritingOk(s, after)
  {
  }

  lemma {:induction false} RunInv(js: seq<Joint>, i: nat)
    requires Run(js) && i < |js|
    ensures JointInv(js[i])
  {
    if i == 0 {
      LT.InitInv(js[0].sys);
      InitInv(js[0].store);
    } else {
      hide JointInv, LifecycleStep, StoreMove, Agree;
      RunInv(js, i - 1);
      assert Next(js[i - 1], js[i]);
      if LifecycleStep(js[i - 1], js[i]) {
        LifecycleStepKeeps(js[i - 1], js[i]);
      } else {
        var m :| StoreMove(js[i - 1], m, js[i]);
        StoreMoveKeeps(js[i - 1], m, js[i]);
      }
    }
  }

  lemma RunNext(js: seq<Joint>, i: nat)
    requires Run(js) && i + 1 < |js|
    ensures Next(js[i], js[i + 1])
  {
    hide Next;
  }

  // ------------------------------------------------------------------
  // The driver's promise about outputs

  /** A transaction may end, or its recording be undone, only while the chain
      has not applied it. */
  lemma EndedIsNotApplied(j: Joint, m: Move, o: Object, tx: Tx)
    requires JointInv(j) && Ends(j.store, m, o, tx)
    ensures !L.IsApplied(j.sys.chain, tx)
  {
    hide LS.SubmitSide, LS.ProofSide;
    if m.RemoveOutput? {
      assert LS.RecordOk(j.sys.chain, j.sys.log.proved, j.sys.log.requests, tx, j.sys.records[tx]);
    }
  }

  lemma AppliedStays(j: Joint, k: Joint, tx: Hash)
    requires Next(j, k) && L.IsApplied(j.sys.chain, tx)
    ensures L.IsApplied(k.sys.chain, tx)
  {
    if step :| L.Takes(j.sys, step, k.sys) { AppliedAfter(j.sys, step, k.sys, tx); }
  }

  lemma AppliedAfter(s: L.Sys, step: L.Step, s': L.Sys, tx: Hash)
    requires L.Takes(s, step, s') && L.IsApplied(s.chain, tx)
    ensures L.IsApplied(s'.chain, tx)
  {
    if step.BlockStep? { LS.BlockGrows(s.chain, step.payloads, step.root); }
    hide L.NextBlock, L.SettledRecords, L.Opened, L.CanAdvance, L.CanCommitRecord, L.CanTakeHolds, L.WithStage;
  }

  lemma KeptStep(j: Joint, k: Joint, o: Object, tx: Tx)
    requires JointInv(j) && Next(j, k) && L.IsApplied(j.sys.chain, tx) && Kept(j.store.disk, o, tx)
    ensures Kept(k.store.disk, o, tx)
  {
    if m :| StoreMove(j, m, k) {
      UnknownStays(j.store, m, k.store, o, tx);
      hide Inv, LS.Inv, Takes, Kept;
      if Ends(j.store, m, o, tx) { EndedIsNotApplied(j, m, o, tx); }
    } else {
      var run :| Commits(run, j.store, k.store);
      CommitsKeep(run, j.store, k.store);
    }
  }

  lemma {:induction false} AppliedAndKept(js: seq<Joint>, i: nat, j: nat, o: Object, tx: Tx)
    requires Run(js) && i <= j < |js| && L.IsApplied(js[i].sys.chain, tx) && Kept(js[i].store.disk, o, tx)
    ensures L.IsApplied(js[j].sys.chain, tx) && Kept(js[j].store.disk, o, tx)
  {
    hide *;
    if i < j {
      AppliedAndKept(js, i, j - 1, o, tx);
      RunInv(js, j - 1);
      RunNext(js, j - 1);
      AppliedStays(js[j - 1], js[j], tx);
      KeptStep(js[j - 1], js[j], o, tx);
    }
  }

  /** An object whose creating transaction the chain has applied is never
      removed from the store: whatever the driver, the chain and crashes do from
      then on, it stays there. */
  lemma AppliedOutputsAreKept(js: seq<Joint>, i: nat, j: nat, o: Object, n: string)
    requires Run(js) && i <= j < |js| && LiveAs(js[i].store.disk, o, n)
    requires L.IsApplied(js[i].sys.chain, js[i].store.disk.live[n].tx)
    ensures Has(js[j].store.disk, o)
  {
    var d, tx := js[i].store.disk, js[i].store.disk.live[n].tx;
    RunInv(js, i);
    InvOrdered(js[i].store);
    assert d.live[n].status.Live? ==> Shows(d, o, Live);
    assert Kept(d, o, tx);
    AppliedAndKept(js, i, j, o, tx);
    KeptIsThere(js[j].store.disk, o, tx);
  }

  lemma DeadStep(j: Joint, k: Joint, tx: Hash)
    requires JointInv(j) && Next(j, k) && tx in j.sys.log.proved && LS.Dead(j.sys.chain, j.sys.log.proved[tx])
    ensures tx in k.sys.log.proved && LS.Dead(k.sys.chain, k.sys.log.proved[tx])
  {
    if step :| L.Takes(j.sys, step, k.sys) { LT.DeadStays(j.sys, step, k.sys, tx); }
  }

  lemma {:induction false} DeadForever(js: seq<Joint>, i: nat, j: nat, tx: Hash)
    requires Run(js) && i <= j < |js| && tx in js[i].sys.log.proved
    requires LS.Dead(js[i].sys.chain, js[i].sys.log.proved[tx])
    ensures tx in js[j].sys.log.proved && LS.Dead(js[j].sys.chain, js[j].sys.log.proved[tx])
  {
    hide *;
    if i < j {
      DeadForever(js, i, j - 1, tx);
      RunInv(js, j - 1);
      RunNext(js, j - 1);
      DeadStep(js[j - 1], js[j], tx);
    }
  }

  /** An output removed because its transaction expired belongs to a transaction
      the chain applies in no later state. */
  lemma ExpiredOutputsNeverLand(js: seq<Joint>, i: nat, j: nat, m: Move, o: Object, tx: Tx)
    requires Run(js) && i <= j < |js| && Ends(js[i].store, m, o, tx)
    requires tx in js[i].store.records && js[i].store.records[tx].state == Expired
    ensures !L.IsApplied(js[j].sys.chain, tx)
  {
    RunInv(js, i);
    assert LS.RecordOk(js[i].sys.chain, js[i].sys.log.proved, js[i].sys.log.requests, tx, js[i].sys.records[tx]);
    DeadForever(js, i, j, tx);
    RunInv(js, j);
    assert js[j].sys.log.proved[tx].txFinal == tx;
  }

  // ------------------------------------------------------------------
  // Settling in both

  /** The store was given the answers the lifecycle read. */
  ghost predicate SameAnswers(x: L.Settling, a: S.Answers) {
    && x.queried == a.queried && x.head == a.head && x.statuses.Keys == a.statuses.Keys
    && (forall tx :: tx in x.statuses ==> (x.statuses[tx] == Some(L.Applied) <==> S.IsApplied(a, tx)))
    && (forall tx :: tx in x.statuses ==> (x.statuses[tx] == Some(L.Rejected) <==> S.IsRejected(a, tx)))
  }

  /** The records the driver saves when it settles agree with the lifecycle's step,
      for whichever of them it got to. */
  lemma SettlingAgrees(
    x: L.Settling, a: S.Answers, done: set<Hash>, r: map<Hash, L.Record>, q: map<Tx, Rec>, q': map<Tx, Rec>)
    requires SameAnswers(x, a) && Agree(r, q) && RecordsOk(q) && q'.Keys == q.Keys
    requires forall tx :: tx in q && tx in done ==> S.IsSettledBy(q[tx], q'[tx], a)
    requires forall tx :: tx in q && tx !in done ==> q'[tx] == q[tx]
    ensures Agree(L.SettledRecords(x, done, r), q')
  {
    hide L.SettledRecord;
    forall tx | tx in r && tx in done ensures IsSame(L.SettledRecord(x, tx, r[tx]), q'[tx]) {
      L.SettledRecordIs(x, tx, r[tx]);
      assert q[tx].tx == tx && IsSame(r[tx], q[tx]);
      SettledAlike(x, a, tx, r[tx], L.SettledRecord(x, tx, r[tx]), q[tx], q'[tx]);
    }
  }

  lemma SettledAlike(x: L.Settling, a: S.Answers, tx: Hash, r: L.Record, r': L.Record, q: Rec, q': Rec)
    requires SameAnswers(x, a) && q.tx == tx && IsSame(r, q)
    requires L.IsSettledTo(x, tx, r, r') && S.IsSettledBy(q, q', a)
    ensures IsSame(r', q')
  {
    if tx in x.statuses {
      assert x.statuses[tx].None? || x.statuses[tx].value.Applied? || x.statuses[tx].value.Rejected?;
    }
  }
}
