/** The driver's transaction lifecycle as an interleaving of small steps.

    Everything the driver does under its store lock is one step; everything
    else (fetching a witness, proving, reading the head or one status, the
    relayer request) is a step of its own, so any other thread, the chain or a
    crash can come between. */
module Lifecycle {
  import opened Wrappers
  import opened TxStates
  import opened ChainRules

  type File = string

  // ------------------------------------------------------------------
  // The chain

  datatype Verdict = Applied | Rejected

  /** `verdicts` is what the synchronizer answers for a txFinal: applied if any
      inclusion was, otherwise rejected; a txFinal never included is absent. */
  datatype Chain = Chain(view: View, verdicts: map<Hash, Verdict>)

  predicate IsApplied(c: Chain, tx: Hash) {
    tx in c.verdicts && c.verdicts[tx] == Applied
  }

  /** One payload processed in the block being derived. */
  function Included(c: Chain, p: Payload): Chain {
    if Rejection(c.view, p).None? then
      Chain(c.view.(created := c.view.created + Elements(p.created),
                    nullifiers := c.view.nullifiers + Elements(p.nullifiers)),
            c.verdicts[p.txFinal := Applied])
    else if IsApplied(c, p.txFinal) then c
    else c.(verdicts := c.verdicts[p.txFinal := Rejected])
  }

  function AllIncluded(c: Chain, ps: seq<Payload>): Chain
    decreases |ps|
  {
    if ps == [] then c else AllIncluded(Included(c, ps[0]), ps[1..])
  }

  /** The chain after one more block, committed with its statuses at once. */
  function NextBlock(c: Chain, ps: seq<Payload>, root: Root): Chain {
    var d := AllIncluded(c, ps);
    d.(view := d.view.(head := c.view.head + 1, roots := c.view.roots[root := c.view.head + 1]))
  }

  // ------------------------------------------------------------------
  // The driver

  datatype Record = Record(
    payload: Payload,
    groundingBlock: int,
    inputs: seq<File>,
    state: TxState,
    attempted: bool)

  predicate IsOpen(r: Record) { IsOpenState(r.state) }

  /** Open, and the relayer may hold the payload. */
  predicate NeedsStatus(r: Record) { IsOpen(r) && (r.attempted || r.state.Submitted?) }

  /** Whether an open transaction spends `f`. */
  ghost predicate Locked(records: map<Hash, Record>, f: File) {
    exists tx :: tx in records && IsOpen(records[tx]) && f in records[tx].inputs
  }

  /** A proof keeps its holds until it is dropped, after `record` or on failure. */
  datatype ProofStage =
    | Holding
    | Grounded(root: Root, block: int)
    | Proved(payload: Payload, groundingBlock: int)
    | Committed(tx: Hash)

  datatype Proof = Proof(files: seq<File>, stage: ProofStage)

  /** Where one call of `submit` is. From `Entered` on it holds its lock. */
  datatype SubmitStage =
    | Waiting
    | Entered
    | RecordRead(groundingBlock: int)
    | HeadChecked
    | Loaded(payload: Payload)
    | Marked(payload: Payload)
    | InFlight
    | Responded

  datatype Submission = Submission(tx: Hash, lock: nat, stage: SubmitStage)

  /** Where one call of `settle` is: the open records it saw, those whose
      status it must read, the head it read and the statuses read so far. */
  datatype Settling = Settling(
    queried: set<Hash>,
    needed: set<Hash>,
    head: Option<int>,
    statuses: map<Hash, Option<Verdict>>)

  /** What a crash loses. `locks` is the weak lock table. */
  datatype Memory = Memory(
    holds: map<File, nat>,
    proofs: map<nat, Proof>,
    submits: map<nat, Submission>,
    settles: map<nat, Settling>,
    locks: map<Hash, nat>,
    nextLock: nat)

  /** What happened, for stating properties: every proof made, every relayer
      request, the deleted transactions and those whose acceptance was saved. */
  datatype History = History(
    proved: map<Hash, Payload>,
    requests: seq<Hash>,
    deleted: set<Hash>,
    accepted: set<Hash>)

  datatype Sys = Sys(chain: Chain, records: map<Hash, Record>, mem: Memory, log: History)

  const NOTHING_IN_MEMORY := Memory(map[], map[], map[], map[], map[], 0)

  ghost predicate Init(s: Sys) {
    && s.chain.verdicts == map[]
    && s.records == map[]
    && s.mem == NOTHING_IN_MEMORY
    && s.log == History(map[], [], {}, {})
  }

  // ------------------------------------------------------------------
  // Settlement of one record

  /** What the locked part of `settle` does to one record. */
  function SettledRecord(x: Settling, tx: Hash, r: Record): Record {
    if !IsOpen(r) || tx !in x.queried then r
    else if NeedsStatus(r) && tx !in x.statuses then r
    else
      var status := if tx in x.statuses then x.statuses[tx] else None;
      if status == Some(Applied) then r.(state := Landed)
      else if status == Some(Rejected) then r.(state := Expired)
      else if x.head.Some? && GroundingAgedOut(x.head.value, r.groundingBlock) then r.(state := Expired)
      else r
  }

  /** The records after settling those in `done`, which is all of them unless
      the pass stops early. */
  function SettledRecords(x: Settling, done: set<Hash>, records: map<Hash, Record>): map<Hash, Record> {
    map tx | tx in records :: if tx in done then SettledRecord(x, tx, records[tx]) else records[tx]
  }

  /** The status read is that the synchronizer has not seen the transaction. */
  predicate IsUnseen(x: Settling, tx: Hash) {
    tx !in x.statuses || x.statuses[tx].None?
  }

  /** The record is not for this pass: the chain has decided, it was not asked
      about, or it was offered only after the statuses were read. */
  predicate Waits(x: Settling, tx: Hash, r: Record) {
    || (r.state != Recorded && r.state != Submitted) || tx !in x.queried
    || ((r.attempted || r.state == Submitted) && tx !in x.statuses)
  }

  /** `q` is `r` with the state the answers give it: landed exactly if applied,
      expired exactly if rejected, or not seen with the head more than 50400
      blocks past its grounding. */
  predicate IsSettledTo(x: Settling, tx: Hash, r: Record, q: Record) {
    if Waits(x, tx, r) then q == r
    else
      && q == r.(state := q.state)
      && (q.state == Landed <==> tx in x.statuses && x.statuses[tx] == Some(Applied))
      && (q.state == Expired <==>
          (tx in x.statuses && x.statuses[tx] == Some(Rejected)) ||
          (IsUnseen(x, tx) && x.head.Some? && x.head.value - r.groundingBlock > 50400))
      && (q.state == Landed || q.state == Expired || q.state == r.state)
  }

  lemma SettledRecordIs(x: Settling, tx: Hash, r: Record)
    ensures IsSettledTo(x, tx, r, SettledRecord(x, tx, r))
  {
    if tx in x.statuses && x.statuses[tx].Some? {
      assert x.statuses[tx].value.Applied? || x.statuses[tx].value.Rejected?;
    }
  }

  /** The settlement loop over the loaded records. */
  method SettleLoop(x: Settling, order: seq<Hash>, records: map<Hash, Record>) returns (out: map<Hash, Record>)
    requires NoDuplicates(order) && Elements(order) == records.Keys
    ensures out == SettledRecords(x, records.Keys, records)
    ensures out.Keys == records.Keys && forall tx :: tx in records ==> IsSettledTo(x, tx, records[tx], out[tx])
  {
    AllSettledTo(x, records);
    hide SettledRecord, IsSettledTo;
    out := records;
    assert out == SettledRecords(x, {}, records);
    assert Elements(order[..0]) == {};
    hide SettledRecords;
    var i := 0;
    while i < |order|
      invariant 0 <= i <= |order|
      invariant out == SettledRecords(x, Elements(order[..i]), records)
    {
      var tx := order[i];
      assert tx in Elements(order) && tx !in order[..i];
      assert order[..i + 1] == order[..i] + [tx];
      assert Elements(order[..i + 1]) == Elements(order[..i]) + {tx};
      SettleOne(x, Elements(order[..i]), records, tx);
      out := out[tx := SettledRecord(x, tx, out[tx])];
      i := i + 1;
    }
    assert order[..i] == order;
  }

  lemma AllSettledTo(x: Settling, records: map<Hash, Record>)
    ensures var out := SettledRecords(x, records.Keys, records);
      out.Keys == records.Keys && forall tx :: tx in records ==> IsSettledTo(x, tx, records[tx], out[tx])
  {
    hide SettledRecord, IsSettledTo;
    forall tx | tx in records ensures IsSettledTo(x, tx, records[tx], SettledRecord(x, tx, records[tx])) {
      SettledRecordIs(x, tx, records[tx]);
    }
  }

  lemma SettleOne(x: Settling, done: set<Hash>, records: map<Hash, Record>, tx: Hash)
    requires tx in records && tx !in done
    ensures SettledRecords(x, done, records).Keys == records.Keys
    ensures SettledRecords(x, done, records)[tx] == records[tx]
    ensures SettledRecords(x, done + {tx}, records) ==
      SettledRecords(x, done, records)[tx := SettledRecord(x, tx, records[tx])]
  {
  }

  // ------------------------------------------------------------------
  // Steps of the chain, and of the driver as a whole

  /** Any payload may be included, any number of times: one of ours once it
      was posted, or somebody else's. */
  ghost predicate CanMakeBlock(s: Sys, ps: seq<Payload>, root: Root) {
    && root !in s.chain.view.roots
    && forall q :: q in ps && q.txFinal in s.log.proved ==>
         q == s.log.proved[q.txFinal] && q.txFinal in s.log.requests
  }

  function MakeBlock(s: Sys, ps: seq<Payload>, root: Root): Sys {
    s.(chain := NextBlock(s.chain, ps, root))
  }

  predicate CanDelete(s: Sys, tx: Hash) {
    tx in s.records && s.records[tx].state.Recorded? && !s.records[tx].attempted
  }

  function Delete(s: Sys, tx: Hash): Sys {
    s.(records := s.records - {tx}, log := s.log.(deleted := s.log.deleted + {tx}))
  }

  predicate CanPrune(s: Sys, tx: Hash) {
    tx in s.records && !IsOpen(s.records[tx])
  }

  function Prune(s: Sys, tx: Hash): Sys {
    s.(records := s.records - {tx})
  }

  function Crash(s: Sys): Sys {
    s.(mem := NOTHING_IN_MEMORY)
  }

  // ------------------------------------------------------------------
  // Steps of prove and record

  function WithStage(m: Memory, p: nat, stage: ProofStage): Memory
    requires p in m.proofs
  {
    m.(proofs := m.proofs[p := m.proofs[p].(stage := stage)])
  }

  ghost predicate CanTakeHolds(s: Sys, p: nat, files: seq<File>) {
    && p !in s.mem.proofs && NoDuplicates(files)
    && forall f :: f in files ==> f !in s.mem.holds && !Locked(s.records, f)
  }

  function TakeHolds(s: Sys, p: nat, files: seq<File>): Sys {
    s.(mem := s.mem.(holds := s.mem.holds + map f | f in files :: p,
                     proofs := s.mem.proofs[p := Proof(files, Holding)]))
  }

  /** The witness is of some known root, whichever head it was fetched at. */
  predicate CanGround(s: Sys, p: nat, root: Root) {
    && p in s.mem.proofs && s.mem.proofs[p].stage.Holding?
    && root in s.chain.view.roots
  }

  function Ground(s: Sys, p: nat, root: Root): Sys
    requires CanGround(s, p, root)
  {
    s.(mem := WithStage(s.mem, p, Grounded(root, s.chain.view.roots[root])))
  }

  /** Outputs are fresh, so the txFinal has not been seen before. */
  predicate CanFinishProof(s: Sys, p: nat, payload: Payload) {
    && p in s.mem.proofs && s.mem.proofs[p].stage.Grounded?
    && payload.root == s.mem.proofs[p].stage.root
    && payload.txFinal !in s.log.proved && payload.txFinal !in s.chain.verdicts
  }

  function FinishProof(s: Sys, p: nat, payload: Payload): Sys
    requires CanFinishProof(s, p, payload)
  {
    s.(mem := WithStage(s.mem, p, Proved(payload, s.mem.proofs[p].stage.block)),
       log := s.log.(proved := s.log.proved[payload.txFinal := payload]))
  }

  /** `record`, once its checks pass; when one fails the proof is just dropped. */
  ghost predicate CanCommitRecord(s: Sys, p: nat) {
    && p in s.mem.proofs && s.mem.proofs[p].stage.Proved?
    && (forall f :: f in s.mem.proofs[p].files ==> !Locked(s.records, f))
    && s.mem.proofs[p].stage.payload.txFinal !in s.records
  }

  function CommitRecord(s: Sys, p: nat): Sys
    requires p in s.mem.proofs && s.mem.proofs[p].stage.Proved?
  {
    var Proof(files, stage) := s.mem.proofs[p];
    var tx := stage.payload.txFinal;
    s.(records := s.records[tx := Record(stage.payload, stage.groundingBlock, files, Recorded, false)],
       mem := WithStage(s.mem, p, Committed(tx)))
  }

  function DropProof(s: Sys, p: nat): Sys
    requires p in s.mem.proofs
  {
    s.(mem := s.mem.(holds := s.mem.holds - Elements(s.mem.proofs[p].files), proofs := s.mem.proofs - {p}))
  }

  // ------------------------------------------------------------------
  // Steps of submit

  /** Whether some live call refers to the lock in the table for `tx`. */
  ghost predicate LockAlive(m: Memory, tx: Hash) {
    tx in m.locks && exists t :: t in m.submits && m.submits[t].lock == m.locks[tx]
  }

  /** `submission_lock`: the table's lock for `tx` while some call still refers
      to it, otherwise a new one. Dead entries are dropped. */
  ghost function Opened(m: Memory, t: nat, tx: Hash): Memory {
    var kept := map x | x in m.locks && LockAlive(m, x) :: m.locks[x];
    if tx in kept then
      m.(locks := kept, submits := m.submits[t := Submission(tx, kept[tx], Waiting)])
    else
      m.(locks := kept[tx := m.nextLock], nextLock := m.nextLock + 1,
         submits := m.submits[t := Submission(tx, m.nextLock, Waiting)])
  }

  ghost function OpenSubmit(s: Sys, t: nat, tx: Hash): Sys {
    s.(mem := Opened(s.mem, t, tx))
  }

  /** One call goes on to its next stage, changing nothing else. */
  function Advance(s: Sys, t: nat, stage: SubmitStage): Sys
    requires t in s.mem.submits
  {
    s.(mem := s.mem.(submits := s.mem.submits[t := s.mem.submits[t].(stage := stage)]))
  }

  predicate IsRecorded(s: Sys, tx: Hash) {
    tx in s.records && s.records[tx].state.Recorded?
  }

  /** The stages reachable without changing a record or asking the relayer:
      locking the mutex, reading the record, checking the head, loading the
      payload, receiving the relayer's answer. */
  ghost predicate CanAdvance(s: Sys, t: nat, stage: SubmitStage) {
    && t in s.mem.submits
    && var x := s.mem.submits[t];
       match stage
       case Entered =>
         && x.stage.Waiting?
         && forall u :: u in s.mem.submits && s.mem.submits[u].lock == x.lock ==> s.mem.submits[u].stage.Waiting?
       case RecordRead(block) =>
         x.stage.Entered? && IsRecorded(s, x.tx) && block == s.records[x.tx].groundingBlock
       case HeadChecked =>
         x.stage.RecordRead? && !GroundingAgedOut(s.chain.view.head, x.stage.groundingBlock)
       case Loaded(payload) =>
         x.stage.HeadChecked? && x.tx in s.records && payload == s.records[x.tx].payload
       case Responded => x.stage.InFlight?
       case _ => false
  }

  predicate CanMarkAttempt(s: Sys, t: nat) {
    t in s.mem.submits && s.mem.submits[t].stage.Loaded? && IsRecorded(s, s.mem.submits[t].tx)
  }

  function MarkAttempt(s: Sys, t: nat): Sys
    requires CanMarkAttempt(s, t)
  {
    var x := s.mem.submits[t];
    Advance(s, t, Marked(x.stage.payload)).(records := s.records[x.tx := s.records[x.tx].(attempted := true)])
  }

  predicate CanPost(s: Sys, t: nat) {
    t in s.mem.submits && s.mem.submits[t].stage.Marked?
  }

  /** The request leaves; from here on the payload may reach the chain. */
  function Post(s: Sys, t: nat): Sys
    requires CanPost(s, t)
  {
    Advance(s, t, InFlight).(log := s.log.(requests := s.log.requests + [s.mem.submits[t].stage.payload.txFinal]))
  }

  function EndSubmit(s: Sys, t: nat): Sys {
    s.(mem := s.mem.(submits := s.mem.submits - {t}))
  }

  predicate CanSaveSubmitted(s: Sys, t: nat) {
    t in s.mem.submits && s.mem.submits[t].stage.Responded? && IsRecorded(s, s.mem.submits[t].tx)
  }

  function SaveSubmitted(s: Sys, t: nat): Sys
    requires CanSaveSubmitted(s, t)
  {
    var tx := s.mem.submits[t].tx;
    EndSubmit(s, t).(records := s.records[tx := s.records[tx].(state := Submitted)],
                     log := s.log.(accepted := s.log.accepted + {tx}))
  }

  // ------------------------------------------------------------------
  // Steps of settle

  function WithSettling(s: Sys, t: nat, x: Settling): Sys {
    s.(mem := s.mem.(settles := s.mem.settles[t := x]))
  }

  /** The records are read one file at a time without the lock, so what was
      seen open or in need of a status need not fit any single moment. */
  function OpenSettle(s: Sys, t: nat, queried: set<Hash>, needed: set<Hash>): Sys {
    WithSettling(s, t, Settling(queried, needed, None, map[]))
  }

  predicate CanReadHead(s: Sys, t: nat) {
    t in s.mem.settles && s.mem.settles[t].head.None?
  }

  function ReadHead(s: Sys, t: nat): Sys
    requires CanReadHead(s, t)
  {
    WithSettling(s, t, s.mem.settles[t].(head := Some(s.chain.view.head)))
  }

  /** Statuses are read one by one, after the head. */
  predicate CanReadStatus(s: Sys, t: nat, tx: Hash) {
    && t in s.mem.settles && s.mem.settles[t].head.Some?
    && tx in s.mem.settles[t].needed && tx !in s.mem.settles[t].statuses
  }

  function ReadStatus(s: Sys, t: nat, tx: Hash): Sys
    requires CanReadStatus(s, t, tx)
  {
    var answer := if tx in s.chain.verdicts then Some(s.chain.verdicts[tx]) else None;
    WithSettling(s, t, s.mem.settles[t].(statuses := s.mem.settles[t].statuses[tx := answer]))
  }

  predicate CanApplySettle(s: Sys, t: nat) {
    && t in s.mem.settles && s.mem.settles[t].head.Some?
    && s.mem.settles[t].needed <= s.mem.settles[t].statuses.Keys
  }

  function EndSettle(s: Sys, t: nat): Sys {
    s.(mem := s.mem.(settles := s.mem.settles - {t}))
  }

  function ApplySettle(s: Sys, t: nat, done: set<Hash>): Sys
    requires CanApplySettle(s, t)
  {
    EndSettle(s, t).(records := SettledRecords(s.mem.settles[t], done, s.records))
  }

  // ------------------------------------------------------------------
  // Runs

  datatype Step =
    | BlockStep(payloads: seq<Payload>, root: Root)
    | DeleteStep(tx: Hash)
    | PruneStep(tx: Hash)
    | CrashStep
    | TakeHoldsStep(p: nat, files: seq<File>)
    | GroundStep(p: nat, root: Root)
    | FinishProofStep(p: nat, payload: Payload)
    | CommitRecordStep(p: nat)
    | DropProofStep(p: nat)
    | OpenSubmitStep(t: nat, tx: Hash)
    | AdvanceStep(t: nat, stage: SubmitStage)
    | MarkAttemptStep(t: nat)
    | PostStep(t: nat)
    | SaveSubmittedStep(t: nat)
    | EndSubmitStep(t: nat)
    | OpenSettleStep(t: nat, queried: set<Hash>, needed: set<Hash>)
    | ReadHeadStep(t: nat)
    | ReadStatusStep(t: nat, tx: Hash)
    | ApplySettleStep(t: nat, done: set<Hash>)
    | EndSettleStep(t: nat)

  ghost predicate Takes(s: Sys, step: Step, s': Sys) {
    match step
    case BlockStep(ps, root) => CanMakeBlock(s, ps, root) && s' == MakeBlock(s, ps, root)
    case DeleteStep(tx) => CanDelete(s, tx) && s' == Delete(s, tx)
    case PruneStep(tx) => CanPrune(s, tx) && s' == Prune(s, tx)
    case CrashStep => s' == Crash(s)
    case TakeHoldsStep(p, files) => CanTakeHolds(s, p, files) && s' == TakeHolds(s, p, files)
    case GroundStep(p, root) => CanGround(s, p, root) && s' == Ground(s, p, root)
    case FinishProofStep(p, payload) => CanFinishProof(s, p, payload) && s' == FinishProof(s, p, payload)
    case CommitRecordStep(p) => CanCommitRecord(s, p) && s' == CommitRecord(s, p)
    case DropProofStep(p) => p in s.mem.proofs && s' == DropProof(s, p)
    case OpenSubmitStep(t, tx) => t !in s.mem.submits && s' == OpenSubmit(s, t, tx)
    case AdvanceStep(t, stage) => CanAdvance(s, t, stage) && s' == Advance(s, t, stage)
    case MarkAttemptStep(t) => CanMarkAttempt(s, t) && s' == MarkAttempt(s, t)
    case PostStep(t) => CanPost(s, t) && s' == Post(s, t)
    case SaveSubmittedStep(t) => CanSaveSubmitted(s, t) && s' == SaveSubmitted(s, t)
    case EndSubmitStep(t) => t in s.mem.submits && s' == EndSubmit(s, t)
    case OpenSettleStep(t, queried, needed) => t !in s.mem.settles && s' == OpenSettle(s, t, queried, needed)
    case ReadHeadStep(t) => CanReadHead(s, t) && s' == ReadHead(s, t)
    case ReadStatusStep(t, tx) => CanReadStatus(s, t, tx) && s' == ReadStatus(s, t, tx)
    case ApplySettleStep(t, done) => CanApplySettle(s, t) && s' == ApplySettle(s, t, done)
    case EndSettleStep(t) => t in s.mem.settles && s' == EndSettle(s, t)
  }

  ghost predicate Next(s: Sys, s': Sys) {
    exists step :: Takes(s, step, s')
  }

  /** Consecutive states of a run, from any state on. */
  ghost predicate Trace(tr: seq<Sys>) {
    |tr| > 0 && forall i, j :: 0 <= i < j < |tr| && j == i + 1 ==> Next(tr[i], tr[j])
  }

  ghost predicate Run(tr: seq<Sys>) {
    Trace(tr) && Init(tr[0])
  }
}
