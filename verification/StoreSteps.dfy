/** Why each operation of the driver on its store is a run of moves, and what
    the operation as a whole does. */
module StoreSteps {
  import opened Wrappers
  import opened TxStates
  import opened Naming
  import opened ObjectStore
  import opened Reconcile
  import opened Settlement
  import opened ChainSync
  import opened StoreMoves
  import opened StoreTheorems
  import opened Recording

  lemma NullifyingIsAllowed(s: State, f: File, n: string)
    requires Ordered(s.disk) && n in s.disk.live && SameFile(f, s.disk.live[n])
    requires f.status.Nullified? && f.obj in s.told.spent
    ensures var g := GeneratedName(f.obj); var e := Put(s.disk, f, g);
      && MayWrite(s, f, g, FileSpent(n, f), DropSpent(g))
      && FileMove(s.(disk := e), DropSpent(n), e.(live := e.live - {n}))
      && (g in s.disk.live ==> g == n)
  {
    NamesakeIsItself(s.disk, f.obj, n);
    hide GeneratedName, HasGeneratedShape, Ordered;
  }

  lemma NullifyingStrandsNone(d: Disk, e: Disk, f: File, n: string)
    requires Ordered(d) && LiveAs(d, f.obj, n) && f.status.Nullified?
    requires e == d || (e.live == d.live - {n} &&
      (e.nullified == d.nullified || e.nullified == d.nullified[GeneratedName(f.obj) := f]))
    ensures NoneStranded(d, e)
  {
    if e != d {
      WithoutLive(d, n);
      SameLive(d.(live := d.live - {n}), e);
      forall o | HasNullified(e, o) ensures HasNullified(d, o) || o == f.obj {
        if GeneratedName(o) == GeneratedName(f.obj) { GeneratedNameInjective(o, f.obj); }
      }
    }
    hide GeneratedName, HasGeneratedShape, Ordered, HasLive;
  }

  lemma LandedIsTold(s: State, rec: Rec)
    requires Inv(s) && rec.tx in s.records && s.records[rec.tx] == rec && rec.state == Landed
    ensures rec.spends <= s.told.spent
  {
  }

  lemma NullifiedIsGone(d: Disk, e: Disk, n: string)
    requires e.live == d.live - {n}
    ensures n !in e.live
  {
  }

  /** Live files new in `e` are of the transaction. */
  predicate OthersStay(d: Disk, e: Disk, tx: Tx) {
    forall n :: n in e.live ==> e.live[n].tx == tx || (n in d.live && e.live[n] == d.live[n])
  }

  lemma OthersStayOn(d: Disk, e: Disk, f: Disk, rec: Rec, from: string)
    requires OthersStay(d, e, rec.tx) && FilesMoved(d, e) && OutputRenamed(e, f, rec, from)
    ensures OthersStay(d, f, rec.tx) && FilesMoved(d, f)
  {
  }

  lemma NoneMoved(d: Disk, rec: Rec)
    ensures OthersStay(d, d, rec.tx) && FilesMoved(d, d) && TargetsLanded(d, rec, [])
  {
  }

  lemma RemovedOn(d: Disk, e: Disk, f: Disk, rec: Rec, n: string)
    requires OutputsRemoved(d, e, rec) && n in e.live && n in rec.outputs
    requires e.live[n].status.Unknown? && e.live[n].tx == rec.tx && (f == e || f == e.(live := e.live - {n}))
    ensures OutputsRemoved(d, f, rec)
  {
  }

  /** The file named `n`, live if it is there. */
  function FileAt(d: Disk, n: string): File
    requires n in d.live || n in d.nullified
  {
    if n in d.live then d.live[n] else d.nullified[n]
  }

  /** A file of the record's transaction is called `n` and is not up to date. */
  predicate IsToWrite(d: Disk, rec: Rec, n: string) {
    (n in d.live || n in d.nullified) && FileAt(d, n).tx == rec.tx && LandedFile(FileAt(d, n), rec) != FileAt(d, n)
  }

  lemma ToWriteIsThere(d: Disk, rec: Rec, n: string)
    ensures IsToWrite(d, rec, n) ==> n in d.live || n in d.nullified
  {
  }

  lemma TerminalState(rec: Rec)
    requires IsTerminal(rec)
    ensures rec.state == Landed || (rec.state == Expired && MayEnd(rec))
  {
  }

  /** Writing an output back is two moves, and strands nothing. */
  lemma LandedIsAllowed(s: State, rec: Rec, n: string)
    requires Ordered(s.disk) && rec.tx in s.records && s.records[rec.tx] == rec && rec.state == Landed
    requires n in rec.outputs && IsToWrite(s.disk, rec, n)
    ensures var g := LandedFile(FileAt(s.disk, n), rec);
      && MayWrite(s, g, n, PutOf(s.disk, g, n), DropOf(s.disk, n))
      && NoneStranded(s.disk, Put(s.disk, g, n)) && NoneStranded(s.disk, Written(s.disk, g, n))
  {
    var d := s.disk;
    var g := LandedFile(FileAt(d, n), rec);
    var e := Put(d, g, n);
    if n in d.live {
      LiveStatus(d, n);
      RewritingKeepsOrder(d, n, g);
      if n in e.nullified {
        WithoutNullified(e, n);
      } else {
        assert e.nullified - {n} == e.nullified;
      }
    } else {
      NullifiedStatus(d, n);
      assert e.live - {n} == e.live;
      SameLive(d, e);
      assert forall o :: HasNullified(e, o) <==> HasNullified(d, o);
    }
    hide GeneratedName, HasGeneratedShape, Ordered, HasLive, HasNullified;
  }

  lemma LandedProgresses(s: Disk, rec: Rec, d: Disk, n: string)
    requires Starts(s, rec, d) && n in rec.outputs && IsToWrite(d, rec, n)
    ensures var g := LandedFile(FileAt(d, n), rec); Starts(s, rec, Put(d, g, n)) && Starts(s, rec, Written(d, g, n))
  {
    hide Starts;
    if n in d.live {
      LiveOutputProgresses(s, rec, d, n);
    } else {
      SpentOutputProgresses(s, rec, d, n, LandedFile(d.nullified[n], rec));
    }
  }

  /** Written or not, the live file is as it was or as a landed output's. */
  lemma LandedWritten(d: Disk, e: Disk, rec: Rec, n: string)
    requires Ordered(d) && n in rec.outputs
    requires e != d ==> IsToWrite(d, rec, n)
    requires e != d ==> var g := LandedFile(FileAt(d, n), rec); e == Put(d, g, n) || e == Written(d, g, n)
    ensures OutputsTouched(d, e, rec)
    ensures e != d || !IsToWrite(d, rec, n) ==> IsListed(e, rec, n) ==> IsUpToDate(e, rec, n)
    ensures IsToWrite(d, rec, n) ==> var g := LandedFile(FileAt(d, n), rec); Put(d, g, n) != d && Written(d, g, n) != d
    ensures n in d.nullified && n !in e.nullified ==> IsListed(d, rec, n) && !IsUpToDate(d, rec, n)
  {
    if e != d && n !in d.live {
      NullifiedStatus(d, n);
      assert d.live - {n} == d.live;
    }
  }

  /** Bringing one more output up to date keeps the others so. */
  lemma TouchedStaysUpToDate(d: Disk, e: Disk, rec: Rec, n: string)
    requires OutputsTouched(d, e, rec) && (IsListed(d, rec, n) ==> IsUpToDate(d, rec, n))
    ensures IsListed(e, rec, n) ==> IsUpToDate(e, rec, n)
  {
  }

  lemma TouchedMeans(d: Disk, e: Disk, rec: Rec)
    requires OutputsTouched(d, e, rec)
    ensures forall n :: n in e.live ==> n in d.live && e.live[n].obj == d.live[n].obj
  {
  }

  lemma LandedMeans(d: Disk, rec: Rec)
    requires OutputsLanded(d, rec)
    ensures forall n :: n in rec.outputs && n in d.live && d.live[n].tx == rec.tx ==>
      d.live[n].status != Unknown && (rec.txHash.Some? ==> d.live[n].txHash == rec.txHash)
  {
    forall n | n in rec.outputs && n in d.live && d.live[n].tx == rec.tx
      ensures d.live[n].status != Unknown && (rec.txHash.Some? ==> d.live[n].txHash == rec.txHash)
    {
      assert IsListed(d, rec, n) && IsUpToDate(d, rec, n);
    }
  }

  lemma NoneTouched(d: Disk, rec: Rec)
    ensures OutputsTouched(d, d, rec) && NoneStranded(d, d)
  {
  }

  lemma MovedIsRenamed(d: Disk, to: string, rec: Rec, from: string)
    requires IsListed(d, rec, from) && to !in d.live
    ensures OutputRenamed(d, Renamed(d, from, to), rec, from)
  {
  }

  lemma NamedStarts(objects: set<Object>, d: Disk, names: seq<string>)
    requires NamedIn(objects, d, names)
    ensures NamedIn(objects, d, RenamedAll(names, []))
  {
  }

  lemma StartsLanded(s: Disk, rec: Rec, d: Disk)
    requires Starts(s, rec, d)
    ensures rec.state == Landed
  {
  }

  lemma PassStopped(s: Disk, rec: Rec, d: Disk)
    requires Starts(s, rec, d)
    ensures Pass(s, rec, d, rec)
  {
    hide PlanOf;
    PlanStillNamed(s, rec, d, [], rec);
  }

  lemma PassIsSame(s: Disk, rec: Rec, d: Disk, out: Rec)
    requires Pass(s, rec, d, out)
    ensures SameBut(rec, out) && RecOk(out)
  {
  }

  lemma SameAsItself(rec: Rec)
    ensures SameBut(rec, rec)
  {
  }

  lemma UpdatedPasses(
    s: Disk, rec: Rec, d: Disk, spent: seq<(string, string)>, finished: seq<string>, renames: seq<(string, string)>)
    requires Starts(s, rec, d) && OutputsLanded(d, rec) && TargetsLanded(d, rec, renames)
    requires AllSpentNames(PlanOf(s, rec), spent)
    requires forall i :: 0 <= i < |spent| && spent[i].0 in d.live ==> d.live[spent[i].0].tx == rec.tx
    requires forall i :: 0 <= i < |renames| ==> renames[i].0 in finished
    ensures Pass(s, rec, d, Updated(rec, spent, finished, renames))
  {
    var out := Updated(rec, spent, finished, renames);
    UpdatedOk(rec, spent, finished, renames);
    PlanStillNamed(s, rec, d, spent, out);
    UpdatedInputsFrom(PlanOf(s, rec), rec, spent, finished, renames);
    UpdatedLanded(rec, d, spent, finished, renames);
    hide PlanOf, OutputsLanded, Progress, Ordered, HasGeneratedShape, StillNamed, InputsFrom;
  }

  lemma UpdatedNames(
    s: Disk, rec: Rec, d: Disk, spent: seq<(string, string)>, finished: seq<string>, renames: seq<(string, string)>,
    used: set<string>)
    requires OutputsLanded(d, rec) && TargetsLanded(d, rec, renames)
    requires NamedIn(ListedObjects(s, rec), d, RenamedAll(rec.outputs, renames))
    requires forall p :: p in rec.pending ==> p.file in finished || p.file in used
    ensures NamesFiles(s, rec, d, Updated(rec, spent, finished, renames), used)
  {
    UpdatedLanded(rec, d, spent, finished, renames);
    hide OutputsLanded, NamedIn, ListedObjects;
  }

  lemma LandedIsFiled(s: Disk, rec: Rec, d: Disk)
    requires rec.state == Landed && SpentFiled(PlanOf(s, rec), d) && OutputsCarried(s, rec, d)
    ensures Filed(s, rec, d)
  {
  }

  lemma FiledIsReconciled(s: Disk, rec: Rec, d: Disk)
    requires Filed(s, rec, d) && Done(PlanOf(s, rec), d)
    ensures Reconciled(s, rec, d)
  {
  }

  lemma ExpiredIsReconciled(s: Disk, rec: Rec, d: Disk, used: set<string>)
    requires rec.state == Expired && OutputsDone(d, rec)
    ensures Filed(s, rec, d) && Reconciled(s, rec, d) && NamesFiles(s, rec, d, rec, used)
  {
  }

  /** A record on file spends no file of its own transaction, so its files can be
      reconciled from where the store is. */
  lemma RecordStarts(s: State, rec: Rec)
    requires Inv(s) && rec.tx in s.records && s.records[rec.tx] == rec
    ensures OutputsUnspent(s.disk, rec) && RecOk(rec) && (rec.state == Landed ==> Starts(s.disk, rec, s.disk))
  {
    assert KnowsSpent(s.disk, rec.tx, rec.spends);
    hide GeneratedName, HasGeneratedShape, Known, Progress;
    if rec.state == Landed { LandedStarts(s.disk, rec); }
  }

  /** Finishing a name is a move that strands nothing and takes no claimed name. */
  lemma FinishingKeeps(s: State, rec: Rec, pending: Pending, claimed: set<string>)
    requires Ordered(s.disk) && RecordsOk(s.records)
    requires rec.tx in s.records && s.records[rec.tx] == rec && rec.state == Landed && pending in rec.pending
    requires pending.file in s.disk.live && s.disk.live[pending.file].tx == rec.tx
    requires pending.file !in claimed && s.held <= claimed && LockedInputs(s.records) <= claimed
    ensures var to := UniqueFileName(pending.final, Taken(s.disk));
      && to !in s.disk.live
      && FileMove(s, FinishName(rec.tx, pending), Renamed(s.disk, pending.file, to))
      && NoneStranded(s.disk, Renamed(s.disk, pending.file, to)) && NoneStranded(s.disk, s.disk)
      && NamesKept(s.disk, Renamed(s.disk, pending.file, to), claimed)
      && OutputRenamed(s.disk, Renamed(s.disk, pending.file, to), rec, pending.file)
  {
    var to := UniqueFileName(pending.final, Taken(s.disk));
    assert RecOk(rec);
    UniqueNotGenerated(pending.final, Taken(s.disk));
    hide UniqueFileName, HasGeneratedShape, GeneratedName, LockedInputs, RecordsOk, RecOk;
    RenamingKeepsOrder(s.disk, pending.file, to);
    NamesKeptByRename(s.disk, pending.file, to, claimed);
    hide Ordered, HasLive, HasNullified, NamesKept;
  }

  /** So in every state of every run, reconciling a landed record converges exactly
      when none of its outputs is in both directories under one name and still
      to be rewritten. */
  lemma RecordsConvergeIff(h: seq<State>, i: nat, tx: Tx)
    requires Run(h) && i < |h| && tx in h[i].records && h[i].records[tx].state == Landed
    ensures var s, rec := h[i].disk, h[i].records[tx];
      (forall d, e :: Finished(s, rec, d) && Finished(s, rec, e) ==> SameView(d, e)) <==> NoneToFree(s, rec)
  {
    RunInv(h, i);
    InvOrdered(h[i]);
    KeyedRecord(h[i].records, tx);
    RecordStarts(h[i], h[i].records[tx]);
    hide Run, Inv, Starts, Finished, SameView, NoneToFree, OutputsUnspent, RecOk, Ordered;
    ConvergesIff(h[i].disk, h[i].records[tx]);
  }

  lemma ClaimedAreUsed(d: Disk, rec: Rec, used: set<string>)
    ensures used <= FixedNames(d, rec, used)
    ensures forall p :: p in rec.pending && p.file in FixedNames(d, rec, used) ==> p.file in used
  {
  }

  lemma RemovingKeepsNames(d: Disk, e: Disk, rec: Rec, claimed: set<string>)
    requires Ordered(d) && OutputsRemoved(d, e, rec)
    ensures NamesKept(d, e, claimed) && NoneStranded(d, e)
  {
    NamesKeptByObjects(d, e, claimed);
    hide GeneratedName, HasGeneratedShape;
    assert forall o :: HasNullified(e, o) <==> HasNullified(d, o);
  }

  lemma BroughtKeepsNames(d: Disk, e: Disk, rec: Rec, claimed: set<string>)
    requires Ordered(d) && FilesBrought(d, e, rec)
    ensures NamesKept(d, e, claimed)
  {
    NamesKeptByObjects(d, e, claimed);
  }

  lemma FewerIsBrought(d: Disk, e: Disk, rec: Rec)
    requires forall n :: n in e.live ==> n in d.live && e.live[n] == d.live[n]
    ensures FilesBrought(d, e, rec)
  {
  }

  lemma StrandedOn(d: Disk, e: Disk, f: Disk)
    requires NoneStranded(e, f)
    ensures NoneStranded(d, e) ==> NoneStranded(d, f)
  {
  }

  lemma SpentNamesPassed(e: Disk, f: Disk, tx: Tx, renames: seq<(string, string)>)
    requires forall i :: 0 <= i < |renames| ==> renames[i].0 !in e.live
    requires OthersStay(e, f, tx)
    ensures forall i :: 0 <= i < |renames| && renames[i].0 in f.live ==> f.live[renames[i].0].tx == tx
  {
  }

  // ------------------------------------------------------------------
  // Records

  lemma DraftMoves(s: State, rec: Rec)
    ensures RecordMove(s, PutDraft(rec), s.(drafts := s.drafts[rec.tx := rec]))
  {
  }

  lemma CommitMoves(s: State, tx: Tx)
    requires tx in s.drafts && s.drafts[tx].tx == tx
    requires if tx in s.records then MayUpdate(s.records[tx], s.drafts[tx]) else MayCommit(s, s.drafts[tx])
    ensures RecordMove(s, CommitDraft(tx),
      s.(records := s.records[tx := s.drafts[tx]], drafts := s.drafts - {tx},
         writing := if tx in s.records then s.writing else None, told := ToldBy(s.told, s.drafts[tx])))
  {
  }

  lemma DropMoves(s: State, tx: Tx)
    ensures RecordMove(s, DropDraft(tx), s.(drafts := s.drafts - {tx}))
    ensures (tx in s.records ==> IsTerminal(s.records[tx]) || MayEnd(s.records[tx])) ==>
      RecordMove(s, DropPayload(tx), s.(payloads := s.payloads - {tx}))
    ensures tx in s.records && (IsTerminal(s.records[tx]) || MayEnd(s.records[tx])) ==>
      RecordMove(s, DropRecord(tx), s.(records := s.records - {tx}))
  {
    hide MayEnd;
  }

  /** The synchronizer's status of a transaction it has seen. */
  datatype Status = Status(applied: bool, hash: nat)

  /** What settling has asked: about which open transactions, the hashes of their
      relayer jobs, the statuses read, and the head, read before the statuses. */
  datatype Answers = Answers(
    queried: set<Tx>, jobHashes: map<Tx, nat>, statuses: map<Tx, Option<Status>>, head: Option<int>)

  /** The status read is one of these. */
  predicate IsApplied(a: Answers, tx: Tx) {
    tx in a.statuses && a.statuses[tx].Some? && a.statuses[tx].value.applied
  }

  predicate IsRejected(a: Answers, tx: Tx) {
    tx in a.statuses && a.statuses[tx].Some? && !a.statuses[tx].value.applied
  }

  predicate IsUnseen(a: Answers, tx: Tx) {
    tx !in a.statuses || a.statuses[tx].None?
  }

  /** The record waits for another pass: the chain has decided, it was not asked
      about, or it was offered only after the statuses were read. */
  predicate Waits(r: Rec, a: Answers) {
    || (r.state != Recorded && r.state != Submitted) || r.tx !in a.queried
    || ((r.attempted || r.state == Submitted) && r.tx !in a.statuses)
  }

  /** `q` is `r` settled by the answers. It lands exactly if the transaction was
      applied; it expires exactly if it was rejected, or was not seen with the
      head more than 50400 blocks past its grounding. Of the rest only the
      transaction hash changes: it is the one of the status or else of the job. */
  ghost predicate IsSettledBy(r: Rec, q: Rec, a: Answers) {
    if Waits(r, a) then q == r
    else
      && q == r.(state := q.state, txHash := q.txHash)
      && (q.state == Landed <==> IsApplied(a, r.tx))
      && (q.state == Expired <==>
          IsRejected(a, r.tx) || (IsUnseen(a, r.tx) && a.head.Some? && a.head.value - r.groundingBlock > 50400))
      && (q.state == Landed || q.state == Expired || q.state == r.state)
      && (!IsUnseen(a, r.tx) ==> q.txHash == Some(a.statuses[r.tx].value.hash))
      && (IsUnseen(a, r.tx) ==> q.txHash == if r.tx in a.jobHashes then Some(a.jobHashes[r.tx]) else r.txHash)
  }

  /** Each record is as it was or settled. */
  ghost predicate SettledSome(r0: map<Tx, Rec>, r: map<Tx, Rec>, a: Answers) {
    r.Keys == r0.Keys && forall tx :: tx in r ==> r[tx] == r0[tx] || IsSettledBy(r0[tx], r[tx], a)
  }

  /** Those among the first `n` of the order are settled, the others as they were. */
  ghost predicate SettledUpTo(r0: map<Tx, Rec>, r: map<Tx, Rec>, a: Answers, order: seq<Tx>, n: nat) {
    && r.Keys == r0.Keys
    && (forall k :: 0 <= k < |order| && order[k] in r && k < n ==> IsSettledBy(r0[order[k]], r[order[k]], a))
    && (forall k :: 0 <= k < |order| && order[k] in r && k >= n ==> r[order[k]] == r0[order[k]])
  }

  lemma NoneSettled(r0: map<Tx, Rec>, a: Answers, order: seq<Tx>)
    ensures SettledUpTo(r0, r0, a, order, 0) && SettledSome(r0, r0, a)
  {
  }

  lemma NextUnsettled(r0: map<Tx, Rec>, r: map<Tx, Rec>, a: Answers, order: seq<Tx>, i: nat)
    requires SettledUpTo(r0, r, a, order, i) && i < |order|
    ensures r.Keys == r0.Keys && (order[i] in r ==> r[order[i]] == r0[order[i]])
  {
  }

  lemma SettledNext(r0: map<Tx, Rec>, r: map<Tx, Rec>, q: map<Tx, Rec>, a: Answers, order: seq<Tx>, i: nat)
    requires SettledUpTo(r0, r, a, order, i) && SettledSome(r0, r, a) && i < |order| && order[i] in r
    requires forall i, j :: 0 <= i < j < |order| ==> order[i] != order[j]
    requires order[i] in q && (q == r || (q == r[order[i] := q[order[i]]] && IsSettledBy(r[order[i]], q[order[i]], a)))
    ensures SettledSome(r0, q, a) && q.Keys == r0.Keys
    ensures IsSettledBy(r[order[i]], q[order[i]], a) ==> SettledUpTo(r0, q, a, order, i + 1)
  {
    hide IsSettledBy;
    assert r[order[i]] == r0[order[i]];
  }

  /** Only offered transactions were applied. */
  predicate OnlyOffered(records: map<Tx, Rec>, a: Answers) {
    forall tx :: tx in records && IsApplied(a, tx) ==> records[tx].attempted
  }

  /** The records listed are those that differ. */
  predicate AreChanged(changed: seq<Tx>, r0: map<Tx, Rec>, r: map<Tx, Rec>)
    requires r.Keys == r0.Keys
  {
    (forall tx :: tx in changed ==> tx in r) && forall tx :: tx in r ==> (tx in changed <==> r[tx] != r0[tx])
  }

  lemma NoneChanged(r: map<Tx, Rec>)
    ensures AreChanged([], r, r)
  {
  }

  lemma ChangedNext(changed: seq<Tx>, r0: map<Tx, Rec>, r: map<Tx, Rec>, q: map<Tx, Rec>, a: Answers, tx: Tx)
    requires r.Keys == r0.Keys && AreChanged(changed, r0, r) && OnlyOffered(r, a) && tx in r && tx in q
    requires q == r[tx := q[tx]] && r[tx] == r0[tx] && q[tx].attempted == r[tx].attempted
    ensures q.Keys == r0.Keys && OnlyOffered(q, a)
    ensures AreChanged(if q != r then changed + [tx] else changed, r0, q)
  {
  }

  lemma SettledAll(r0: map<Tx, Rec>, r: map<Tx, Rec>, a: Answers, order: seq<Tx>)
    requires SettledUpTo(r0, r, a, order, |order|) && forall tx :: tx in r0 ==> tx in order
    ensures forall tx :: tx in r0 ==> tx in r && IsSettledBy(r0[tx], r[tx], a)
  {
    hide IsSettledBy;
  }

  lemma SettledMayUpdate(rec: Rec, out: Rec)
    requires IsOpen(rec) && (out.state == rec.state || out.state == Expired || (out.state == Landed && rec.attempted))
    requires out == rec.(state := out.state, txHash := out.txHash)
    ensures MayUpdate(rec, out)
  {
  }

  /** The files open transactions spend and create. */
  lemma LockedMeans(records: map<Tx, Rec>, n: string)
    ensures n in LockedInputs(records) <==>
      exists tx :: tx in records && n in records[tx].inputs && records[tx].state in {Recorded, Submitted}
    ensures IsOpenOutput(records, n) <==>
      exists tx :: tx in records && n in records[tx].outputs && records[tx].state in {Recorded, Submitted}
  {
  }

  lemma NamesMayUpdate(rec: Rec, out: Rec)
    requires IsTerminal(rec) && SameBut(rec, out) && RecOk(out)
    ensures MayUpdate(rec, out)
  {
  }

  lemma KeyedRecord(records: map<Tx, Rec>, tx: Tx)
    requires RecordsOk(records) && tx in records
    ensures records[tx].tx == tx && RecOk(records[tx])
  {
  }

  /** At most the file names of one record changed. */
  ghost predicate OneRenamed(r: map<Tx, Rec>, q: map<Tx, Rec>, tx: Tx) {
    && q.Keys == r.Keys && tx in r && SameBut(r[tx], q[tx])
    && forall k :: k in r && k != tx ==> q[k] == r[k]
  }

  lemma SameIsRenamed(r: map<Tx, Rec>, tx: Tx)
    requires tx in r
    ensures OneRenamed(r, r, tx)
  {
  }

  lemma SameButTx(rec: Rec, out: Rec)
    requires SameBut(rec, out)
    ensures out.tx == rec.tx && out.state == rec.state
  {
  }

  lemma NewIsRenamed(r: map<Tx, Rec>, tx: Tx, out: Rec)
    requires tx in r && SameBut(r[tx], out)
    ensures OneRenamed(r, r[tx := out], tx)
  {
  }

  lemma SettledStayLocked(r: map<Tx, Rec>, q: map<Tx, Rec>, tx: Tx, locked: set<string>)
    requires OneRenamed(r, q, tx) && IsTerminal(r[tx]) && LockedInputs(r) <= locked
    ensures LockedInputs(q) <= locked
  {
  }

  /** A reconciliation that leaves no live file behind mends what it reaches. */
  lemma ReconcilingMends(d: Disk, e: Disk, rec: Rec, used: set<string>)
    requires Ordered(d) && NoneStranded(d, e) && NamesKept(d, e, FixedNames(d, rec, used))
    requires Reconciled(d, rec, e)
    ensures Mends(d, e, rec)
  {
    hide GeneratedName, HasGeneratedShape, Ordered, Progress;
    FewerNamesKept(d, e, FixedNames(d, rec, used), FixedNames(d, rec, {}));
    forall o | Stranded(e, o) ensures !Repairs(d, rec, o) {
      var m :| LiveAs(e, o, m);
      assert rec.state == Landed ==> o !in PlanOf(d, rec).spent;
    }
  }

  // ------------------------------------------------------------------
  // Reconciliations in the history of the store

  /** Between two states the files of a settled record were brought in line. */
  ghost predicate FiledAt(h: seq<State>, i: int, j: int, tx: Tx) {
    && 0 <= i <= j < |h| && tx in h[i].records && IsTerminal(h[i].records[tx])
    && Filed(h[i].disk, h[i].records[tx], h[j].disk)
  }

  /** The files of the record of `tx` were brought in line at or after `from`. */
  ghost predicate FiledSince(h: seq<State>, from: int, tx: Tx) {
    exists i, j :: from <= i && FiledAt(h, i, j, tx)
  }

  lemma FiledLater(h: seq<State>, g: seq<State>, from: int, before: int, tx: Tx)
    requires h <= g && before <= from
    ensures FiledSince(h, from, tx) ==> FiledSince(g, before, tx)
  {
    hide Filed;
    if FiledSince(h, from, tx) {
      var i, j :| from <= i && FiledAt(h, i, j, tx);
      assert FiledAt(g, i, j, tx);
    }
  }

  /** Every record removed was reconciled since `from`; a cached one is of a settled
      transaction, and as cached before, or was reconciled since and is the one
      on file. */
  ghost predicate AllFiled(
    h: seq<State>, from: int, r0: map<Tx, Rec>, r: map<Tx, Rec>, z0: map<Tx, Rec>, z: map<Tx, Rec>)
  {
    && (forall tx :: tx in r0 && tx !in r ==> FiledSince(h, from, tx))
    && z.Keys <= TerminalIds(r0)
    && (forall tx :: tx in z ==>
          (tx in z0 && z[tx] == z0[tx]) || (FiledSince(h, from, tx) && (tx in r ==> z[tx] == r[tx])))
  }

  lemma NoneFiled(h: seq<State>, from: int, r: map<Tx, Rec>, z: map<Tx, Rec>, left: set<Tx>, now: nat)
    requires left == TerminalIds(r)
    ensures AllFiled(h, from, r, r, z, Retained(z, left)) && NoneDue(r, r, left, now)
  {
    hide FiledSince;
  }

  lemma OneMoreFiled(
    h: seq<State>, g: seq<State>, from: int, r0: map<Tx, Rec>, r: map<Tx, Rec>, q: map<Tx, Rec>, z0: map<Tx, Rec>,
    z: map<Tx, Rec>, y: map<Tx, Rec>, tx: Tx, now: nat)
    requires h <= g && from <= |h| - 1 && tx in r && Pruned(r, q, tx, now) && AllFiled(h, from, r0, r, z0, z)
    requires OthersCached(z, y, tx) && tx in TerminalIds(r0)
    requires !Visited(r[tx], z, now) ==> q == r && y == z
    requires Visited(r[tx], z, now) && (tx !in q || tx in y) ==>
      FiledSince(g, |h| - 1, tx) && (tx in q ==> y[tx] == q[tx])
    ensures AllFiled(g, from, r0, q, z0, y)
  {
    hide FiledSince, Visited, SameBut, TerminalIds;
    forall k ensures FiledSince(h, from, k) ==> FiledSince(g, from, k) { FiledLater(h, g, from, from, k); }
    FiledLater(g, g, |h| - 1, from, tx);
    OneMoreRemoved(h, g, from, r0, r, q, tx);
    if Visited(r[tx], z, now) { OneMoreCached(h, g, from, r, q, z0, z, y, tx); }
  }

  lemma OneMoreRemoved(
    h: seq<State>, g: seq<State>, from: int, r0: map<Tx, Rec>, r: map<Tx, Rec>, q: map<Tx, Rec>, tx: Tx)
    requires forall k :: FiledSince(h, from, k) ==> FiledSince(g, from, k)
    requires forall k :: k != tx && k in r ==> k in q
    requires tx in r && tx !in q ==> FiledSince(g, from, tx)
    requires forall k :: k in r0 && k !in r ==> FiledSince(h, from, k)
    ensures forall k :: k in r0 && k !in q ==> FiledSince(g, from, k)
  {
    hide FiledSince;
  }

  lemma OneMoreCached(
    h: seq<State>, g: seq<State>, from: int, r: map<Tx, Rec>, q: map<Tx, Rec>, z0: map<Tx, Rec>, z: map<Tx, Rec>,
    y: map<Tx, Rec>, tx: Tx)
    requires forall k :: FiledSince(h, from, k) ==> FiledSince(g, from, k)
    requires forall k :: k != tx && k in q ==> k in r && q[k] == r[k]
    requires forall k :: k != tx && k in y ==> k in z && y[k] == z[k]
    requires tx in y ==> FiledSince(g, from, tx) && (tx in q ==> y[tx] == q[tx])
    requires forall k :: k in z ==>
      (k in z0 && z[k] == z0[k]) || (FiledSince(h, from, k) && (k in r ==> z[k] == r[k]))
    ensures forall k :: k in y ==>
      (k in z0 && y[k] == z0[k]) || (FiledSince(g, from, k) && (k in q ==> y[k] == q[k]))
  {
    hide FiledSince;
  }

  /** No settled record of `r0`, but for those left, is still there past its time. */
  ghost predicate NoneDue(r0: map<Tx, Rec>, r: map<Tx, Rec>, left: set<Tx>, now: nat) {
    forall tx :: tx in r0 && IsTerminal(r0[tx]) && tx !in left && r0[tx].cleanupAt <= now ==> tx !in r
  }

  lemma OneLessDue(r0: map<Tx, Rec>, r: map<Tx, Rec>, q: map<Tx, Rec>, left: set<Tx>, tx: Tx, now: nat)
    requires tx in r && tx in r0 && r[tx] == r0[tx] && Pruned(r, q, tx, now)
    ensures NoneDue(r0, r, left, now) && (r0[tx].cleanupAt <= now ==> tx !in q) ==> NoneDue(r0, q, left - {tx}, now)
  {
  }

  /** The files of the settled ones among `changed`, but for those left, were
      brought in line since `from`. */
  ghost predicate FiledBut(h: seq<State>, from: int, r: map<Tx, Rec>, changed: seq<Tx>, left: set<Tx>) {
    forall tx :: tx in changed && tx in r && IsTerminal(r[tx]) && tx !in left ==> FiledSince(h, from, tx)
  }

  lemma NoneFiledYet(h: seq<State>, from: int, r: map<Tx, Rec>, changed: seq<Tx>, left: set<Tx>)
    requires forall tx :: tx in changed ==> tx in left
    ensures FiledBut(h, from, r, changed, left)
  {
  }

  lemma FiledButOn(h: seq<State>, g: seq<State>, from: int, r: map<Tx, Rec>, changed: seq<Tx>, left: set<Tx>)
    requires h <= g && FiledBut(h, from, r, changed, left)
    ensures FiledBut(g, from, r, changed, left)
  {
    forall tx ensures FiledSince(h, from, tx) ==> FiledSince(g, from, tx) { FiledLater(h, g, from, from, tx); }
    hide FiledSince;
  }

  lemma FiledButLater(
    h: seq<State>, g: seq<State>, from: int, r: map<Tx, Rec>, changed: seq<Tx>, left: set<Tx>, tx: Tx)
    requires h <= g && from <= |h| - 1 && FiledBut(h, from, r, changed, left)
    ensures FiledBut(g, from, r, changed, left)
    ensures FiledSince(g, |h| - 1, tx) ==> FiledBut(g, from, r, changed, left - {tx})
  {
    FiledButOn(h, g, from, r, changed, left);
    FiledLater(g, g, |h| - 1, from, tx);
    hide FiledSince;
  }

  lemma OpenIsNotFiled(h: seq<State>, from: int, r: map<Tx, Rec>, changed: seq<Tx>, left: set<Tx>, tx: Tx)
    requires FiledBut(h, from, r, changed, left) && tx in r && !IsTerminal(r[tx])
    ensures FiledBut(h, from, r, changed, left - {tx})
  {
  }

  /** Settled, and then perhaps renamed by the reconciliation. */
  ghost predicate IsSettledIn(r: Rec, q: Rec, a: Answers) {
    exists mid :: IsSettledBy(r, mid, a) && SameBut(mid, q)
  }

  lemma SettledThenFiled(r0: map<Tx, Rec>, r: map<Tx, Rec>, q: map<Tx, Rec>, a: Answers)
    requires r.Keys == r0.Keys && q.Keys == r.Keys && AllSameBut(r, q)
    requires forall tx :: tx in r0 ==> IsSettledBy(r0[tx], r[tx], a)
    ensures forall tx :: tx in q ==> IsSettledIn(r0[tx], q[tx], a)
  {
    hide IsSettledBy, SameBut;
    forall tx | tx in q ensures IsSettledIn(r0[tx], q[tx], a) {
      assert IsSettledBy(r0[tx], r[tx], a) && SameBut(r[tx], q[tx]);
    }
  }

  lemma ChangedThere(changed: seq<Tx>, r0: map<Tx, Rec>, r: map<Tx, Rec>)
    requires r.Keys == r0.Keys && AreChanged(changed, r0, r)
    ensures forall i :: 0 <= i < |changed| ==> changed[i] in r
  {
  }

  lemma ChangedAreFiled(
    h0: seq<State>, h: seq<State>, g: seq<State>, r0: map<Tx, Rec>, r: map<Tx, Rec>, q: map<Tx, Rec>,
    changed: seq<Tx>, left: set<Tx>)
    requires h0 <= h && r.Keys == r0.Keys && q.Keys == r.Keys && AreChanged(changed, r0, r) && AllSameBut(r, q)
    requires FiledBut(g, |h| - 1, r, changed, left)
    ensures forall tx :: tx in q && IsOpen(r0[tx]) && IsTerminal(q[tx]) && tx !in left ==> FiledSince(g, |h0| - 1, tx)
  {
    hide FiledSince;
    forall tx | tx in q && IsOpen(r0[tx]) && IsTerminal(q[tx]) && tx !in left ensures FiledSince(g, |h0| - 1, tx) {
      AllSameButAt(r, q, tx);
      FiledLater(g, g, |h| - 1, |h0| - 1, tx);
    }
  }

  lemma VisitedMeans(rec: Rec, reconciled: map<Tx, Rec>, now: nat)
    ensures Visited(rec, reconciled, now) <==>
      now >= rec.cleanupAt || rec.tx !in reconciled || reconciled[rec.tx] != rec
  {
  }

  lemma ValidStays(d: Disk, e: Disk)
    requires Valid(d) && Ordered(e) && NoneStranded(d, e)
    ensures Valid(e) && Loadable(e)
  {
    ValidIff(d);
    ValidIff(e);
    hide Ordered, Stranded, Valid;
    ValidIsLoadable(e);
  }

  lemma AllSameButAt(r: map<Tx, Rec>, q: map<Tx, Rec>, tx: Tx)
    requires AllSameBut(r, q) && tx in q
    ensures tx in r && IsTerminal(q[tx]) == IsTerminal(r[tx])
  {
  }

  // ------------------------------------------------------------------
  // Pruning

  /** Due, or not known to be reconciled. */
  predicate Visited(rec: Rec, reconciled: map<Tx, Rec>, now: nat) {
    now >= rec.cleanupAt || rec.tx !in reconciled || reconciled[rec.tx] != rec
  }

  function TerminalIds(records: map<Tx, Rec>): set<Tx> {
    set tx | tx in records && IsTerminal(records[tx])
  }

  function Retained(reconciled: map<Tx, Rec>, ids: set<Tx>): map<Tx, Rec> {
    map tx | tx in reconciled && tx in ids :: reconciled[tx]
  }

  /** The settled records pruning will reconcile. */
  function ToVisit(records: map<Tx, Rec>, reconciled: map<Tx, Rec>, now: nat): set<Tx> {
    set tx | tx in records && IsTerminal(records[tx]) && Visited(records[tx], reconciled, now)
  }

  /** What pruning one settled transaction may do to the records. */
  ghost predicate Pruned(r: map<Tx, Rec>, q: map<Tx, Rec>, tx: Tx, now: nat)
    requires tx in r
  {
    && (forall k :: k != tx ==> (k in q <==> k in r))
    && (forall k :: k != tx && k in r && k in q ==> q[k] == r[k])
    && (tx in q ==> SameBut(r[tx], q[tx]))
    && (tx !in q ==> r[tx].cleanupAt <= now)
  }

  lemma SamePruned(r: map<Tx, Rec>, tx: Tx, now: nat)
    requires tx in r
    ensures Pruned(r, r, tx, now)
  {
  }

  lemma RenamedIsPruned(r: map<Tx, Rec>, q: map<Tx, Rec>, tx: Tx, now: nat)
    requires OneRenamed(r, q, tx)
    ensures Pruned(r, q, tx, now) && tx in q && IsTerminal(r[tx]) == IsTerminal(q[tx])
  {
  }

  lemma DroppedIsPruned(r: map<Tx, Rec>, q: map<Tx, Rec>, tx: Tx, now: nat)
    requires tx in r && r[tx].cleanupAt <= now
    requires (Pruned(r, q, tx, now) || exists p :: Pruned(r, p, tx, now) && q == p - {tx})
    ensures Pruned(r, q, tx, now)
  {
  }

  lemma FewerStayLocked(r: map<Tx, Rec>, q: map<Tx, Rec>, tx: Tx, locked: set<string>)
    requires tx in r && IsTerminal(r[tx]) && LockedInputs(r) <= locked && exists now :: Pruned(r, q, tx, now)
    ensures LockedInputs(q) <= locked
  {
  }

  /** The records `r` after some settled ones of `r0`, all but `left`, were
      reconciled and, once due, perhaps removed. */
  ghost predicate Settling(r0: map<Tx, Rec>, r: map<Tx, Rec>, left: set<Tx>, now: nat) {
    && r.Keys <= r0.Keys && left <= r.Keys
    && (forall tx :: tx in r ==> SameBut(r0[tx], r[tx]))
    && (forall tx :: tx in r0 && (IsOpen(r0[tx]) || tx in left) ==> tx in r && r[tx] == r0[tx])
    && (forall tx :: tx in left ==> IsTerminal(r0[tx]))
    && (forall tx :: tx in r0 && tx !in r ==> r0[tx].cleanupAt <= now)
  }

  lemma SettlingStarts(r: map<Tx, Rec>, left: set<Tx>, now: nat)
    requires left == TerminalIds(r)
    ensures Settling(r, r, left, now) && left <= r.Keys
  {
  }

  lemma LeftIsSettled(r0: map<Tx, Rec>, r: map<Tx, Rec>, left: set<Tx>, tx: Tx, now: nat)
    requires Settling(r0, r, left, now) && tx in left
    ensures tx in r && tx in r0 && IsTerminal(r[tx]) && r[tx] == r0[tx] && tx in TerminalIds(r0)
  {
  }

  lemma SettlingStep(r0: map<Tx, Rec>, r: map<Tx, Rec>, q: map<Tx, Rec>, left: set<Tx>, tx: Tx, now: nat)
    requires Settling(r0, r, left, now) && tx in left && tx in r && Pruned(r, q, tx, now)
    ensures Settling(r0, q, left - {tx}, now) && q.Keys <= r.Keys
  {
    forall k | k in q ensures SameBut(r0[k], q[k]) {
      if k == tx { assert r[k] == r0[k]; }
    }
  }

  lemma KeptAll(d: Disk, rec: Rec, used: set<string>)
    requires Ordered(d)
    ensures NamesKept(d, d, FixedNames(d, rec, used))
  {
  }

  lemma KeptByAll(d: Disk, used: set<string>)
    requires Ordered(d)
    ensures NamesKept(d, d, used)
  {
  }

  lemma KeptOnce(d: Disk, e: Disk, f: Disk, rec: Rec, used: set<string>)
    requires NamesKept(d, e, used) && NamesKept(e, f, FixedNames(e, rec, used))
    ensures NamesKept(d, f, used)
  {
  }

  /** Dropping other entries from the cache changes no visit. */
  lemma RetainedVisits(records: map<Tx, Rec>, reconciled: map<Tx, Rec>, left: set<Tx>, now: nat)
    requires RecordsOk(records) && left == TerminalIds(records)
    ensures left <= records.Keys
    ensures forall k :: k in left ==>
      (Visited(records[k], Retained(reconciled, left), now) <==> k in ToVisit(records, reconciled, now))
    ensures ToVisit(records, reconciled, now) * left == ToVisit(records, reconciled, now)
  {
  }

  /** Nothing else is cached otherwise. */
  ghost predicate OthersCached(z: map<Tx, Rec>, y: map<Tx, Rec>, tx: Tx) {
    forall k :: k != tx ==> (k in y <==> k in z) && (k in y ==> y[k] == z[k])
  }

  lemma OneCached(z: map<Tx, Rec>, rec: Rec, tx: Tx)
    ensures OthersCached(z, z, tx) && OthersCached(z, z - {tx}, tx) && OthersCached(z, z[tx := rec], tx)
    ensures OthersCached(z, z[tx := rec] - {tx}, tx)
  {
  }

  lemma VisitsStay(r0: map<Tx, Rec>, z: map<Tx, Rec>, y: map<Tx, Rec>, left: set<Tx>, tx: Tx, now: nat)
    requires RecordsOk(r0) && left <= r0.Keys && OthersCached(z, y, tx)
    ensures forall k :: k in left && k != tx ==> (Visited(r0[k], y, now) <==> Visited(r0[k], z, now))
  {
  }

  /** How far pruning has got: those left are as they were and to be visited. */
  ghost predicate Pruning(
    h: seq<State>, from: int, r0: map<Tx, Rec>, r: map<Tx, Rec>, z0: map<Tx, Rec>, z: map<Tx, Rec>, left: set<Tx>,
    visit: set<Tx>, now: nat)
  {
    && RecordsOk(r0) && from <= |h| - 1 && Settling(r0, r, left, now) && AllFiled(h, from, r0, r, z0, z)
    && left <= r0.Keys && forall k :: k in left ==> (Visited(r0[k], z, now) <==> k in visit)
  }

  lemma PruningStarts(h: seq<State>, r: map<Tx, Rec>, z: map<Tx, Rec>, now: nat)
    requires RecordsOk(r) && h != []
    ensures var left, visit := TerminalIds(r), ToVisit(r, z, now);
      && Pruning(h, |h| - 1, r, r, z, Retained(z, left), left, visit, now)
      && NoneDue(r, r, left, now) && visit * left == visit
  {
    var left := TerminalIds(r);
    RetainedVisits(r, z, left, now);
    SettlingStarts(r, left, now);
    NoneFiled(h, |h| - 1, r, z, left, now);
    hide RecordsOk, Settling, AllFiled, Visited, NoneDue;
  }

  lemma PruningNext(
    h: seq<State>, from: int, r0: map<Tx, Rec>, r: map<Tx, Rec>, z0: map<Tx, Rec>, z: map<Tx, Rec>, left: set<Tx>,
    visit: set<Tx>, now: nat, tx: Tx)
    requires Pruning(h, from, r0, r, z0, z, left, visit, now) && tx in left
    ensures tx in r && tx in r0 && r[tx] == r0[tx] && IsTerminal(r[tx]) && (Visited(r[tx], z, now) <==> tx in visit)
  {
    LeftIsSettled(r0, r, left, tx, now);
    hide Settling, AllFiled, Visited, RecordsOk;
  }

  lemma PruningStep(
    h: seq<State>, g: seq<State>, from: int, r0: map<Tx, Rec>, r: map<Tx, Rec>, q: map<Tx, Rec>, z0: map<Tx, Rec>,
    z: map<Tx, Rec>, y: map<Tx, Rec>, left: set<Tx>, visit: set<Tx>, now: nat, tx: Tx)
    requires Pruning(h, from, r0, r, z0, z, left, visit, now) && tx in left
    requires h <= g && tx in r && Pruned(r, q, tx, now) && OthersCached(z, y, tx)
    requires !Visited(r[tx], z, now) ==> q == r && y == z
    requires Visited(r[tx], z, now) && (tx !in q || tx in y) ==>
      FiledSince(g, |h| - 1, tx) && (tx in q ==> y[tx] == q[tx])
    ensures Pruning(g, from, r0, q, z0, y, left - {tx}, visit, now)
    ensures r.Keys - {tx} <= q.Keys <= r.Keys && (tx !in q ==> r[tx].cleanupAt <= now)
    ensures NoneDue(r0, r, left, now) && (r[tx].cleanupAt <= now ==> tx !in q) ==> NoneDue(r0, q, left - {tx}, now)
  {
    hide FiledSince, RecordsOk, Settling, AllFiled, Visited, Pruned, OthersCached, NoneDue;
    LeftIsSettled(r0, r, left, tx, now);
    SettlingStep(r0, r, q, left, tx, now);
    VisitsStay(r0, z, y, left, tx, now);
    OneMoreFiled(h, g, from, r0, r, q, z0, z, y, tx, now);
    OneLessDue(r0, r, q, left, tx, now);
    PrunedKeys(r, q, tx, now);
  }

  lemma PrunedKeys(r: map<Tx, Rec>, q: map<Tx, Rec>, tx: Tx, now: nat)
    requires tx in r && Pruned(r, q, tx, now)
    ensures r.Keys - {tx} <= q.Keys <= r.Keys && (tx !in q ==> r[tx].cleanupAt <= now)
  {
  }

  lemma PruningEnds(
    h: seq<State>, from: int, r0: map<Tx, Rec>, r: map<Tx, Rec>, z0: map<Tx, Rec>, z: map<Tx, Rec>, visit: set<Tx>,
    now: nat)
    requires Pruning(h, from, r0, r, z0, z, {}, visit, now)
    ensures Settling(r0, r, {}, now) && AllFiled(h, from, r0, r, z0, z)
  {
  }

  /** One visit brings the stranded objects it reaches back to one file and
      leaves the others within reach of theirs. */
  lemma PrunedRepairs(
    d: Disk, e: Disk, r: map<Tx, Rec>, q: map<Tx, Rec>, visit: set<Tx>, left: set<Tx>, tx: Tx, now: nat)
    requires Ordered(d) && Ordered(e) && tx in r && Pruned(r, q, tx, now) && AllRepairable(d, r, visit * left)
    requires tx in visit ==> Mends(d, e, r[tx])
    requires tx !in visit ==> e == d && q == r
    ensures AllRepairable(e, q, visit * (left - {tx}))
  {
    hide Ordered, Mends, AllRepairable;
    if tx in visit {
      forall k | k in q ensures k in r && SameBut(r[k], q[k]) {}
      MendedAll(d, e, r, q, visit * left, tx);
      assert visit * left - {tx} == visit * (left - {tx});
    } else {
      assert visit * left == visit * (left - {tx});
    }
  }

  lemma NothingRepairable(d: Disk, records: map<Tx, Rec>, txs: set<Tx>)
    requires Ordered(d) && AllRepairable(d, records, txs) && txs == {}
    ensures Valid(d)
  {
    ValidIff(d);
    hide Ordered, Valid, Stranded;
    forall o ensures !Stranded(d, o) {}
  }

  // ------------------------------------------------------------------
  // Passes over all files

  lemma TellMoves(s: State, told: Told)
    requires s.told.created <= told.created && s.told.spent <= told.spent
    ensures RecordMove(s, Tell(told), s.(told := told))
  {
  }

  lemma NoneStrandedIn(d: Disk)
    ensures NoneStranded(d, d)
  {
  }

  /** The transaction hash the record of `tx` has, if any. */
  function TxHashOf(records: map<Tx, Rec>, tx: Tx): Option<nat> {
    if tx in records then records[tx].txHash else None
  }

  /** The scanned live file `n`, if still live, is as the chain and the records
      make it. */
  predicate IsSynced(s: Disk, m: Option<Membership>, records: map<Tx, Rec>, d: Disk, n: string) {
    n in s.live && n in d.live ==> d.live[n] == Synced(s.live[n], m, TxHashOf(records, s.live[n].tx))
  }

  lemma OthersStaySynced(s: Disk, m: Option<Membership>, records: map<Tx, Rec>, d: Disk, e: Disk, n: string)
    requires SameElsewhere(d, e, n)
    ensures forall k :: k != n && IsSynced(s, m, records, d, k) ==> IsSynced(s, m, records, e, k)
  {
    hide Synced, TxHashOf;
  }

  lemma SyncedHere(s: Disk, m: Option<Membership>, records: map<Tx, Rec>, d: Disk, e: Disk, n: string, f: File)
    requires Scanned(s, m, d, n, f)
    requires n in s.live && n in e.live ==> e.live[n] == Synced(f, m, TxHashOf(records, f.tx))
    ensures IsSynced(s, m, records, e, n)
  {
    ScannedFacts(s, m, d, n, f, TxHashOf(records, f.tx));
    hide Scanned, Synced;
  }

  lemma NothingPassed(d: Disk, pt: Proved, names: seq<string>)
    requires |names| == |pt.outputs| && forall i :: 0 <= i < |names| ==> names[i] == GeneratedName(pt.outputs[i])
    ensures NamesPassed(d, pt, names, [], 0)
  {
  }

  /** The moves of rewriting a file in place. */
  function PutOf(d: Disk, g: File, n: string): Move {
    if n in d.live then RewriteLive(n, g) else RewriteSpent(n, g)
  }

  function DropOf(d: Disk, n: string): Move {
    if n in d.live then DropNullified(n) else DropSpent(n)
  }

  ghost predicate MayRewrite(s: State, g: File, n: string) {
    MayWrite(s, g, n, PutOf(s.disk, g, n), DropOf(s.disk, n))
  }

  lemma SameEverywhere(d: Disk, n: string)
    ensures SameElsewhere(d, d, n)
  {
  }

  lemma GoneIsPlanned(p: Plan, d: Disk, n: string)
    ensures n !in d.live ==> AsPlanned(p, d, n)
  {
  }

  lemma ScannedFacts(s: Disk, m: Option<Membership>, d: Disk, n: string, f: File, txHash: Option<nat>)
    requires Scanned(s, m, d, n, f)
    ensures Syncing(s, m, d) && SameFile(Synced(f, m, txHash), f)
    ensures n in s.live ==> n in d.live && d.live[n] == f && f == s.live[n] && !f.status.Nullified?
    ensures n !in s.live ==> f.status.Nullified? && Synced(f, m, txHash).status.Nullified?
    ensures Synced(f, m, txHash).status.Nullified? && !f.status.Nullified? ==>
      n in s.live && SameFile(Synced(f, m, txHash), d.live[n]) && Synced(f, m, txHash).obj in ChainPlan(s, m).spent
    ensures n in s.live && f.status.Nullified? == Synced(f, m, txHash).status.Nullified? ==>
      !Synced(f, m, txHash).status.Nullified?
  {
  }

  lemma TellsSpent(told: Told, f: File, m: Option<Membership>, txHash: Option<nat>)
    requires m.Some? ==> m.value.spent <= told.spent
    requires Synced(f, m, txHash).status.Nullified? && !f.status.Nullified?
    ensures Synced(f, m, txHash).obj in told.spent
  {
  }

  lemma UnchangedIsPlanned(s: Disk, m: Option<Membership>, d: Disk, n: string, f: File, txHash: Option<nat>)
    requires Scanned(s, m, d, n, f) && n in s.live && Synced(f, m, txHash) == f
    ensures AsPlanned(ChainPlan(s, m), d, n)
  {
  }

  lemma RewrittenIsPlanned(s: Disk, m: Option<Membership>, d: Disk, e: Disk, n: string, f: File, txHash: Option<nat>)
    requires Scanned(s, m, d, n, f) && n in s.live && !Synced(f, m, txHash).status.Nullified?
    requires e == Put(d, Synced(f, m, txHash), n)
    ensures AsPlanned(ChainPlan(s, m), e, n)
  {
  }

  lemma ScannedRewrites(s: Disk, m: Option<Membership>, d: Disk, n: string, f: File, txHash: Option<nat>)
    requires Scanned(s, m, d, n, f) && (n in s.live ==> !Synced(f, m, txHash).status.Nullified?)
    ensures Syncing(s, m, d) && Syncing(s, m, Put(d, Synced(f, m, txHash), n))
    ensures Put(d, Synced(f, m, txHash), n) == Written(d, Synced(f, m, txHash), n)
  {
    ScannedFacts(s, m, d, n, f, txHash);
    hide Synced, ChainPlan, Progress, Ordered;
    if n in s.live { LiveRewriteSyncs(s, m, d, n, txHash); } else { NullifiedRewriteSyncs(s, m, d, n, txHash); }
  }

  lemma RewriteLeavesOthers(s: Disk, m: Option<Membership>, d: Disk, e: Disk, n: string, f: File, txHash: Option<nat>)
    requires Scanned(s, m, d, n, f) && (n in s.live ==> !Synced(f, m, txHash).status.Nullified?) && Ordered(d)
    requires e == d || e == Put(d, Synced(f, m, txHash), n)
    ensures SameElsewhere(d, e, n) && NoneStranded(d, e)
    ensures forall k :: k != n && Untouched(s, d, k) ==> Untouched(s, e, k)
  {
    ScannedFacts(s, m, d, n, f, txHash);
    RewriteStrandsNone(d, n, f, Synced(f, m, txHash));
    RewriteElsewhere(d, e, n, Synced(f, m, txHash));
    hide GeneratedName, HasGeneratedShape, Ordered, Synced, Syncing, NoneStranded, Scanned, Put;
    forall k | k != n && Untouched(s, d, k) ensures Untouched(s, e, k) {}
  }

  lemma RewriteElsewhere(d: Disk, e: Disk, n: string, g: File)
    requires e == d || e == Put(d, g, n)
    ensures SameElsewhere(d, e, n)
    ensures forall k :: k != n && k in d.nullified ==> k in e.nullified && e.nullified[k] == d.nullified[k]
  {
  }

  lemma RewriteStrandsNone(d: Disk, n: string, f: File, g: File)
    requires Ordered(d) && SameFile(g, f)
    requires if n in d.live then d.live[n] == f && !g.status.Nullified?
             else n in d.nullified && d.nullified[n].obj == f.obj && g.status.Nullified?
    ensures NoneStranded(d, d) && NoneStranded(d, Put(d, g, n))
  {
    var e := Put(d, g, n);
    if n in d.live {
      RewritingKeepsOrder(d, n, g);
    } else {
      SameLive(d, e);
      assert forall o :: HasNullified(e, o) <==> HasNullified(d, o);
    }
    hide GeneratedName, HasGeneratedShape, Ordered, HasLive, HasNullified;
  }

  /** What the pass rewrites are moves. */
  lemma SyncIsAllowed(s: State, scanned: Disk, m: Option<Membership>, f: File, n: string, txHash: Option<nat>)
    requires Ordered(s.disk) && Scanned(scanned, m, s.disk, n, f)
    requires m.Some? ==> m.value.created <= s.told.created
    requires n in scanned.live ==> !Synced(f, m, txHash).status.Nullified?
    ensures MayRewrite(s, Synced(f, m, txHash), n)
  {
    var g := Synced(f, m, txHash);
    ScannedFacts(scanned, m, s.disk, n, f, txHash);
    SyncedKeepsObject(f, m, txHash);
    if n in scanned.live {
      NewlySpentIsPlanned(scanned, m, s.disk, n, txHash);
      UnspentNameIsFree(scanned, m, s.disk, n);
    }
    hide GeneratedName, HasGeneratedShape, Ordered, Synced, Syncing, ChainPlan, HasNullified;
  }

  lemma SyncingKeepsNames(s: Disk, m: Option<Membership>, d: Disk, claimed: set<string>)
    requires Syncing(s, m, d)
    ensures NamesKept(s, d, claimed)
  {
  }

  ghost predicate AllSameBut(r: map<Tx, Rec>, q: map<Tx, Rec>) {
    forall tx :: tx in q ==> tx in r && SameBut(r[tx], q[tx])
  }

  lemma SameRecords(r: map<Tx, Rec>)
    ensures AllSameBut(r, r)
  {
  }

  lemma SameRecordsOn(r0: map<Tx, Rec>, r: map<Tx, Rec>, q: map<Tx, Rec>, tx: Tx)
    requires AllSameBut(r0, r) && r.Keys == r0.Keys && OneRenamed(r, q, tx)
    ensures AllSameBut(r0, q) && q.Keys == r0.Keys
  {
  }

  lemma SyncedIsValid(s: Disk, m: Membership, d: Disk)
    requires Syncing(s, Some(m), d) && Done(ChainPlan(s, Some(m)), d)
    ensures Valid(d) <==> forall o :: Stranded(s, o) ==> o in m.spent
    ensures forall n :: n in d.live ==> d.live[n].obj !in m.spent
  {
    hide GeneratedName, HasGeneratedShape;
    forall n | n in d.live ensures d.live[n].obj !in m.spent {
      SyncedView(s, m, d, d.live[n].obj);
      assert LiveAs(d, d.live[n].obj, n);
      assert Shows(d, d.live[n].obj, d.live[n].status);
    }
    ghost var any: Object :| true;
    SyncedView(s, m, d, any);
  }

  lemma StrandedSpent(d: Disk, e: Disk, m: Membership)
    requires NoneStranded(d, e)
    ensures (forall o :: Stranded(d, o) ==> o in m.spent) ==> forall o :: Stranded(e, o) ==> o in m.spent
  {
  }

  // ------------------------------------------------------------------
  // Names players choose

  lemma RenameMoves(s: State, n: string, to: string, requested: string)
    requires n in s.disk.live && s.disk.live[n].status.Live? && to !in Taken(s.disk)
    requires n !in s.held && n !in LockedInputs(s.records) && !IsOpenOutput(s.records, n)
    requires CustomFileName(requested, GeneratedName(s.disk.live[n].obj)) == Ok(to)
    ensures FileMove(s, RenameFile(n, to), Renamed(s.disk, n, to))
  {
  }

  /** What renaming demands of the file and the name requested. */
  ghost predicate MayRename(s: State, n: string, requested: string) {
    && n in s.disk.live
    && var r := CustomFileName(requested, GeneratedName(s.disk.live[n].obj));
       && r.Ok?
       && (r.value == n ||
           (n !in s.held && n !in LockedInputs(s.records) && !IsOpenOutput(s.records, n) &&
            s.disk.live[n].status.Live? && r.value !in Taken(s.disk)))
  }

  /** A file offered for import: its class, the type its object commits to, the
      content hash it states and the object's own, and whether the creation
      proof it carries, if any, holds. */
  datatype Offered = Offered(
    file: File, kind: string, typeHash: Option<nat>, contentHash: nat, commitment: nat, proof: Option<bool>)

  /** The class is known, with a readable hash that is the object's type, and the
      hashes and the proof are right. */
  predicate IsGenuine(given: Offered, catalog: map<string, Option<nat>>) {
    && given.kind in catalog && catalog[given.kind].Some? && given.typeHash == catalog[given.kind]
    && given.contentHash == given.commitment && given.proof != Some(false)
  }

  /** The name an import is filed under. */
  function ImportName(d: Disk, o: Object, requested: Option<string>): Result<string, NameError> {
    if requested.Some? then ImportedFileName(requested.value, GeneratedName(o), Taken(d)) else Ok(GeneratedName(o))
  }

  /** The store has no such object, and the name is allowed and free. */
  ghost predicate MayName(d: Disk, o: Object, requested: Option<string>) {
    && Loadable(d) && !Has(d, o)
    && var r := ImportName(d, o, requested); r.Ok? && IsFreeName(d, r.value)
  }

  /** What importing demands of the file and the name requested, if any. */
  ghost predicate MayImport(
    d: Disk, given: Offered, catalog: map<string, Option<nat>>, requested: Option<string>, m: Membership)
  {
    var o := given.file.obj;
    IsGenuine(given, catalog) && o in m.created && o !in m.spent && MayName(d, o, requested)
  }

  /** What recording demands of the store. */
  ghost predicate MayRecord(d: Disk, records: map<Tx, Rec>, pt: Proved) {
    && Loadable(d) && pt.tx !in records && (forall n :: n in pt.inputs ==> InputFree(d, records, n))
    && (forall i :: 0 <= i < |pt.outputs| ==> IsFreeName(d, GeneratedName(pt.outputs[i])))
  }

  /** Loading finds an object exactly when the store has it. */
  lemma HeldIsLoaded(d: Disk, o: Object)
    requires Ordered(d)
    ensures Has(d, o) <==> exists n :: n in d.live + d.nullified && (d.live + d.nullified)[n].obj == o
  {
    var all := d.live + d.nullified;
    if HasNullified(d, o) {
      var n := GeneratedName(o);
      GeneratedNameInjective(o, d.nullified[n].obj);
      assert n in all && all[n] == d.nullified[n];
    } else if HasLive(d, o) {
      var n :| LiveAs(d, o, n);
      if n in d.nullified { WithoutNullified(d, n); }
      assert n in all && all[n] == d.live[n];
    }
    hide GeneratedName, HasGeneratedShape;
    forall n | n in all && all[n].obj == o ensures Has(d, o) {
      if n in d.nullified { assert HasNullified(d, o); } else { assert LiveAs(d, o, n); }
    }
  }

  lemma ImportedIsOwn(d: Disk, o: Object, requested: Option<string>)
    ensures var r := ImportName(d, o, requested); r.Ok? ==> OwnName(r.value, o)
  {
    if requested.Some? { ChosenNamesAreOwn(requested.value, o, Taken(d)); }
  }

  lemma ImportMoves(s: State, n: string, f: File)
    requires f.status.Live? && n !in s.disk.live && n !in s.disk.nullified && !Has(s.disk, f.obj)
    requires OwnName(n, f.obj)
    ensures MayWrite(s, f, n, Import(n, f), DropNullified(n))
    ensures Put(s.disk, f, n) == Written(s.disk, f, n)
  {
    assert s.disk.nullified - {n} == s.disk.nullified;
  }

  // ------------------------------------------------------------------
  // Recording

  lemma PayloadMoves(s: State, tx: Tx)
    ensures RecordMove(s, PutPayload(tx), s.(payloads := s.payloads + {tx}))
  {
  }

  lemma WritingMoves(s: State, w: Option<Writing>)
    requires w.Some? ==> w.value.tx !in s.records
    ensures RecordMove(s, if w.Some? then StartWriting(w.value.tx, w.value.names) else StopWriting, s.(writing := w))
  {
  }

  lemma MemoryMoves(s: State, held: set<string>)
    ensures RecordMove(s, StoreMoves.SetHolds(held), s.(held := held))
    ensures RecordMove(s, Crash, s.(held := {}, writing := None, rewritten := None))
  {
  }

  function WritingOf(pt: Proved, names: seq<string>): Writing {
    Writing(pt.tx, set n | n in names)
  }

  /** The input is live and no open transaction's. */
  predicate InputFree(d: Disk, records: map<Tx, Rec>, n: string) {
    n !in LockedInputs(records) && n in d.live && d.live[n].status.Live?
  }

  predicate IsFreeName(d: Disk, n: string) { n !in d.live && n !in d.nullified }

  /** The record to write: recorded, in order, of free inputs. */
  ghost predicate MayBeRecorded(d: Disk, records: map<Tx, Rec>, pt: Proved, rec: Rec) {
    && rec.tx == pt.tx && rec.spends == pt.spends && rec.state == Recorded && !rec.attempted && RecOk(rec)
    && forall n :: n in rec.inputs ==> InputFree(d, records, n)
  }

  lemma NamedMayBeRecorded(d: Disk, records: map<Tx, Rec>, pt: Proved, rec: Rec)
    requires rec.tx == pt.tx && rec.state == Recorded && !rec.attempted
    requires rec.inputs == pt.inputs && rec.spends == pt.spends
    requires PendingFits(rec.outputs, rec.pending) && forall n :: n in pt.inputs ==> InputFree(d, records, n)
    ensures MayBeRecorded(d, records, pt, rec)
  {
  }

  lemma AddingMoves(s: State, pt: Proved, names: seq<string>, i: nat)
    requires i < |names| == |pt.outputs| && s.writing == Some(WritingOf(pt, names))
    requires IsNew(s.disk, names[i], OutputFile(pt, i))
    ensures MayWrite(s, OutputFile(pt, i), names[i], AddOutput(names[i], OutputFile(pt, i)), DropNullified(names[i]))
  {
    hide Has, OwnName;
    assert names[i] in WritingOf(pt, names).names;
  }

  lemma UndoMoves(s: State, d: Disk, pt: Proved, names: seq<string>, k: nat, i: nat)
    requires NamesFit(d, pt, names) && i < k <= |names| && FilesAdded(d, s.disk, pt, names, k)
    requires s.writing == Some(WritingOf(pt, names)) && pt.tx !in s.records
    ensures names[i] in s.disk.live ==>
      FileMove(s, UndoOutput(names[i]), s.disk.(live := s.disk.live - {names[i]}))
  {
  }

  lemma CommitIsAllowed(s: State, d: Disk, pt: Proved, rec: Rec, attempted: nat)
    requires s.writing == Some(WritingOf(pt, rec.outputs)) && pt.tx in s.payloads && pt.tx !in s.records
    requires MayBeRecorded(d, s.records, pt, rec) && |rec.outputs| == |pt.outputs| && attempted <= |rec.outputs|
    requires FilesAdded(d, s.disk, pt, rec.outputs, attempted) && AllThere(s.disk, pt, rec.outputs) && Fresh(d, pt)
    ensures MayCommit(s, rec)
  {
    AddedKnows(d, s.disk, pt, rec.outputs, attempted);
    hide Fresh, KnowsSpent;
  }
}
