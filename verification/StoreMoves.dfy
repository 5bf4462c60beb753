/** The driver's store as a state machine of single file operations. Every
    write, removal and rename the driver makes is one move, guarded by what the
    code has checked when it makes it, so a run may stop between any two. */
module StoreMoves {
  import opened Wrappers
  import opened TxStates
  import opened Naming
  import opened ObjectStore
  import opened Settlement

  /** Which objects the chain is known to have created and spent. */
  datatype Told = Told(created: set<Object>, spent: set<Object>)

  /** A recording in progress: its transaction and the names of its outputs. */
  datatype Writing = Writing(tx: Tx, names: set<string>)

  /** Besides the object files: record files, temporary record files, payload
      files, and in memory the held inputs, the recording in progress, and the
      landed output just rewritten, whose nullified namesake is now stale. */
  datatype State = State(
    disk: Disk,
    records: map<Tx, Rec>,
    drafts: map<Tx, Rec>,
    payloads: set<Tx>,
    held: set<string>,
    writing: Option<Writing>,
    rewritten: Option<string>,
    told: Told)

  predicate Init(s: State) {
    s == State(Disk(map[], map[], {}), map[], map[], {}, {}, None, None, Told({}, {}))
  }

  datatype Move =
    | FileSpent(n: string, f: File)
    | DropSpent(n: string)
    | RewriteLive(n: string, f: File)
    | RewriteSpent(n: string, f: File)
    | DropNullified(n: string)
    | RenameFile(n: string, to: string)
    | FinishName(tx: Tx, pending: Pending)
    | RemoveOutput(tx: Tx, n: string)
    | AddOutput(n: string, f: File)
    | UndoOutput(n: string)
    | Import(n: string, f: File)
    | StartWriting(tx: Tx, names: set<string>)
    | StopWriting
    | PutPayload(tx: Tx)
    | DropPayload(tx: Tx)
    | PutDraft(rec: Rec)
    | CommitDraft(tx: Tx)
    | DropRecord(tx: Tx)
    | DropDraft(tx: Tx)
    | Tell(told: Told)
    | SetHolds(held: set<string>)
    | Crash

  // ------------------------------------------------------------------
  // Object files

  predicate IsLanded(records: map<Tx, Rec>, tx: Tx, n: string) {
    tx in records && records[tx].state == Landed && n in records[tx].outputs
  }

  /** A file of the same object and transaction. */
  predicate SameFile(f: File, g: File) { f.obj == g.obj && f.tx == g.tx }

  /** The transaction expired, or is recorded and was never offered, in which
      case only deleting it removes outputs. */
  predicate MayEnd(rec: Rec) {
    rec.state == Expired || (rec.state == Recorded && !rec.attempted)
  }

  /** No file has the name or holds the object. */
  ghost predicate IsNew(d: Disk, n: string, f: File) {
    n !in d.live && n !in d.nullified && !Has(d, f.obj) && OwnName(n, f.obj)
  }

  /** The effect of a move on the object files, if it may be made. */
  ghost predicate FileMove(s: State, m: Move, e: Disk) {
    var d := s.disk;
    match m
    case FileSpent(n, f) =>
      && n in d.live && SameFile(f, d.live[n]) && f.status.Nullified? && f.obj in s.told.spent
      && e == Put(d, f, GeneratedName(f.obj))
    case DropSpent(n) =>
      && n in d.live && d.live[n].obj in s.told.spent && HasNullified(d, d.live[n].obj)
      && e == d.(live := d.live - {n})
    case RewriteLive(n, f) =>
      && n in d.live && SameFile(f, d.live[n]) && !f.status.Nullified?
      && (f.status == d.live[n].status ||
          (f.status.Live? && (IsLanded(s.records, f.tx, n) || f.obj in s.told.created)))
      && e == Put(d, f, n)
    case RewriteSpent(n, f) =>
      n in d.nullified && f.obj == d.nullified[n].obj && f.status.Nullified? && e == Put(d, f, n)
    case DropNullified(n) =>
      && s.rewritten == Some(n) && n in d.live && n in d.nullified
      && d.live[n].status.Live? && IsLanded(s.records, d.live[n].tx, n)
      && e == d.(nullified := d.nullified - {n})
    case RenameFile(n, to) =>
      && n in d.live && d.live[n].status.Live? && to !in Taken(d) && OwnName(to, d.live[n].obj)
      && n !in s.held && n !in LockedInputs(s.records) && !IsOpenOutput(s.records, n)
      && e == Renamed(d, n, to)
    case FinishName(tx, pending) =>
      && tx in s.records && s.records[tx].state == Landed && pending in s.records[tx].pending
      && pending.file in d.live && d.live[pending.file].tx == tx
      && pending.file !in s.held && pending.file !in LockedInputs(s.records)
      && e == Renamed(d, pending.file, UniqueFileName(pending.final, Taken(d)))
    case RemoveOutput(tx, n) =>
      && tx in s.records && MayEnd(s.records[tx]) && n in s.records[tx].outputs
      && n in d.live && d.live[n].status.Unknown? && d.live[n].tx == tx
      && e == d.(live := d.live - {n})
    case AddOutput(n, f) =>
      && s.writing.Some? && n in s.writing.value.names && f.tx == s.writing.value.tx && f.status.Unknown?
      && IsNew(d, n, f) && e == Put(d, f, n)
    case UndoOutput(n) =>
      && s.writing.Some? && n in s.writing.value.names && s.writing.value.tx !in s.records
      && n in d.live && d.live[n].status.Unknown? && d.live[n].tx == s.writing.value.tx
      && e == d.(live := d.live - {n})
    case Import(n, f) =>
      f.status.Live? && IsNew(d, n, f) && e == Put(d, f, n)
    case _ => e == d
  }

  /** The move rewrites an output of a landed record that is not up to date. */
  ghost predicate Updates(s: State, m: Move) {
    && m.RewriteLive? && m.n in s.disk.live && IsLanded(s.records, s.disk.live[m.n].tx, m.n)
    && var rec := s.records[s.disk.live[m.n].tx];
       m.f == LandedFile(s.disk.live[m.n], rec) && !IsUpToDate(s.disk, rec, m.n)
  }

  /** The file a move has just rewritten, if it did. */
  ghost function RewrittenBy(s: State, m: Move): Option<string> {
    if Updates(s, m) then Some(m.n) else None
  }

  // ------------------------------------------------------------------
  // Record files

  /** The store knows the objects, none from a file of the transaction itself. */
  ghost predicate KnowsSpent(d: Disk, tx: Tx, spends: set<Object>) {
    && (forall o :: o in spends ==> Known(d, o))
    && (forall n :: n in d.live && d.live[n].tx == tx ==> d.live[n].obj !in spends)
  }

  /** A recorded transaction found its inputs live and free, and has its payload
      and all its outputs. What it spends was a live input when it was proved. */
  ghost predicate MayCommit(s: State, rec: Rec) {
    && s.writing.Some? && s.writing.value.tx == rec.tx && rec.tx in s.payloads
    && rec.state == Recorded && !rec.attempted && RecOk(rec) && KnowsSpent(s.disk, rec.tx, rec.spends)
    && (forall n :: n in rec.inputs ==>
          n in s.disk.live && s.disk.live[n].status.Live? && n !in LockedInputs(s.records))
    && (forall n :: n in rec.outputs ==>
          n in s.disk.live && s.disk.live[n].status.Unknown? && s.disk.live[n].tx == rec.tx)
  }

  /** The ways a record changes: marked as offered, submitted, annotated with a
      transaction hash, settled, or, once settled, naming its files where they
      now are. */
  predicate MayUpdate(prior: Rec, rec: Rec) {
    || (prior.state == Recorded && rec == prior.(attempted := true))
    || (prior.state == Recorded && prior.attempted && rec == prior.(state := Submitted))
    || (IsOpen(prior) && (rec.state == prior.state || IsTerminal(rec)) && (rec.state == Landed ==> prior.attempted) &&
        rec == prior.(state := rec.state, txHash := rec.txHash))
    || (IsTerminal(prior) && SameBut(prior, rec) && RecOk(rec))
  }

  /** What committing a record tells: a landed one's nullifiers are on chain. */
  function ToldBy(told: Told, rec: Rec): Told {
    if rec.state == Landed then told.(spent := told.spent + rec.spends) else told
  }

  /** The effect of a move on everything but the object files. */
  ghost predicate RecordMove(s: State, m: Move, t: State) {
    match m
    case StartWriting(tx, names) => tx !in s.records && t == s.(writing := Some(Writing(tx, names)))
    case StopWriting => t == s.(writing := None)
    case PutPayload(tx) => t == s.(payloads := s.payloads + {tx})
    case DropPayload(tx) =>
      && (tx in s.records ==> IsTerminal(s.records[tx]) || MayEnd(s.records[tx]))
      && t == s.(payloads := s.payloads - {tx})
    case PutDraft(rec) => t == s.(drafts := s.drafts[rec.tx := rec])
    case CommitDraft(tx) =>
      && tx in s.drafts && s.drafts[tx].tx == tx
      && (if tx in s.records then MayUpdate(s.records[tx], s.drafts[tx]) else MayCommit(s, s.drafts[tx]))
      && t == s.(records := s.records[tx := s.drafts[tx]], drafts := s.drafts - {tx},
                 writing := if tx in s.records then s.writing else None,
                 told := ToldBy(s.told, s.drafts[tx]))
    case DropRecord(tx) =>
      && tx in s.records && (IsTerminal(s.records[tx]) || MayEnd(s.records[tx]))
      && t == s.(records := s.records - {tx})
    case DropDraft(tx) => t == s.(drafts := s.drafts - {tx})
    case Tell(told) =>
      && s.told.created <= told.created && s.told.spent <= told.spent && t == s.(told := told)
    case SetHolds(held) => t == s.(held := held)
    case Crash => t == s.(held := {}, writing := None, rewritten := None)
    case _ => t == s
  }

  predicate IsFileMove(m: Move) {
    || m.FileSpent? || m.DropSpent? || m.RewriteLive? || m.RewriteSpent? || m.DropNullified? || m.RenameFile?
    || m.FinishName? || m.RemoveOutput? || m.AddOutput? || m.UndoOutput? || m.Import?
  }

  ghost predicate Takes(s: State, m: Move, t: State) {
    if IsFileMove(m) then FileMove(s, m, t.disk) && t == s.(disk := t.disk, rewritten := RewrittenBy(s, m))
    else RecordMove(s, m, t)
  }

  ghost predicate Next(s: State, t: State) {
    exists m :: Takes(s, m, t)
  }

  /** The states of a run, from an empty store on. */
  ghost predicate Run(h: seq<State>) {
    h != [] && Init(h[0]) && forall i, j :: 0 <= i < j < |h| && j == i + 1 ==> Next(h[i], h[j])
  }

  lemma RunGrows(h: seq<State>, m: Move, t: State)
    requires Run(h) && Takes(h[|h| - 1], m, t)
    ensures Run(h + [t])
  {
  }

  /** Writing `f` as `n`, and then removing its namesake from the other
      directory, are moves `put` and `drop`. */
  ghost predicate MayWrite(s: State, f: File, n: string, put: Move, drop: Move) {
    var e := Put(s.disk, f, n);
    && IsFileMove(put) && FileMove(s, put, e) && IsFileMove(drop)
    && var t := s.(disk := e, rewritten := RewrittenBy(s, put));
       if f.status.Nullified? then n in e.live ==> FileMove(t, drop, e.(live := e.live - {n}))
       else n in e.nullified ==> FileMove(t, drop, e.(nullified := e.nullified - {n}))
  }
}
