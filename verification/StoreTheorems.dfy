/** What holds of the store over every run of its operations. */
module StoreTheorems {
  import opened Wrappers
  import opened TxStates
  import opened Naming
  import opened ObjectStore
  import opened Reconcile
  import opened Settlement
  import opened StoreMoves

  /** Records are filed under their transaction and are in order. */
  predicate RecordsOk(records: map<Tx, Rec>) {
    forall tx :: tx in records ==> records[tx].tx == tx && RecOk(records[tx])
  }

  /** What a landed record spends is known to be spent. */
  predicate LandedTold(records: map<Tx, Rec>, told: Told) {
    forall tx :: tx in records && records[tx].state == Landed ==> records[tx].spends <= told.spent
  }

  /** An object is in both directories only if it is spent on chain. */
  ghost predicate StrandedTold(d: Disk, told: Told) {
    forall o :: Stranded(d, o) ==> o in told.spent
  }

  /** A transaction being recorded has no record yet. */
  predicate WritingNew(s: State) {
    s.writing.Some? ==> s.writing.value.tx !in s.records
  }

  /** What any transaction on file spends is known, and no file it made. */
  ghost predicate SpendsApart(d: Disk, records: map<Tx, Rec>) {
    forall tx :: tx in records ==> KnowsSpent(d, tx, records[tx].spends)
  }

  ghost predicate Inv(s: State) {
    && Ordered(s.disk) && RecordsOk(s.records) && LandedTold(s.records, s.told) && StrandedTold(s.disk, s.told)
    && WritingNew(s) && SpendsApart(s.disk, s.records)
  }

  // ------------------------------------------------------------------
  // Each move keeps the invariant

  /** What any move on object files does: the directories stay in order, no
      object newly stands in both but one spent on chain, known objects stay
      known, and one that goes was of unknown status. */
  ghost predicate Gentle(d: Disk, e: Disk, spent: set<Object>) {
    && Ordered(e)
    && (forall o :: Stranded(e, o) ==> Stranded(d, o) || o in spent)
    && (forall o :: Known(d, o) ==> Known(e, o))
  }

  lemma FilingIsGentle(s: State, n: string, f: File, e: Disk)
    requires Inv(s) && FileMove(s, FileSpent(n, f), e)
    ensures Gentle(s.disk, e, s.told.spent)
    ensures forall o :: Has(s.disk, o) ==> Has(e, o)
    ensures forall o :: HasNullified(s.disk, o) ==> HasNullified(e, o)
    ensures forall o :: Stranded(e, o) && !Stranded(s.disk, o) ==> o == f.obj
  {
    var d := s.disk;
    forall o ensures HasNullified(e, o) <==> HasNullified(d, o) || o == f.obj {
      if GeneratedName(o) == GeneratedName(f.obj) { GeneratedNameInjective(o, f.obj); }
    }
    SameLive(d, e);
    hide GeneratedName, HasGeneratedShape;
  }

  lemma DroppingSpentIsGentle(s: State, n: string, e: Disk)
    requires Inv(s) && FileMove(s, DropSpent(n), e)
    ensures Gentle(s.disk, e, s.told.spent)
    ensures forall o :: (Has(s.disk, o) ==> Has(e, o)) && (HasNullified(s.disk, o) ==> HasNullified(e, o))
    ensures forall o :: Stranded(e, o) ==> Stranded(s.disk, o)
  {
    WithoutLive(s.disk, n);
    hide GeneratedName, HasGeneratedShape, HasNullified, HasLive, Shows, Ordered;
  }

  lemma RewritingIsGentle(s: State, n: string, f: File, e: Disk)
    requires Inv(s) && FileMove(s, RewriteLive(n, f), e)
    ensures Gentle(s.disk, e, s.told.spent)
    ensures forall o :: (Has(s.disk, o) ==> Has(e, o)) && (HasNullified(s.disk, o) ==> HasNullified(e, o))
    ensures forall o :: Stranded(e, o) ==> Stranded(s.disk, o)
  {
    RewritingKeepsOrder(s.disk, n, f);
    hide GeneratedName, HasGeneratedShape, HasNullified, HasLive, Shows, Ordered;
  }

  lemma RewritingSpentIsGentle(s: State, n: string, f: File, e: Disk)
    requires Inv(s) && FileMove(s, RewriteSpent(n, f), e)
    ensures Gentle(s.disk, e, s.told.spent)
    ensures forall o :: (Has(s.disk, o) ==> Has(e, o)) && (HasNullified(s.disk, o) ==> HasNullified(e, o))
    ensures forall o :: Stranded(e, o) ==> Stranded(s.disk, o)
  {
    hide GeneratedName, HasGeneratedShape;
    assert forall o :: HasNullified(e, o) <==> HasNullified(s.disk, o);
    SameLive(s.disk, e);
    assert Ordered(e);
    hide HasNullified, HasLive, Shows, Ordered;
  }

  lemma FreeingIsGentle(s: State, n: string, e: Disk)
    requires Inv(s) && FileMove(s, DropNullified(n), e)
    ensures Gentle(s.disk, e, s.told.spent)
    ensures forall o :: Has(s.disk, o) ==> Has(e, o)
    ensures forall o :: HasNullified(s.disk, o) && !HasNullified(e, o) ==> o == s.disk.live[n].obj && Shows(e, o, Live)
    ensures forall o :: Stranded(e, o) ==> Stranded(s.disk, o)
  {
    WithoutNullified(s.disk, n);
    assert LiveAs(s.disk, s.disk.live[n].obj, n);
    assert Shows(s.disk, s.disk.live[n].obj, Live) && HasLive(s.disk, s.disk.live[n].obj);
    hide GeneratedName, HasGeneratedShape, HasNullified, HasLive, Shows, Ordered;
  }

  lemma RenamingIsGentle(d: Disk, from: string, to: string, spent: set<Object>)
    requires Ordered(d) && from in d.live && to !in d.live && OwnName(to, d.live[from].obj)
    ensures Gentle(d, Renamed(d, from, to), spent)
    ensures forall o :: Has(d, o) ==> Has(Renamed(d, from, to), o)
    ensures forall o :: HasNullified(d, o) ==> HasNullified(Renamed(d, from, to), o)
    ensures forall o :: Stranded(Renamed(d, from, to), o) ==> Stranded(d, o)
  {
    RenamingKeepsOrder(d, from, to);
    hide GeneratedName, HasGeneratedShape, HasNullified, HasLive, Shows, Ordered;
  }

  lemma FinishingIsGentle(s: State, tx: Tx, pending: Pending, e: Disk)
    requires Inv(s) && FileMove(s, FinishName(tx, pending), e)
    ensures Gentle(s.disk, e, s.told.spent)
    ensures forall o :: (Has(s.disk, o) ==> Has(e, o)) && (HasNullified(s.disk, o) ==> HasNullified(e, o))
    ensures forall o :: Stranded(e, o) ==> Stranded(s.disk, o)
  {
    var to := UniqueFileName(pending.final, Taken(s.disk));
    assert RecOk(s.records[tx]);
    UniqueNotGenerated(pending.final, Taken(s.disk));
    hide GeneratedName, HasGeneratedShape, Ordered, UniqueFileName;
    RenamingIsGentle(s.disk, pending.file, to, s.told.spent);
  }

  /** A file of unknown status goes, and only its object with it, unless that is
      filed as spent. */
  lemma RemovingIsGentle(d: Disk, n: string, spent: set<Object>)
    requires Ordered(d) && n in d.live && d.live[n].status.Unknown?
    ensures var e := d.(live := d.live - {n});
      && Gentle(d, e, spent)
      && (forall o :: Has(d, o) && !Has(e, o) ==> o == d.live[n].obj && !HasNullified(d, o))
      && (forall o :: HasNullified(d, o) ==> HasNullified(e, o))
      && (forall o :: Stranded(e, o) ==> Stranded(d, o))
  {
    WithoutLive(d, n);
    UnknownIsNotLive(d, n);
    hide GeneratedName, HasGeneratedShape, HasNullified, HasLive, Shows, Ordered;
  }

  lemma UnknownIsNotLive(d: Disk, n: string)
    requires Ordered(d) && n in d.live && d.live[n].status.Unknown?
    ensures !Shows(d, d.live[n].obj, Live)
  {
    hide GeneratedName, HasGeneratedShape;
    assert LiveAs(d, d.live[n].obj, n);
  }

  lemma AddingIsGentle(d: Disk, n: string, f: File, spent: set<Object>)
    requires Ordered(d) && IsNew(d, n, f) && !f.status.Nullified?
    ensures Gentle(d, Put(d, f, n), spent)
    ensures forall o :: Has(Put(d, f, n), o) <==> Has(d, o) || o == f.obj
    ensures forall o :: HasNullified(Put(d, f, n), o) <==> HasNullified(d, o)
    ensures forall o :: Stranded(Put(d, f, n), o) ==> Stranded(d, o)
  {
    hide GeneratedName, HasGeneratedShape;
    var e := Put(d, f, n);
    assert forall o :: HasNullified(e, o) <==> HasNullified(d, o);
    assert forall o, m :: LiveAs(e, o, m) <==> if m == n then o == f.obj else LiveAs(d, o, m);
    assert LiveAs(e, f.obj, n);
    assert !HasLive(d, f.obj);
    assert Ordered(e);
    hide Ordered, HasNullified;
    forall o ensures HasLive(e, o) <==> HasLive(d, o) || o == f.obj {
      if HasLive(d, o) { var m :| LiveAs(d, o, m); assert LiveAs(e, o, m); }
    }
    forall o | Shows(d, o, Live) ensures Shows(e, o, Live) {
      var m :| LiveAs(d, o, m) && d.live[m].status == Live;
      assert LiveAs(e, o, m);
    }
  }

  // ------------------------------------------------------------------
  // What a move may do to an object

  /** The move removes the unknown file of `o`, of the transaction `tx`. */
  ghost predicate Ends(s: State, m: Move, o: Object, tx: Tx) {
    && (m.RemoveOutput? || m.UndoOutput?) && LiveAs(s.disk, o, m.n)
    && s.disk.live[m.n].status.Unknown? && s.disk.live[m.n].tx == tx && !HasNullified(s.disk, o)
    && if m.RemoveOutput? then tx in s.records && MayEnd(s.records[tx])
       else s.writing.Some? && s.writing.value.tx == tx && tx !in s.records
  }

  /** The move takes the nullified copy of `o` away, its live file being live. */
  ghost predicate TakesBack(s: State, m: Move, o: Object) {
    && m.DropNullified? && s.rewritten == Some(m.n) && LiveAs(s.disk, o, m.n)
    && s.disk.live[m.n].status.Live? && Stranded(s.disk, o)
  }

  /** The move files `o`, spent on chain, while its live file is still there. */
  ghost predicate Strands(s: State, m: Move, o: Object) {
    m.FileSpent? && LiveAs(s.disk, o, m.n) && o in s.told.spent
  }

  lemma RemovalEnds(s: State, m: Move, t: State)
    requires Inv(s) && Takes(s, m, t) && (m.RemoveOutput? || m.UndoOutput?)
    ensures Gentle(s.disk, t.disk, s.told.spent) && (forall o :: Stranded(t.disk, o) ==> Stranded(s.disk, o))
    ensures forall o :: Has(s.disk, o) && !Has(t.disk, o) ==> Ends(s, m, o, s.disk.live[m.n].tx)
    ensures forall o :: HasNullified(s.disk, o) ==> HasNullified(t.disk, o)
  {
    RemovingIsGentle(s.disk, m.n, s.told.spent);
    hide GeneratedName, HasGeneratedShape, HasNullified, HasLive, Shows, Ordered;
  }

  lemma FileMoveEffect(s: State, m: Move, t: State)
    requires Inv(s) && Takes(s, m, t) && IsFileMove(m)
    ensures Gentle(s.disk, t.disk, s.told.spent)
    ensures forall o :: Has(s.disk, o) && !Has(t.disk, o) ==> exists tx :: Ends(s, m, o, tx)
    ensures forall o :: HasNullified(s.disk, o) && !HasNullified(t.disk, o) ==> TakesBack(s, m, o)
    ensures forall o :: Stranded(t.disk, o) && !Stranded(s.disk, o) ==> Strands(s, m, o)
  {
    hide GeneratedName, HasGeneratedShape, HasNullified, HasLive, Shows, Ordered, Inv, Gentle, UniqueFileName, Stranded;
    match m
    case FileSpent(n, f) => FilingIsGentle(s, n, f, t.disk);
    case DropSpent(n) => DroppingSpentIsGentle(s, n, t.disk);
    case RewriteLive(n, f) => RewritingIsGentle(s, n, f, t.disk);
    case RewriteSpent(n, f) => RewritingSpentIsGentle(s, n, f, t.disk);
    case DropNullified(n) => FreedIsStranded(s, n, t.disk);
    case RenameFile(n, to) => RenamingIsGentle(s.disk, n, to, s.told.spent) by { InvOrdered(s); }
    case FinishName(tx, pending) => FinishingIsGentle(s, tx, pending, t.disk);
    case RemoveOutput(_, _) => RemovalEnds(s, m, t);
    case UndoOutput(_) => RemovalEnds(s, m, t);
    case AddOutput(n, f) => AddingIsGentle(s.disk, n, f, s.told.spent) by { InvOrdered(s); }
    case Import(n, f) => AddingIsGentle(s.disk, n, f, s.told.spent) by { InvOrdered(s); }
  }

  lemma InvOrdered(s: State)
    requires Inv(s)
    ensures Ordered(s.disk) && RecordsOk(s.records)
  {
  }

  lemma FreedIsStranded(s: State, n: string, e: Disk)
    requires Inv(s) && FileMove(s, DropNullified(n), e)
    ensures Gentle(s.disk, e, s.told.spent)
    ensures forall o :: Has(s.disk, o) ==> Has(e, o)
    ensures forall o :: HasNullified(s.disk, o) && !HasNullified(e, o) ==> TakesBack(s, DropNullified(n), o)
    ensures forall o :: Stranded(e, o) ==> Stranded(s.disk, o)
  {
    FreeingIsGentle(s, n, e);
    assert LiveAs(s.disk, s.disk.live[n].obj, n);
    assert HasLive(s.disk, s.disk.live[n].obj);
    hide GeneratedName, HasGeneratedShape, HasNullified, Shows, Ordered, Inv, Gentle;
  }

  /** A file is of an object the store did not have, or was there with the same
      object and transaction. */
  ghost predicate IsOldFile(d: Disk, f: File) {
    !Has(d, f.obj) || exists n :: n in d.live && SameFile(d.live[n], f)
  }

  lemma MovedFile(s: State, m: Move, t: State, n: string)
    requires Takes(s, m, t) && IsFileMove(m) && n in t.disk.live
    ensures IsOldFile(s.disk, t.disk.live[n])
  {
    hide GeneratedName, HasGeneratedShape, LockedInputs, UniqueFileName, IsOpenOutput, Has, IsLanded, Updates;
  }

  lemma FileMoveKeepsApart(s: State, m: Move, t: State)
    requires Inv(s) && Takes(s, m, t) && IsFileMove(m) && forall o :: Known(s.disk, o) ==> Known(t.disk, o)
    ensures SpendsApart(t.disk, s.records)
  {
    forall n | n in t.disk.live ensures IsOldFile(s.disk, t.disk.live[n]) { MovedFile(s, m, t, n); }
    forall o | Known(s.disk, o) ensures Has(s.disk, o) { KnownIsThere(s.disk, o); }
    hide Takes, Ordered, StrandedTold, RecordsOk, Known, Has;
  }

  lemma KnownIsThere(d: Disk, o: Object)
    requires Known(d, o)
    ensures Has(d, o)
  {
  }

  lemma FileMoveKeeps(s: State, m: Move, t: State)
    requires Inv(s) && Takes(s, m, t) && IsFileMove(m)
    ensures Inv(t)
  {
    FileMoveEffect(s, m, t);
    FileMoveKeepsApart(s, m, t);
    hide FileMove, Ordered, Stranded, RecordsOk, Known, SpendsApart, Updates;
  }

  lemma RecordMoveKeeps(s: State, m: Move, t: State)
    requires Inv(s) && Takes(s, m, t) && !IsFileMove(m)
    ensures Inv(t) && t.disk == s.disk
  {
    hide FileMove, Ordered, Stranded, HasGeneratedShape, LockedInputs, KnowsSpent;
    if m.CommitDraft? { CommittedOk(s, m.tx); }
  }

  lemma CommittedOk(s: State, tx: Tx)
    requires Inv(s) && tx in s.drafts && s.drafts[tx].tx == tx
    requires if tx in s.records then MayUpdate(s.records[tx], s.drafts[tx]) else MayCommit(s, s.drafts[tx])
    ensures RecOk(s.drafts[tx]) && KnowsSpent(s.disk, tx, s.drafts[tx].spends)
  {
    hide Ordered, HasGeneratedShape;
  }

  /** Every move keeps the invariant. */
  lemma MoveKeeps(s: State, m: Move, t: State)
    requires Inv(s) && Takes(s, m, t)
    ensures Inv(t)
  {
    hide Inv, Takes;
    if IsFileMove(m) { FileMoveKeeps(s, m, t); } else { RecordMoveKeeps(s, m, t); }
  }

  // ------------------------------------------------------------------
  // Over every run

  lemma {:induction false} RunInv(h: seq<State>, i: nat)
    requires Run(h) && i < |h|
    ensures Inv(h[i])
  {
    hide Takes;
    if i == 0 {
      InitInv(h[0]);
    } else {
      hide Inv;
      RunInv(h, i - 1);
      assert Next(h[i - 1], h[i]);
      var m :| Takes(h[i - 1], m, h[i]);
      MoveKeeps(h[i - 1], m, h[i]);
    }
  }

  lemma InitInv(s: State)
    requires Init(s)
    ensures Inv(s)
  {
  }

  lemma RunMove(h: seq<State>, i: nat) returns (m: Move)
    requires Run(h) && i + 1 < |h|
    ensures Inv(h[i]) && Takes(h[i], m, h[i + 1])
  {
    hide Inv, Takes;
    RunInv(h, i);
    assert Next(h[i], h[i + 1]);
    m :| Takes(h[i], m, h[i + 1]);
  }

  /** In every state of every run: statuses match directories, generated names
      are own, and no object has two live files. Each object has exactly one
      file unless it is stranded, spent on chain and filed as such with its live
      file still there; and loading fails exactly while one is stranded under
      its generated name. */
  lemma RunIsOrdered(h: seq<State>, i: nat)
    requires Run(h) && i < |h|
    ensures var d := h[i].disk;
      && Ordered(d) && (Valid(d) <==> forall o :: !Stranded(d, o))
      && (forall o :: Stranded(d, o) ==> o in h[i].told.spent)
      && (Loadable(d) <==> forall o :: !(LiveAs(d, o, GeneratedName(o)) && HasNullified(d, o)))
  {
    RunInv(h, i);
    ValidIff(h[i].disk);
    LoadableIff(h[i].disk);
    hide Ordered, Valid, Loadable, Stranded;
  }

  /** An object comes to stand in two files only by the move that files it as
      spent, before its live file is removed. */
  lemma {:induction false} StrandedOnlyBySpending(h: seq<State>, i: nat, j: nat, o: Object)
    requires Run(h) && i <= j < |h| && Stranded(h[j].disk, o) && !Stranded(h[i].disk, o)
    ensures exists k, m :: i <= k < j && Takes(h[k], m, h[k + 1]) && Strands(h[k], m, o)
  {
    hide Inv, Takes, Stranded;
    if Stranded(h[j - 1].disk, o) {
      StrandedOnlyBySpending(h, i, j - 1, o);
    } else {
      var m := RunMove(h, j - 1);
      OneMove(h[j - 1], m, h[j], o);
      assert Takes(h[j - 1], m, h[j - 1 + 1]) && Strands(h[j - 1], m, o);
    }
  }

  /** What one move may do to one object. */
  lemma OneMove(s: State, m: Move, t: State, o: Object)
    requires Inv(s) && Takes(s, m, t)
    ensures Known(s.disk, o) ==> Known(t.disk, o)
    ensures Has(s.disk, o) && !Has(t.disk, o) ==> exists tx :: Ends(s, m, o, tx)
    ensures HasNullified(s.disk, o) && !HasNullified(t.disk, o) ==> TakesBack(s, m, o)
    ensures Stranded(t.disk, o) && !Stranded(s.disk, o) ==> Strands(s, m, o)
  {
    if IsFileMove(m) {
      FileMoveEffect(s, m, t);
    } else {
      RecordMoveKeeps(s, m, t);
    }
    hide Inv, Takes, Has, HasNullified, Known, Stranded, Ordered;
  }

  /** No object file is lost: over every run, an object once live or nullified
      stays in the store as one of the two. */
  lemma {:induction false} KnownObjectsAreKept(h: seq<State>, i: nat, j: nat, o: Object)
    requires Run(h) && i <= j < |h| && Known(h[i].disk, o)
    ensures Known(h[j].disk, o)
  {
    hide Inv, Takes, Known;
    if i < j {
      KnownObjectsAreKept(h, i, j - 1, o);
      var m := RunMove(h, j - 1);
      OneMove(h[j - 1], m, h[j], o);
    }
  }

  /** An object leaves the store only as an unknown output of a transaction that
      is expired, being deleted, or whose recording is being rolled back. */
  lemma {:induction false} ObjectsLeaveOnlyAsUnknownOutputs(h: seq<State>, i: nat, j: nat, o: Object)
    requires Run(h) && i <= j < |h| && Has(h[i].disk, o) && !Has(h[j].disk, o)
    ensures exists k, m, tx :: i <= k < j && Takes(h[k], m, h[k + 1]) && Ends(h[k], m, o, tx)
  {
    hide Inv, Takes, Has;
    if !Has(h[j - 1].disk, o) {
      ObjectsLeaveOnlyAsUnknownOutputs(h, i, j - 1, o);
    } else {
      var m := RunMove(h, j - 1);
      OneMove(h[j - 1], m, h[j], o);
      var tx :| Ends(h[j - 1], m, o, tx);
      assert Takes(h[j - 1], m, h[j - 1 + 1]) && Ends(h[j - 1], m, o, tx);
    }
  }

  /** A nullified object is taken back by one kind of move only. */
  lemma {:induction false} SomeMoveTakesBack(h: seq<State>, i: nat, j: nat, o: Object)
    requires Run(h) && i <= j < |h| && HasNullified(h[i].disk, o) && !HasNullified(h[j].disk, o)
    ensures exists l, m :: i <= l < j && Takes(h[l], m, h[l + 1]) && TakesBack(h[l], m, o)
  {
    hide Inv, Takes, HasNullified;
    if !HasNullified(h[j - 1].disk, o) {
      SomeMoveTakesBack(h, i, j - 1, o);
    } else {
      var m := RunMove(h, j - 1);
      OneMove(h[j - 1], m, h[j], o);
      assert Takes(h[j - 1], m, h[j - 1 + 1]) && TakesBack(h[j - 1], m, o);
    }
  }

  /** Only rewriting an output that is not up to date makes its nullified
      namesake stale, with no file touched in between. */
  lemma {:induction false} RewrittenWasOutdated(h: seq<State>, l: nat, n: string)
    requires Run(h) && l < |h| && h[l].rewritten == Some(n)
    ensures exists k, m :: 0 <= k < l && Takes(h[k], m, h[k + 1]) && UpdatesTo(h[k], m, n, h[l].disk)
  {
    hide Inv, Takes;
    if l > 0 {
      var m := RunMove(h, l - 1);
      if IsFileMove(m) {
        FileMoveRewrites(h[l - 1], m, h[l]);
        assert Takes(h[l - 1], m, h[l - 1 + 1]) && UpdatesTo(h[l - 1], m, n, h[l].disk);
      } else {
        RecordMoveRewrites(h[l - 1], m, h[l]);
        hide Updates;
        RewrittenWasOutdated(h, l - 1, n);
      }
    }
  }

  /** The move brings the output `n` up to date, which gives `e`. */
  ghost predicate UpdatesTo(s: State, m: Move, n: string, e: Disk) {
    Updates(s, m) && m.n == n && e == Put(s.disk, m.f, n)
  }

  lemma FileMoveRewrites(s: State, m: Move, t: State)
    requires Takes(s, m, t) && IsFileMove(m)
    ensures t.rewritten == RewrittenBy(s, m) && (Updates(s, m) ==> t.disk == Put(s.disk, m.f, m.n))
  {
  }

  lemma RecordMoveRewrites(s: State, m: Move, t: State)
    requires Takes(s, m, t) && !IsFileMove(m)
    ensures t.disk == s.disk && (t.rewritten == s.rewritten || t.rewritten == None)
  {
  }

  /** An output a landed record lists, in both directories under one name and not
      up to date. */
  ghost predicate IsOutdated(s: State, n: string) {
    && n in s.disk.live && n in s.disk.nullified && IsLanded(s.records, s.disk.live[n].tx, n)
    && !IsUpToDate(s.disk, s.records[s.disk.live[n].tx], n)
  }

  /** Such an output at one point, it loses its nullified copy at a later one. */
  ghost predicate TakenBackAt(h: seq<State>, k: int, l: int, o: Object, n: string) {
    && 0 <= k < l < |h| - 1 && IsOutdated(h[k], n) && LiveAs(h[k].disk, o, n)
    && Takes(h[l], DropNullified(n), h[l + 1])
  }

  /** A nullified object stays nullified unless it is such an output, which is
      then rewritten and its nullified copy removed. */
  lemma NullifiedUnlessTakenBack(h: seq<State>, i: nat, j: nat, o: Object)
    requires Run(h) && i <= j < |h| && HasNullified(h[i].disk, o) && !HasNullified(h[j].disk, o)
    ensures exists k, l, n :: i <= l < j && TakenBackAt(h, k, l, o, n)
  {
    hide Takes, Inv, Run, HasNullified, Stranded, IsOutdated, UpdatesTo;
    SomeMoveTakesBack(h, i, j, o);
    var l, m :| i <= l < j && Takes(h[l], m, h[l + 1]) && TakesBack(h[l], m, o);
    RewrittenWasOutdated(h, l, m.n);
    var k, u :| 0 <= k < l && Takes(h[k], u, h[k + 1]) && UpdatesTo(h[k], u, m.n, h[l].disk);
    DroppedWasOutdated(h[k], u, h[l], m, h[l + 1], o);
    assert TakenBackAt(h, k, l, o, m.n);
  }

  lemma DroppedWasOutdated(s: State, u: Move, t: State, m: Move, t': State, o: Object)
    requires TakesBack(t, m, o) && Takes(t, m, t') && UpdatesTo(s, u, m.n, t.disk)
    ensures IsOutdated(s, m.n) && LiveAs(s.disk, o, m.n)
  {
    hide GeneratedName, HasGeneratedShape;
  }

  /** The output `n` is rewritten and then its nullified copy goes. */
  ghost predicate CanBeTakenBack(s: State, n: string) {
    exists f, t, u :: Takes(s, RewriteLive(n, f), t) && Takes(t, DropNullified(n), u)
  }

  /** And exactly such an output can be. */
  lemma TakenBackIff(s: State, n: string)
    requires Inv(s)
    ensures CanBeTakenBack(s, n) <==> IsOutdated(s, n)
  {
    hide GeneratedName, HasGeneratedShape, LockedInputs, UniqueFileName;
    if IsOutdated(s, n) {
      var f := LandedFile(s.disk.live[n], s.records[s.disk.live[n].tx]);
      var t := s.(disk := Put(s.disk, f, n), rewritten := Some(n));
      var u := t.(disk := t.disk.(nullified := t.disk.nullified - {n}), rewritten := None);
      assert Takes(s, RewriteLive(n, f), t);
      assert Takes(t, DropNullified(n), u);
    }
  }

  /** A file an action holds or an open transaction spends keeps its name as long
      as it is live. */
  lemma ClaimedFilesKeepTheirName(h: seq<State>, k: nat, o: Object, n: string)
    requires Run(h) && k + 1 < |h| && LiveAs(h[k].disk, o, n) && HasLive(h[k + 1].disk, o)
    requires n in h[k].held || n in LockedInputs(h[k].records)
    ensures LiveAs(h[k + 1].disk, o, n)
  {
    var m := RunMove(h, k);
    NameKept(h[k], m, h[k + 1], o, n);
  }

  lemma NameKept(s: State, m: Move, t: State, o: Object, n: string)
    requires Inv(s) && Takes(s, m, t) && LiveAs(s.disk, o, n) && HasLive(t.disk, o)
    requires n in s.held || n in LockedInputs(s.records)
    ensures LiveAs(t.disk, o, n)
  {
    hide GeneratedName, HasGeneratedShape, LockedInputs, UniqueFileName, RecordsOk, StrandedTold, LandedTold;
    if IsFileMove(m) {
      InvOrdered(s);
      var k :| LiveAs(t.disk, o, k);
      hide FileMove;
      if LiveAs(s.disk, o, k) { assert k == n; } else { MovedName(s, m, t, o, n, k); }
    } else {
      RecordMoveKeeps(s, m, t);
    }
  }

  lemma MovedName(s: State, m: Move, t: State, o: Object, n: string, k: string)
    requires Inv(s) && Takes(s, m, t) && IsFileMove(m) && LiveAs(s.disk, o, n) && LiveAs(t.disk, o, k)
    requires !LiveAs(s.disk, o, k)
    ensures n !in s.held && n !in LockedInputs(s.records)
  {
    InvOrdered(s);
    hide Inv;
    assert HasLive(s.disk, o);
    if m.RenameFile? || m.FinishName? {
      RenamedName(s, m, t, o, n, k);
    } else {
      hide Takes;
      OldName(s, m, t, o, k);
    }
  }

  /** No other move gives a live object a name. */
  lemma OldName(s: State, m: Move, t: State, o: Object, k: string)
    requires Takes(s, m, t) && IsFileMove(m) && !m.RenameFile? && !m.FinishName?
    requires HasLive(s.disk, o) && LiveAs(t.disk, o, k)
    ensures LiveAs(s.disk, o, k)
  {
    hide GeneratedName, HasGeneratedShape, LockedInputs, UniqueFileName, IsOpenOutput, HasLive, HasNullified, IsLanded;
    if m.AddOutput? || m.Import? { assert Has(s.disk, o); }
  }

  lemma RenamedName(s: State, m: Move, t: State, o: Object, n: string, k: string)
    requires Ordered(s.disk) && Takes(s, m, t) && (m.RenameFile? || m.FinishName?)
    requires LiveAs(s.disk, o, n) && LiveAs(t.disk, o, k) && !LiveAs(s.disk, o, k)
    ensures n !in s.held && n !in LockedInputs(s.records)
  {
    hide GeneratedName, HasGeneratedShape, LockedInputs, UniqueFileName, IsOpenOutput;
    var from := if m.RenameFile? then m.n else m.pending.file;
    assert LiveAs(s.disk, s.disk.live[from].obj, from);
  }

  /** A record becomes visible only with its payload and all its outputs there,
      every input live and no other open transaction's. */
  lemma NewRecordsAreComplete(h: seq<State>, k: nat, tx: Tx)
    requires Run(h) && k + 1 < |h| && tx !in h[k].records && tx in h[k + 1].records
    ensures MayCommit(h[k], h[k + 1].records[tx])
  {
    var m := RunMove(h, k);
    hide Inv, FileMove, MayCommit, Ordered;
  }

  // ------------------------------------------------------------------
  // An unknown output

  /** `o` is in the store: known to be on chain, or of unknown status and made
      by `tx`. */
  ghost predicate Kept(d: Disk, o: Object, tx: Tx) {
    Known(d, o) || exists n :: LiveAs(d, o, n) && d.live[n].status.Unknown? && d.live[n].tx == tx
  }

  lemma KeptIsThere(d: Disk, o: Object, tx: Tx)
    requires Kept(d, o, tx)
    ensures Has(d, o)
  {
  }

  /** A move leaves an unknown output in the store, or ends it. */
  lemma UnknownStays(s: State, m: Move, t: State, o: Object, tx: Tx)
    requires Inv(s) && Takes(s, m, t) && Kept(s.disk, o, tx)
    ensures Kept(t.disk, o, tx) || Ends(s, m, o, tx)
  {
    OneMove(s, m, t, o);
    if !Known(t.disk, o) {
      var n :| LiveAs(s.disk, o, n) && s.disk.live[n].status.Unknown? && s.disk.live[n].tx == tx;
      UnknownFileStays(s, m, t, o, n);
    }
  }

  lemma UnknownFileStays(s: State, m: Move, t: State, o: Object, n: string)
    requires Inv(s) && Takes(s, m, t) && LiveAs(s.disk, o, n) && s.disk.live[n].status.Unknown? && !Known(t.disk, o)
    ensures Kept(t.disk, o, s.disk.live[n].tx) || Ends(s, m, o, s.disk.live[n].tx)
  {
    if !IsFileMove(m) {
      RecordMoveKeeps(s, m, t);
    } else {
      InvOrdered(s);
      OneMove(s, m, t, o);
      hide GeneratedName, HasGeneratedShape, LockedInputs, UniqueFileName, Inv, IsOpenOutput, RecOk;
      if n in t.disk.live && t.disk.live[n].obj == o {
        StillUnknown(s, m, t, o, n);
      } else {
        MovedOrEnded(s, m, t, o, n);
      }
    }
  }

  lemma StillUnknown(s: State, m: Move, t: State, o: Object, n: string)
    requires Ordered(s.disk) && Takes(s, m, t) && IsFileMove(m) && LiveAs(s.disk, o, n) && LiveAs(t.disk, o, n)
    requires s.disk.live[n].status.Unknown? && !Known(t.disk, o)
    ensures Kept(t.disk, o, s.disk.live[n].tx)
  {
    SameNameSameFile(s, m, t, n);
    hide Takes, Ordered, HasNullified;
    assert t.disk.live[n].status.Live? ==> Shows(t.disk, o, Live);
  }

  lemma SameNameSameFile(s: State, m: Move, t: State, n: string)
    requires Takes(s, m, t) && IsFileMove(m) && n in s.disk.live && n in t.disk.live
    requires s.disk.live[n].status.Unknown?
    ensures t.disk.live[n].tx == s.disk.live[n].tx && !t.disk.live[n].status.Nullified?
  {
    hide GeneratedName, HasGeneratedShape, LockedInputs, UniqueFileName, IsOpenOutput, Updates, IsLanded, HasNullified;
    hide Has;
  }

  lemma MovedOrEnded(s: State, m: Move, t: State, o: Object, n: string)
    requires Ordered(s.disk) && RecordsOk(s.records) && Takes(s, m, t) && IsFileMove(m)
    requires LiveAs(s.disk, o, n) && !LiveAs(t.disk, o, n)
    requires s.disk.live[n].status.Unknown? && !Known(t.disk, o)
    requires HasNullified(s.disk, o) && !HasNullified(t.disk, o) ==> TakesBack(s, m, o)
    ensures Kept(t.disk, o, s.disk.live[n].tx) || Ends(s, m, o, s.disk.live[n].tx)
  {
    if m.FinishName? {
      FinishedStays(s, m, t, o, n);
    } else if m.RemoveOutput? || m.UndoOutput? {
      RemovedEnds(s, m, t, o, n);
    } else {
      OtherwiseKnown(s, m, t, o, n);
    }
  }

  /** No other move takes an unknown file's name, but of an object filed as spent. */
  lemma OtherwiseKnown(s: State, m: Move, t: State, o: Object, n: string)
    requires Takes(s, m, t) && IsFileMove(m) && !m.FinishName? && !m.RemoveOutput? && !m.UndoOutput?
    requires LiveAs(s.disk, o, n) && s.disk.live[n].status.Unknown? && !LiveAs(t.disk, o, n)
    ensures Known(t.disk, o)
  {
    hide GeneratedName, HasGeneratedShape, LockedInputs, IsOpenOutput, UniqueFileName, IsLanded, Updates, Has, Shows;
  }

  lemma FinishedStays(s: State, m: Move, t: State, o: Object, n: string)
    requires Takes(s, m, t) && m.FinishName? && LiveAs(s.disk, o, n) && !LiveAs(t.disk, o, n)
    requires s.disk.live[n].status.Unknown?
    ensures Kept(t.disk, o, s.disk.live[n].tx)
  {
    hide GeneratedName, HasGeneratedShape, LockedInputs, UniqueFileName, Known;
    var to := UniqueFileName(m.pending.final, Taken(s.disk));
    assert LiveAs(t.disk, o, to);
  }

  lemma RemovedEnds(s: State, m: Move, t: State, o: Object, n: string)
    requires Takes(s, m, t) && (m.RemoveOutput? || m.UndoOutput?) && LiveAs(s.disk, o, n) && !LiveAs(t.disk, o, n)
    requires !Known(t.disk, o)
    ensures Ends(s, m, o, s.disk.live[n].tx)
  {
    hide GeneratedName, HasGeneratedShape;
    assert HasNullified(t.disk, o) <==> HasNullified(s.disk, o);
  }

  /** Deleting removes outputs before the record. If it stops in between, the
      record can still be submitted and land, and its output is gone. */
  lemma DeletedOutputCanLand(s: State, tx: Tx, n: string) returns (h: seq<State>)
    requires Inv(s) && tx in s.records && s.records[tx].state == Recorded && !s.records[tx].attempted
    requires n in s.records[tx].outputs && n in s.disk.live && s.disk.live[n].status.Unknown? && s.disk.live[n].tx == tx
    requires !HasNullified(s.disk, s.disk.live[n].obj)
    ensures h != [] && h[0] == s && forall i, j :: 0 <= i < j < |h| && j == i + 1 ==> Next(h[i], h[j])
    ensures var t := h[|h| - 1];
      tx in t.records && t.records[tx].state == Landed && !Has(t.disk, s.disk.live[n].obj)
  {
    var rec := s.records[tx];
    assert rec.tx == tx;
    var marked := rec.(attempted := true);
    var landed := marked.(state := Landed);
    var a := s.(disk := s.disk.(live := s.disk.live - {n}), rewritten := None);
    WithoutLive(s.disk, n);
    hide GeneratedName, HasGeneratedShape, HasNullified, HasLive, Shows, Ordered, RecOk, RecordsOk, SpendsApart;
    assert Takes(s, RemoveOutput(tx, n), a);
    hide FileMove;
    var b, c := UpdatedIn(a, marked);
    var d, e := UpdatedIn(c, landed);
    hide Next;
    h := [s, a, b, c, d, e];
  }

  /** A record is replaced in two moves. */
  lemma UpdatedIn(s: State, rec: Rec) returns (t: State, u: State)
    requires rec.tx in s.records && MayUpdate(s.records[rec.tx], rec)
    ensures Next(s, t) && Next(t, u)
    ensures u.disk == s.disk && u.records == s.records[rec.tx := rec]
  {
    hide MayUpdate;
    t := s.(drafts := s.drafts[rec.tx := rec]);
    u := t.(records := t.records[rec.tx := rec], drafts := t.drafts - {rec.tx}, told := ToldBy(t.told, rec));
    assert Takes(s, PutDraft(rec), t);
    assert Takes(t, CommitDraft(rec.tx), u);
  }

  // ------------------------------------------------------------------
  // A run that takes a nullified object back

  ghost function Last(h: seq<State>): State
    requires h != []
  {
    h[|h| - 1]
  }

  lemma Grow(h: seq<State>, m: Move, t: State) returns (longer: seq<State>)
    requires Run(h) && Takes(Last(h), m, t)
    ensures Run(longer) && Last(longer) == t && h < longer && |longer| == |h| + 1
  {
    hide Takes;
    RunGrows(h, m, t);
    longer := h + [t];
  }

  /** The state with the record on file. */
  ghost function WithRecord(s: State, rec: Rec): State {
    s.(records := s.records[rec.tx := rec], drafts := s.drafts - {rec.tx},
       writing := if rec.tx in s.records then s.writing else None, told := ToldBy(s.told, rec))
  }

  lemma GrowRecord(h: seq<State>, rec: Rec) returns (longer: seq<State>)
    requires Run(h) && rec.tx !in Last(h).drafts
    requires if rec.tx in Last(h).records then MayUpdate(Last(h).records[rec.tx], rec) else MayCommit(Last(h), rec)
    ensures Run(longer) && Last(longer) == WithRecord(Last(h), rec) && h < longer
  {
    hide MayUpdate, ToldBy;
    var s := Last(h);
    var t := s.(drafts := s.drafts[rec.tx := rec]);
    var mid := Grow(h, PutDraft(rec), t);
    assert MayCommit(s, rec) ==> MayCommit(t, rec);
    hide MayCommit;
    assert t.drafts - {rec.tx} == s.drafts - {rec.tx};
    longer := Grow(mid, CommitDraft(rec.tx), WithRecord(s, rec));
  }

  function FirstRec(o: Object): Rec { Rec(1, [], [GeneratedName(o)], {}, Recorded, false, None, [], 0, 0) }

  function SecondRec(o: Object): Rec { Rec(2, [GeneratedName(o)], [], {o}, Recorded, false, None, [], 0, 0) }

  function OutputOf(o: Object, st: Status): File { File(o, st, 1, None) }

  /** The first transaction is recorded. */
  lemma OutputRecorded(o: Object) returns (h: seq<State>)
    ensures Run(h) && Last(h) == State(Disk(map[GeneratedName(o) := OutputOf(o, Unknown)], map[], {}),
      map[1 := FirstRec(o)], map[], {1}, {}, None, None, Told({}, {}))
  {
    var n := GeneratedName(o);
    hide GeneratedName, HasGeneratedShape, Run;
    var none := Disk(map[], map[], {});
    var s := State(none, map[], map[], {}, {}, None, None, Told({}, {}));
    assert Init(s) && Run([s]) by { RunStarts(s); }
    h := Grow([s], StartWriting(1, {n}), s.(writing := Some(Writing(1, {n}))));
    h := Grow(h, AddOutput(n, OutputOf(o, Unknown)),
      Last(h).(disk := Put(none, OutputOf(o, Unknown), n)));
    h := Grow(h, PutPayload(1), Last(h).(payloads := {1}));
    h := GrowRecord(h, FirstRec(o));
  }

  /** The chain reports its output before its record is settled. */
  lemma OutputReported(o: Object) returns (h: seq<State>)
    ensures Run(h) && Last(h) == State(Disk(map[GeneratedName(o) := OutputOf(o, Live)], map[], {}),
      map[1 := FirstRec(o).(attempted := true)], map[], {1}, {}, None, None, Told({o}, {}))
  {
    h := OutputRecorded(o);
    var n := GeneratedName(o);
    hide GeneratedName, HasGeneratedShape, Run;
    h := GrowRecord(h, FirstRec(o).(attempted := true));
    h := Grow(h, Tell(Told({o}, {})), Last(h).(told := Told({o}, {})));
    h := Grow(h, RewriteLive(n, OutputOf(o, Live)), Last(h).(disk := Put(Last(h).disk, OutputOf(o, Live), n)));
  }

  lemma RunStarts(s: State)
    requires Init(s)
    ensures Run([s])
  {
  }

  /** The second spends it. */
  lemma OutputSpent(o: Object) returns (h: seq<State>)
    ensures Run(h) && Last(h) == State(Disk(map[GeneratedName(o) := OutputOf(o, Live)], map[], {}),
      map[1 := FirstRec(o).(attempted := true), 2 := SecondRec(o)], map[], {1, 2}, {}, None, None, Told({o}, {}))
  {
    h := OutputReported(o);
    var n, d := GeneratedName(o), Last(h).disk;
    hide GeneratedName, HasGeneratedShape, Run;
    h := Grow(h, StartWriting(2, {}), Last(h).(writing := Some(Writing(2, {}))));
    h := Grow(h, PutPayload(2), Last(h).(payloads := {1, 2}));
    assert KnowsSpent(d, 2, {o}) by { assert LiveAs(d, o, n) && Shows(d, o, Live); }
    h := GrowRecord(h, SecondRec(o));
  }

  /** It lands, and the output's live file stays behind. */
  lemma OutputStranded(o: Object) returns (h: seq<State>)
    ensures Run(h) && Last(h) == State(
      Disk(map[GeneratedName(o) := OutputOf(o, Live)], map[GeneratedName(o) := OutputOf(o, Nullified)], {}),
      map[1 := FirstRec(o).(attempted := true), 2 := SecondRec(o).(attempted := true, state := Landed)],
      map[], {1, 2}, {}, None, None, Told({o}, {o}))
  {
    h := OutputSpent(o);
    var n, d := GeneratedName(o), Last(h).disk;
    hide GeneratedName, HasGeneratedShape, Run;
    h := GrowRecord(h, SecondRec(o).(attempted := true));
    h := GrowRecord(h, SecondRec(o).(attempted := true, state := Landed));
    h := Grow(h, FileSpent(n, OutputOf(o, Nullified)), Last(h).(disk := Put(d, OutputOf(o, Nullified), n)));
  }

  /** Any object can be nullified and then not: the first transaction's record
      lands last, and brings its stranded output up to date. */
  lemma NullifiedCanBeTakenBack(o: Object) returns (h: seq<State>, k: nat)
    ensures Run(h) && k < |h| && HasNullified(h[k].disk, o) && !HasNullified(Last(h).disk, o)
  {
    h := OutputStranded(o);
    k := |h| - 1;
    var n := GeneratedName(o);
    hide GeneratedName, HasGeneratedShape, Run;
    var f := OutputOf(o, Live).(txHash := Some(7));
    h := GrowRecord(h, FirstRec(o).(attempted := true, state := Landed, txHash := Some(7)));
    h := Grow(h, RewriteLive(n, f), Last(h).(disk := Put(Last(h).disk, f, n), rewritten := Some(n)));
    h := Grow(h, DropNullified(n),
      Last(h).(disk := Last(h).disk.(nullified := Last(h).disk.nullified - {n}), rewritten := None));
  }
}
