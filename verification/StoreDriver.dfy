/** The driver's operations on its store directory. A write or a removal may
    fail, with or without effect; a rename takes effect or fails. So the points
    where an operation can return are those where it can stop. */
module StoreDriver {
  import opened Wrappers
  import opened TxStates
  import opened Naming
  import opened ObjectStore
  import opened Reconcile
  import opened Settlement
  import opened ChainSync
  import opened StoreMoves
  import opened StoreTheorems
  import opened Recording
  import opened StoreSteps
  import ChainRules

  class Store {
    var disk: Disk
    var records: map<Tx, Rec>
    var drafts: map<Tx, Rec>
    var payloads: set<Tx>
    var held: set<string>
    var reconciled: map<Tx, Rec>
    ghost var told: Told
    ghost var writing: Option<Writing>
    ghost var rewritten: Option<string>
    /** How many file operations have failed so far, reported or not. */
    ghost var faults: nat
    /** The states since the empty store, the last being the present one. */
    ghost var history: seq<State>

    ghost function Now(): State
      reads this`disk, this`records, this`drafts, this`payloads, this`held, this`writing, this`rewritten, this`told
    {
      State(disk, records, drafts, payloads, held, writing, rewritten, told)
    }

    /** The store is as some run of moves from the empty one leaves it. */
    ghost predicate Reached()
      reads this`disk, this`records, this`drafts, this`payloads, this`held, this`writing, this`rewritten, this`told
      reads this`history
    {
      history != [] && Run(history) && history[|history| - 1] == Now()
    }

    lemma ReachedInv()
      requires Reached()
      ensures Inv(Now()) && Ordered(disk) && RecordsOk(records)
      ensures history != [] && history[|history| - 1] == Now() && Now().disk == disk && Now().records == records
    {
      RunInv(history, |history| - 1);
      InvOrdered(Now());
    }

    constructor ()
      ensures Reached() && Init(Now()) && reconciled == map[]
    {
      disk := Disk(map[], map[], {});
      records, drafts, payloads, held, reconciled := map[], map[], {}, {}, map[];
      told, writing, rewritten, faults := Told({}, {}), None, None, 0;
      history := [State(Disk(map[], map[], {}), map[], map[], {}, {}, None, None, Told({}, {}))];
    }

    // ----------------------------------------------------------------
    // Single file operations

    method PutFile(f: File, n: string, ghost m: Move) returns (ok: bool)
      requires Reached() && IsFileMove(m) && FileMove(Now(), m, Put(disk, f, n))
      modifies this`disk, this`history, this`rewritten, this`faults
      ensures Reached() && old(history) <= history && old(faults) <= faults
      ensures disk == old(disk) || disk == Put(old(disk), f, n)
      ensures ok ==> disk == Put(old(disk), f, n) && rewritten == RewrittenBy(old(Now()), m)
      ensures faults == old(faults) ==> ok
    {
      hide Run, FileMove, Updates;
      var done: bool, reported: bool := *, *;
      if done {
        ghost var r := RewrittenBy(Now(), m);
        disk, rewritten := Put(disk, f, n), r;
        RunGrows(history, m, Now());
        history := history + [Now()];
      }
      ok := done && reported;
      if !ok { faults := faults + 1; }
    }

    /** Removing a missing file succeeds. */
    method RemoveLive(n: string, ghost m: Move) returns (ok: bool)
      requires Reached() && IsFileMove(m)
      requires n in disk.live ==> FileMove(Now(), m, disk.(live := disk.live - {n}))
      modifies this`disk, this`history, this`rewritten, this`faults
      ensures Reached() && old(history) <= history && old(faults) <= faults
      ensures disk == old(disk) || disk == old(disk).(live := old(disk).live - {n})
      ensures ok ==> disk == old(disk).(live := old(disk).live - {n})
      ensures faults == old(faults) ==> ok
    {
      hide Run, FileMove, Updates;
      var done: bool, reported: bool := *, *;
      if n !in disk.live { assert disk.live - {n} == disk.live; }
      if done && n in disk.live {
        ghost var r := RewrittenBy(Now(), m);
        disk, rewritten := disk.(live := disk.live - {n}), r;
        RunGrows(history, m, Now());
        history := history + [Now()];
      }
      ok := done && reported;
      if !ok { faults := faults + 1; }
    }

    method RemoveNullified(n: string, ghost m: Move) returns (ok: bool)
      requires Reached() && IsFileMove(m)
      requires n in disk.nullified ==> FileMove(Now(), m, disk.(nullified := disk.nullified - {n}))
      modifies this`disk, this`history, this`rewritten, this`faults
      ensures Reached() && old(history) <= history && old(faults) <= faults
      ensures disk == old(disk) || disk == old(disk).(nullified := old(disk).nullified - {n})
      ensures ok ==> disk == old(disk).(nullified := old(disk).nullified - {n})
      ensures faults == old(faults) ==> ok
    {
      hide Run, FileMove, Updates;
      var done: bool, reported: bool := *, *;
      if n !in disk.nullified { assert disk.nullified - {n} == disk.nullified; }
      if done && n in disk.nullified {
        ghost var r := RewrittenBy(Now(), m);
        disk, rewritten := disk.(nullified := disk.nullified - {n}), r;
        RunGrows(history, m, Now());
        history := history + [Now()];
      }
      ok := done && reported;
      if !ok { faults := faults + 1; }
    }

    /** Refuses an existing target. */
    method RenameLive(from: string, to: string, ghost m: Move) returns (ok: bool)
      requires Reached() && from in disk.live && IsFileMove(m)
      requires to !in disk.live ==> FileMove(Now(), m, Renamed(disk, from, to))
      modifies this`disk, this`history, this`rewritten, this`faults
      ensures Reached() && old(history) <= history && old(faults) <= faults
      ensures ok ==> to !in old(disk).live && disk == Renamed(old(disk), from, to)
      ensures !ok ==> disk == old(disk)
      ensures faults == old(faults) ==> ok || to in old(disk).live
    {
      hide Run, FileMove, Updates;
      ok := *;
      if to in disk.live {
        ok := false;
      } else if ok {
        ghost var r := RewrittenBy(Now(), m);
        disk, rewritten := Renamed(disk, from, to), r;
        RunGrows(history, m, Now());
        history := history + [Now()];
      } else {
        faults := faults + 1;
      }
    }

    /** A move that touches no object file. */
    ghost method Moved(m: Move)
      requires history != [] && Run(history) && !IsFileMove(m) && RecordMove(history[|history| - 1], m, Now())
      modifies this`history
      ensures Reached() && old(history) <= history
    {
      hide Run, RecordMove;
      RunGrows(history, m, Now());
      history := history + [Now()];
    }

    // ----------------------------------------------------------------
    // Object files

    /** A failure to remove the stale file is not reported. */
    method WriteObjectFile(f: File, n: string, ghost put: Move, ghost drop: Move) returns (ok: bool)
      requires Reached() && MayWrite(Now(), f, n, put, drop)
      modifies this`disk, this`history, this`rewritten, this`faults
      ensures Reached() && old(history) <= history && old(faults) <= faults
      ensures disk == old(disk) || disk == Put(old(disk), f, n) || disk == Written(old(disk), f, n)
      ensures ok ==> disk == Put(old(disk), f, n) || disk == Written(old(disk), f, n)
      ensures faults == old(faults) ==> ok && disk == Written(old(disk), f, n)
    {
      hide Run, FileMove, Updates;
      ok := PutFile(f, n, put);
      if !ok { return; }
      if f.status.Nullified? {
        var _ := RemoveLive(n, drop);
      } else {
        var _ := RemoveNullified(n, drop);
      }
    }

    /** The live file `n` of a spent object leaves for the nullified directory;
        `clean` says that no live file stayed behind. */
    method NullifyObjectFile(f: File, n: string, ghost s: Disk, ghost p: Plan) returns (ok: bool, ghost clean: bool)
      requires Reached() && n in disk.live && SameFile(f, disk.live[n]) && f.obj in told.spent
      requires Spendable(s, p, disk, f, n)
      modifies this`disk, this`history, this`rewritten, this`faults
      ensures Reached() && old(history) <= history && old(faults) <= faults
      ensures disk.live == old(disk).live || disk.live == old(disk).live - {n}
      ensures disk.nullified == old(disk).nullified ||
        disk.nullified == old(disk).nullified[GeneratedName(f.obj) := f]
      ensures ok ==> GeneratedName(f.obj) in disk.nullified
      ensures ok && (clean || GeneratedName(f.obj) != n) ==> disk.live == old(disk).live - {n}
      ensures clean ==> NoneStranded(old(disk), disk)
      ensures Progress(s, p, disk)
      ensures faults == old(faults) ==> ok && clean
    {
      ReachedInv();
      hide Run, Progress, GeneratedName, Ordered, Inv, NoneStranded, RecordsOk, Updates;
      ghost var d := disk;
      var g := GeneratedName(f.obj);
      NullifyingProgresses(s, p, d, f, n);
      NullifyingIsAllowed(Now(), f, n);
      ok := WriteObjectFile(f, g, FileSpent(n, f), DropSpent(g));
      if ok && g != n {
        ok := RemoveLive(n, DropSpent(n));
      }
      clean := n !in disk.live || (!ok && disk == d);
      if clean { NullifyingStrandsNone(d, disk, f, n); }
    }

    // ----------------------------------------------------------------
    // A settled record's files

    /** The record is the one on file, and landed, and the store is on the way
        from `s`, where its reconciliation started. */
    ghost predicate IsReconciling(rec: Rec, s: Disk)
      reads this`records, this`disk
    {
      rec.tx in records && records[rec.tx] == rec && Starts(s, rec, disk)
    }

    /** The input file `n`, if the record lists its nullifier, is nullified. An
        input's name may since have passed to a later version or to another
        object. `now` is the name a newly spent one is filed under. */
    method PersistInput(rec: Rec, n: string, ghost s: Disk) returns (ok: bool, now: string, ghost clean: bool)
      requires Reached() && IsReconciling(rec, s) && n in rec.inputs
      modifies this`disk, this`history, this`rewritten, this`faults
      ensures Reached() && old(history) <= history && old(faults) <= faults
      ensures Starts(s, rec, disk)
      ensures disk.live == old(disk).live || disk.live == old(disk).live - {n}
      ensures old(disk).nullified.Keys <= disk.nullified.Keys
      ensures ok ==> IsFiled(disk, rec, n)
      ensures ok && clean ==> n in disk.live ==> disk.live[n].obj !in rec.spends
      ensures clean ==> NoneStranded(old(disk), disk)
      ensures ok && now != n ==> n !in disk.live
      ensures now == n || IsSpentName(PlanOf(s, rec), now)
      ensures faults == old(faults) ==> ok && clean
    {
      ReachedInv();
      LandedIsTold(Now(), rec);
      hide Run, Inv, PlanOf, Progress, GeneratedName, RecordsOk;
      ok, now, clean := true, n, true;
      if n !in disk.live && n !in disk.nullified { return; }
      var f := FileAt(disk, n);
      if f.obj !in rec.spends || f.status.Nullified? {
        if n in disk.live { LiveStatus(disk, n); }
        return;
      }
      ghost var p := PlanOf(s, rec);
      if n !in disk.live { NullifiedStatus(disk, n); }
      SpentInput(s, rec, disk, n);
      hide Ordered, NoneStranded, RecOk, OutputsUnspent, OutputsRemoved;
      ok, clean := NullifyObjectFile(f.(status := Nullified), n, s, p);
      now := GeneratedName(f.obj);
      if ok && now != n { NullifiedIsGone(old(disk), disk, n); }
    }

    /** Nullify the inputs the record lists a nullifier of. `renames` pairs
        each one's name with the name it is now filed under. */
    method PersistInputs(rec: Rec, ghost s: Disk)
      returns (ok: bool, renames: seq<(string, string)>, ghost clean: bool)
      requires Reached() && IsReconciling(rec, s)
      modifies this`disk, this`history, this`rewritten, this`faults
      ensures Reached() && old(history) <= history && old(faults) <= faults
      ensures Starts(s, rec, disk)
      ensures forall n :: n in disk.live ==> n in old(disk).live && disk.live[n] == old(disk).live[n]
      ensures clean ==> NoneStranded(old(disk), disk)
      ensures forall i :: 0 <= i < |renames| ==> renames[i].0 !in disk.live
      ensures ok ==> InputsFiled(disk, rec) && (clean ==> InputsDone(disk, rec))
      ensures AllSpentNames(PlanOf(s, rec), renames)
      ensures faults == old(faults) ==> ok && clean
    {
      hide Run, PlanOf, Starts, IsSpentName, Stranded, GeneratedName;
      ok, renames, clean := true, [], true;
      for i := 0 to |rec.inputs|
        invariant Reached() && old(history) <= history && old(faults) <= faults
        invariant Starts(s, rec, disk) && AllSpentNames(PlanOf(s, rec), renames)
        invariant forall n :: n in disk.live ==> n in old(disk).live && disk.live[n] == old(disk).live[n]
        invariant clean ==> NoneStranded(old(disk), disk)
        invariant forall k :: 0 <= k < |renames| ==> renames[k].0 !in disk.live
        invariant forall k :: 0 <= k < i ==> IsFiled(disk, rec, rec.inputs[k])
        invariant clean ==> forall k :: 0 <= k < i && rec.inputs[k] in disk.live ==>
          disk.live[rec.inputs[k]].obj !in rec.spends
        invariant faults == old(faults) ==> clean
      {
        var now;
        ghost var c;
        ok, now, c := PersistInput(rec, rec.inputs[i], s);
        clean := clean && c;
        if !ok { return; }
        if now != rec.inputs[i] { renames := renames + [(rec.inputs[i], now)]; }
      }
      ok := true;
    }

    /** Make the output file `n`, if the record's transaction made it, live and
        give it its transaction hash. A file up to date is left alone; one that
        is not loses its nullified copy, if it has one of the same name. */
    method PersistOutput(rec: Rec, n: string, ghost s: Disk) returns (ok: bool)
      requires Reached() && IsReconciling(rec, s) && n in rec.outputs
      modifies this`disk, this`history, this`rewritten, this`faults
      ensures Reached() && old(history) <= history && old(faults) <= faults
      ensures Starts(s, rec, disk) && OutputsTouched(old(disk), disk, rec) && NoneStranded(old(disk), disk)
      ensures !IsToWrite(old(disk), rec, n) ==> ok && disk == old(disk)
      ensures ok ==> IsListed(disk, rec, n) ==> IsUpToDate(disk, rec, n)
      ensures n in old(disk).nullified && n !in disk.nullified ==>
        IsListed(old(disk), rec, n) && !IsUpToDate(old(disk), rec, n)
      ensures faults == old(faults) ==> ok && (IsToWrite(old(disk), rec, n) ==>
        disk == Written(old(disk), LandedFile(FileAt(old(disk), n), rec), n))
    {
      hide *;
      ghost var now := Now();
      ReachedInv();
      ReconcilingStarts(rec, s);
      ToWriteIsThere(disk, rec, n);
      ok := true;
      NoneTouched(disk, rec);
      if !IsToWrite(disk, rec, n) {
        LandedWritten(disk, disk, rec, n);
        return;
      }
      var g := LandedFile(FileAt(disk, n), rec);
      ghost var d := disk;
      LandedIsAllowed(now, rec, n);
      LandedProgresses(s, rec, disk, n);
      ok := WriteObjectFile(g, n, PutOf(disk, g, n), DropOf(disk, n));
      LandedWritten(d, disk, rec, n);
    }

    /** Make the record's outputs live and give them its transaction hash. */
    method PersistOutputs(rec: Rec, ghost s: Disk) returns (ok: bool)
      requires Reached() && IsReconciling(rec, s)
      modifies this`disk, this`history, this`rewritten, this`faults
      ensures Reached() && old(history) <= history && old(faults) <= faults
      ensures Starts(s, rec, disk) && OutputsTouched(old(disk), disk, rec) && NoneStranded(old(disk), disk)
      ensures ok ==> OutputsLanded(disk, rec)
      ensures ok ==> forall n :: n in rec.outputs && n in disk.live && disk.live[n].tx == rec.tx ==>
        disk.live[n].status != Unknown && (rec.txHash.Some? ==> disk.live[n].txHash == rec.txHash)
      ensures forall n :: n in disk.live ==> n in old(disk).live && disk.live[n].obj == old(disk).live[n].obj
      ensures faults == old(faults) ==> ok
    {
      hide Run, PlanOf, Starts, Stranded, OutputsTouched, IsUpToDate, IsToWrite;
      NoneTouched(disk, rec);
      for i := 0 to |rec.outputs|
        invariant Reached() && old(history) <= history && old(faults) <= faults
        invariant Starts(s, rec, disk) && OutputsTouched(old(disk), disk, rec) && NoneStranded(old(disk), disk)
        invariant forall k :: 0 <= k < i ==>
          IsListed(disk, rec, rec.outputs[k]) ==> IsUpToDate(disk, rec, rec.outputs[k])
      {
        ghost var d := disk;
        ok := PersistOutput(rec, rec.outputs[i], s);
        TouchedOn(old(disk), d, disk, rec);
        forall k | 0 <= k < i ensures IsListed(disk, rec, rec.outputs[k]) ==> IsUpToDate(disk, rec, rec.outputs[k]) {
          TouchedStaysUpToDate(d, disk, rec, rec.outputs[k]);
        }
        if !ok { TouchedMeans(old(disk), disk, rec); return; }
      }
      ok := true;
      TouchedMeans(old(disk), disk, rec);
      LandedMeans(disk, rec);
    }

    /** One pending name: an output that is still there gets its final name,
        unless an action holds it or an open transaction spends it. */
    method FinishPendingName(rec: Rec, pending: Pending, locked: set<string>, ghost claimed: set<string>, ghost s: Disk)
      returns (ok: bool, finished: bool, now: string)
      requires Reached() && IsReconciling(rec, s) && pending in rec.pending && LockedInputs(records) <= locked
      requires OutputsDone(disk, rec)
      requires held + locked <= claimed && (pending.file in claimed ==> pending.file in held + locked)
      modifies this`disk, this`history, this`rewritten, this`faults
      ensures Reached() && old(history) <= history && old(faults) <= faults
      ensures Starts(s, rec, disk)
      ensures NoneStranded(old(disk), disk) && NamesKept(old(disk), disk, claimed)
      ensures !ok ==> disk == old(disk)
      ensures ok ==> finished || pending.file in held + locked
      ensures IsListed(old(disk), rec, pending.file) && pending.file !in held + locked ==>
        ok ==> now == UniqueFileName(pending.final, Taken(old(disk))) && finished &&
               now !in old(disk).live && disk == Renamed(old(disk), pending.file, now)
      ensures !IsListed(old(disk), rec, pending.file) || pending.file in held + locked ==>
        ok && disk == old(disk) && now == pending.file
      ensures faults == old(faults) ==> ok
    {
      ReachedInv();
      PendingIsOutput(s, rec, disk, pending);
      hide Run, Inv, PlanOf, Starts, HasGeneratedShape, GeneratedName, LockedInputs, UniqueFileName;
      ok, finished, now := true, false, pending.file;
      NamesKeptByObjects(disk, disk, claimed);
      if pending.file !in disk.live || disk.live[pending.file].tx != rec.tx { finished := true; return; }
      if pending.file in held || pending.file in locked { return; }
      finished, now := true, UniqueFileName(pending.final, Taken(disk));
      FinishingProgresses(s, rec, disk, pending, Taken(disk));
      StartsLanded(s, rec, disk);
      FinishingKeeps(Now(), rec, pending, claimed);
      hide Ordered, NamesKept, NoneStranded, RecordsOk, OutputsDone;
      ok := RenameLive(pending.file, now, FinishName(rec.tx, pending));
    }

    method FinishPendingNames(
      rec: Rec, locked: set<string>, ghost claimed: set<string>, ghost s: Disk, ghost objects: set<Object>)
      returns (ok: bool, finished: seq<string>, renames: seq<(string, string)>)
      requires Reached() && IsReconciling(rec, s) && LockedInputs(records) <= locked
      requires OutputsLanded(disk, rec) && NamedIn(objects, disk, rec.outputs)
      requires held + locked <= claimed && forall p :: p in rec.pending && p.file in claimed ==> p.file in held + locked
      modifies this`disk, this`history, this`rewritten, this`faults
      ensures Reached() && old(history) <= history && old(faults) <= faults
      ensures Starts(s, rec, disk)
      ensures NoneStranded(old(disk), disk) && NamesKept(old(disk), disk, claimed)
      ensures OthersStay(old(disk), disk, rec.tx) && FilesMoved(old(disk), disk)
      ensures OutputsLanded(disk, rec) && TargetsLanded(disk, rec, renames)
      ensures InputsFiled(old(disk), rec) ==> InputsFiled(disk, rec)
      ensures InputsDone(old(disk), rec) ==> InputsDone(disk, rec)
      ensures NamedIn(objects, disk, RenamedAll(rec.outputs, renames))
      ensures forall i :: 0 <= i < |renames| ==> renames[i].0 in finished
      ensures ok ==> forall p :: p in rec.pending ==> p.file in finished || p.file in held + locked
      ensures faults == old(faults) ==> ok
    {
      hide Run, Reached, Now, Starts, PlanOf, OutputsLanded, TargetsLanded, InputsFiled, InputsDone, NamedIn;
      hide RenamedAll, OthersStay, FilesMoved, NoneStranded, NamesKept, LockedInputs, OutputsUnspent, Ordered, Inv;
      hide RecordsOk, UniqueFileName, Taken, OutputRenamed, OutputsDone;
      ok, finished, renames := true, [], [];
      NoneMoved(disk, rec);
      NamedStarts(objects, disk, rec.outputs);
      NoneStrandedIn(disk);
      ReachedInv();
      KeptByAll(disk, claimed);
      for i := 0 to |rec.pending|
        invariant Reached() && old(history) <= history && old(faults) <= faults
        invariant IsReconciling(rec, s)
        invariant NoneStranded(old(disk), disk) && NamesKept(old(disk), disk, claimed)
        invariant OthersStay(old(disk), disk, rec.tx) && FilesMoved(old(disk), disk)
        invariant OutputsLanded(disk, rec) && TargetsLanded(disk, rec, renames)
        invariant InputsFiled(old(disk), rec) ==> InputsFiled(disk, rec)
        invariant InputsDone(old(disk), rec) ==> InputsDone(disk, rec)
        invariant NamedIn(objects, disk, RenamedAll(rec.outputs, renames))
        invariant forall i :: 0 <= i < |renames| ==> renames[i].0 in finished
        invariant forall k :: 0 <= k < i ==> rec.pending[k].file in finished || rec.pending[k].file in held + locked
      {
        ghost var d, file := disk, rec.pending[i].file;
        LandedIsDone(d, rec);
        ReconcilingUnspent(rec, s);
        var done, now;
        ok, done, now := FinishPendingName(rec, rec.pending[i], locked, claimed, s);
        NamesKeptOn(old(disk), d, disk, claimed);
        StrandedOn(old(disk), d, disk);
        if !ok { return; }
        if done { finished := finished + [rec.pending[i].file]; }
        if now != rec.pending[i].file {
          MovedIsRenamed(d, now, rec, file);
          OthersStayOn(old(disk), d, disk, rec, file);
          FinishingKeepsLanded(d, rec, file, now, renames);
          FinishingKeepsFiled(d, rec, file, now);
          RenamedIsNamed(objects, d, rec.outputs, renames, file, now);
          renames := renames + [(rec.pending[i].file, now)];
        }
      }
    }

    /** Remove the outputs of unknown status the record still owns. */
    method RemoveUnknownOutputs(rec: Rec) returns (ok: bool)
      requires Reached() && rec.tx in records && records[rec.tx] == rec && MayEnd(rec)
      modifies this`disk, this`history, this`rewritten, this`faults
      ensures Reached() && old(history) <= history && old(faults) <= faults
      ensures OutputsRemoved(old(disk), disk, rec)
      ensures ok ==> OutputsDone(disk, rec)
      ensures faults == old(faults) ==> ok
    {
      hide Run;
      ok := true;
      for i := 0 to |rec.outputs|
        invariant Reached() && old(history) <= history && old(faults) <= faults
        invariant OutputsRemoved(old(disk), disk, rec)
        invariant forall k :: 0 <= k < i && IsListed(disk, rec, rec.outputs[k]) ==>
          !disk.live[rec.outputs[k]].status.Unknown?
      {
        var n := rec.outputs[i];
        if n in disk.live && disk.live[n].status.Unknown? && disk.live[n].tx == rec.tx {
          ghost var d := disk;
          ok := RemoveLive(n, RemoveOutput(rec.tx, n));
          RemovedOn(old(disk), d, disk, rec, n);
          if !ok { return; }
        }
      }
      ok := true;
    }

    /** The passes over inputs and outputs. */
    method PersistInputsAndOutputs(rec: Rec, ghost s: Disk)
      returns (ok: bool, renames: seq<(string, string)>, ghost clean: bool)
      requires Reached() && IsReconciling(rec, s)
      modifies this`disk, this`history, this`rewritten, this`faults
      ensures Reached() && old(history) <= history && old(faults) <= faults
      ensures Starts(s, rec, disk) && FilesBrought(old(disk), disk, rec)
      ensures clean ==> NoneStranded(old(disk), disk)
      ensures forall i :: 0 <= i < |renames| ==> renames[i].0 !in disk.live
      ensures ok ==> OutputsLanded(disk, rec) && InputsFiled(disk, rec) && (clean ==> InputsDone(disk, rec))
      ensures AllSpentNames(PlanOf(s, rec), renames)
      ensures faults == old(faults) ==> ok && clean
    {
      hide Run, Reached, Now, PlanOf, Starts, InputsDone, InputsFiled, OutputsLanded, NoneStranded, AllSpentNames;
      hide FilesBrought, OutputsUnspent, Ordered, Inv, RecordsOk;
      ghost var d := disk;
      ok, renames, clean := PersistInputs(rec, s);
      FewerIsBrought(d, disk, rec);
      if !ok { return; }
      ghost var e := disk;
      ReconcilingUnspent(rec, s);
      ok := PersistOutputs(rec, s);
      TouchedIsBrought(d, e, disk, rec);
      StrandedOn(d, e, disk);
      TouchedKeepsInputs(e, disk, rec);
    }

    lemma ReconcilingUnspent(rec: Rec, s: Disk)
      requires Reached() && IsReconciling(rec, s)
      ensures OutputsUnspent(disk, rec)
    {
      ReachedInv();
      RecordStarts(Now(), rec);
    }

    /** Bring a landed record's object files in line with it. */
    method PersistLanded(rec: Rec, locked: set<string>, ghost claimed: set<string>)
      returns (ok: bool, out: Rec, ghost clean: bool)
      requires Reached() && IsReconciling(rec, disk) && LockedInputs(records) <= locked
      requires held + locked <= claimed && forall p :: p in rec.pending && p.file in claimed ==> p.file in held + locked
      modifies this`disk, this`history, this`rewritten, this`faults
      ensures Reached() && old(history) <= history && old(faults) <= faults
      ensures NamesKept(old(disk), disk, claimed) && (clean ==> NoneStranded(old(disk), disk))
      ensures Pass(old(disk), rec, disk, out) && (!ok ==> out == rec)
      ensures ok ==> Filed(old(disk), rec, disk) && NamesFiles(old(disk), rec, disk, out, held + locked)
      ensures ok && clean ==> Reconciled(old(disk), rec, disk) && InputsDone(disk, out)
      ensures faults == old(faults) ==> ok && clean
    {
      hide *;
      ghost var d := disk;
      ReachedInv();
      ReconcilingStarts(rec, d);
      out := rec;
      var spentRenames, finished, renames;
      ok, spentRenames, clean := PersistInputsAndOutputs(rec, d);
      ghost var e := disk;
      BroughtKeepsNames(d, e, rec, claimed);
      PassStopped(d, rec, e);
      if !ok { return; }
      ListedAreNamed(d, rec, e);
      IsReconcilingFrom(rec, d);
      ok, finished, renames := FinishPendingNames(rec, locked, claimed, d, ListedObjects(d, rec));
      NamesKeptOn(d, e, disk, claimed);
      StrandedOn(d, e, disk);
      PassStopped(d, rec, disk);
      if !ok { return; }
      out := Updated(rec, spentRenames, finished, renames);
      SpentNamesPassed(e, disk, rec.tx, spentRenames);
      UpdatedPasses(d, rec, disk, spentRenames, finished, renames);
      CarriedOver(d, e, disk, rec);
      FiledInputs(d, rec, disk);
      LandedIsFiled(d, rec, disk);
      UpdatedNames(d, rec, disk, spentRenames, finished, renames, held + locked);
      if clean {
        LandedIsDone(disk, rec);
        LoopsDone(d, rec, disk);
        UpdatedDone(d, rec, disk, spentRenames, finished, renames);
        FiledIsReconciled(d, rec, disk);
      }
    }

    lemma ReconcilingStarts(rec: Rec, s: Disk)
      requires IsReconciling(rec, s)
      ensures Starts(s, rec, disk) && rec.tx in records && records[rec.tx] == rec && rec.state == Landed && RecOk(rec)
    {
    }

    lemma IsReconcilingFrom(rec: Rec, s: Disk)
      requires rec.tx in records && records[rec.tx] == rec && Starts(s, rec, disk)
      ensures IsReconciling(rec, s)
    {
    }

    /** Bring a settled record's object files in line with it; `out` is the
        record naming them where they now are. For a landed record every
        stopping point is on the way, a success has done what it asks for but for
        live files whose removal failed unreported, and a clean one that too;
        what is left undone is still named by the record. An expired one loses
        only its unknown outputs. */
    method PersistSettledObjects(rec: Rec, locked: set<string>) returns (ok: bool, out: Rec, ghost clean: bool)
      requires Reached() && rec.tx in records && records[rec.tx] == rec && IsTerminal(rec)
      requires LockedInputs(records) <= locked
      modifies this`disk, this`history, this`rewritten, this`faults
      ensures Reached() && old(history) <= history && old(faults) <= faults
      ensures NamesKept(old(disk), disk, FixedNames(old(disk), rec, held + locked))
      ensures clean ==> NoneStranded(old(disk), disk)
      ensures SameBut(rec, out) && RecOk(out) && (!ok ==> out == rec)
      ensures rec.state == Landed ==> Pass(old(disk), rec, disk, out)
      ensures rec.state == Expired ==> OutputsRemoved(old(disk), disk, rec) && clean && out == rec
      ensures ok ==> Filed(old(disk), rec, disk) && NamesFiles(old(disk), rec, disk, out, held + locked)
      ensures ok && clean ==> Reconciled(old(disk), rec, disk) && (rec.state == Landed ==> InputsDone(disk, out))
      ensures faults == old(faults) ==> ok && clean
    {
      hide *;
      ghost var now := Now();
      ReachedInv();
      TerminalState(rec);
      RecordStarts(now, rec);
      ghost var d, claimed := disk, FixedNames(disk, rec, held + locked);
      ClaimedAreUsed(disk, rec, held + locked);
      if rec.state == Expired {
        out, clean := rec, true;
        SameAsItself(rec);
        ok := RemoveUnknownOutputs(rec);
        RemovingKeepsNames(d, disk, rec, claimed);
        if ok { ExpiredIsReconciled(d, rec, disk, held + locked); }
      } else {
        IsReconcilingFrom(rec, d);
        ok, out, clean := PersistLanded(rec, locked, claimed);
        PassIsSame(d, rec, disk, out);
      }
    }

    // ----------------------------------------------------------------
    // Transaction files

    method PutDraftFile(rec: Rec) returns (ok: bool)
      requires Reached()
      modifies this`drafts, this`history, this`faults
      ensures Reached() && old(history) <= history && old(faults) <= faults
      ensures drafts == old(drafts) || drafts == old(drafts)[rec.tx := rec]
      ensures ok ==> drafts == old(drafts)[rec.tx := rec]
      ensures faults == old(faults) ==> ok
    {
      hide Run, RecordMove;
      var done: bool, reported: bool := *, *;
      if done {
        DraftMoves(Now(), rec);
        drafts := drafts[rec.tx := rec];
        Moved(PutDraft(rec));
      }
      ok := done && reported;
      if !ok { faults := faults + 1; }
    }

    /** The temporary file becomes the record, at once or not at all. */
    method RenameDraft(tx: Tx) returns (ok: bool)
      requires Reached() && tx in drafts && drafts[tx].tx == tx
      requires if tx in records then MayUpdate(records[tx], drafts[tx]) else MayCommit(Now(), drafts[tx])
      modifies this`records, this`drafts, this`history, this`told, this`writing, this`faults
      ensures Reached() && old(history) <= history && old(faults) <= faults
      ensures ok ==> records == old(records)[tx := old(drafts)[tx]] && drafts == old(drafts) - {tx}
      ensures ok ==> told == ToldBy(old(told), old(drafts)[tx]) && (tx in old(records) ==> writing == old(writing))
      ensures !ok ==> records == old(records) && drafts == old(drafts) && writing == old(writing) && told == old(told)
      ensures faults == old(faults) ==> ok
    {
      hide Run, RecordMove, MayCommit, MayUpdate, ToldBy;
      ok := *;
      if ok {
        CommitMoves(Now(), tx);
        ghost var isNew := tx !in records;
        records, drafts, told := records[tx := drafts[tx]], drafts - {tx}, ToldBy(told, drafts[tx]);
        if isNew { writing := None; }
        Moved(CommitDraft(tx));
      } else {
        faults := faults + 1;
      }
    }

    /** A record is written to a temporary file that then takes its place, so a
        reader sees the old record or all of the new one. */
    method WriteRecord(rec: Rec) returns (ok: bool)
      requires Reached()
      requires if rec.tx in records then MayUpdate(records[rec.tx], rec) else MayCommit(Now(), rec)
      modifies this`records, this`drafts, this`history, this`told, this`writing, this`faults
      ensures Reached() && old(history) <= history && old(faults) <= faults
      ensures ok ==> records == old(records)[rec.tx := rec] && told == ToldBy(old(told), rec)
      ensures ok && rec.tx in old(records) ==> writing == old(writing)
      ensures !ok ==> records == old(records) && writing == old(writing) && told == old(told)
      ensures faults == old(faults) ==> ok
    {
      hide Run, MayUpdate, ToldBy, LockedInputs, RecOk;
      ok := PutDraftFile(rec);
      if ok { ok := RenameDraft(rec.tx); }
    }

    /** Removing a transaction's directory may stop half way. */
    method RemoveTransaction(tx: Tx) returns (ok: bool)
      requires Reached() && (tx in records ==> IsTerminal(records[tx]) || MayEnd(records[tx]))
      modifies this`records, this`drafts, this`payloads, this`history, this`faults
      ensures Reached() && old(history) <= history && old(faults) <= faults
      ensures records == old(records) || (tx in old(records) && records == old(records) - {tx})
      ensures payloads == old(payloads) || payloads == old(payloads) - {tx}
      ensures ok ==> tx !in records && tx !in payloads
      ensures faults == old(faults) ==> ok
    {
      hide Run, RecordMove, MayEnd;
      var draftGone: bool, payloadGone: bool, recordGone: bool, reported: bool := *, *, *, *;
      if draftGone { RemoveDraft(tx); }
      if payloadGone { RemovePayload(tx); }
      if recordGone && tx in records { RemoveRecord(tx); }
      ok := draftGone && payloadGone && recordGone && reported;
      if !ok { faults := faults + 1; }
    }

    method RemoveDraft(tx: Tx)
      requires Reached()
      modifies this`drafts, this`history
      ensures Reached() && old(history) <= history && drafts == old(drafts) - {tx}
    {
      hide Run, RecordMove;
      DropMoves(Now(), tx);
      drafts := drafts - {tx};
      Moved(DropDraft(tx));
    }

    method RemovePayload(tx: Tx)
      requires Reached() && (tx in records ==> IsTerminal(records[tx]) || MayEnd(records[tx]))
      modifies this`payloads, this`history
      ensures Reached() && old(history) <= history && payloads == old(payloads) - {tx}
    {
      hide Run, RecordMove, MayEnd;
      DropMoves(Now(), tx);
      payloads := payloads - {tx};
      Moved(DropPayload(tx));
    }

    method RemoveRecord(tx: Tx)
      requires Reached() && tx in records && (IsTerminal(records[tx]) || MayEnd(records[tx]))
      modifies this`records, this`history
      ensures Reached() && old(history) <= history && records == old(records) - {tx}
    {
      hide Run, RecordMove, MayEnd;
      DropMoves(Now(), tx);
      records := records - {tx};
      Moved(DropRecord(tx));
    }

    /** The attempt is marked on disk before the payload is offered. */
    method MarkAttempt(tx: Tx) returns (ok: bool, attempted: bool)
      requires Reached()
      modifies this`records, this`drafts, this`history, this`told, this`writing, this`faults
      ensures Reached() && old(history) <= history && old(faults) <= faults
      ensures ok && attempted ==> tx in old(records) && old(records)[tx].state == Recorded
      ensures ok && attempted ==> records == old(records)[tx := old(records)[tx].(attempted := true)]
      ensures !ok || !attempted ==> records == old(records)
      ensures faults == old(faults) ==> (ok <==> tx in old(records))
      ensures ok && !attempted ==> tx in records && records[tx].state != Recorded
    {
      ReachedInv();
      hide Run, Inv, Ordered, RecOk;
      ok, attempted := false, false;
      if tx !in records { return; }
      if records[tx].state != Recorded { return true, false; }
      attempted := true;
      ok := WriteRecord(records[tx].(attempted := true));
    }

    /** The relayer's answer is saved unless the record has moved on. */
    method SaveSubmitted(tx: Tx) returns (ok: bool)
      requires Reached() && (tx in records && records[tx].state == Recorded ==> records[tx].attempted)
      modifies this`records, this`drafts, this`history, this`told, this`writing, this`faults
      ensures Reached() && old(history) <= history && old(faults) <= faults
      ensures records == old(records) || (tx in old(records) && old(records)[tx].state == Recorded &&
        records == old(records)[tx := old(records)[tx].(state := Submitted)])
      ensures ok ==> tx in records && records[tx].state != Recorded
      ensures faults == old(faults) ==> (ok <==> tx in old(records))
    {
      ReachedInv();
      hide Run, Inv, Ordered, RecOk;
      if tx !in records { return false; }
      if records[tx].state != Recorded { return true; }
      ok := WriteRecord(records[tx].(state := Submitted));
    }

    /** What the chain and the relayer answered, saved one record after the other;
        only offered transactions have a status. Stops at the first failure.
        `changed` are the records that differ afterwards. */
    method SettleRecords(order: seq<Tx>, a: Answers) returns (ok: bool, changed: seq<Tx>)
      requires Reached() && (forall i, j :: 0 <= i < j < |order| ==> order[i] != order[j])
      requires forall tx :: tx in order <==> tx in records
      requires OnlyOffered(records, a)
      modifies this`records, this`drafts, this`history, this`told, this`writing, this`faults
      ensures Reached() && old(history) <= history && old(faults) <= faults
      ensures SettledSome(old(records), records, a)
      ensures ok ==> forall tx :: tx in old(records) ==> IsSettledBy(old(records)[tx], records[tx], a)
      ensures records.Keys == old(records).Keys && AreChanged(changed, old(records), records)
      ensures faults == old(faults) ==> ok
    {
      hide Run, MayCommit, MayUpdate, ToldBy, IsSettledBy, SettledUpTo, SettledSome, AreChanged, Reached;
      NoneChanged(records);
      ok, changed := true, [];
      ghost var r0 := records;
      NoneSettled(r0, a, order);
      for i := 0 to |order|
        invariant Reached() && old(history) <= history && old(faults) <= faults
        invariant SettledUpTo(r0, records, a, order, i) && SettledSome(r0, records, a) && records.Keys == r0.Keys
        invariant OnlyOffered(records, a) && AreChanged(changed, r0, records)
      {
        var tx := order[i];
        ghost var r := records;
        NextUnsettled(r0, r, a, order, i);
        var wrote;
        ok, wrote := SettleRecord(tx, a);
        SettledNext(r0, r, records, a, order, i);
        ChangedNext(changed, r0, r, records, a, tx);
        if !ok { return; }
        if wrote { changed := changed + [tx]; }
      }
      ok := true;
      SettledAll(r0, records, a, order);
    }

    /** One record is settled, and saved if that changes it. */
    method SettleRecord(tx: Tx, a: Answers) returns (ok: bool, wrote: bool)
      requires Reached() && tx in records && (IsApplied(a, tx) ==> records[tx].attempted)
      modifies this`records, this`drafts, this`history, this`told, this`writing, this`faults
      ensures Reached() && old(history) <= history && old(faults) <= faults
      ensures tx in records && records == old(records)[tx := records[tx]]
      ensures records[tx].attempted == old(records)[tx].attempted
      ensures ok ==> IsSettledBy(old(records)[tx], records[tx], a)
      ensures !ok ==> records == old(records)
      ensures wrote <==> records != old(records)
      ensures faults == old(faults) ==> ok
    {
      ReachedInv();
      KeyedRecord(records, tx);
      hide Run, Inv, Ordered, RecOk, MayCommit, MayUpdate, RecordsOk, ToldBy, Reached, Now;
      ok, wrote := true, false;
      var rec := records[tx];
      if !IsOpen(rec) || tx !in a.queried { return; }
      if (rec.attempted || rec.state == Submitted) && tx !in a.statuses { return; }
      var out := rec;
      if tx in a.jobHashes { out := out.(txHash := Some(a.jobHashes[tx])); }
      var status := if tx in a.statuses then a.statuses[tx] else None;
      if status.Some? {
        out := out.(state := if status.value.applied then Landed else Expired, txHash := Some(status.value.hash));
      } else if a.head.Some? && ChainRules.GroundingAgedOut(a.head.value, rec.groundingBlock) {
        out := out.(state := Expired);
      }
      if out == rec { return; }
      SettledMayUpdate(rec, out);
      ok := WriteRecord(out);
      wrote := ok;
    }

    /** Reconcile one settled record and save it if it changed. */
    method ReconcileRecord(tx: Tx, locked: set<string>) returns (ok: bool, saved: bool, ghost clean: bool)
      requires Reached() && tx in records && IsTerminal(records[tx]) && LockedInputs(records) <= locked
      modifies this`disk, this`records, this`drafts, this`history, this`told, this`writing, this`rewritten
      modifies this`faults
      ensures Reached() && old(history) <= history && old(faults) <= faults
      ensures NamesKept(old(disk), disk, FixedNames(old(disk), old(records)[tx], held + locked))
      ensures clean ==> NoneStranded(old(disk), disk)
      ensures OneRenamed(old(records), records, tx) && LockedInputs(records) <= locked
      ensures old(records)[tx].state == Landed ==> Pass(old(disk), old(records)[tx], disk, records[tx])
      ensures ok ==> Filed(old(disk), old(records)[tx], disk) && FiledSince(history, |old(history)| - 1, tx)
      ensures ok && saved ==> NamesFiles(old(disk), old(records)[tx], disk, records[tx], held + locked)
      ensures ok && clean ==> Reconciled(old(disk), old(records)[tx], disk) && Mends(old(disk), disk, old(records)[tx])
      ensures ok && saved && clean && old(records)[tx].state == Landed ==> InputsDone(disk, records[tx])
      ensures faults == old(faults) ==> ok && saved && clean
    {
      hide *;
      ghost var s, h := Now(), history;
      ReachedInv();
      KeyedRecord(records, tx);
      ghost var r, d, rec := records, disk, records[tx];
      var out;
      ok, out, clean := PersistSettledObjects(records[tx], locked);
      if ok { FiledNow(h, s, tx); }
      if ok && clean { ReconcilingMends(d, disk, rec, held + locked); }
      saved := true;
      SameIsRenamed(r, tx);
      if ok && out != records[tx] {
        NamesMayUpdate(rec, out);
        SameButTx(rec, out);
        ghost var g := history;
        saved := WriteRecord(out);
        FiledLater(g, history, |h| - 1, |h| - 1, tx);
        if saved { NewIsRenamed(r, tx, out); }
      }
      if !saved && rec.state == Landed { PassUnsaved(d, rec, disk, out); }
      SettledStayLocked(r, records, tx, locked);
    }

    lemma FiledNow(h: seq<State>, s: State, tx: Tx)
      requires Reached() && h != [] && h <= history && h[|h| - 1] == s
      requires tx in s.records && IsTerminal(s.records[tx]) && Filed(s.disk, s.records[tx], disk)
      ensures FiledSince(history, |h| - 1, tx)
    {
      assert FiledAt(history, |h| - 1, |history| - 1, tx);
    }

    /** Delete a recorded transaction that was never offered to the relayer. */
    method DeleteTransaction(tx: Tx) returns (ok: bool)
      requires Reached()
      modifies this`disk, this`records, this`drafts, this`payloads, this`history, this`rewritten, this`faults
      ensures Reached() && old(history) <= history && old(faults) <= faults
      ensures tx !in old(records) || old(records)[tx].state != Recorded || old(records)[tx].attempted ==>
        !ok && disk == old(disk) && records == old(records) && payloads == old(payloads)
      ensures tx in old(records) ==> OutputsRemoved(old(disk), disk, old(records)[tx])
      ensures records == old(records) || (tx in old(records) && records == old(records) - {tx})
      ensures tx !in records && tx in old(records) ==> OutputsDone(disk, old(records)[tx])
      ensures ok ==> tx !in records && tx !in payloads
      ensures faults == old(faults) ==>
        (ok <==> tx in old(records) && old(records)[tx].state == Recorded && !old(records)[tx].attempted)
    {
      ReachedInv();
      hide Run, Inv, Ordered, RecordsOk, OutputsDone, RecOk;
      if tx !in records || records[tx].state != Recorded || records[tx].attempted { return false; }
      KeyedRecord(records, tx);
      var rec := records[tx];
      ok := RemoveUnknownOutputs(rec);
      hide OutputsRemoved;
      if ok { ok := RemoveTransaction(tx); }
    }

    /** One settled transaction: reconciled if due or not known to be, then
        removed if due. It is removed, or known to be reconciled, only after its
        reconciliation succeeded. */
    method PruneTransaction(tx: Tx, now: nat, locked: set<string>) returns (gone: bool, ghost clean: bool)
      requires Reached() && tx in records && IsTerminal(records[tx]) && LockedInputs(records) <= locked
      modifies this`disk, this`records, this`drafts, this`payloads, this`reconciled, this`history
      modifies this`told, this`writing, this`rewritten, this`faults
      ensures Reached() && old(history) <= history && old(faults) <= faults
      ensures NamesKept(old(disk), disk, FixedNames(old(disk), old(records)[tx], held + locked))
      ensures Pruned(old(records), records, tx, now) && LockedInputs(records) <= locked
      ensures OthersCached(old(reconciled), reconciled, tx)
      ensures Visited(old(records)[tx], old(reconciled), now) <==>
        now >= old(records)[tx].cleanupAt || tx !in old(reconciled) || old(reconciled)[tx] != old(records)[tx]
      ensures !Visited(old(records)[tx], old(reconciled), now) ==>
        disk == old(disk) && records == old(records) && reconciled == old(reconciled)
      ensures Visited(old(records)[tx], old(reconciled), now) && (tx !in records || tx in reconciled) ==>
        FiledSince(history, |old(history)| - 1, tx) && (tx in records ==> reconciled[tx] == records[tx])
      ensures Visited(old(records)[tx], old(reconciled), now) && (tx !in records || tx in reconciled) && clean ==>
        Reconciled(old(disk), old(records)[tx], disk) && Mends(old(disk), disk, old(records)[tx])
      ensures gone ==> tx !in records
      ensures faults == old(faults) ==> clean && (now >= old(records)[tx].cleanupAt ==> gone)
      ensures faults == old(faults) && Visited(old(records)[tx], old(reconciled), now) ==>
        tx !in records || tx in reconciled
    {
      hide *;
      ReachedInv();
      KeyedRecord(records, tx);
      var rec := records[tx];
      ghost var r, h := records, history;
      gone, clean := false, true;
      ghost var z := reconciled;
      VisitedMeans(rec, reconciled, now);
      OneCached(z, rec, tx);
      if !Visited(rec, reconciled, now) {
        KeptAll(disk, rec, held + locked);
        SamePruned(r, tx, now);
        return;
      }
      var ok, saved;
      ok, saved, clean := ReconcileRecord(tx, locked);
      RenamedIsPruned(r, records, tx, now);
      OneCached(z, records[tx], tx);
      if !ok || !saved { reconciled := reconciled - {tx}; return; }
      reconciled := reconciled[tx := records[tx]];
      if now >= rec.cleanupAt {
        ghost var g := history;
        gone := RemoveTransaction(tx);
        if gone { reconciled := reconciled - {tx}; }
        FiledLater(g, history, |h| - 1, |h| - 1, tx);
        DroppedIsPruned(r, records, tx, now);
        FewerStayLocked(r, records, tx, locked);
      }
    }

    /** The next one of those left; `done` says that its visit, if it was due one,
        succeeded and left no live file behind. */
    method PruneNext(
      tx: Tx, now: nat, locked: set<string>, ghost from: int, ghost r0: map<Tx, Rec>, ghost z0: map<Tx, Rec>,
      ghost left: set<Tx>, ghost visit: set<Tx>)
      returns (gone: bool, ghost done: bool)
      requires Reached() && Pruning(history, from, r0, records, z0, reconciled, left, visit, now)
      requires tx in left && LockedInputs(records) <= locked
      modifies this`disk, this`records, this`drafts, this`payloads, this`reconciled, this`history
      modifies this`told, this`writing, this`rewritten, this`faults
      ensures Reached() && old(history) <= history && old(faults) <= faults
      ensures NamesKept(old(disk), disk, held + locked) && LockedInputs(records) <= locked
      ensures Pruning(history, from, r0, records, z0, reconciled, left - {tx}, visit, now)
      ensures old(records).Keys - {tx} <= records.Keys <= old(records).Keys && tx in old(records)
      ensures (gone ==> tx !in records) && (faults == old(faults) ==> (gone <==> tx !in records))
      ensures done && AllRepairable(old(disk), old(records), visit * left) ==>
        AllRepairable(disk, records, visit * (left - {tx}))
      ensures faults == old(faults) ==> done
      ensures faults == old(faults) && NoneDue(r0, old(records), left, now) ==> NoneDue(r0, records, left - {tx}, now)
    {
      hide *;
      ghost var r, d, h, z := records, disk, history, reconciled;
      PruningNext(h, from, r0, r, z0, z, left, visit, now, tx);
      ReachedInv();
      KeptByAll(d, held + locked);
      gone, done := PruneTransaction(tx, now, locked);
      done := done && (tx in visit ==> tx !in records || tx in reconciled);
      ReachedInv();
      PruningStep(h, history, from, r0, r, records, z0, z, reconciled, left, visit, now, tx);
      KeptOnce(d, d, disk, r[tx], held + locked);
      if done && AllRepairable(d, r, visit * left) { PrunedRepairs(d, disk, r, records, visit, left, tx, now); }
    }

    /** Remove settled transactions past their retention, reconciling the files
        of each settled one that is due or not known to be reconciled. Open and
        undue records stay, and no file in use changes its name. A record is
        removed, or newly known to be reconciled, only after a reconciliation
        that succeeded, and without failures all due ones are. If every
        reconciliation succeeds and leaves no live file behind, `done`, and the
        stranded objects are all within reach of one, each object has one file
        afterwards. */
    method PruneTransactions(now: nat) returns (pruned: set<Tx>, ghost done: bool)
      requires Reached()
      modifies this`disk, this`records, this`drafts, this`payloads, this`reconciled, this`history
      modifies this`told, this`writing, this`rewritten, this`faults
      ensures Reached() && old(history) <= history && old(faults) <= faults
      ensures NamesKept(old(disk), disk, held + LockedInputs(old(records)))
      ensures Settling(old(records), records, {}, now) && pruned <= old(records).Keys - records.Keys
      ensures faults == old(faults) ==> pruned == old(records).Keys - records.Keys
      ensures AllFiled(history, |old(history)| - 1, old(records), records, old(reconciled), reconciled)
      ensures done && AllRepairable(old(disk), old(records), ToVisit(old(records), old(reconciled), now)) ==>
        Valid(disk)
      ensures faults == old(faults) ==> done && NoneDue(old(records), records, {}, now)
    {
      hide *;
      ReachedInv();
      var locked, left := LockedInputs(records), TerminalIds(records);
      ghost var d, r0, h0, z0, visit := disk, records, history, reconciled, ToVisit(records, reconciled, now);
      PruningStarts(history, records, reconciled, now);
      reconciled := Retained(reconciled, left);
      pruned, done := PruneAll(left, now, locked, |h0| - 1, r0, z0, visit);
      PruningEnds(history, |h0| - 1, r0, records, z0, reconciled, visit, now);
      ReachedInv();
      if done && AllRepairable(d, r0, visit) { NothingRepairable(disk, records, {}); }
    }

    /** One after the other of the settled transactions `todo`. */
    method PruneAll(
      todo: set<Tx>, now: nat, locked: set<string>, ghost from: int, ghost r0: map<Tx, Rec>, ghost z0: map<Tx, Rec>,
      ghost visit: set<Tx>)
      returns (pruned: set<Tx>, ghost done: bool)
      requires Reached() && Pruning(history, from, r0, records, z0, reconciled, todo, visit, now)
      requires LockedInputs(records) <= locked
      modifies this`disk, this`records, this`drafts, this`payloads, this`reconciled, this`history
      modifies this`told, this`writing, this`rewritten, this`faults
      ensures Reached() && old(history) <= history && old(faults) <= faults
      ensures NamesKept(old(disk), disk, held + locked)
      ensures pruned <= old(records).Keys - records.Keys
      ensures faults == old(faults) ==> pruned == old(records).Keys - records.Keys
      ensures Pruning(history, from, r0, records, z0, reconciled, {}, visit, now)
      ensures done && AllRepairable(old(disk), old(records), visit * todo) ==> AllRepairable(disk, records, {})
      ensures faults == old(faults) ==> done
      ensures faults == old(faults) && NoneDue(r0, old(records), todo, now) ==> NoneDue(r0, records, {}, now)
    {
      hide *;
      pruned, done := {}, true;
      ReachedInv();
      KeptByAll(disk, held + locked);
      var left := todo;
      while left != {}
        invariant Reached() && old(history) <= history && old(faults) <= faults && LockedInputs(records) <= locked
        invariant NamesKept(old(disk), disk, held + locked)
        invariant records.Keys <= old(records).Keys && pruned <= old(records).Keys - records.Keys
        invariant faults == old(faults) ==> pruned == old(records).Keys - records.Keys
        invariant Pruning(history, from, r0, records, z0, reconciled, left, visit, now)
        invariant done && AllRepairable(old(disk), old(records), visit * todo) ==>
          AllRepairable(disk, records, visit * left)
        invariant faults == old(faults) ==> done
        invariant faults == old(faults) && NoneDue(r0, old(records), todo, now) ==> NoneDue(r0, records, left, now)
        decreases left
      {
        var tx :| tx in left;
        ghost var d, c := disk, true;
        var gone;
        gone, c := PruneNext(tx, now, locked, from, r0, z0, left, visit);
        NamesKeptOn(old(disk), d, disk, held + locked);
        done := done && c;
        left := left - {tx};
        if gone { pruned := pruned + {tx}; }
      }
      assert visit * left == {};
    }

    // ----------------------------------------------------------------
    // All files against the chain

    /** What the chain answers is known from then on. */
    ghost method Learn(m: Option<Membership>)
      requires Reached()
      modifies this`told, this`history
      ensures Reached() && old(history) <= history
      ensures old(told).spent <= told.spent && old(told).created <= told.created
      ensures m.Some? ==> m.value.spent <= told.spent && m.value.created <= told.created
    {
      hide Run, RecordMove;
      if m.Some? {
        var now := Told(told.created + m.value.created, told.spent + m.value.spent);
        TellMoves(Now(), now);
        told := now;
        Moved(Tell(now));
      }
    }

    /** A scanned live file whose object is newly spent is nullified. */
    method SyncSpent(n: string, g: File, m: Option<Membership>, ghost s: Disk) returns (ok: bool, ghost clean: bool)
      requires Reached() && Syncing(s, m, disk) && n in disk.live && SameFile(g, disk.live[n]) && g.status.Nullified?
      requires g.obj in told.spent && g.obj in ChainPlan(s, m).spent
      modifies this`disk, this`history, this`rewritten, this`faults
      ensures Reached() && old(history) <= history && old(faults) <= faults
      ensures Syncing(s, m, disk) && SameElsewhere(old(disk), disk, n)
      ensures forall k :: k != n && Untouched(s, old(disk), k) ==> Untouched(s, disk, k)
      ensures clean ==> NoneStranded(old(disk), disk)
      ensures ok && clean ==> n !in disk.live
      ensures faults == old(faults) ==> ok && clean
    {
      hide Run, Reached, Now, Progress, GeneratedName, ChainPlan, NoneStranded, Ordered, Loadable, Untouched;
      hide SameElsewhere;
      ghost var d := disk;
      ChainPlanFrees(s, m);
      ok, clean := NullifyObjectFile(g, n, s, ChainPlan(s, m));
      RemovalIsElsewhere(d, disk, n);
      NullifyingLeavesOthers(s, m, d, disk, n, g);
      if ok && clean { NullifiedIsGone(d, disk, n); }
    }

    /** Any other scanned file is rewritten in place. */
    method SyncRewrite(n: string, f: File, m: Option<Membership>, txHash: Option<nat>, ghost s: Disk) returns (ok: bool)
      requires Reached() && Scanned(s, m, disk, n, f)
      requires n in s.live ==> !Synced(f, m, txHash).status.Nullified?
      requires MayRewrite(Now(), Synced(f, m, txHash), n)
      modifies this`disk, this`history, this`rewritten, this`faults
      ensures Reached() && old(history) <= history && old(faults) <= faults
      ensures Syncing(s, m, disk)
      ensures disk == old(disk) || disk == Put(old(disk), Synced(f, m, txHash), n)
      ensures ok ==> disk == Put(old(disk), Synced(f, m, txHash), n)
      ensures faults == old(faults) ==> ok
    {
      hide Run, Reached, Progress, GeneratedName, ChainPlan, NoneStranded, Ordered, Loadable, Synced, MayWrite;
      var g := Synced(f, m, txHash);
      ScannedRewrites(s, m, disk, n, f, txHash);
      ok := WriteObjectFile(g, n, PutOf(disk, g, n), DropOf(disk, n));
    }

    /** Bring the scanned file `f`, named `n`, in line with the chain. */
    method SyncFile(n: string, f: File, m: Option<Membership>, txHash: Option<nat>, ghost s: Disk)
      returns (ok: bool, ghost clean: bool)
      requires Reached() && Scanned(s, m, disk, n, f)
      requires m.Some? ==> m.value.spent <= told.spent && m.value.created <= told.created
      modifies this`disk, this`history, this`rewritten, this`faults
      ensures Reached() && old(history) <= history && old(faults) <= faults
      ensures Syncing(s, m, disk) && SameElsewhere(old(disk), disk, n)
      ensures forall k :: k != n && Untouched(s, old(disk), k) ==> Untouched(s, disk, k)
      ensures clean ==> NoneStranded(old(disk), disk)
      ensures ok && clean && n in s.live ==> AsPlanned(ChainPlan(s, m), disk, n)
      ensures ok && clean && n in s.live && n in disk.live ==>
        && disk.live[n] == Synced(f, m, txHash) && disk.live[n].obj == f.obj && disk.live[n].tx == f.tx
        && disk.live[n].txHash == (if txHash.Some? then txHash else f.txHash)
        && (m.None? ==> disk.live[n].status == f.status)
        && (m.Some? ==> f.obj !in m.value.spent)
        && (m.Some? ==> (disk.live[n].status == Live <==> f.status == Live || f.obj in m.value.created))
      ensures faults == old(faults) ==> ok && clean
    {
      ReachedInv();
      ScannedFacts(s, m, disk, n, f, txHash);
      hide *;
      ghost var d := disk;
      var g := Synced(f, m, txHash);
      ok, clean := true, true;
      NoneStrandedIn(d);
      SameEverywhere(d, n);
      if g == f {
        if n in s.live { UnchangedIsPlanned(s, m, d, n, f, txHash); }
        return;
      }
      if g.status.Nullified? && !f.status.Nullified? {
        TellsSpent(told, f, m, txHash);
        ok, clean := SyncSpent(n, g, m, s);
        GoneIsPlanned(ChainPlan(s, m), disk, n);
      } else {
        SyncIsAllowed(Now(), s, m, f, n, txHash);
        ok := SyncRewrite(n, f, m, txHash, s);
        RewriteLeavesOthers(s, m, d, disk, n, f, txHash);
        if ok && n in s.live { RewrittenIsPlanned(s, m, d, disk, n, f, txHash); }
      }
    }

    /** Bring every file in line with the chain. A store that cannot be loaded is
        left alone; otherwise every stopping point is on the way, and a clean
        finish is all of it. */
    method SyncFiles(m: Option<Membership>) returns (ok: bool, ghost clean: bool)
      requires Reached()
      modifies this`disk, this`history, this`told, this`rewritten, this`faults
      ensures Reached() && old(history) <= history && old(faults) <= faults
      ensures !Loadable(old(disk)) ==> !ok && clean && disk == old(disk)
      ensures Loadable(old(disk)) ==> Syncing(old(disk), m, disk)
      ensures ok && clean ==> Done(ChainPlan(old(disk), m), disk)
      ensures ok && clean ==> forall n :: n in old(disk).live ==> IsSynced(old(disk), m, records, disk, n)
      ensures clean ==> NoneStranded(old(disk), disk)
      ensures forall claimed :: NamesKept(old(disk), disk, claimed)
      ensures faults == old(faults) ==> clean && (Loadable(old(disk)) ==> ok)
    {
      hide *;
      ReachedInv();
      ghost var s := disk;
      ok, clean := false, true;
      NoneStrandedIn(s);
      forall claimed ensures NamesKept(s, s, claimed) { KeptByAll(s, claimed); }
      Learn(m);
      var loaded := LoadObjectFiles(disk);
      if loaded.Err? { return; }
      SyncStarts(s, m);
      var entries, left := loaded.value, loaded.value.Keys;
      while left != {}
        invariant Reached() && old(history) <= history && old(faults) <= faults
        invariant m.Some? ==> m.value.spent <= told.spent && m.value.created <= told.created
        invariant left <= entries.Keys && (faults == old(faults) ==> clean)
        invariant Syncing(s, m, disk)
        invariant clean ==> NoneStranded(s, disk)
        invariant forall k :: k in left ==> Untouched(s, disk, k)
        invariant clean ==> forall k :: k in s.live && k !in left ==>
          AsPlanned(ChainPlan(s, m), disk, k) && IsSynced(s, m, records, disk, k)
        decreases left
      {
        var n :| n in left;
        ghost var d, c := disk, true;
        left := left - {n};
        EntryIsScanned(s, m, d, n);
        ok, c := SyncFile(n, entries[n], m, TxHashOf(records, entries[n].tx), s);
        if c { StrandedOn(s, d, disk); }
        OthersStayPlanned(ChainPlan(s, m), d, disk, n);
        OthersStaySynced(s, m, records, d, disk, n);
        if ok && c { SyncedHere(s, m, records, d, disk, n, entries[n]); }
        clean := clean && c;
        forall claimed ensures NamesKept(s, disk, claimed) { SyncingKeepsNames(s, m, disk, claimed); }
        if !ok { return; }
      }
      forall claimed ensures NamesKept(s, disk, claimed) { SyncingKeepsNames(s, m, disk, claimed); }
      ok := true;
      if clean { AllAsPlannedIsDone(s, m, disk); }
    }

    /** Reconcile the records `changed` by settling. A record's files failing to
        update is logged and left to a later pass; those not in `left` have been
        brought in line with their record. Stops at a record it cannot save. */
    method ReconcileChanged(changed: seq<Tx>) returns (ok: bool, ghost left: set<Tx>, ghost clean: bool)
      requires Reached() && forall i :: 0 <= i < |changed| ==> changed[i] in records
      modifies this`disk, this`records, this`drafts, this`history, this`told, this`writing, this`rewritten
      modifies this`faults
      ensures Reached() && old(history) <= history && old(faults) <= faults
      ensures NamesKept(old(disk), disk, held + LockedInputs(old(records)))
      ensures records.Keys == old(records).Keys && AllSameBut(old(records), records)
      ensures clean ==> NoneStranded(old(disk), disk)
      ensures FiledBut(history, |old(history)| - 1, old(records), changed, left)
      ensures faults == old(faults) ==> ok && left == {} && clean
    {
      hide *;
      ReachedInv();
      ghost var r0, h0 := records, history;
      var locked := LockedInputs(records);
      ok, clean := true, true;
      left := set tx | tx in changed;
      NoneStrandedIn(disk);
      KeptByAll(disk, held + locked);
      SameRecords(r0);
      NoneFiledYet(history, |h0| - 1, r0, changed, left);
      for i := 0 to |changed|
        invariant Reached() && old(history) <= history && old(faults) <= faults
        invariant NamesKept(old(disk), disk, held + locked) && LockedInputs(records) <= locked
        invariant records.Keys == r0.Keys && AllSameBut(r0, records)
        invariant clean ==> NoneStranded(old(disk), disk)
        invariant FiledBut(history, |h0| - 1, r0, changed, left)
        invariant forall tx :: tx in left ==> tx in changed
        invariant faults == old(faults) ==> clean && forall k :: 0 <= k < i ==> changed[k] !in left
      {
        var tx := changed[i];
        AllSameButAt(r0, records, tx);
        if IsTerminal(records[tx]) {
          ghost var d, r, h, c := disk, records, history, true;
          ReachedInv();
          var done, saved;
          done, saved, c := ReconcileRecord(tx, locked);
          KeptOnce(old(disk), d, disk, r[tx], held + locked);
          SameRecordsOn(r0, r, records, tx);
          if c { StrandedOn(old(disk), d, disk); }
          clean := clean && c;
          FiledButLater(h, history, |h0| - 1, r0, changed, left, tx);
          if done { left := left - {tx}; }
          if !saved { return false, left, clean; }
        } else {
          OpenIsNotFiled(history, |h0| - 1, r0, changed, left, tx);
          left := left - {tx};
        }
      }
    }

    /** The file part of settling: reconcile the records `changed` by it, then
        every file against the chain. No file in use changes its name, and a
        clean finish leaves each object in one file exactly when the chain
        reports every object still stranded before the pass as spent. */
    method SettleFiles(changed: seq<Tx>, m: Option<Membership>)
      returns (ok: bool, ghost left: set<Tx>, ghost clean: bool)
      requires Reached() && forall i :: 0 <= i < |changed| ==> changed[i] in records
      modifies this`disk, this`records, this`drafts, this`history, this`told, this`writing, this`rewritten
      modifies this`faults
      ensures Reached() && old(history) <= history && old(faults) <= faults
      ensures NamesKept(old(disk), disk, held + LockedInputs(old(records)))
      ensures records.Keys == old(records).Keys && AllSameBut(old(records), records)
      ensures clean ==> NoneStranded(old(disk), disk)
      ensures FiledBut(history, |old(history)| - 1, old(records), changed, left)
      ensures ok && clean && m.Some? ==> forall n :: n in disk.live ==> disk.live[n].obj !in m.value.spent
      ensures ok && clean && m.Some? && (forall o :: Stranded(old(disk), o) ==> o in m.value.spent) ==> Valid(disk)
      ensures faults == old(faults) ==> left == {} && clean && (Valid(old(disk)) ==> ok && Valid(disk))
    {
      hide *;
      ghost var s, r0, h0, used := disk, records, history, held + LockedInputs(records);
      ok, left, clean := ReconcileChanged(changed);
      if !ok { return; }
      ghost var d, h, c := disk, history, true;
      ReachedInv();
      if clean && Valid(s) { ValidStays(s, d); }
      ok, c := SyncFiles(m);
      NamesKeptOn(s, d, disk, used);
      FiledButOn(h, history, |h0| - 1, r0, changed, left);
      if c { StrandedOn(s, d, disk); }
      clean := clean && c;
      ReachedInv();
      if clean && Valid(s) { ValidStays(s, disk); }
      if ok && c && m.Some? { SyncedIsValid(d, m.value, disk); }
      if ok && clean && m.Some? { StrandedSpent(s, d, m.value); }
    }

    /** The locked part of settling: the records, then the files of those that
        changed and everything the chain reports. */
    method Settle(order: seq<Tx>, a: Answers, m: Option<Membership>)
      returns (ok: bool, ghost left: set<Tx>, ghost clean: bool)
      requires Reached() && (forall i, j :: 0 <= i < j < |order| ==> order[i] != order[j])
      requires (forall tx :: tx in order <==> tx in records) && OnlyOffered(records, a)
      modifies this`disk, this`records, this`drafts, this`history, this`told, this`writing, this`rewritten
      modifies this`faults
      ensures Reached() && old(history) <= history && old(faults) <= faults
      ensures records.Keys == old(records).Keys
      ensures ok ==> forall tx :: tx in records ==> IsSettledIn(old(records)[tx], records[tx], a)
      ensures ok ==> forall tx :: tx in records && tx !in left ==>
        IsOpen(old(records)[tx]) && IsTerminal(records[tx]) ==> FiledSince(history, |old(history)| - 1, tx)
      ensures ok && clean && m.Some? ==> forall n :: n in disk.live ==> disk.live[n].obj !in m.value.spent
      ensures faults == old(faults) ==> left == {} && clean && (Valid(old(disk)) ==> ok && Valid(disk))
    {
      hide *;
      ghost var r0, h0, r := records, history, records;
      ReachedInv();
      left, clean := {}, true;
      var changed;
      ok, changed := SettleRecords(order, a);
      if !ok { return; }
      r := records;
      ghost var h := history;
      ChangedThere(changed, r0, r);
      ok, left, clean := SettleFiles(changed, m);
      if ok {
        SettledThenFiled(r0, r, records, a);
        ChangedAreFiled(h0, h, history, r0, r, records, changed, left);
      }
    }

    // ----------------------------------------------------------------
    // Renaming and importing

    /** Rename a live object's file. A file a proof holds, an open transaction
        spends or has yet to create, and a name in use, are refused. */
    method RenameObject(n: string, requested: string) returns (ok: bool)
      requires Reached()
      modifies this`disk, this`history, this`rewritten, this`faults
      ensures Reached() && old(history) <= history && old(faults) <= faults
      ensures n in held || n in LockedInputs(records) || IsOpenOutput(records, n) ==> disk == old(disk)
      ensures disk == old(disk) ||
        (exists to :: to !in Taken(old(disk)) && n in old(disk).live && disk == Renamed(old(disk), n, to))
      ensures ok ==>
        && n in old(disk).live
        && var r := CustomFileName(requested, GeneratedName(old(disk).live[n].obj));
           r.Ok? && r.value in disk.live && disk.live[r.value] == old(disk).live[n]
      ensures faults == old(faults) ==> (ok <==> MayRename(old(Now()), n, requested))
    {
      hide Run, LockedInputs, IsOpenOutput, CustomFileName, GeneratedName, HasGeneratedShape, FileMove;
      if n !in disk.live { return false; }
      var f := disk.live[n];
      var named := CustomFileName(requested, GeneratedName(f.obj));
      if named.Err? { return false; }
      var to := named.value;
      if to == n { return true; }
      if n in held || n in LockedInputs(records) || IsOpenOutput(records, n) { return false; }
      if !f.status.Live? || to in Taken(disk) { return false; }
      RenameMoves(Now(), n, to, requested);
      ok := RenameLive(n, to, RenameFile(n, to));
    }

    /** The name an import is filed under. Refuses an object the store already
        has, and a name in use. */
    method ImportFileName(o: Object, requested: Option<string>) returns (r: Option<string>)
      requires Ordered(disk)
      ensures r.Some? <==> MayName(disk, o, requested)
      ensures r.Some? ==> ImportName(disk, o, requested) == Ok(r.value) && OwnName(r.value, o)
    {
      hide CustomFileName, GeneratedName, HasGeneratedShape, ImportedFileName, Has, Ordered, Loadable, OwnName;
      var loaded := LoadObjectFiles(disk);
      if loaded.Err? { return None; }
      var entries := loaded.value;
      HeldIsLoaded(disk, o);
      if exists n :: n in entries && entries[n].obj == o { return None; }
      var named := ImportName(disk, o, requested);
      if named.Err? || named.value in entries { return None; }
      ImportedIsOwn(disk, o, requested);
      r := Some(named.value);
    }

    /** File an object of a known class that the chain reports created and
        unspent, under the name `requested` gives it or its generated one. */
    method ImportObject(
      given: Offered, catalog: map<string, Option<nat>>, requested: Option<string>, m: Membership)
      returns (ok: bool, name: string)
      requires Reached()
      modifies this`disk, this`history, this`rewritten, this`faults
      ensures Reached() && old(history) <= history && old(faults) <= faults
      ensures !MayImport(old(disk), given, catalog, requested, m) ==> !ok && disk == old(disk)
      ensures ok || disk != old(disk) ==>
        && given.kind in catalog && catalog[given.kind].Some? && given.typeHash == catalog[given.kind]
        && given.contentHash == given.commitment && given.proof != Some(false)
        && given.file.obj in m.created && given.file.obj !in m.spent
        && Loadable(old(disk)) && !Has(old(disk), given.file.obj)
      ensures faults == old(faults) && MayImport(old(disk), given, catalog, requested, m) ==> ok
      ensures disk == old(disk) || disk == old(disk).(live := old(disk).live[name := given.file.(status := Live)])
      ensures ok ==> ImportName(old(disk), given.file.obj, requested) == Ok(name) && name in disk.live
    {
      ReachedInv();
      hide Run, Inv, RecordsOk, Ordered, IsGenuine, ImportName, FileMove, Has, OwnName, Loadable, Updates;
      ok, name := false, "";
      if !IsGenuine(given, catalog) { return; }
      if given.file.obj in m.spent || given.file.obj !in m.created { return; }
      var f := given.file.(status := Live);
      var chosen := ImportFileName(f.obj, requested);
      if chosen.None? { return; }
      name := chosen.value;
      ImportMoves(Now(), name, f);
      ok := WriteObjectFile(f, name, Import(name, f), DropNullified(name));
    }

    // ----------------------------------------------------------------
    // Recording

    method PutPayloadFile(tx: Tx) returns (ok: bool)
      requires Reached()
      modifies this`payloads, this`history, this`faults
      ensures Reached() && old(history) <= history && old(faults) <= faults
      ensures payloads == old(payloads) || payloads == old(payloads) + {tx}
      ensures ok ==> tx in payloads
      ensures faults == old(faults) ==> ok
    {
      hide Run, RecordMove;
      var done: bool, reported: bool := *, *;
      if done {
        PayloadMoves(Now(), tx);
        payloads := payloads + {tx};
        Moved(PutPayload(tx));
      }
      ok := done && reported;
      if !ok { faults := faults + 1; }
    }

    /** A recording starts, or ends without a record. */
    ghost method SetWriting(w: Option<Writing>)
      requires Reached() && (w.Some? ==> w.value.tx !in records)
      modifies this`writing, this`history
      ensures Reached() && old(history) <= history && writing == w
    {
      hide Run, RecordMove;
      WritingMoves(Now(), w);
      writing := w;
      Moved(if w.Some? then StartWriting(w.value.tx, w.value.names) else StopWriting);
    }

    /** A mutated input with a custom name passes it on: its new version gets a
        pending name and takes the custom one once it lands. */
    method NameOutputs(pt: Proved, generated: seq<string>) returns (names: seq<string>, pending: seq<Pending>)
      requires Ordered(disk) && NamesFit(disk, pt, generated) && Fresh(disk, pt)
      requires forall i :: 0 <= i < |generated| ==> generated[i] == GeneratedName(pt.outputs[i])
      requires forall i :: 0 <= i < |generated| ==> HasGeneratedShape(generated[i])
      ensures NamesFit(disk, pt, names) && PendingFits(names, pending)
      ensures NamesPassed(disk, pt, names, pending, |pt.mutated|)
    {
      hide Ordered, GeneratedName, HasGeneratedShape, Has, OwnName, KnowsSpent, NamesPassed;
      names, pending := generated, [];
      NothingPassed(disk, pt, names);
      for k := 0 to |pt.mutated|
        invariant NamesFit(disk, pt, names) && PendingFits(names, pending)
        invariant NamesPassed(disk, pt, names, pending, k)
        invariant forall i :: 0 <= i < |names| ==>
          HasGeneratedShape(names[i]) || exists j :: 0 <= j < k && pt.mutated[j].1 == i
      {
        if !PassesName(disk, pt, k) {
          NoNamePassed(disk, pt, names, pending, k);
          continue;
        }
        var (a, b) := pt.mutated[k];
        var input := pt.inputs[a];
        CustomNotGenerated(disk, input);
        PendingNameFits(disk, pt, names, pending, b, input);
        var file := PendingFileName(input, Taken(disk) + set n | n in names);
        NamePassed(disk, pt, names, pending, k, file);
        names := names[b := file];
        pending := pending + [Pending(file, input)];
      }
    }

    /** Write the outputs' files; `attempted` counts those tried. */
    method WriteOutputs(pt: Proved, names: seq<string>) returns (ok: bool, attempted: nat)
      requires Reached() && NamesFit(disk, pt, names) && Fresh(disk, pt) && writing == Some(WritingOf(pt, names))
      modifies this`disk, this`history, this`rewritten, this`faults
      ensures Reached() && old(history) <= history && old(faults) <= faults
      ensures |names| == |pt.outputs| && attempted <= |names| && FilesAdded(old(disk), disk, pt, names, attempted)
      ensures ok ==> AllThere(disk, pt, names)
      ensures faults == old(faults) ==> ok
    {
      hide OwnName, FilesAdded, Run, Reached, Fresh, Has, MayWrite;
      ok, attempted := true, 0;
      NoneAdded(disk, pt, names);
      for i := 0 to |names|
        invariant Reached() && old(history) <= history && old(faults) <= faults
        invariant attempted == i && FilesAdded(old(disk), disk, pt, names, i)
        invariant forall j :: 0 <= j < i ==> names[j] in disk.live && disk.live[names[j]] == OutputFile(pt, j)
      {
        attempted := i + 1;
        AddingOutput(old(disk), disk, pt, names, i);
        NextOutputIsNew(old(disk), disk, pt, names, i);
        AddingMoves(Now(), pt, names, i);
        var f := OutputFile(pt, i);
        ok := WriteObjectFile(f, names[i], AddOutput(names[i], f), DropNullified(names[i]));
        if !ok { return; }
      }
      ok := true;
    }

    /** Undo a failed recording: every output tried, then the transaction. */
    method RollBack(pt: Proved, names: seq<string>, attempted: nat, ghost d: Disk) returns (ok: bool)
      requires Reached() && NamesFit(d, pt, names) && attempted <= |names| && FilesAdded(d, disk, pt, names, attempted)
      requires pt.tx !in records && writing == Some(WritingOf(pt, names))
      modifies this`disk, this`records, this`drafts, this`payloads, this`history, this`rewritten, this`faults
      ensures Reached() && old(history) <= history && old(faults) <= faults
      ensures FilesAdded(d, disk, pt, names, attempted) && records == old(records)
      ensures payloads - {pt.tx} == old(payloads) - {pt.tx}
      ensures ok ==> disk == d && pt.tx !in payloads
      ensures faults == old(faults) ==> ok
    {
      hide OwnName, FilesAdded, Run, Reached, FileMove;
      ok := true;
      for i := 0 to attempted
        invariant Reached() && old(history) <= history && old(faults) <= faults
        invariant FilesAdded(d, disk, pt, names, attempted) && records == old(records) && payloads == old(payloads)
        invariant faults == old(faults) ==> ok
        invariant ok ==> forall j :: 0 <= j < i ==> names[j] !in disk.live
      {
        RemovingOutput(d, disk, pt, names, attempted, i);
        UndoMoves(Now(), d, pt, names, attempted, i);
        var removed := RemoveLive(names[i], UndoOutput(names[i]));
        ok := ok && removed;
      }
      if ok { NoneLeft(d, disk, pt, names, attempted); }
      assert records - {pt.tx} == records;
      var removed := RemoveTransaction(pt.tx);
      ok := ok && removed;
    }

    /** The checks before anything is written. */
    method CheckInputs(pt: Proved) returns (ok: bool)
      ensures ok <==> MayRecord(disk, records, pt)
    {
      hide GeneratedName, LockedInputs, Loadable;
      var loaded := LoadObjectFiles(disk);
      if loaded.Err? { return false; }
      if exists n :: n in pt.inputs && !InputFree(disk, records, n) { return false; }
      if pt.tx in records { return false; }
      ok := forall i :: 0 <= i < |pt.outputs| ==> IsFreeName(disk, GeneratedName(pt.outputs[i]));
    }

    /** The writes of a recording: outputs, payload, then the record itself. */
    method WriteAll(pt: Proved, rec: Rec) returns (ok: bool, attempted: nat)
      requires Reached() && NamesFit(disk, pt, rec.outputs) && Fresh(disk, pt)
      requires pt.tx !in records && MayBeRecorded(disk, records, pt, rec)
      modifies this`disk, this`records, this`drafts, this`payloads, this`history, this`told, this`writing
      modifies this`rewritten, this`faults
      ensures Reached() && old(history) <= history && old(faults) <= faults
      ensures |rec.outputs| == |pt.outputs| && attempted <= |pt.outputs|
      ensures FilesAdded(old(disk), disk, pt, rec.outputs, attempted)
      ensures payloads == old(payloads) || payloads == old(payloads) + {pt.tx}
      ensures ok ==> records == old(records)[pt.tx := rec] && pt.tx in payloads && AllThere(disk, pt, rec.outputs)
      ensures faults == old(faults) ==> ok
      ensures !ok ==> records == old(records) && writing == Some(WritingOf(pt, rec.outputs))
    {
      hide OwnName, FilesAdded, Run, Reached, Fresh, Has, MayWrite, NamesFit, MayCommit, RecOk, LockedInputs, AllThere;
      SetWriting(Some(WritingOf(pt, rec.outputs)));
      ok, attempted := WriteOutputs(pt, rec.outputs);
      if ok { ok := PutPayloadFile(pt.tx); }
      if ok {
        CommitIsAllowed(Now(), old(disk), pt, rec, attempted);
        ok := WriteRecord(rec);
      }
    }

    /** Record a proved transaction: its outputs' files and payload, then the
        record itself. All or nothing: a record is visible only with its payload
        and every output, and a failure rolled back (`restored`) leaves the
        files as they were. */
    method Record(pt: Proved) returns (ok: bool, rec: Rec, restored: bool)
      requires Reached() && Fresh(disk, pt)
      modifies this`disk, this`records, this`drafts, this`payloads, this`history, this`told, this`writing
      modifies this`rewritten, this`faults
      ensures Reached() && old(history) <= history && old(faults) <= faults
      ensures faults == old(faults) ==> (ok <==> MayRecord(old(disk), old(records), pt))
      ensures !ok ==> records == old(records) && payloads - {pt.tx} == old(payloads) - {pt.tx}
      ensures !ok && restored ==> disk == old(disk)
      ensures ok ==> pt.tx !in old(records) && records == old(records)[pt.tx := rec] && pt.tx in payloads
      ensures ok ==> rec == Rec(pt.tx, pt.inputs, rec.outputs, pt.spends, Recorded, false, None, rec.pending,
                                pt.cleanupAt, pt.groundingBlock)
      ensures ok ==> |rec.outputs| == |pt.outputs| && AllThere(disk, pt, rec.outputs)
      ensures ok ==> MayRecord(old(disk), old(records), pt)
      ensures ok ==> NamesPassed(old(disk), pt, rec.outputs, rec.pending, |pt.mutated|)
    {
      ReachedInv();
      hide OwnName, FilesAdded, Run, Reached, Fresh, Has, MayWrite, NamesFit, MayCommit, RecOk, LockedInputs, AllThere;
      hide GeneratedName, HasGeneratedShape, Ordered, Inv, RecordsOk, MayBeRecorded, Loadable, PendingFits, InputFree;
      hide NamesPassed;
      rec := Rec(pt.tx, pt.inputs, [], pt.spends, Recorded, false, None, [], pt.cleanupAt, pt.groundingBlock);
      restored := true;
      ok := CheckInputs(pt);
      if !ok { return; }
      var generated := seq(|pt.outputs|, i requires 0 <= i < |pt.outputs| => GeneratedName(pt.outputs[i]));
      GeneratedFit(disk, pt, generated);
      var names, pending := NameOutputs(pt, generated);
      rec := rec.(outputs := names, pending := pending);
      NamesCount(disk, pt, names);
      NamedMayBeRecorded(disk, records, pt, rec);
      var attempted;
      ok, attempted := WriteAll(pt, rec);
      if ok { return; }
      restored := RollBack(pt, names, attempted, old(disk));
      SetWriting(None);
    }

    // ----------------------------------------------------------------
    // What happens around the store

    /** Proofs take and release their inputs. */
    method SetHolds(now: set<string>)
      requires Reached()
      modifies this`held, this`history
      ensures Reached() && old(history) <= history && held == now
    {
      hide Run, RecordMove;
      MemoryMoves(Now(), now);
      held := now;
      Moved(StoreMoves.SetHolds(now));
    }

    /** The process ends and starts again with nothing in memory. */
    method Restart()
      requires Reached()
      modifies this`held, this`writing, this`reconciled, this`history, this`rewritten
      ensures Reached() && old(history) <= history && held == {} && reconciled == map[]
    {
      hide Run, RecordMove;
      MemoryMoves(Now(), held);
      held, writing, rewritten, reconciled := {}, None, None, map[];
      Moved(Crash);
    }
  }
}
