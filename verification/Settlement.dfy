/** Transaction records, what a settled one asks of the object files, and why
    reconciling them is crash-convergent. */
module Settlement {
  import opened Wrappers
  import opened TxStates
  import opened Naming
  import opened ObjectStore
  import opened Reconcile
  import opened Filters

  /** A landed output written as `file` is to be called `final`. */
  datatype Pending = Pending(file: string, final: string)

  datatype Rec = Rec(
    tx: Tx,
    inputs: seq<string>,
    outputs: seq<string>,
    spends: set<Object>,
    state: TxState,
    attempted: bool,
    txHash: Option<nat>,
    pending: seq<Pending>,
    cleanupAt: nat,
    groundingBlock: int)

  predicate IsOpen(rec: Rec) { IsOpenState(rec.state) }

  predicate IsTerminal(rec: Rec) { !IsOpenState(rec.state) }

  function LockedInputs(records: map<Tx, Rec>): set<string> {
    set tx, n | tx in records && IsOpen(records[tx]) && n in records[tx].inputs :: n
  }

  predicate IsOpenOutput(records: map<Tx, Rec>, n: string) {
    exists tx :: tx in records && IsOpen(records[tx]) && n in records[tx].outputs
  }

  predicate IsPending(rec: Rec, n: string) {
    exists i :: 0 <= i < |rec.pending| && rec.pending[i].file == n
  }

  /** Pending outputs are outputs, and only chosen names are passed on. */
  predicate RecOk(rec: Rec) {
    forall i :: 0 <= i < |rec.pending| ==>
      rec.pending[i].file in rec.outputs && !HasGeneratedShape(rec.pending[i].final)
  }

  /** No file made by the transaction is one it spends. */
  predicate OutputsUnspent(s: Disk, rec: Rec) {
    forall n :: n in s.live && s.live[n].tx == rec.tx ==> s.live[n].obj !in rec.spends
  }

  // ------------------------------------------------------------------
  // What a landed record asks for

  /** What a landed output's file becomes. */
  function LandedFile(f: File, rec: Rec): File {
    f.(status := if f.status.Unknown? then Live else f.status,
       txHash := if rec.txHash.Some? then rec.txHash else f.txHash)
  }

  /** The live file `n` is an output the record lists. */
  predicate IsListed(s: Disk, rec: Rec, n: string) {
    n in rec.outputs && n in s.live && s.live[n].tx == rec.tx
  }

  /** It has the status and the transaction hash the record gives it. */
  predicate IsUpToDate(s: Disk, rec: Rec, n: string)
    requires n in s.live
  {
    LandedFile(s.live[n], rec) == s.live[n]
  }

  /** Nullify the inputs it lists a nullifier of and make its outputs live; its
      pending outputs may take their final names, and an output that is still to
      be rewritten loses its nullified namesake by it. */
  function PlanOf(s: Disk, rec: Rec): Plan {
    Plan(
      set n | n in rec.inputs && n in s.live && s.live[n].obj in rec.spends :: s.live[n].obj,
      set n | n in s.live && IsListed(s, rec, n) && s.live[n].status.Unknown? :: s.live[n].obj,
      set n | n in s.live && IsPending(rec, n) && s.live[n].tx == rec.tx :: s.live[n].obj,
      set n | n in s.live && IsListed(s, rec, n) && n in s.nullified && !IsUpToDate(s, rec, n) :: s.live[n].obj,
      set n | n in s.live && IsListed(s, rec, n) && IsUpToDate(s, rec, n) :: s.live[n].obj)
  }

  predicate InputsDone(d: Disk, rec: Rec) {
    forall n :: n in rec.inputs && n in d.live ==> d.live[n].obj !in rec.spends
  }

  /** The record's outputs, where it names them, are up to date. */
  predicate OutputsLanded(d: Disk, rec: Rec) {
    forall n :: n in d.live && IsListed(d, rec, n) ==> IsUpToDate(d, rec, n)
  }

  /** None is of unknown status. */
  predicate OutputsDone(d: Disk, rec: Rec) {
    forall n :: n in d.live && IsListed(d, rec, n) ==> !d.live[n].status.Unknown?
  }

  /** A landed record's files may be reconciled from `d`, a point on the way from `s`. */
  ghost predicate Starts(s: Disk, rec: Rec, d: Disk) {
    rec.state == Landed && Ordered(s) && RecOk(rec) && OutputsUnspent(s, rec) && Progress(s, PlanOf(s, rec), d)
  }

  lemma LandedStarts(d: Disk, rec: Rec)
    requires Ordered(d) && RecOk(rec) && OutputsUnspent(d, rec) && rec.state == Landed
    ensures Starts(d, rec, d)
  {
  }

  lemma FileOrigin(s: Disk, rec: Rec, d: Disk, n: string) returns (m: string)
    requires Starts(s, rec, d) && n in d.live
    ensures LiveAs(s, d.live[n].obj, m) && ComesFrom(PlanOf(s, rec), s.live[m], m, d.live[n], n)
    ensures n != m ==> s.live[m].tx == rec.tx
  {
    assert Origin(s, PlanOf(s, rec), d.live[n], n);
    m :| LiveAs(s, d.live[n].obj, m) && ComesFrom(PlanOf(s, rec), s.live[m], m, d.live[n], n);
    if n != m {
      var k :| k in s.live && s.live[k].tx == rec.tx && s.live[k].obj == d.live[n].obj;
      assert LiveAs(s, d.live[n].obj, k);
    }
  }

  /** A file under an input's name that the record spends is one to nullify,
      and one the record's transaction made is not. */
  lemma SpentInput(s: Disk, rec: Rec, d: Disk, n: string)
    requires Starts(s, rec, d) && n in d.live
    ensures n in rec.inputs && d.live[n].obj in rec.spends ==> d.live[n].obj in PlanOf(s, rec).spent
    ensures d.live[n].tx == rec.tx ==> d.live[n].obj !in rec.spends && d.live[n].obj !in PlanOf(s, rec).spent
    ensures d.live[n].tx == rec.tx && IsPending(rec, n) ==> d.live[n].obj in PlanOf(s, rec).movers
    ensures PlanOf(s, rec).spent !! PlanOf(s, rec).freed
  {
    hide GeneratedName, HasGeneratedShape;
    var m := FileOrigin(s, rec, d, n);
    assert s.live[m].obj == d.live[n].obj && s.live[m].tx == d.live[n].tx;
    PlanApart(s, rec);
  }

  /** A listed output that was up to date still is. */
  lemma StaysUpToDate(s: Disk, rec: Rec, d: Disk, n: string)
    requires Starts(s, rec, d) && n in d.live && d.live[n].obj in PlanOf(s, rec).kept
    ensures IsUpToDate(d, rec, n)
  {
    hide GeneratedName, HasGeneratedShape;
    var m := FileOrigin(s, rec, d, n);
    var k :| k in s.live && IsListed(s, rec, k) && IsUpToDate(s, rec, k) && s.live[k].obj == d.live[n].obj;
    assert LiveAs(s, d.live[n].obj, k);
    NotBoth(s, rec, k);
  }

  lemma NotBoth(s: Disk, rec: Rec, k: string)
    requires Ordered(s) && IsListed(s, rec, k) && IsUpToDate(s, rec, k)
    ensures s.live[k].obj !in PlanOf(s, rec).made
  {
    hide GeneratedName, HasGeneratedShape;
    forall j | j in s.live && s.live[j].obj == s.live[k].obj ensures j == k { OneName(s, s.live[k].obj, j, k); }
  }

  /** An output in both directories and still to be rewritten was so at the start. */
  lemma FreedBefore(s: Disk, rec: Rec, d: Disk, n: string)
    requires Starts(s, rec, d) && IsListed(d, rec, n) && n in d.nullified && !IsUpToDate(d, rec, n)
    ensures d.live[n].obj in PlanOf(s, rec).freed && IsListed(s, rec, n) && n in s.nullified && !IsUpToDate(s, rec, n)
  {
    var o := d.live[n].obj;
    ProgressIsOrdered(s, PlanOf(s, rec), d);
    WithoutNullified(d, n);
    GeneratedNameRoundTrip(o);
    var m := FileOrigin(s, rec, d, n);
    assert m == n;
    SpentInput(s, rec, d, n);
    assert HasNullified(d, o);
    StrandedBefore(s, PlanOf(s, rec), d, n);
    if IsUpToDate(s, rec, n) { StaysUpToDate(s, rec, d, n); }
  }

  lemma PlanApart(s: Disk, rec: Rec)
    requires Ordered(s) && OutputsUnspent(s, rec)
    ensures PlanOf(s, rec).spent !! PlanOf(s, rec).freed
  {
  }

  lemma UnknownOutputIsPlanned(s: Disk, rec: Rec, d: Disk, n: string)
    requires Starts(s, rec, d) && n in d.live && n in rec.outputs
    requires d.live[n].tx == rec.tx && d.live[n].status.Unknown?
    ensures d.live[n].obj in PlanOf(s, rec).made
  {
  }

  /** Both loops finished: the plan is carried out. */
  lemma LoopsDone(s: Disk, rec: Rec, d: Disk)
    requires Starts(s, rec, d) && InputsDone(d, rec) && OutputsDone(d, rec)
    ensures Done(PlanOf(s, rec), d)
  {
    var p := PlanOf(s, rec);
    forall n | n in d.live
      ensures d.live[n].obj !in p.spent && (d.live[n].obj in p.made ==> !d.live[n].status.Unknown?)
    {
      var m := FileOrigin(s, rec, d, n);
      assert LiveAs(s, d.live[n].obj, m);
      if d.live[n].obj in p.spent {
        var k :| k in rec.inputs && k in s.live && s.live[k].obj in rec.spends && s.live[k].obj == d.live[n].obj;
        assert LiveAs(s, d.live[n].obj, k);
      }
      if d.live[n].obj in p.made {
        var k :| k in rec.outputs && k in s.live && s.live[k].tx == rec.tx && s.live[k].obj == d.live[n].obj;
        assert LiveAs(s, d.live[n].obj, k);
      }
    }
  }

  lemma PlannedIsLive(s: Disk, rec: Rec)
    ensures forall o :: o in PlanOf(s, rec).spent ==> HasLive(s, o)
  {
    forall o | o in PlanOf(s, rec).spent ensures HasLive(s, o) {
      var n :| n in rec.inputs && n in s.live && s.live[n].obj in rec.spends && s.live[n].obj == o;
      assert LiveAs(s, o, n);
    }
  }

  /** `d` is the end of some run of the reconciliation from `s`. */
  ghost predicate Finished(s: Disk, rec: Rec, d: Disk) {
    Starts(s, rec, d) && Done(PlanOf(s, rec), d)
  }

  /** No listed output is in both directories under one name and still to be
      rewritten. */
  predicate NoneToFree(s: Disk, rec: Rec) {
    forall n :: n in s.live && IsListed(s, rec, n) && n in s.nullified ==> IsUpToDate(s, rec, n)
  }

  lemma NoneFreed(s: Disk, rec: Rec)
    ensures NoneToFree(s, rec) <==> PlanOf(s, rec).freed == {}
  {
    if n :| n in s.live && IsListed(s, rec, n) && n in s.nullified && !IsUpToDate(s, rec, n) {
      assert s.live[n].obj in PlanOf(s, rec).freed;
    }
  }

  /** Reconciling a landed record is crash-convergent: however often it was
      stopped and rerun, every finished run shows the same objects with the same
      statuses in the same directories, with nothing lost, and the newly
      nullified objects are ones the record lists. Each object has one file
      again exactly when the stranded ones were the record's own. */
  lemma StoppedRunsConverge(s: Disk, rec: Rec, d: Disk, e: Disk)
    requires Finished(s, rec, d) && Finished(s, rec, e) && NoneToFree(s, rec)
    ensures SameView(d, e)
    ensures Valid(d) <==> forall o :: Stranded(s, o) ==> o in PlanOf(s, rec).spent
    ensures forall o :: (Has(s, o) ==> Has(d, o)) && (Known(s, o) ==> Known(d, o))
    ensures forall o :: HasNullified(s, o) ==> HasNullified(d, o)
    ensures forall o :: HasNullified(d, o) && !HasNullified(s, o) ==> o in rec.spends
  {
    var p := PlanOf(s, rec);
    NoneFreed(s, rec);
    PlannedIsLive(s, rec);
    DoneIsUnique(s, p, d, e);
    DoneValidIff(s, p, d);
    ProgressKeeps(s, p, d);
    forall o | HasNullified(d, o) && !HasNullified(s, o) ensures o in rec.spends {
      assert o in p.spent;
    }
  }

  /** It is idempotent: rerun with the record it left, it changes nothing that shows. */
  lemma ReconcilingAgainChangesNothing(s: Disk, rec: Rec, d: Disk)
    requires Starts(s, rec, d) && InputsDone(s, rec) && OutputsLanded(s, rec)
    ensures SameView(s, d)
  {
    assert PlanOf(s, rec).spent == {} && PlanOf(s, rec).made == {} && PlanOf(s, rec).freed == {};
    NothingPlanned(s, PlanOf(s, rec), d);
  }

  // ------------------------------------------------------------------
  // Every stopping point can be finished

  /** The live files of `e` are those of `d` but for planned ones, with their
      objects and transactions, and nothing nullified is gone. */
  ghost predicate Continues(p: Plan, d: Disk, e: Disk) {
    && (forall n :: n in d.live && d.live[n].obj !in p.spent ==>
          n in e.live && e.live[n].obj == d.live[n].obj && e.live[n].tx == d.live[n].tx)
    && (forall n :: n in e.live ==> n in d.live && e.live[n].obj == d.live[n].obj)
    && (forall n :: n in d.nullified ==> n in e.nullified)
  }

  lemma ContinuesOn(p: Plan, d: Disk, e: Disk, f: Disk)
    requires Continues(p, d, e) && Continues(p, e, f)
    ensures Continues(p, d, f)
  {
  }

  /** From every stopping point the inputs from the `i`th on can be nullified. */
  lemma {:induction false} FinishInputs(s: Disk, rec: Rec, d: Disk, i: nat) returns (e: Disk)
    requires Starts(s, rec, d) && i <= |rec.inputs|
    requires forall k :: 0 <= k < i && rec.inputs[k] in d.live ==> d.live[rec.inputs[k]].obj !in rec.spends
    ensures Starts(s, rec, e) && InputsDone(e, rec) && Continues(PlanOf(s, rec), d, e)
    decreases |rec.inputs| - i
  {
    hide PlanOf, Starts, Continues;
    if i == |rec.inputs| {
      e := d;
      ContinuesStarts(PlanOf(s, rec), d);
    } else if rec.inputs[i] in d.live && d.live[rec.inputs[i]].obj in rec.spends {
      var after := NullifyInput(s, rec, d, rec.inputs[i]);
      e := FinishInputs(s, rec, after, i + 1);
      ContinuesOn(PlanOf(s, rec), d, after, e);
    } else {
      e := FinishInputs(s, rec, d, i + 1);
    }
  }

  lemma ContinuesStarts(p: Plan, d: Disk)
    ensures Continues(p, d, d)
  {
  }

  lemma NullifyInput(s: Disk, rec: Rec, d: Disk, n: string) returns (e: Disk)
    requires Starts(s, rec, d) && n in rec.inputs && n in d.live && d.live[n].obj in rec.spends
    ensures Starts(s, rec, e) && e.live == d.live - {n} && Continues(PlanOf(s, rec), d, e)
  {
    SpentInput(s, rec, d, n);
    hide PlanOf, GeneratedName, HasGeneratedShape, Progress, Ordered, OutputsUnspent, RecOk, Continues;
    var p, f := PlanOf(s, rec), d.live[n].(status := Nullified);
    NullifyingProgresses(s, p, d, f, n);
    e := Put(d, f, GeneratedName(f.obj)).(live := d.live - {n});
    ContinuesWithout(p, d, e, n, f);
  }

  lemma ContinuesWithout(p: Plan, d: Disk, e: Disk, n: string, f: File)
    requires n in d.live && d.live[n].obj in p.spent
    requires e.live == d.live - {n} && e.nullified == d.nullified[GeneratedName(f.obj) := f]
    ensures Continues(p, d, e)
  {
    hide GeneratedName;
  }

  /** And the outputs from the `i`th on written. */
  lemma {:induction false} FinishOutputs(s: Disk, rec: Rec, d: Disk, i: nat) returns (e: Disk)
    requires Starts(s, rec, d) && i <= |rec.outputs|
    requires forall k :: 0 <= k < i && IsListed(d, rec, rec.outputs[k]) ==> IsUpToDate(d, rec, rec.outputs[k])
    ensures Starts(s, rec, e) && OutputsLanded(e, rec) && Continues(PlanOf(s, rec), d, e)
    decreases |rec.outputs| - i
  {
    hide PlanOf, Starts;
    var p := PlanOf(s, rec);
    if i == |rec.outputs| {
      e := d;
    } else {
      var n := rec.outputs[i];
      if IsListed(d, rec, n) && !IsUpToDate(d, rec, n) {
        var g := LandedFile(d.live[n], rec);
        LiveOutputProgresses(s, rec, d, n);
        var after := Put(d, g, n);
        e := FinishOutputs(s, rec, after, i + 1);
        ContinuesOn(p, d, after, e);
      } else {
        e := FinishOutputs(s, rec, d, i + 1);
      }
    }
  }

  /** Without failures, a reconciliation stopped anywhere finishes when rerun. */
  lemma CanFinish(s: Disk, rec: Rec, d: Disk) returns (e: Disk)
    requires Starts(s, rec, d)
    ensures Finished(s, rec, e) && Continues(PlanOf(s, rec), d, e) && InputsDone(e, rec) && OutputsLanded(e, rec)
  {
    hide PlanOf, Starts, Done;
    var f := FinishInputs(s, rec, d, 0);
    e := FinishOutputs(s, rec, f, 0);
    ContinuesOn(PlanOf(s, rec), d, f, e);
    LandedIsDone(e, rec);
    LoopsDone(s, rec, e);
  }

  lemma LandedIsDone(d: Disk, rec: Rec)
    requires OutputsLanded(d, rec)
    ensures OutputsDone(d, rec)
  {
  }

  // ------------------------------------------------------------------
  // When finished runs differ

  /** A listed output in both directories under one name and still to be
      rewritten loses its nullified copy if the removal works and keeps it if it
      does not, and neither is reported: two finished runs differ. */
  lemma StrandedOutputDiverges(s: Disk, rec: Rec, n: string) returns (d: Disk, e: Disk)
    requires Starts(s, rec, s) && IsListed(s, rec, n) && n in s.nullified && !IsUpToDate(s, rec, n)
    ensures Finished(s, rec, d) && Finished(s, rec, e)
    ensures HasNullified(d, s.live[n].obj) && !HasNullified(e, s.live[n].obj) && !SameView(d, e)
  {
    PlanApart(s, rec);
    hide PlanOf, GeneratedName, HasGeneratedShape, Ordered, OutputsUnspent, RecOk, Progress, Done, Continues;
    var p := PlanOf(s, rec);
    FreedBefore(s, rec, s, n);
    d := CanFinish(s, rec, s);
    FinishedOutput(s, rec, d, n);
    FreeingProgresses(s, p, d, n);
    e := d.(nullified := d.nullified - {n});
    SameLiveDone(p, d, e);
    WithoutNullified(d, n) by { ProgressIsOrdered(s, p, d); }
    assert HasNullified(d, s.live[n].obj);
  }

  lemma SameLiveDone(p: Plan, d: Disk, e: Disk)
    requires Done(p, d) && e.live == d.live
    ensures Done(p, e)
  {
  }

  lemma FinishedOutput(s: Disk, rec: Rec, d: Disk, n: string)
    requires Finished(s, rec, d) && OutputsLanded(d, rec) && Continues(PlanOf(s, rec), s, d)
    requires IsListed(s, rec, n) && n in s.nullified && s.live[n].obj !in PlanOf(s, rec).spent
    ensures n in d.live && n in d.nullified && d.live[n].obj == s.live[n].obj && d.live[n].status.Live?
    ensures n == GeneratedName(s.live[n].obj)
  {
    WithoutNullified(s, n);
    hide PlanOf, GeneratedName, HasGeneratedShape;
    assert IsListed(d, rec, n) && IsUpToDate(d, rec, n);
    LiveStatus(d, n) by { ProgressIsOrdered(s, PlanOf(s, rec), d); }
  }

  /** So all finished runs agree exactly when there is no such output. */
  lemma ConvergesIff(s: Disk, rec: Rec)
    requires Ordered(s) && RecOk(rec) && OutputsUnspent(s, rec) && rec.state == Landed
    ensures (forall d, e :: Finished(s, rec, d) && Finished(s, rec, e) ==> SameView(d, e)) <==> NoneToFree(s, rec)
  {
    LandedStarts(s, rec);
    hide Finished, SameView, Starts, Ordered, Valid;
    if n :| n in s.live && IsListed(s, rec, n) && n in s.nullified && !IsUpToDate(s, rec, n) {
      var d, e := StrandedOutputDiverges(s, rec, n);
    } else {
      forall d, e | Finished(s, rec, d) && Finished(s, rec, e) ensures SameView(d, e) {
        StoppedRunsConverge(s, rec, d, e);
      }
    }
  }

  // ------------------------------------------------------------------
  // Reruns with the record as it was left

  /** What is left of the plan is still under an input name of the record. */
  ghost predicate StillNamed(d: Disk, p: Plan, out: Rec) {
    forall n :: n in d.live && d.live[n].obj in p.spent ==> n in out.inputs
  }

  /** The record's inputs are as they were, or the names nullified files have. */
  ghost predicate InputsFrom(p: Plan, rec: Rec, out: Rec) {
    forall n :: n in out.inputs ==> n in rec.inputs || IsSpentName(p, n)
  }

  /** One reconciliation of `rec` from `s` stopped at `d`, having left the record
      as it was, or, if it reported success, as `out`. */
  ghost predicate Pass(s: Disk, rec: Rec, d: Disk, out: Rec) {
    && Starts(s, rec, d) && SameBut(rec, out) && RecOk(out)
    && StillNamed(d, PlanOf(s, rec), out) && InputsFrom(PlanOf(s, rec), rec, out)
    && (out == rec || (OutputsLanded(d, rec) && OutputsLanded(d, out)))
  }

  /** A success whose record could not be saved is as good as a failure. */
  lemma PassUnsaved(s: Disk, rec: Rec, d: Disk, out: Rec)
    requires Pass(s, rec, d, out)
    ensures Pass(s, rec, d, rec)
  {
    hide PlanOf;
    PlanStillNamed(s, rec, d, [], rec);
  }

  /** The next one aims at the same: the objects nullified at its end. */
  ghost predicate AimsAtSpent(s: Disk, rec: Rec, o: Object) {
    HasNullified(s, o) || o in PlanOf(s, rec).spent
  }

  lemma PassUnspent(s: Disk, rec: Rec, d: Disk, out: Rec)
    requires Pass(s, rec, d, out)
    ensures OutputsUnspent(d, out) && Ordered(d) && Starts(d, out, d)
  {
    ProgressIsOrdered(s, PlanOf(s, rec), d);
    forall n | n in d.live && d.live[n].tx == rec.tx ensures d.live[n].obj !in rec.spends {
      SpentInput(s, rec, d, n);
    }
    hide GeneratedName, HasGeneratedShape, PlanOf, Progress;
    LandedStarts(d, out);
  }

  lemma PassFrees(s: Disk, rec: Rec, d: Disk, out: Rec)
    requires Pass(s, rec, d, out) && NoneToFree(s, rec)
    ensures NoneToFree(d, out)
  {
    hide Starts, PlanOf, RecOk;
    if out == rec {
      if n :| n in d.live && IsListed(d, rec, n) && n in d.nullified && !IsUpToDate(d, rec, n) {
        FreedBefore(s, rec, d, n);
      }
    }
  }

  /** What is still to be nullified was to be at the start. */
  lemma PassSpends(s: Disk, rec: Rec, d: Disk, out: Rec, o: Object)
    requires Pass(s, rec, d, out)
    ensures o in PlanOf(d, out).spent ==> o in PlanOf(s, rec).spent
    ensures o in PlanOf(s, rec).spent && HasLive(d, o) ==> o in PlanOf(d, out).spent
  {
    if o in PlanOf(d, out).spent {
      var n :| n in out.inputs && n in d.live && d.live[n].obj in out.spends && d.live[n].obj == o;
      if n in rec.inputs {
        SpentInput(s, rec, d, n);
      } else {
        SpentName(s, rec, d, n);
      }
    }
    if o in PlanOf(s, rec).spent && HasLive(d, o) {
      var n :| LiveAs(d, o, n);
      var k :| k in rec.inputs && k in s.live && s.live[k].obj in rec.spends && s.live[k].obj == o;
      assert n in out.inputs;
    }
  }

  /** A live file under a nullified file's name is that object's. */
  lemma SpentName(s: Disk, rec: Rec, d: Disk, n: string)
    requires Starts(s, rec, d) && IsSpentName(PlanOf(s, rec), n) && n in d.live
    ensures d.live[n].obj in PlanOf(s, rec).spent
  {
    var o :| o in PlanOf(s, rec).spent && n == GeneratedName(o);
    ProgressIsOrdered(s, PlanOf(s, rec), d);
    GeneratedNameRoundTrip(o);
    GeneratedNameInjective(o, d.live[n].obj);
  }

  lemma PassAimsAtSpent(s: Disk, rec: Rec, d: Disk, out: Rec, o: Object)
    requires Pass(s, rec, d, out) && NoneToFree(s, rec)
    ensures AimsAtSpent(d, out, o) <==> AimsAtSpent(s, rec, o)
  {
    NoneFreed(s, rec);
    PlannedIsLive(s, rec);
    PassSpends(s, rec, d, out, o);
    hide PlanOf, GeneratedName, HasGeneratedShape, Ordered;
  }

  /** A file of unknown status to be made live still is, or is live. */
  lemma PassMakes(s: Disk, rec: Rec, d: Disk, out: Rec, o: Object, n: string)
    requires Pass(s, rec, d, out) && LiveAs(d, o, n)
    ensures o in PlanOf(d, out).made ==> o in PlanOf(s, rec).made
    ensures o in PlanOf(s, rec).made && d.live[n].status.Unknown? ==> o in PlanOf(d, out).made
  {
    hide GeneratedName, HasGeneratedShape;
    var m := FileOrigin(s, rec, d, n);
    if o in PlanOf(d, out).made {
      assert out == rec;
      var k :| k in d.live && IsListed(d, rec, k) && d.live[k].status.Unknown? && d.live[k].obj == o;
      UnknownOutputIsPlanned(s, rec, d, k);
    }
    if o in PlanOf(s, rec).made && d.live[n].status.Unknown? {
      var k :| k in s.live && IsListed(s, rec, k) && s.live[k].status.Unknown? && s.live[k].obj == o;
      assert LiveAs(s, o, k);
      assert IsListed(d, rec, n);
    }
  }

  lemma PassAimsAt(s: Disk, rec: Rec, d: Disk, out: Rec, o: Object, st: Status)
    requires Pass(s, rec, d, out)
    ensures PlannedStatus(d, PlanOf(d, out), o, st) <==> PlannedStatus(s, PlanOf(s, rec), o, st)
  {
    PassUnspent(s, rec, d, out);
    PassSpends(s, rec, d, out, o);
    if HasLive(d, o) {
      var n :| LiveAs(d, o, n);
      var m := FileOrigin(s, rec, d, n);
      PassMakes(s, rec, d, out, o, n);
      ShownAs(d, o, n);
      ShownAs(s, o, m);
      MadeIsUnknown(s, rec, o);
      MadeIsUnknown(d, out, o);
      hide PlanOf, GeneratedName, HasGeneratedShape, Ordered, Progress, Shows, HasLive, StillNamed, InputsFrom;
    } else {
      NotShown(d, o);
      if !HasLive(s, o) { NotShown(s, o); }
      hide PlanOf, GeneratedName, HasGeneratedShape, Ordered, Shows, HasLive, StillNamed, InputsFrom;
    }
  }

  lemma ShownAs(d: Disk, o: Object, n: string)
    requires Ordered(d) && LiveAs(d, o, n)
    ensures forall st :: Shows(d, o, st) <==> d.live[n].status == st
  {
  }

  lemma NotShown(d: Disk, o: Object)
    requires !HasLive(d, o)
    ensures forall st :: !Shows(d, o, st)
  {
  }

  lemma MadeIsUnknown(d: Disk, rec: Rec, o: Object)
    ensures o in PlanOf(d, rec).made ==> Shows(d, o, Unknown)
  {
    if o in PlanOf(d, rec).made {
      var k :| k in d.live && IsListed(d, rec, k) && d.live[k].status.Unknown? && d.live[k].obj == o;
      assert LiveAs(d, o, k);
    }
  }

  /** Reconciliations of one record one after the other, each starting where the
      one before stopped and with the record it left. */
  ghost predicate Reruns(ds: seq<Disk>, recs: seq<Rec>) {
    && |ds| == |recs| > 0 && Starts(ds[0], recs[0], ds[0])
    && forall i, j :: 0 <= i < j < |ds| && j == i + 1 ==> Pass(ds[i], recs[i], ds[j], recs[j])
  }

  lemma {:induction false} RerunsAim(ds: seq<Disk>, recs: seq<Rec>, i: nat)
    requires Reruns(ds, recs) && NoneToFree(ds[0], recs[0]) && i < |ds|
    ensures Starts(ds[i], recs[i], ds[i]) && NoneToFree(ds[i], recs[i])
    ensures forall o :: AimsAtSpent(ds[i], recs[i], o) <==> AimsAtSpent(ds[0], recs[0], o)
    ensures forall o, st :: PlannedStatus(ds[i], PlanOf(ds[i], recs[i]), o, st) <==>
                            PlannedStatus(ds[0], PlanOf(ds[0], recs[0]), o, st)
  {
    hide Starts, NoneToFree, AimsAtSpent, PlannedStatus, PlanOf, Pass;
    if i > 0 {
      RerunsAim(ds, recs, i - 1);
      assert Pass(ds[i - 1], recs[i - 1], ds[i], recs[i]);
      PassUnspent(ds[i - 1], recs[i - 1], ds[i], recs[i]);
      PassFrees(ds[i - 1], recs[i - 1], ds[i], recs[i]);
      forall o ensures AimsAtSpent(ds[i], recs[i], o) <==> AimsAtSpent(ds[i - 1], recs[i - 1], o) {
        PassAimsAtSpent(ds[i - 1], recs[i - 1], ds[i], recs[i], o);
      }
      forall o, st ensures PlannedStatus(ds[i], PlanOf(ds[i], recs[i]), o, st) <==>
                           PlannedStatus(ds[i - 1], PlanOf(ds[i - 1], recs[i - 1]), o, st)
      {
        PassAimsAt(ds[i - 1], recs[i - 1], ds[i], recs[i], o, st);
      }
    }
  }

  /** However often a reconciliation stopped, failed, or took an unreported
      failure for a success and rewrote the record, once a rerun finishes the
      view is the one the first start determines. */
  lemma RerunsConverge(ds: seq<Disk>, recs: seq<Rec>, d: Disk)
    requires Reruns(ds, recs) && NoneToFree(ds[0], recs[0]) && Finished(ds[|ds| - 1], recs[|ds| - 1], d)
    ensures forall o :: HasNullified(d, o) <==> HasNullified(ds[0], o) || o in PlanOf(ds[0], recs[0]).spent
    ensures forall o, st :: Shows(d, o, st) <==> PlannedStatus(ds[0], PlanOf(ds[0], recs[0]), o, st)
  {
    var k := |ds| - 1;
    RerunsAim(ds, recs, k);
    NoneFreed(ds[k], recs[k]);
    PlannedIsLive(ds[k], recs[k]);
    assert Ordered(ds[k]) && Progress(ds[k], PlanOf(ds[k], recs[k]), d);
    assert forall o :: AimsAtSpent(ds[k], recs[k], o) <==> AimsAtSpent(ds[0], recs[0], o);
    hide Starts, NoneToFree, PlannedStatus, PlanOf, Pass, Progress, Done, Shows, HasNullified, Ordered;
    forall o ensures HasNullified(d, o) <==> AimsAtSpent(ds[0], recs[0], o) {
      DoneSpent(ds[k], PlanOf(ds[k], recs[k]), d, o);
    }
    forall o, st ensures Shows(d, o, st) <==> PlannedStatus(ds[0], PlanOf(ds[0], recs[0]), o, st) {
      DoneLive(ds[k], PlanOf(ds[k], recs[k]), d, o, st);
    }
  }

  // ------------------------------------------------------------------
  // Steps of the loops

  /** The generated name of an object the plan nullifies. */
  ghost predicate IsSpentName(p: Plan, n: string) {
    exists o :: o in p.spent && n == GeneratedName(o)
  }

  ghost predicate AllSpentNames(p: Plan, renames: seq<(string, string)>) {
    forall i :: 0 <= i < |renames| ==> IsSpentName(p, renames[i].1)
  }

  /** Writing back a listed output that is not up to date leaves every other live
      file alone. */
  lemma LiveOutputProgresses(s: Disk, rec: Rec, d: Disk, n: string)
    requires Starts(s, rec, d) && IsListed(d, rec, n) && !IsUpToDate(d, rec, n)
    ensures var g := LandedFile(d.live[n], rec);
      && Starts(s, rec, Put(d, g, n)) && Starts(s, rec, Written(d, g, n))
      && Put(d, g, n).live == Written(d, g, n).live == d.live[n := g]
      && Put(d, g, n).nullified == d.nullified
  {
    hide PlanOf, GeneratedName, HasGeneratedShape, Progress, Ordered, OutputsUnspent, RecOk, LandedFile, IsUpToDate;
    var p, g := PlanOf(s, rec), LandedFile(d.live[n], rec);
    OutputIsPlanned(s, rec, d, n);
    RewritingProgresses(s, p, d, n, g);
    var e := Put(d, g, n);
    if n in e.nullified {
      FreeingProgresses(s, p, e, n);
    } else {
      assert e.nullified - {n} == e.nullified;
    }
  }

  lemma OutputIsPlanned(s: Disk, rec: Rec, d: Disk, n: string)
    requires Starts(s, rec, d) && IsListed(d, rec, n) && !IsUpToDate(d, rec, n)
    ensures var p, g, f := PlanOf(s, rec), LandedFile(d.live[n], rec), d.live[n];
      && g.obj == f.obj && g.tx == f.tx && g.status.Live? && (g.obj in p.kept ==> g.txHash == f.txHash)
      && (g.status == f.status || (f.status.Unknown? && g.obj in p.made)) && (n in d.nullified ==> g.obj in p.freed)
  {
    var f := d.live[n];
    LiveStatus(d, n) by { ProgressIsOrdered(s, PlanOf(s, rec), d); }
    hide PlanOf, Starts;
    if f.status.Unknown? { UnknownOutputIsPlanned(s, rec, d, n); }
    if f.obj in PlanOf(s, rec).kept { StaysUpToDate(s, rec, d, n); }
    if n in d.nullified { FreedBefore(s, rec, d, n); }
  }

  lemma SpentOutputProgresses(s: Disk, rec: Rec, d: Disk, n: string, g: File)
    requires Starts(s, rec, d) && n !in d.live && n in d.nullified
    requires g == LandedFile(d.nullified[n], rec)
    ensures Starts(s, rec, Put(d, g, n)) && Starts(s, rec, Written(d, g, n))
    ensures Put(d, g, n).live == Written(d, g, n).live == d.live
  {
    var p := PlanOf(s, rec);
    NullifiedStatus(d, n) by { ProgressIsOrdered(s, p, d); }
    hide PlanOf, GeneratedName, HasGeneratedShape, Progress, Ordered, OutputsUnspent, RecOk;
    assert d.live - {n} == d.live;
    RewritingSpentProgresses(s, p, d, n, g);
  }

  lemma LiveStatus(d: Disk, n: string)
    requires Ordered(d) && n in d.live
    ensures !d.live[n].status.Nullified?
  {
  }

  lemma NullifiedStatus(d: Disk, n: string)
    requires Ordered(d) && n in d.nullified
    ensures d.nullified[n].status.Nullified?
  {
  }

  // ------------------------------------------------------------------
  // Final names

  /** An output moved to a free name. */
  ghost predicate OutputRenamed(d: Disk, e: Disk, rec: Rec, from: string) {
    && from in d.live && d.live[from].tx == rec.tx
    && exists to :: to !in d.live && e == Renamed(d, from, to)
  }

  /** The files now under the new names are up to date. */
  predicate TargetsLanded(d: Disk, rec: Rec, renames: seq<(string, string)>) {
    forall i :: 0 <= i < |renames| && renames[i].1 in d.live && d.live[renames[i].1].tx == rec.tx ==>
      IsUpToDate(d, rec, renames[i].1)
  }

  lemma FinishingProgresses(s: Disk, rec: Rec, d: Disk, pending: Pending, taken: set<string>)
    requires Starts(s, rec, d) && OutputsDone(d, rec) && pending in rec.pending
    requires pending.file in d.live && d.live[pending.file].tx == rec.tx && d.live.Keys <= taken
    ensures Starts(s, rec, Renamed(d, pending.file, UniqueFileName(pending.final, taken)))
  {
    assert IsPending(rec, pending.file);
    UniqueNotGenerated(pending.final, taken);
    SpentInput(s, rec, d, pending.file);
    assert IsListed(d, rec, pending.file);
    hide PlanOf, GeneratedName, HasGeneratedShape, Progress, Ordered, UniqueFileName;
    RenamingProgresses(s, PlanOf(s, rec), d, pending.file, UniqueFileName(pending.final, taken));
  }

  lemma PendingIsOutput(s: Disk, rec: Rec, d: Disk, pending: Pending)
    requires Starts(s, rec, d) && pending in rec.pending
    ensures pending.file in rec.outputs
  {
  }

  /** Moving a listed output keeps what the passes before achieved. */
  lemma FinishingKeepsLanded(d: Disk, rec: Rec, from: string, to: string, renames: seq<(string, string)>)
    requires IsListed(d, rec, from) && to !in d.live && OutputsLanded(d, rec) && TargetsLanded(d, rec, renames)
    ensures var e := Renamed(d, from, to);
      OutputsLanded(e, rec) && TargetsLanded(e, rec, renames) && TargetsLanded(e, rec, renames + [(from, to)])
  {
    hide LandedFile;
    assert IsUpToDate(d, rec, from);
  }

  lemma FinishingKeepsFiled(d: Disk, rec: Rec, from: string, to: string)
    requires IsListed(d, rec, from) && to !in d.live && OutputsUnspent(d, rec)
    ensures InputsDone(d, rec) ==> InputsDone(Renamed(d, from, to), rec)
    ensures InputsFiled(d, rec) ==> InputsFiled(Renamed(d, from, to), rec)
  {
    hide GeneratedName;
  }

  // ------------------------------------------------------------------
  // The record afterwards

  function Replaced(names: seq<string>, from: string, to: string): seq<string> {
    seq(|names|, i requires 0 <= i < |names| => if names[i] == from then to else names[i])
  }

  /** The renames applied one after the other. */
  function RenamedAll(names: seq<string>, renames: seq<(string, string)>): seq<string> {
    if renames == [] then names
    else
      var k := |renames| - 1;
      Replaced(RenamedAll(names, renames[..k]), renames[k].0, renames[k].1)
  }

  lemma {:induction false} RenamedAllNames(names: seq<string>, renames: seq<(string, string)>, n: string)
    ensures n in RenamedAll(names, renames) ==> n in names || exists i :: 0 <= i < |renames| && renames[i].1 == n
    ensures n in names && (forall i :: 0 <= i < |renames| ==> renames[i].0 != n) ==> n in RenamedAll(names, renames)
  {
    if renames != [] {
      var k := |renames| - 1;
      var before := RenamedAll(names, renames[..k]);
      RenamedAllNames(names, renames[..k], n);
      if n in RenamedAll(names, renames) && n !in before {
        assert renames[k].1 == n;
      }
      if n in before && renames[k].0 != n {
        var i :| 0 <= i < |before| && before[i] == n;
        assert RenamedAll(names, renames)[i] == n;
      }
    }
  }

  function Unfinished(pending: seq<Pending>, finished: seq<string>): (r: seq<Pending>)
    ensures forall p :: p in r <==> p in pending && p.file !in finished
  {
    if pending == [] then []
    else if pending[0].file in finished then Unfinished(pending[1..], finished)
    else [pending[0]] + Unfinished(pending[1..], finished)
  }

  lemma {:induction false} UnfinishedInOrder(pending: seq<Pending>, finished: seq<string>)
    ensures IsKept(pending, IsUnfinished(finished), Unfinished(pending, finished))
  {
    hide IsKept;
    if pending == [] {
      NoneKept(IsUnfinished(finished));
    } else {
      var rest := Unfinished(pending[1..], finished);
      UnfinishedInOrder(pending[1..], finished);
      KeptBehind(pending, IsUnfinished(finished), rest);
      assert [] + rest == rest;
    }
  }

  function IsUnfinished(finished: seq<string>): Pending -> bool { (p: Pending) => p.file !in finished }

  function Updated(
    rec: Rec, spent: seq<(string, string)>, finished: seq<string>, renames: seq<(string, string)>): Rec
  {
    rec.(inputs := RenamedAll(rec.inputs, spent), outputs := RenamedAll(rec.outputs, renames),
         pending := Unfinished(rec.pending, finished))
  }

  /** `out` is `rec` with other file names and no more pending ones. */
  predicate SameBut(rec: Rec, out: Rec) {
    && out == rec.(inputs := out.inputs, outputs := out.outputs, pending := out.pending)
    && forall p :: p in out.pending ==> p in rec.pending
  }

  lemma UpdatedOk(rec: Rec, spent: seq<(string, string)>, finished: seq<string>, renames: seq<(string, string)>)
    requires forall i :: 0 <= i < |renames| ==> renames[i].0 in finished
    ensures RecOk(rec) ==> RecOk(Updated(rec, spent, finished, renames))
  {
    hide HasGeneratedShape;
    if RecOk(rec) {
      var out := Updated(rec, spent, finished, renames);
      forall i | 0 <= i < |out.pending|
        ensures out.pending[i].file in out.outputs && !HasGeneratedShape(out.pending[i].final)
      {
        assert out.pending[i] in out.pending;
        RenamedAllNames(rec.outputs, renames, out.pending[i].file);
      }
    }
  }

  lemma SpentNameIsGone(s: Disk, rec: Rec, d: Disk, n: string)
    requires Starts(s, rec, d) && Done(PlanOf(s, rec), d) && IsSpentName(PlanOf(s, rec), n)
    ensures n !in d.live
  {
    if n in d.live {
      var o :| o in PlanOf(s, rec).spent && n == GeneratedName(o);
      GeneratedNameRoundTrip(o);
      GeneratedNameInjective(o, d.live[n].obj);
    }
  }

  lemma UpdatedDone(
    s: Disk, rec: Rec, d: Disk, spent: seq<(string, string)>, finished: seq<string>, renames: seq<(string, string)>)
    requires Starts(s, rec, d) && Done(PlanOf(s, rec), d) && InputsDone(d, rec)
    requires AllSpentNames(PlanOf(s, rec), spent)
    ensures InputsDone(d, Updated(rec, spent, finished, renames))
  {
    hide Starts, Done, PlanOf;
    var out := Updated(rec, spent, finished, renames);
    forall n | n in out.inputs && n in d.live ensures d.live[n].obj !in rec.spends {
      RenamedAllNames(rec.inputs, spent, n);
      if n !in rec.inputs { SpentNameIsGone(s, rec, d, n); }
    }
  }

  lemma UpdatedLanded(
    rec: Rec, d: Disk, spent: seq<(string, string)>, finished: seq<string>, renames: seq<(string, string)>)
    requires OutputsLanded(d, rec) && TargetsLanded(d, rec, renames)
    ensures OutputsLanded(d, Updated(rec, spent, finished, renames))
  {
    hide LandedFile;
    var out := Updated(rec, spent, finished, renames);
    forall n | n in d.live && IsListed(d, out, n) ensures IsUpToDate(d, rec, n) {
      RenamedAllNames(rec.outputs, renames, n);
    }
    assert forall f :: LandedFile(f, out) == LandedFile(f, rec) by { UpdatedHash(rec, out); }
  }

  lemma UpdatedHash(rec: Rec, out: Rec)
    requires SameBut(rec, out)
    ensures forall f :: LandedFile(f, out) == LandedFile(f, rec)
  {
  }

  lemma UpdatedInputsFrom(
    p: Plan, rec: Rec, spent: seq<(string, string)>, finished: seq<string>, renames: seq<(string, string)>)
    requires AllSpentNames(p, spent)
    ensures InputsFrom(p, rec, Updated(rec, spent, finished, renames))
  {
    hide IsSpentName;
    forall n | n in RenamedAll(rec.inputs, spent) ensures n in rec.inputs || IsSpentName(p, n) {
      RenamedAllNames(rec.inputs, spent, n);
    }
  }

  // ------------------------------------------------------------------
  // Expired and deleted records

  /** Only outputs of unknown status made by the record's transaction are gone. */
  predicate OutputsRemoved(d: Disk, e: Disk, rec: Rec) {
    && e == d.(live := e.live)
    && (forall n :: n in e.live ==> n in d.live && e.live[n] == d.live[n])
    && (forall n :: n in d.live && n !in e.live ==>
          d.live[n].status.Unknown? && d.live[n].tx == rec.tx && n in rec.outputs)
  }

  // ------------------------------------------------------------------
  // What a reconciliation reported as a success has done

  /** The input, if the record spends it, is filed as spent; if still live it has
      the name it is filed under, since a failure to remove it is not reported. */
  predicate IsFiled(d: Disk, rec: Rec, n: string) {
    n in d.live && d.live[n].obj in rec.spends ==> n == GeneratedName(d.live[n].obj) && n in d.nullified
  }

  predicate InputsFiled(d: Disk, rec: Rec) {
    forall n :: n in rec.inputs ==> IsFiled(d, rec, n)
  }

  ghost predicate SpentFiled(p: Plan, d: Disk) {
    && (forall o :: o in p.spent ==> HasNullified(d, o))
    && (forall n :: n in d.live && d.live[n].obj in p.spent ==> n == GeneratedName(d.live[n].obj))
  }

  /** The outputs the record lists, wherever they are now, are what landing makes
      of them. */
  ghost predicate OutputsCarried(s: Disk, rec: Rec, d: Disk) {
    forall o, m, n :: LiveAs(s, o, m) && IsListed(s, rec, m) && LiveAs(d, o, n) ==>
      d.live[n] == LandedFile(s.live[m], rec)
  }

  /** From `s` to `d` all the settled record asks for was done, but for live files
      of spent objects that kept the name they are filed under. */
  ghost predicate Filed(s: Disk, rec: Rec, d: Disk) {
    if rec.state == Landed then SpentFiled(PlanOf(s, rec), d) && OutputsCarried(s, rec, d) else OutputsDone(d, rec)
  }

  /** And those are gone too. */
  ghost predicate Reconciled(s: Disk, rec: Rec, d: Disk) {
    && Filed(s, rec, d)
    && (rec.state == Landed ==> forall n :: n in d.live ==> d.live[n].obj !in PlanOf(s, rec).spent)
  }

  lemma ReconciledIsFinished(s: Disk, rec: Rec, d: Disk)
    requires Starts(s, rec, d) && Reconciled(s, rec, d)
    ensures Finished(s, rec, d)
  {
    hide GeneratedName, HasGeneratedShape;
    var p := PlanOf(s, rec);
    forall n | n in d.live && d.live[n].obj in p.made ensures !d.live[n].status.Unknown? {
      var m :| m in s.live && IsListed(s, rec, m) && s.live[m].status.Unknown? && s.live[m].obj == d.live[n].obj;
      assert LiveAs(s, d.live[n].obj, m) && LiveAs(d, d.live[n].obj, n);
    }
  }

  lemma FiledInputs(s: Disk, rec: Rec, d: Disk)
    requires Starts(s, rec, d) && InputsFiled(d, rec)
    ensures SpentFiled(PlanOf(s, rec), d)
  {
    var p := PlanOf(s, rec);
    PlannedIsLive(s, rec);
    hide GeneratedName, HasGeneratedShape;
    forall n | n in d.live && d.live[n].obj in p.spent
      ensures n == GeneratedName(d.live[n].obj) && HasNullified(d, d.live[n].obj)
    {
      var m := FileOrigin(s, rec, d, n);
      var k :| k in rec.inputs && k in s.live && s.live[k].obj in rec.spends && s.live[k].obj == d.live[n].obj;
      OneName(s, d.live[n].obj, k, m);
      SpentInput(s, rec, d, n);
    }
    hide PlanOf;
    forall o | o in p.spent ensures HasNullified(d, o) {
      if HasLive(d, o) { var n :| LiveAs(d, o, n); }
    }
  }

  /** Listed outputs are as they were or up to date, all other files as they were. */
  predicate OutputsTouched(d: Disk, e: Disk, rec: Rec) {
    && e.live.Keys == d.live.Keys
    && (forall n :: n in d.live ==>
          e.live[n] == d.live[n] || (IsListed(d, rec, n) && e.live[n] == LandedFile(d.live[n], rec)))
    && (forall n :: n in d.nullified && n !in e.nullified ==> IsListed(d, rec, n))
  }

  lemma TouchedOn(d: Disk, e: Disk, f: Disk, rec: Rec)
    requires OutputsTouched(d, e, rec) && OutputsTouched(e, f, rec)
    ensures OutputsTouched(d, f, rec)
  {
  }

  lemma TouchedKeepsInputs(d: Disk, e: Disk, rec: Rec)
    requires OutputsTouched(d, e, rec) && OutputsUnspent(d, rec)
    ensures InputsDone(d, rec) ==> InputsDone(e, rec)
    ensures InputsFiled(d, rec) ==> InputsFiled(e, rec)
  {
    hide GeneratedName;
  }

  /** Every live file of `e` is one of `d`, perhaps under another name. */
  ghost predicate FilesMoved(d: Disk, e: Disk) {
    forall n :: n in e.live ==> exists m :: m in d.live && d.live[m] == e.live[n]
  }

  /** Some files are gone, some listed outputs up to date. */
  predicate FilesBrought(s: Disk, e: Disk, rec: Rec) {
    && e.live.Keys <= s.live.Keys
    && forall n :: n in e.live ==>
         e.live[n] == s.live[n] || (IsListed(s, rec, n) && e.live[n] == LandedFile(s.live[n], rec))
  }

  lemma TouchedIsBrought(s: Disk, d: Disk, e: Disk, rec: Rec)
    requires (forall n :: n in d.live ==> n in s.live && d.live[n] == s.live[n]) && OutputsTouched(d, e, rec)
    ensures FilesBrought(s, e, rec)
  {
    hide LandedFile;
  }

  /** With the outputs up to date, and some files then renamed, the listed outputs
      are carried over. */
  lemma CarriedOver(s: Disk, e: Disk, f: Disk, rec: Rec)
    requires Ordered(s) && FilesBrought(s, e, rec) && OutputsLanded(e, rec) && FilesMoved(e, f)
    ensures OutputsCarried(s, rec, f)
  {
    hide GeneratedName, HasGeneratedShape;
    forall o, m, n | LiveAs(s, o, m) && IsListed(s, rec, m) && LiveAs(f, o, n)
      ensures f.live[n] == LandedFile(s.live[m], rec)
    {
      var k :| k in e.live && e.live[k] == f.live[n];
      OneName(s, o, k, m);
      assert IsListed(e, rec, k) && IsUpToDate(e, rec, k);
    }
  }

  /** The objects of the outputs the record lists. */
  ghost function ListedObjects(s: Disk, rec: Rec): set<Object> {
    set n | n in s.live && IsListed(s, rec, n) :: s.live[n].obj
  }

  /** The live files of these objects are among the names. */
  ghost predicate NamedIn(objects: set<Object>, d: Disk, names: seq<string>) {
    forall n :: n in d.live && d.live[n].obj in objects ==> n in names
  }

  /** The record names its outputs where they are, up to date, and retains
      pending names of files in use only. */
  ghost predicate NamesFiles(s: Disk, rec: Rec, d: Disk, out: Rec, used: set<string>) {
    rec.state == Landed ==>
      && OutputsLanded(d, out) && NamedIn(ListedObjects(s, rec), d, out.outputs)
      && forall p :: p in out.pending ==> p.file in used
  }

  lemma ListedAreNamed(s: Disk, rec: Rec, d: Disk)
    requires Ordered(s) && FilesBrought(s, d, rec)
    ensures NamedIn(ListedObjects(s, rec), d, rec.outputs)
  {
    hide GeneratedName, HasGeneratedShape;
    forall n | n in d.live && d.live[n].obj in ListedObjects(s, rec) ensures n in rec.outputs {
      var m :| m in s.live && IsListed(s, rec, m) && s.live[m].obj == d.live[n].obj;
      OneName(s, d.live[n].obj, m, n);
    }
  }

  /** A file renamed on disk and in the record stays named. */
  lemma RenamedIsNamed(
    objects: set<Object>, d: Disk, names: seq<string>, renames: seq<(string, string)>, from: string, to: string)
    requires NamedIn(objects, d, RenamedAll(names, renames)) && from in d.live
    ensures NamedIn(objects, Renamed(d, from, to), RenamedAll(names, renames + [(from, to)]))
  {
    var before := RenamedAll(names, renames);
    var more := renames + [(from, to)];
    assert more[..|more| - 1] == renames;
    var after := RenamedAll(names, more);
    var e := Renamed(d, from, to);
    forall n | n in e.live && e.live[n].obj in objects ensures n in after {
      var k := if n == to then from else n;
      var i :| 0 <= i < |before| && before[i] == k;
      assert after[i] == n;
    }
  }

  // ------------------------------------------------------------------
  // Names in use and stranded objects

  /** No object is newly in both directories. */
  ghost predicate NoneStranded(d: Disk, e: Disk) {
    forall o :: Stranded(e, o) ==> Stranded(d, o)
  }

  /** No live object is new, and one under a claimed name keeps it while live. */
  ghost predicate NamesKept(d: Disk, e: Disk, claimed: set<string>) {
    && (forall o :: HasLive(e, o) ==> HasLive(d, o))
    && (forall o, n :: LiveAs(d, o, n) && n in claimed && HasLive(e, o) ==> LiveAs(e, o, n))
  }

  lemma NamesKeptOn(d: Disk, e: Disk, f: Disk, claimed: set<string>)
    requires NamesKept(d, e, claimed) && NamesKept(e, f, claimed)
    ensures NamesKept(d, f, claimed)
  {
  }

  /** Removing or rewriting files leaves names alone. */
  lemma NamesKeptByObjects(d: Disk, e: Disk, claimed: set<string>)
    requires Ordered(d) && forall n :: n in e.live ==> n in d.live && e.live[n].obj == d.live[n].obj
    ensures NamesKept(d, e, claimed)
  {
    hide GeneratedName, HasGeneratedShape;
    assert forall o, n :: LiveAs(e, o, n) ==> LiveAs(d, o, n);
    hide Ordered;
    forall o | HasLive(e, o) ensures HasLive(d, o) { var n :| LiveAs(e, o, n); assert LiveAs(d, o, n); }
    forall o, n | LiveAs(d, o, n) && HasLive(e, o) ensures LiveAs(e, o, n) {
      var m :| LiveAs(e, o, m);
      assert LiveAs(d, o, m);
      OneName(d, o, m, n);
    }
  }

  lemma OneName(d: Disk, o: Object, m: string, n: string)
    requires Ordered(d) && LiveAs(d, o, m) && LiveAs(d, o, n)
    ensures m == n
  {
  }

  lemma NamesKeptByRename(d: Disk, from: string, to: string, claimed: set<string>)
    requires Ordered(d) && from in d.live && from !in claimed && to !in d.live && OwnName(to, d.live[from].obj)
    ensures NamesKept(d, Renamed(d, from, to), claimed)
  {
    RenamingKeepsOrder(d, from, to);
    hide Ordered, HasLive, GeneratedName, HasGeneratedShape;
  }

  /** `rec` is landed and lists the stranded object `o`, with its live name. */
  ghost predicate Repairs(d: Disk, rec: Rec, o: Object) {
    rec.state == Landed && o in rec.spends && exists n :: n in rec.inputs && LiveAs(d, o, n)
  }

  /** The names a reconciliation of `rec` must leave alone: those in use, and
      every live one that is not pending. */
  function FixedNames(d: Disk, rec: Rec, claimed: set<string>): set<string> {
    claimed + set n | n in d.live && !IsPending(rec, n)
  }

  lemma FewerNamesKept(d: Disk, e: Disk, claimed: set<string>, fewer: set<string>)
    requires NamesKept(d, e, claimed) && fewer <= claimed
    ensures NamesKept(d, e, fewer)
  {
  }

  lemma PlanStillNamed(s: Disk, rec: Rec, d: Disk, renames: seq<(string, string)>, out: Rec)
    requires Starts(s, rec, d) && out.inputs == RenamedAll(rec.inputs, renames)
    requires forall i :: 0 <= i < |renames| && renames[i].0 in d.live ==> d.live[renames[i].0].tx == rec.tx
    ensures StillNamed(d, PlanOf(s, rec), out)
  {
    hide GeneratedName, HasGeneratedShape;
    forall n | n in d.live && d.live[n].obj in PlanOf(s, rec).spent ensures n in out.inputs {
      var m := FileOrigin(s, rec, d, n);
      SpentInput(s, rec, d, n);
      var k :| k in rec.inputs && k in s.live && s.live[k].obj in rec.spends && s.live[k].obj == d.live[n].obj;
      assert LiveAs(s, d.live[n].obj, k);
      RenamedAllNames(rec.inputs, renames, n);
    }
  }

  // ------------------------------------------------------------------
  // Repairing what a stopped reconciliation left

  /** The object is stranded, and some record of `txs` spends it and still has
      its live name among its inputs, which is no record's pending name. */
  ghost predicate Repairable(d: Disk, records: map<Tx, Rec>, txs: set<Tx>, o: Object) {
    && (exists tx :: tx in txs && tx in records && Repairs(d, records[tx], o))
    && (forall n, tx :: LiveAs(d, o, n) && tx in records ==> !IsPending(records[tx], n))
  }

  ghost predicate AllRepairable(d: Disk, records: map<Tx, Rec>, txs: set<Tx>) {
    forall o :: Stranded(d, o) ==> Repairable(d, records, txs, o)
  }

  /** What reconciling one record, completely and with no live file left behind,
      does to stranded objects. */
  ghost predicate Mends(d: Disk, e: Disk, rec: Rec) {
    && NoneStranded(d, e) && NamesKept(d, e, FixedNames(d, rec, {}))
    && forall o :: Stranded(e, o) ==> !Repairs(d, rec, o)
  }

  lemma PendingBefore(rec: Rec, out: Rec, n: string)
    requires SameBut(rec, out) && IsPending(out, n)
    ensures IsPending(rec, n)
  {
    var i :| 0 <= i < |out.pending| && out.pending[i].file == n;
    assert out.pending[i] in rec.pending;
  }

  lemma MendedOthers(
    d: Disk, e: Disk, records: map<Tx, Rec>, after: map<Tx, Rec>, txs: set<Tx>, tx: Tx, o: Object)
    requires AllRepairable(d, records, txs) && tx in records && Mends(d, e, records[tx]) && Ordered(d) && Ordered(e)
    requires forall k :: k in after ==> k in records && SameBut(records[k], after[k])
    requires forall k :: k in records && k != tx ==> k in after && after[k] == records[k]
    requires Stranded(e, o)
    ensures Repairable(e, after, txs - {tx}, o)
  {
    hide GeneratedName, HasGeneratedShape, Ordered;
    assert Stranded(d, o) && Repairable(d, records, txs, o);
    var k :| k in txs && k in records && Repairs(d, records[k], o);
    assert k != tx;
    var n :| n in records[k].inputs && LiveAs(d, o, n);
    assert n in FixedNames(d, records[tx], {});
    assert LiveAs(e, o, n);
    assert Repairs(e, after[k], o);
    forall m, j | LiveAs(e, o, m) && j in after ensures !IsPending(after[j], m) {
      OneName(e, o, m, n);
      if IsPending(after[j], n) { PendingBefore(records[j], after[j], n); }
    }
  }

  lemma MendedAll(d: Disk, e: Disk, records: map<Tx, Rec>, after: map<Tx, Rec>, txs: set<Tx>, tx: Tx)
    requires AllRepairable(d, records, txs) && tx in records && Mends(d, e, records[tx]) && Ordered(d) && Ordered(e)
    requires forall k :: k in after ==> k in records && SameBut(records[k], after[k])
    requires forall k :: k in records && k != tx ==> k in after && after[k] == records[k]
    ensures AllRepairable(e, after, txs - {tx})
  {
    hide Mends, Ordered, Repairable, SameBut;
    forall o | Stranded(e, o) ensures Repairable(e, after, txs - {tx}, o) {
      MendedOthers(d, e, records, after, txs, tx, o);
    }
  }
}
