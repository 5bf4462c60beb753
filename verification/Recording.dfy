/** Recording a proved transaction: the files of its outputs and their names. */
module Recording {
  import opened Wrappers
  import opened Naming
  import opened ObjectStore
  import opened Settlement
  import opened StoreMoves

  /** `mutated` pairs the input an object is mutated from with its output. */
  datatype Proved = Proved(
    tx: Tx,
    inputs: seq<string>,
    outputs: seq<Object>,
    spends: set<Object>,
    mutated: seq<(nat, nat)>,
    cleanupAt: nat,
    groundingBlock: int)

  /** Outputs are new objects, unlike each other, and each is the new version of
      one input at most. What is spent was an input when it was proved, so the
      store knows it, and not from a file of this transaction. */
  ghost predicate Fresh(d: Disk, pt: Proved) {
    && KnowsSpent(d, pt.tx, pt.spends)
    && (forall i :: 0 <= i < |pt.outputs| ==> !Has(d, pt.outputs[i]))
    && (forall i, j :: 0 <= i < j < |pt.outputs| ==> pt.outputs[i] != pt.outputs[j])
    && (forall i, j :: 0 <= i < j < |pt.mutated| ==> pt.mutated[i].1 != pt.mutated[j].1)
  }

  function OutputFile(pt: Proved, i: nat): File
    requires i < |pt.outputs|
  {
    File(pt.outputs[i], Unknown, pt.tx, None)
  }

  /** The names are free, different and not some other object's. */
  predicate NamesFit(d: Disk, pt: Proved, names: seq<string>) {
    && |names| == |pt.outputs|
    && (forall i :: 0 <= i < |names| ==>
          names[i] !in d.live && names[i] !in d.nullified && OwnName(names[i], pt.outputs[i]))
    && (forall i, j :: 0 <= i < j < |names| ==> names[i] != names[j])
  }

  predicate PendingFits(names: seq<string>, pending: seq<Pending>) {
    forall k :: 0 <= k < |pending| ==>
      pending[k].file in names && !HasGeneratedShape(pending[k].file) && !HasGeneratedShape(pending[k].final)
  }

  /** The `k`th mutated object has a custom name, which its new version is to get. */
  predicate PassesName(d: Disk, pt: Proved, k: nat) {
    && k < |pt.mutated| && pt.mutated[k].0 < |pt.inputs| && pt.mutated[k].1 < |pt.outputs|
    && var input := pt.inputs[pt.mutated[k].0];
       input in d.live && input != GeneratedName(d.live[input].obj)
  }

  predicate IsPassed(d: Disk, pt: Proved, names: seq<string>, p: Pending, k: nat)
    requires |names| == |pt.outputs|
  {
    PassesName(d, pt, k) && p == Pending(names[pt.mutated[k].1], pt.inputs[pt.mutated[k].0])
  }

  /** Exactly the custom names of the first `n` mutated objects are passed on, and
      every other output has its generated name. */
  ghost predicate NamesPassed(d: Disk, pt: Proved, names: seq<string>, pending: seq<Pending>, n: nat) {
    && |names| == |pt.outputs|
    && (forall k: nat :: k < n && PassesName(d, pt, k) ==>
          Pending(names[pt.mutated[k].1], pt.inputs[pt.mutated[k].0]) in pending)
    && (forall p :: p in pending ==> exists k: nat :: k < n && IsPassed(d, pt, names, p, k))
    && (forall i: nat :: i < |names| && (forall k: nat :: k < n && PassesName(d, pt, k) ==> pt.mutated[k].1 != i) ==>
          names[i] == GeneratedName(pt.outputs[i]))
  }

  lemma NamePassed(d: Disk, pt: Proved, names: seq<string>, pending: seq<Pending>, n: nat, file: string)
    requires Fresh(d, pt) && NamesPassed(d, pt, names, pending, n) && PassesName(d, pt, n)
    ensures var (a, b) := pt.mutated[n];
      NamesPassed(d, pt, names[b := file], pending + [Pending(file, pt.inputs[a])], n + 1)
  {
    hide GeneratedName, Has, KnowsSpent;
    var (a, b) := pt.mutated[n];
    var after, more := names[b := file], pending + [Pending(file, pt.inputs[a])];
    forall k: nat | k < n + 1 && PassesName(d, pt, k)
      ensures Pending(after[pt.mutated[k].1], pt.inputs[pt.mutated[k].0]) in more
    {
      if k < n { assert pt.mutated[k].1 != pt.mutated[n].1; } else { assert more[|pending|] in more; }
    }
    forall p | p in more ensures exists k: nat :: k < n + 1 && IsPassed(d, pt, after, p, k) {
      if p in pending {
        var k: nat :| k < n && IsPassed(d, pt, names, p, k);
        assert pt.mutated[k].1 != pt.mutated[n].1;
        assert IsPassed(d, pt, after, p, k);
      } else {
        assert IsPassed(d, pt, after, p, n);
      }
    }
  }

  lemma NoNamePassed(d: Disk, pt: Proved, names: seq<string>, pending: seq<Pending>, n: nat)
    requires NamesPassed(d, pt, names, pending, n) && !PassesName(d, pt, n)
    ensures NamesPassed(d, pt, names, pending, n + 1)
  {
    hide PassesName;
  }

  lemma {:induction false} GeneratedNamesFit(d: Disk, pt: Proved, names: seq<string>)
    requires Fresh(d, pt) && |names| == |pt.outputs|
    requires forall i :: 0 <= i < |names| ==>
      names[i] == GeneratedName(pt.outputs[i]) && names[i] !in d.live && names[i] !in d.nullified
    ensures NamesFit(d, pt, names)
  {
    forall i, j | 0 <= i < j < |names| ensures names[i] != names[j] {
      if names[i] == names[j] { GeneratedNameInjective(pt.outputs[i], pt.outputs[j]); }
    }
    hide GeneratedName, HasGeneratedShape;
  }

  /** The custom name of a live file has not the form of a generated one. */
  lemma CustomNotGenerated(d: Disk, n: string)
    requires Ordered(d) && n in d.live && n != GeneratedName(d.live[n].obj)
    ensures !HasGeneratedShape(n)
  {
  }

  /** Giving output `b` a pending name keeps the names fitting. */
  lemma PendingNameFits(d: Disk, pt: Proved, names: seq<string>, pending: seq<Pending>, b: nat, final: string)
    requires NamesFit(d, pt, names) && PendingFits(names, pending) && b < |names|
    requires HasGeneratedShape(names[b]) && !HasGeneratedShape(final)
    ensures var file := PendingFileName(final, Taken(d) + set n | n in names);
      && !HasGeneratedShape(file)
      && NamesFit(d, pt, names[b := file]) && PendingFits(names[b := file], pending + [Pending(file, final)])
  {
    var taken := Taken(d) + set n | n in names;
    var file := PendingFileName(final, taken);
    PendingNotGenerated(final, taken);
    hide HasGeneratedShape, PendingFileName;
    var after := names[b := file];
    forall k | 0 <= k < |pending| ensures pending[k].file in after {
      var i :| 0 <= i < |names| && names[i] == pending[k].file;
      assert after[i] == names[i];
    }
    assert after[b] == file;
  }

  /** `e` is `d` with some of the first `k` outputs' files added. */
  ghost predicate FilesAdded(d: Disk, e: Disk, pt: Proved, names: seq<string>, k: nat)
    requires |names| == |pt.outputs| && k <= |names|
  {
    && e == d.(live := e.live)
    && (forall n :: n in d.live ==> n in e.live && e.live[n] == d.live[n])
    && (forall n :: n in e.live && n !in d.live ==> IsOutput(e, pt, names, k, n))
  }

  ghost predicate IsOutput(e: Disk, pt: Proved, names: seq<string>, k: nat, n: string)
    requires |names| == |pt.outputs| && k <= |names| && n in e.live
  {
    exists i :: 0 <= i < k && names[i] == n && e.live[n] == OutputFile(pt, i)
  }

  lemma NoneAdded(d: Disk, pt: Proved, names: seq<string>)
    requires |names| == |pt.outputs|
    ensures FilesAdded(d, d, pt, names, 0)
  {
  }

  lemma AddingOutput(d: Disk, e: Disk, pt: Proved, names: seq<string>, k: nat)
    requires NamesFit(d, pt, names) && k < |names| && FilesAdded(d, e, pt, names, k)
    ensures FilesAdded(d, e, pt, names, k + 1)
    ensures FilesAdded(d, Put(e, OutputFile(pt, k), names[k]), pt, names, k + 1)
    ensures Put(e, OutputFile(pt, k), names[k]) == Written(e, OutputFile(pt, k), names[k])
  {
    hide OwnName;
    assert e.nullified - {names[k]} == e.nullified;
    var f := Put(e, OutputFile(pt, k), names[k]);
    forall n | n in e.live && n !in d.live
      ensures IsOutput(e, pt, names, k + 1, n) && IsOutput(f, pt, names, k + 1, n)
    {
      OutputStays(d, e, f, pt, names, k, n);
    }
    assert IsOutput(f, pt, names, k + 1, names[k]) by { assert f.live[names[k]] == OutputFile(pt, k); }
    hide IsOutput;
  }

  lemma OutputStays(d: Disk, e: Disk, f: Disk, pt: Proved, names: seq<string>, k: nat, n: string)
    requires NamesFit(d, pt, names) && k < |names| && n in e.live && IsOutput(e, pt, names, k, n)
    requires f == Put(e, OutputFile(pt, k), names[k])
    ensures IsOutput(e, pt, names, k + 1, n) && n in f.live && IsOutput(f, pt, names, k + 1, n)
  {
  }

  lemma RemovingOutput(d: Disk, e: Disk, pt: Proved, names: seq<string>, k: nat, i: nat)
    requires NamesFit(d, pt, names) && k <= |names| && FilesAdded(d, e, pt, names, k) && i < |names|
    ensures FilesAdded(d, e.(live := e.live - {names[i]}), pt, names, k)
  {
  }

  lemma NewFileIsOutput(d: Disk, e: Disk, pt: Proved, names: seq<string>, k: nat, n: string) returns (i: nat)
    requires |names| == |pt.outputs| && k <= |names| && FilesAdded(d, e, pt, names, k) && n in e.live && n !in d.live
    ensures i < k && names[i] == n && e.live[n] == OutputFile(pt, i)
  {
    assert IsOutput(e, pt, names, k, n);
    i :| 0 <= i < k && names[i] == n && e.live[n] == OutputFile(pt, i);
  }

  /** The next output's name is free and its object not there yet. */
  lemma NextOutputIsNew(d: Disk, e: Disk, pt: Proved, names: seq<string>, k: nat)
    requires Fresh(d, pt) && NamesFit(d, pt, names) && k < |names| && FilesAdded(d, e, pt, names, k)
    ensures IsNew(e, names[k], OutputFile(pt, k))
  {
    hide GeneratedName, HasGeneratedShape;
    if names[k] in e.live { var i := NewFileIsOutput(d, e, pt, names, k, names[k]); }
    var o := pt.outputs[k];
    assert HasNullified(e, o) <==> HasNullified(d, o);
    assert !Has(d, o);
    forall n ensures !LiveAs(e, o, n) {
      if n in e.live && n !in d.live { var i := NewFileIsOutput(d, e, pt, names, k, n); }
      assert n in d.live ==> !LiveAs(d, o, n);
    }
  }

  /** The outputs written so far are none of what is spent. */
  lemma AddedKnows(d: Disk, e: Disk, pt: Proved, names: seq<string>, k: nat)
    requires Fresh(d, pt) && |names| == |pt.outputs| && k <= |names| && FilesAdded(d, e, pt, names, k)
    ensures KnowsSpent(e, pt.tx, pt.spends)
  {
    hide GeneratedName, HasGeneratedShape;
    forall o | o in pt.spends ensures Known(e, o) {
      if Shows(d, o, Live) {
        var n :| LiveAs(d, o, n) && d.live[n].status == Live;
        assert LiveAs(e, o, n);
      }
    }
    forall n | n in e.live && e.live[n].tx == pt.tx ensures e.live[n].obj !in pt.spends {
      if n !in d.live {
        var i := NewFileIsOutput(d, e, pt, names, k, n);
        assert !Has(d, pt.outputs[i]);
      }
    }
  }

  lemma NoneLeft(d: Disk, e: Disk, pt: Proved, names: seq<string>, k: nat)
    requires |names| == |pt.outputs| && k <= |names| && FilesAdded(d, e, pt, names, k)
    requires forall j :: 0 <= j < k ==> names[j] !in e.live
    ensures e == d
  {
  }

  lemma GeneratedFit(d: Disk, pt: Proved, names: seq<string>)
    requires Fresh(d, pt) && |names| == |pt.outputs|
    requires forall i :: 0 <= i < |names| ==> names[i] == GeneratedName(pt.outputs[i])
    requires forall n :: n in names ==> n !in d.live && n !in d.nullified
    ensures NamesFit(d, pt, names) && forall i :: 0 <= i < |names| ==> HasGeneratedShape(names[i])
  {
    GeneratedNamesFit(d, pt, names);
    forall i | 0 <= i < |names| ensures HasGeneratedShape(names[i]) { GeneratedNameRoundTrip(pt.outputs[i]); }
  }

  lemma NamesCount(d: Disk, pt: Proved, names: seq<string>)
    requires NamesFit(d, pt, names)
    ensures |names| == |pt.outputs|
  {
  }

  /** Every output's file of a complete recording is there. */
  predicate AllThere(d: Disk, pt: Proved, names: seq<string>)
    requires |names| == |pt.outputs|
  {
    forall i :: 0 <= i < |names| ==> names[i] in d.live && d.live[names[i]] == OutputFile(pt, i)
  }
}
