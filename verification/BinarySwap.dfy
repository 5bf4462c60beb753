/** The two-phase swap of installed binaries and its rollback, where any rename,
    copy or removal may fail. */
module BinarySwap {

  type Content = nat

  /** `~/.dobj/bin/<name>`, its backup, its temporary copy, and a staged file. */
  datatype Path = Installed(name: string) | Backup(name: string) | Temporary(name: string) | Staged(name: string)

  type Files = map<Path, Content>

  datatype SwapEntry = SwapEntry(name: string, hadPrevious: bool, installedNew: bool)

  /** `p` holds what it held in `s`, or is absent as it was. */
  predicate Same(s: Files, t: Files, p: Path) {
    (p in s <==> p in t) && (p in s ==> s[p] == t[p])
  }

  predicate Distinct(names: seq<string>) {
    forall i, j :: 0 <= i < j < |names| ==> names[i] != names[j]
  }

  /** What the journal says of an entry is so: a previous binary is in its
      backup, a new one is in place, and otherwise nothing has changed. */
  predicate Truthful(s: Files, t: Files, e: SwapEntry, content: Content) {
    var p := Installed(e.name);
    && (e.hadPrevious ==> p in s && Backup(e.name) in t && t[Backup(e.name)] == s[p] && (!e.installedNew ==> p !in t))
    && (e.installedNew ==> p in t && t[p] == content && (!e.hadPrevious ==> p !in s))
    && (!e.hadPrevious && !e.installedNew ==> Same(s, t, p))
  }

  lemma StaysTruthful(s: Files, t: Files, u: Files, e: SwapEntry, content: Content)
    requires Truthful(s, t, e, content) && Same(t, u, Installed(e.name)) && Same(t, u, Backup(e.name))
    ensures Truthful(s, u, e, content)
  {
  }

  predicate JournalOf(journal: seq<SwapEntry>, names: seq<string>) {
    |journal| == |names| && forall i :: 0 <= i < |names| ==> journal[i].name == names[i]
  }

  /** The journal tells how `t` came from `s`. */
  predicate Tells(s: Files, t: Files, journal: seq<SwapEntry>, contents: seq<Content>) {
    |journal| == |contents| && forall i :: 0 <= i < |journal| ==> Truthful(s, t, journal[i], contents[i])
  }

  /** The staged files from `i` on are still there. */
  predicate StagedFrom(t: Files, names: seq<string>, contents: seq<Content>, i: nat) {
    && |names| == |contents|
    && forall k :: i <= k < |names| ==> Staged(names[k]) in t && t[Staged(names[k])] == contents[k]
  }

  class Installation {
    var files: Files
    /** How many operations on existing files have failed so far. */
    ghost var faults: nat

    /** Atomic; replaces an existing destination. */
    method Rename(from: Path, to: Path) returns (ok: bool)
      modifies this
      ensures old(faults) <= faults && (faults == old(faults) ==> (ok <==> from in old(files)))
      ensures ok ==> from in old(files) && files == (old(files) - {from})[to := old(files)[from]]
      ensures !ok ==> files == old(files)
    {
      ok := *;
      if from !in files {
        ok := false;
      } else if ok {
        files := (files - {from})[to := files[from]];
      } else {
        faults := faults + 1;
      }
    }

    method Remove(p: Path) returns (ok: bool)
      modifies this
      ensures old(faults) <= faults && (faults == old(faults) ==> (ok <==> p in old(files)))
      ensures ok ==> p in old(files) && files == old(files) - {p}
      ensures !ok ==> files == old(files)
    {
      ok := *;
      if p !in files {
        ok := false;
      } else if ok {
        files := files - {p};
      } else {
        faults := faults + 1;
      }
    }

    /** A failed copy may leave anything in its target. */
    method Copy(from: Path, to: Path) returns (ok: bool)
      modifies this
      ensures old(faults) <= faults && (faults == old(faults) ==> (ok <==> from in old(files)))
      ensures ok ==> from in old(files) && files == old(files)[to := old(files)[from]]
      ensures files - {to} == old(files) - {to}
    {
      ok := *;
      if from !in files { ok := false; }
      if ok {
        files := files[to := files[from]];
      } else {
        var partial: bool, content: Content := *, *;
        if partial { files := files[to := content]; }
        faults := faults + 1;
      }
    }

    /** A staged file moves into place, by way of a copy if it must. */
    method InstallFile(name: string) returns (ok: bool)
      requires Staged(name) in files
      modifies this
      ensures old(faults) <= faults && (faults == old(faults) ==> ok)
      ensures ok ==> Installed(name) in files && files[Installed(name)] == old(files)[Staged(name)]
      ensures !ok ==> Same(old(files), files, Installed(name))
      ensures forall p :: p != Installed(name) && p != Staged(name) && p != Temporary(name) ==>
        Same(old(files), files, p)
    {
      ok := Rename(Staged(name), Installed(name));
      if ok { return; }
      ok := Copy(Staged(name), Temporary(name));
      assert forall p :: p != Temporary(name) ==> Same(old(files), files, p) by {
        forall p | p != Temporary(name) ensures Same(old(files), files, p) {
          assert p in files <==> p in files - {Temporary(name)};
          assert p in old(files) <==> p in old(files) - {Temporary(name)};
          if p in files { assert files[p] == (files - {Temporary(name)})[p]; }
        }
      }
      if !ok { return; }
      ok := Rename(Temporary(name), Installed(name));
    }

    /** One installed binary moves aside; an older backup is dropped. */
    method MoveOneAside(name: string) returns (ok: bool, had: bool)
      modifies this
      ensures old(faults) <= faults && (faults == old(faults) ==> ok)
      ensures had ==> ok && Installed(name) in old(files) && Installed(name) !in files
      ensures had ==> Backup(name) in files && files[Backup(name)] == old(files)[Installed(name)]
      ensures !had ==> Same(old(files), files, Installed(name)) && (ok ==> Installed(name) !in files)
      ensures forall p :: p != Installed(name) && p != Backup(name) ==> Same(old(files), files, p)
    {
      ok, had := true, false;
      if Installed(name) in files {
        var _ := Remove(Backup(name));
        ok := Rename(Installed(name), Backup(name));
        had := ok;
      }
    }

    /** First phase: each installed binary moves aside to its backup. */
    method MoveAside(names: seq<string>, contents: seq<Content>) returns (ok: bool, journal: seq<SwapEntry>)
      requires Distinct(names) && StagedFrom(files, names, contents, 0)
      modifies this
      ensures JournalOf(journal, names) && Tells(old(files), files, journal, contents)
      ensures StagedFrom(files, names, contents, 0)
      ensures old(faults) <= faults && (faults == old(faults) ==> ok)
      ensures forall i :: 0 <= i < |journal| ==> !journal[i].installedNew
      ensures ok ==> forall i :: 0 <= i < |journal| ==> Installed(names[i]) !in files
    {
      ghost var s := files;
      journal := seq(|names|, i requires 0 <= i < |names| => SwapEntry(names[i], false, false));
      ok := true;
      for i := 0 to |names|
        invariant JournalOf(journal, names) && Tells(s, files, journal, contents)
        invariant StagedFrom(files, names, contents, 0)
        invariant forall k :: 0 <= k < |journal| ==> !journal[k].installedNew
        invariant forall k :: i <= k < |journal| ==> !journal[k].hadPrevious
        invariant forall k :: 0 <= k < i ==> Installed(names[k]) !in files
        invariant old(faults) <= faults && ok
      {
        ghost var t := files;
        var had;
        ok, had := MoveOneAside(names[i]);
        forall k | 0 <= k < |names| && k != i
          ensures Truthful(s, files, journal[k], contents[k]) && Same(t, files, Installed(names[k]))
        {
          assert names[k] != names[i];
          StaysTruthful(s, t, files, journal[k], contents[k]);
        }
        assert Truthful(s, t, journal[i], contents[i]);
        forall k | 0 <= k < |names| ensures Same(t, files, Staged(names[k])) {}
        if !ok { return; }
        if had { journal := journal[i := journal[i].(hadPrevious := true)]; }
      }
    }

    /** Second phase: each staged binary moves into place. */
    method InstallAll(names: seq<string>, contents: seq<Content>, aside: seq<SwapEntry>, ghost s: Files)
      returns (ok: bool, journal: seq<SwapEntry>)
      requires Distinct(names) && JournalOf(aside, names) && Tells(s, files, aside, contents)
      requires StagedFrom(files, names, contents, 0)
      requires forall i :: 0 <= i < |aside| ==> !aside[i].installedNew && Installed(names[i]) !in files
      modifies this
      ensures JournalOf(journal, names) && Tells(s, files, journal, contents)
      ensures old(faults) <= faults && (faults == old(faults) ==> ok)
      ensures ok ==> forall i :: 0 <= i < |names| ==>
        Installed(names[i]) in files && files[Installed(names[i])] == contents[i]
    {
      journal, ok := aside, true;
      for i := 0 to |names|
        invariant JournalOf(journal, names) && Tells(s, files, journal, contents)
        invariant StagedFrom(files, names, contents, i)
        invariant forall k :: 0 <= k < i ==> journal[k].installedNew
        invariant forall k :: i <= k < |names| ==> !journal[k].installedNew && Installed(names[k]) !in files
        invariant old(faults) <= faults && ok
      {
        ghost var t := files;
        ok := InstallFile(names[i]);
        forall k | 0 <= k < |names| && k != i
          ensures Same(t, files, Installed(names[k])) && Same(t, files, Backup(names[k]))
          ensures Same(t, files, Staged(names[k]))
        {
          assert names[k] != names[i];
        }
        assert Same(t, files, Backup(names[i]));
        forall k | 0 <= k < |names| && k != i ensures Truthful(s, files, journal[k], contents[k]) {
          StaysTruthful(s, t, files, journal[k], contents[k]);
        }
        assert Truthful(s, t, journal[i], contents[i]);
        if !ok { return; }
        journal := journal[i := journal[i].(installedNew := true)];
      }
      assert forall i :: 0 <= i < |names| ==> journal[i].installedNew && Truthful(s, files, journal[i], contents[i]);
    }

    /** Undo what the journal tells, last entry first. `undone[i]` says that
        entry `i` met no failure that matters: its restoring rename worked or,
        without a previous binary, its removal. Exactly those paths are as they
        were; any other is left absent or with the new binary. */
    method Rollback(journal: seq<SwapEntry>, ghost names: seq<string>, ghost contents: seq<Content>, ghost s: Files)
      returns (undone: seq<bool>)
      requires Distinct(names) && JournalOf(journal, names) && Tells(s, files, journal, contents)
      modifies this
      ensures |undone| == |journal|
      ensures old(faults) <= faults
      ensures faults == old(faults) ==> forall i :: 0 <= i < |journal| ==> undone[i]
      ensures forall i :: 0 <= i < |journal| && undone[i] ==> Same(s, files, Installed(names[i]))
      ensures forall i :: 0 <= i < |journal| && !undone[i] ==> LeftBehind(s, files, journal[i], contents[i])
    {
      undone := seq(|journal|, _ => true);
      var i := |journal|;
      while i > 0
        invariant 0 <= i <= |journal| && |undone| == |journal| && old(faults) <= faults
        invariant faults == old(faults) ==> forall k :: 0 <= k < |journal| ==> undone[k]
        invariant forall k :: 0 <= k < i ==> Truthful(s, files, journal[k], contents[k])
        invariant forall k :: i <= k < |journal| && undone[k] ==> Same(s, files, Installed(names[k]))
        invariant forall k :: i <= k < |journal| && !undone[k] ==> LeftBehind(s, files, journal[k], contents[k])
      {
        i := i - 1;
        ghost var t := files;
        var ok := RollbackEntry(journal[i], contents[i], s);
        forall k | 0 <= k < |journal| && k != i
          ensures Same(t, files, Installed(names[k])) && Same(t, files, Backup(names[k]))
        {
          assert names[k] != names[i];
        }
        forall k | 0 <= k < i ensures Truthful(s, files, journal[k], contents[k]) {
          StaysTruthful(s, t, files, journal[k], contents[k]);
        }
        undone := undone[i := ok];
      }
    }

    method RollbackEntry(e: SwapEntry, ghost content: Content, ghost s: Files) returns (ok: bool)
      requires Truthful(s, files, e, content)
      modifies this
      ensures old(faults) <= faults && (faults == old(faults) ==> ok)
      ensures ok ==> Same(s, files, Installed(e.name))
      ensures !ok ==> LeftBehind(s, files, e, content)
      ensures forall p :: p != Installed(e.name) && p != Backup(e.name) ==> Same(old(files), files, p)
    {
      ok := true;
      if e.installedNew {
        ok := Remove(Installed(e.name));
      }
      if e.hadPrevious {
        ok := Rename(Backup(e.name), Installed(e.name));
      }
    }

    /** Swap the binaries, or put everything back. All or nothing: on success
        every managed path holds its new binary, and the journal tells how to
        undo it; on failure, if every undoing worked, each holds what it held. */
    method SwapBinaries(names: seq<string>, contents: seq<Content>)
      returns (ok: bool, journal: seq<SwapEntry>, undone: seq<bool>)
      requires Distinct(names) && StagedFrom(files, names, contents, 0)
      modifies this
      ensures JournalOf(journal, names)
      ensures old(faults) <= faults && (faults == old(faults) ==> ok)
      ensures ok ==> forall i :: 0 <= i < |names| ==>
        Installed(names[i]) in files && files[Installed(names[i])] == contents[i]
      ensures ok ==> Tells(old(files), files, journal, contents)
      ensures !ok ==> |undone| == |names|
      ensures !ok ==> forall i :: 0 <= i < |names| && undone[i] ==> Same(old(files), files, Installed(names[i]))
      ensures !ok ==> forall i :: 0 <= i < |names| && !undone[i] ==>
        LeftBehind(old(files), files, journal[i], contents[i])
    {
      undone := [];
      ok, journal := MoveAside(names, contents);
      if ok {
        ok, journal := InstallAll(names, contents, journal, old(files));
      }
      if !ok {
        undone := Rollback(journal, names, contents, old(files));
      }
    }

    /** A swap whose new binaries turn out not to run is undone by its journal. */
    method SwapThenUndo(names: seq<string>, contents: seq<Content>) returns (undone: seq<bool>)
      requires Distinct(names) && StagedFrom(files, names, contents, 0)
      modifies this
      ensures |undone| == |names|
      ensures old(faults) <= faults && (faults == old(faults) ==> forall i :: 0 <= i < |names| ==> undone[i])
      ensures (forall i :: 0 <= i < |names| ==> undone[i]) ==> forall i :: 0 <= i < |names| ==>
        Same(old(files), files, Installed(names[i]))
    {
      var ok, journal;
      ok, journal, undone := SwapBinaries(names, contents);
      if ok {
        undone := Rollback(journal, names, contents, old(files));
      }
    }
  }

  /** A failed undoing leaves the path without its previous binary: absent, or
      with the new one. */
  predicate LeftBehind(s: Files, t: Files, e: SwapEntry, content: Content) {
    var p := Installed(e.name);
    && (e.hadPrevious || e.installedNew)
    && (e.hadPrevious ==> p in s && (p !in t || (e.installedNew && t[p] == content)))
    && (!e.hadPrevious ==> p !in s && p in t && t[p] == content)
  }
}
