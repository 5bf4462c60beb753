/** In-memory input holds: a proof takes all its input files or none, and the
    files of open transactions are refused. */
module Holds {
  import opened Wrappers
  import opened ChainRules

  datatype Outcome = Taken | Held(file: string, owner: string) | Locked(file: string)

  class HoldTable {
    var owners: map<string, string>

    constructor ()
      ensures owners == map[]
    {
      owners := map[];
    }

    /** All of `files` or none; refuses a file that is held or locked. */
    method Take(files: seq<string>, owner: string, locked: set<string>) returns (r: Outcome)
      modifies this
      ensures r.Taken? <==> forall f :: f in files ==> f !in old(owners) && f !in locked
      ensures r.Taken? ==> owners == old(owners) + map f | f in files :: owner
      ensures !r.Taken? ==> owners == old(owners)
      ensures r.Held? ==> r.file in files && r.file in owners && owners[r.file] == r.owner
      ensures r.Locked? ==> r.file in files && r.file !in owners && r.file in locked
    {
      var i := 0;
      while i < |files|
        invariant 0 <= i <= |files|
        invariant forall f :: f in files[..i] ==> f !in owners && f !in locked
        invariant owners == old(owners)
      {
        var file := files[i];
        assert file in files;
        if file in owners { return Held(file, owners[file]); }
        if file in locked { return Locked(file); }
        assert files[..i + 1] == files[..i] + [file];
        i := i + 1;
      }
      assert files[..i] == files;
      i := 0;
      while i < |files|
        invariant 0 <= i <= |files|
        invariant owners == old(owners) + map f | f in files[..i] :: owner
      {
        assert files[..i + 1] == files[..i] + [files[i]];
        owners := owners[files[i] := owner];
        i := i + 1;
      }
      assert files[..i] == files;
      r := Taken;
    }

    /** What dropping a proof's holds does. */
    method Release(files: seq<string>)
      modifies this
      ensures owners == old(owners) - Elements(files)
    {
      var i := 0;
      while i < |files|
        invariant 0 <= i <= |files|
        invariant owners == old(owners) - Elements(files[..i])
      {
        assert files[..i + 1] == files[..i] + [files[i]];
        owners := owners - {files[i]};
        i := i + 1;
      }
      assert files[..i] == files;
    }

    /** Releasing what was taken gives back the table as it was, whoever holds
        the other files. */
    method TakeAndRelease(files: seq<string>, owner: string, locked: set<string>) returns (r: Outcome)
      modifies this
      ensures owners == old(owners)
    {
      r := Take(files, owner, locked);
      if r.Taken? {
        Release(files);
        assert forall f :: f in files ==> f !in old(owners);
      }
    }
  }
}
