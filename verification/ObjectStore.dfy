/** The object store on disk: a directory of live files and one of nullified
    files, and what every operation keeps about them. */
module ObjectStore {
  import opened Wrappers
  import opened Naming

  type Tx = nat

  datatype Status = Unknown | Live | Nullified

  /** An object file: the object, its status and the transaction producing it. */
  datatype File = File(obj: Object, status: Status, tx: Tx, txHash: Option<nat>)

  datatype Disk = Disk(live: map<string, File>, nullified: map<string, File>, discarded: set<string>)

  /** Every name some store directory has. */
  function Taken(d: Disk): set<string> {
    d.live.Keys + d.nullified.Keys + d.discarded
  }

  /** The live file of `o` is called `n`. */
  predicate LiveAs(d: Disk, o: Object, n: string) {
    n in d.live && d.live[n].obj == o
  }

  ghost predicate HasLive(d: Disk, o: Object) {
    exists n :: LiveAs(d, o, n)
  }

  /** A nullified object has its generated name. */
  predicate HasNullified(d: Disk, o: Object) {
    GeneratedName(o) in d.nullified
  }

  ghost predicate Has(d: Disk, o: Object) {
    HasLive(d, o) || HasNullified(d, o)
  }

  // ------------------------------------------------------------------
  // What a directory pair must satisfy

  /** A name of generated shape is only ever its own object's. */
  predicate OwnName(n: string, o: Object) {
    HasGeneratedShape(n) ==> n == GeneratedName(o)
  }

  /** Each directory by itself is in order: statuses match the directory, names
      of generated shape belong to their own object, and no object has two
      live files. */
  ghost predicate Ordered(d: Disk) {
    && (forall n :: n in d.live ==> !d.live[n].status.Nullified? && OwnName(n, d.live[n].obj))
    && (forall n :: n in d.nullified ==> d.nullified[n].status.Nullified? && n == GeneratedName(d.nullified[n].obj))
    && (forall o, m, n :: LiveAs(d, o, m) && LiveAs(d, o, n) ==> m == n)
  }

  /** And no object has a file in both. */
  ghost predicate Valid(d: Disk) {
    Ordered(d) && forall o, n :: LiveAs(d, o, n) ==> !HasNullified(d, o)
  }

  /** Loading succeeds exactly when directories match statuses and no file
      name is in both. */
  ghost predicate Loadable(d: Disk) {
    && (forall n :: n in d.live ==> !d.live[n].status.Nullified?)
    && (forall n :: n in d.nullified ==> d.nullified[n].status.Nullified?)
    && d.live.Keys !! d.nullified.Keys
  }

  lemma ValidIsLoadable(d: Disk)
    requires Valid(d)
    ensures Loadable(d)
  {
    forall n | n in d.live ensures n !in d.nullified {
      if n in d.nullified {
        GeneratedNameRoundTrip(d.nullified[n].obj);
        GeneratedNameInjective(d.live[n].obj, d.nullified[n].obj);
        assert LiveAs(d, d.live[n].obj, n);
      }
    }
  }

  datatype LoadError = Misplaced(name: string) | Duplicate(name: string)

  /** The file's status is the one its directory is for. */
  predicate FileFits(dir: map<string, File>, n: string, nullifiedDir: bool)
    requires n in dir
  {
    dir[n].status.Nullified? == nullifiedDir
  }

  /** One directory's part of loading, in any order. */
  method LoadDirectory(dir: map<string, File>, nullifiedDir: bool, loaded: map<string, File>)
    returns (r: Result<map<string, File>, LoadError>)
    ensures r.Ok? <==> (forall n :: n in dir ==> FileFits(dir, n, nullifiedDir)) && dir.Keys !! loaded.Keys
    ensures r.Ok? ==> r.value == loaded + dir
  {
    var files := loaded;
    var done := {};
    while dir.Keys - done != {}
      invariant done <= dir.Keys
      invariant files.Keys == loaded.Keys + done
      invariant forall n :: n in loaded ==> n in files && files[n] == loaded[n]
      invariant forall n :: n in done ==> files[n] == dir[n] && n !in loaded
      invariant forall n :: n in done ==> FileFits(dir, n, nullifiedDir)
      decreases dir.Keys - done
    {
      var n :| n in dir.Keys - done;
      if !FileFits(dir, n, nullifiedDir) { return Err(Misplaced(n)); }
      if n in files { return Err(Duplicate(n)); }
      files := files[n := dir[n]];
      done := done + {n};
    }
    r := Ok(files);
  }

  /** Every object file by name. In a valid store loading never fails. */
  method LoadObjectFiles(d: Disk) returns (r: Result<map<string, File>, LoadError>)
    ensures r.Ok? <==> Loadable(d)
    ensures r.Ok? ==> r.value == d.live + d.nullified
    ensures Valid(d) ==> r.Ok?
  {
    if Valid(d) { ValidIsLoadable(d); }
    r := LoadDirectory(d.live, false, map[]);
    if r.Err? { return; }
    r := LoadDirectory(d.nullified, true, r.value);
  }

  // ------------------------------------------------------------------
  // Objects in two files

  /** Filed as spent, with the live file still there. */
  ghost predicate Stranded(d: Disk, o: Object) {
    HasLive(d, o) && HasNullified(d, o)
  }

  /** With each directory in order, loading succeeds exactly when no object is
      stranded under its generated name. */
  lemma LoadableIff(d: Disk)
    requires Ordered(d)
    ensures Loadable(d) <==> forall o :: !(LiveAs(d, o, GeneratedName(o)) && HasNullified(d, o))
  {
    forall n | n in d.live && n in d.nullified
      ensures LiveAs(d, d.live[n].obj, GeneratedName(d.live[n].obj)) && HasNullified(d, d.live[n].obj)
    {
      GeneratedNameRoundTrip(d.nullified[n].obj);
    }
    hide GeneratedName, HasGeneratedShape;
  }

  /** And then each object has exactly one file unless some is stranded. */
  lemma ValidIff(d: Disk)
    requires Ordered(d)
    ensures Valid(d) <==> forall o :: !Stranded(d, o)
  {
    hide GeneratedName, HasGeneratedShape, Ordered;
    forall o, n | LiveAs(d, o, n) && !Stranded(d, o) ensures !HasNullified(d, o) {
      assert HasLive(d, o);
    }
  }

  // ------------------------------------------------------------------
  // File operations

  /** The file written into the directory its status names. */
  function Put(d: Disk, f: File, n: string): Disk {
    if f.status.Nullified? then d.(nullified := d.nullified[n := f]) else d.(live := d.live[n := f])
  }

  /** And its namesake gone from the other. */
  function Written(d: Disk, f: File, n: string): Disk {
    var e := Put(d, f, n);
    if f.status.Nullified? then e.(live := e.live - {n}) else e.(nullified := e.nullified - {n})
  }

  function Renamed(d: Disk, from: string, to: string): Disk
    requires from in d.live
  {
    d.(live := (d.live - {from})[to := d.live[from]])
  }

  /** `o` has a live file of status `st`. */
  ghost predicate Shows(d: Disk, o: Object, st: Status) {
    exists n :: LiveAs(d, o, n) && d.live[n].status == st
  }

  /** `o` has been on chain: its file is live or nullified. */
  ghost predicate Known(d: Disk, o: Object) {
    HasNullified(d, o) || Shows(d, o, Live)
  }
}
