/** Bringing object files in line with the chain, one file operation at a time:
    how far a store `d` may have got from the store `s` it started from, and
    why every stopping point leads to the same end. */
module Reconcile {
  import opened Naming
  import opened ObjectStore

  /** The objects to nullify, those to make live, those that may change their
      name, the stranded ones whose nullified copy may go again, and those whose
      files are as they should be. */
  datatype Plan = Plan(
    spent: set<Object>, made: set<Object>, movers: set<Object>, freed: set<Object>, kept: set<Object>)

  /** The live file `f` named `n` may have come from `g` named `m`. */
  predicate ComesFrom(p: Plan, g: File, m: string, f: File, n: string) {
    && f.obj == g.obj && f.tx == g.tx
    && (n == m || (f.obj in p.movers && !f.status.Unknown? && !HasGeneratedShape(n)))
    && (f.status == g.status || (f.status.Live? && g.status.Unknown? && f.obj in p.made))
    && (f.obj in p.kept ==> f.txHash == g.txHash)
  }

  ghost predicate Origin(s: Disk, p: Plan, f: File, n: string) {
    exists m :: LiveAs(s, f.obj, m) && ComesFrom(p, s.live[m], m, f, n)
  }

  /** The nullified copies of `s` are still there, unless freed with their
      object live. */
  ghost predicate SpentKept(s: Disk, p: Plan, d: Disk) {
    forall o :: HasNullified(s, o) ==> HasNullified(d, o) || (o in p.freed && Shows(d, o, Live))
  }

  /** `d` is a point on the way from `s` to what `p` asks for: nothing else
      changed, and no object has been dropped before it was filed as spent. */
  ghost predicate Progress(s: Disk, p: Plan, d: Disk) {
    && Ordered(d) && d.discarded == s.discarded && SpentKept(s, p, d)
    && (forall n :: n in d.live ==> Origin(s, p, d.live[n], n))
    && (forall o :: HasNullified(d, o) ==> HasNullified(s, o) || o in p.spent)
    && (forall o :: HasLive(s, o) ==> HasLive(d, o) || (o in p.spent && HasNullified(d, o)))
  }

  /** All of `p` has been carried out. */
  ghost predicate Done(p: Plan, d: Disk) {
    && (forall n :: n in d.live ==> d.live[n].obj !in p.spent)
    && (forall n :: n in d.live && d.live[n].obj in p.made ==> !d.live[n].status.Unknown?)
  }

  lemma ProgressStarts(s: Disk, p: Plan)
    requires Ordered(s)
    ensures Progress(s, p, s)
  {
  }

  lemma ProgressIsOrdered(s: Disk, p: Plan, d: Disk)
    requires Progress(s, p, d)
    ensures Ordered(d)
  {
  }

  /** A live file whose object is not being spent was as stranded at the start. */
  lemma StrandedBefore(s: Disk, p: Plan, d: Disk, n: string)
    requires Progress(s, p, d) && n in d.live && HasNullified(d, d.live[n].obj) && d.live[n].obj !in p.spent
    ensures Stranded(s, d.live[n].obj)
  {
  }

  // ------------------------------------------------------------------
  // Each file operation stays on the way

  lemma FilingSpentProgresses(s: Disk, p: Plan, d: Disk, f: File)
    requires Progress(s, p, d) && f.status.Nullified? && f.obj in p.spent
    ensures Progress(s, p, d.(nullified := d.nullified[GeneratedName(f.obj) := f]))
  {
    var e := d.(nullified := d.nullified[GeneratedName(f.obj) := f]);
    forall o ensures HasNullified(e, o) <==> HasNullified(d, o) || o == f.obj {
      if GeneratedName(o) == GeneratedName(f.obj) { GeneratedNameInjective(o, f.obj); }
    }
    assert Ordered(e) by { hide GeneratedName, HasGeneratedShape; SameLive(d, e); }
    hide GeneratedName, HasGeneratedShape, HasNullified, Ordered;
    SameLive(d, e);
  }

  /** Stores with the same live directory show the same live objects. */
  lemma SameLive(d: Disk, e: Disk)
    requires e.live == d.live
    ensures forall o, m :: LiveAs(e, o, m) <==> LiveAs(d, o, m)
    ensures forall o :: HasLive(e, o) <==> HasLive(d, o)
    ensures forall o, st :: Shows(e, o, st) <==> Shows(d, o, st)
  {
  }

  /** Removing one live file takes its object's only one. */
  lemma WithoutLive(d: Disk, n: string)
    requires Ordered(d) && n in d.live
    ensures var e := d.(live := d.live - {n});
      && Ordered(e) && (forall o :: HasNullified(e, o) <==> HasNullified(d, o))
      && (forall o :: HasLive(e, o) <==> HasLive(d, o) && o != d.live[n].obj)
      && (forall o, st :: Shows(e, o, st) <==> Shows(d, o, st) && o != d.live[n].obj)
  {
    hide GeneratedName, HasGeneratedShape;
    var e := d.(live := d.live - {n});
    assert LiveAs(d, d.live[n].obj, n);
    assert forall o, m :: LiveAs(e, o, m) <==> LiveAs(d, o, m) && o != d.live[n].obj;
    hide Ordered, HasNullified;
    forall o ensures HasLive(e, o) <==> HasLive(d, o) && o != d.live[n].obj {
      if HasLive(d, o) && o != d.live[n].obj { var m :| LiveAs(d, o, m); assert LiveAs(e, o, m); }
    }
    forall o, st ensures Shows(e, o, st) <==> Shows(d, o, st) && o != d.live[n].obj {
      if Shows(d, o, st) && o != d.live[n].obj {
        var m :| LiveAs(d, o, m) && d.live[m].status == st;
        assert LiveAs(e, o, m);
      }
    }
  }

  lemma RemovingSpentProgresses(s: Disk, p: Plan, d: Disk, n: string)
    requires Progress(s, p, d) && n in d.live && p.spent !! p.freed
    requires d.live[n].obj in p.spent && HasNullified(d, d.live[n].obj)
    ensures Progress(s, p, d.(live := d.live - {n}))
  {
    WithoutLive(d, n);
    hide GeneratedName, HasGeneratedShape, HasNullified, Ordered, HasLive, Shows;
  }

  /** `f` is the spent version of the live file `n`, planned to be nullified. */
  ghost predicate Spendable(s: Disk, p: Plan, d: Disk, f: File, n: string) {
    Progress(s, p, d) && p.spent !! p.freed && LiveAs(d, f.obj, n) && f.obj in p.spent && f.status.Nullified?
  }

  lemma NamesakeIsItself(d: Disk, o: Object, n: string)
    requires Ordered(d) && LiveAs(d, o, n)
    ensures GeneratedName(o) in d.live ==> GeneratedName(o) == n
  {
    var g := GeneratedName(o);
    if g in d.live {
      GeneratedNameRoundTrip(o);
      GeneratedNameInjective(o, d.live[g].obj);
      assert LiveAs(d, o, g);
    }
  }

  /** Every stopping point of nullifying a file is on the way. */
  lemma NullifyingProgresses(s: Disk, p: Plan, d: Disk, f: File, n: string)
    requires Spendable(s, p, d, f, n)
    ensures var g := GeneratedName(f.obj);
      && Progress(s, p, Put(d, f, g)) && Progress(s, p, Written(d, f, g))
      && Progress(s, p, Put(d, f, g).(live := d.live - {n}))
      && Written(d, f, g).live == if g == n then d.live - {n} else d.live
  {
    hide GeneratedName, Ordered, HasLive, Origin, HasGeneratedShape, SpentKept;
    var g := GeneratedName(f.obj);
    NamesakeIsItself(d, f.obj, n);
    FilingSpentProgresses(s, p, d, f);
    var e := Put(d, f, g);
    assert HasNullified(e, f.obj);
    hide Progress;
    RemovingSpentProgresses(s, p, e, n);
    if g !in d.live { assert d.live - {g} == d.live; }
  }

  /** Stopping after a spent file is written and before its live file is
      removed leaves the object in two files, and blocks loading exactly when
      the live file has the generated name. */
  lemma StrandedFileBlocksLoading(d: Disk, f: File, n: string)
    requires Valid(d) && f.status.Nullified? && LiveAs(d, f.obj, n)
    ensures var e := Put(d, f, GeneratedName(f.obj));
      && Stranded(e, f.obj) && !Valid(e)
      && (Loadable(e) <==> n != GeneratedName(f.obj))
  {
    ValidIsLoadable(d);
    NamesakeIsItself(d, f.obj, n);
    var e := Put(d, f, GeneratedName(f.obj));
    assert LiveAs(e, f.obj, n) && HasNullified(e, f.obj);
    hide GeneratedName, HasGeneratedShape, Ordered;
  }

  lemma RewritingKeepsOrder(d: Disk, n: string, f: File)
    requires Ordered(d) && n in d.live && f.obj == d.live[n].obj && !f.status.Nullified?
    ensures var e := d.(live := d.live[n := f]);
      && Ordered(e) && (forall o :: HasNullified(e, o) <==> HasNullified(d, o))
      && (forall o :: HasLive(e, o) <==> HasLive(d, o))
    ensures (d.live[n].status.Live? ==> f.status.Live?) ==>
      forall o :: Shows(d, o, Live) ==> Shows(d.(live := d.live[n := f]), o, Live)
  {
    var e := d.(live := d.live[n := f]);
    hide GeneratedName, HasGeneratedShape;
    assert forall o, m :: LiveAs(e, o, m) <==> LiveAs(d, o, m);
    forall o ensures HasLive(e, o) <==> HasLive(d, o) {
      if HasLive(d, o) { var m :| LiveAs(d, o, m); assert LiveAs(e, o, m); }
      if HasLive(e, o) { var m :| LiveAs(e, o, m); assert LiveAs(d, o, m); }
    }
    if d.live[n].status.Live? ==> f.status.Live? {
      forall o | Shows(d, o, Live) ensures Shows(e, o, Live) {
        var m :| LiveAs(d, o, m) && d.live[m].status == Live;
        assert LiveAs(e, o, m);
      }
    }
  }

  /** A live file rewritten in place, its status unchanged or made live as planned. */
  lemma RewritingProgresses(s: Disk, p: Plan, d: Disk, n: string, f: File)
    requires Progress(s, p, d) && n in d.live
    requires f.obj == d.live[n].obj && f.tx == d.live[n].tx
    requires f.status == d.live[n].status || (f.status.Live? && d.live[n].status.Unknown? && f.obj in p.made)
    requires f.obj in p.kept ==> f.txHash == d.live[n].txHash
    ensures Progress(s, p, d.(live := d.live[n := f]))
  {
    var e := d.(live := d.live[n := f]);
    RewritingKeepsOrder(d, n, f);
    assert Origin(s, p, d.live[n], n);
    var m :| LiveAs(s, f.obj, m) && ComesFrom(p, s.live[m], m, d.live[n], n);
    assert ComesFrom(p, s.live[m], m, f, n);
    hide Ordered, HasNullified, HasLive, Shows;
  }

  /** A nullified file rewritten in place. */
  lemma RewritingSpentProgresses(s: Disk, p: Plan, d: Disk, n: string, f: File)
    requires Progress(s, p, d) && n in d.nullified
    requires f.obj == d.nullified[n].obj && f.status.Nullified?
    ensures Progress(s, p, d.(nullified := d.nullified[n := f]))
  {
    var e := d.(nullified := d.nullified[n := f]);
    hide GeneratedName, HasGeneratedShape;
    assert forall o :: HasNullified(d, o) <==> HasNullified(e, o);
    SameLive(d, e);
    assert Ordered(e);
    hide Ordered, HasNullified, HasLive, Shows;
  }

  /** The nullified copy of a live file goes: its object is live in one file. */
  lemma WithoutNullified(d: Disk, n: string)
    requires Ordered(d) && n in d.live && n in d.nullified
    ensures var e := d.(nullified := d.nullified - {n});
      && Ordered(e) && n == GeneratedName(d.live[n].obj)
      && (forall o :: HasNullified(e, o) <==> HasNullified(d, o) && o != d.live[n].obj)
      && (forall o :: HasLive(e, o) <==> HasLive(d, o)) && (forall o, st :: Shows(e, o, st) <==> Shows(d, o, st))
  {
    var e := d.(nullified := d.nullified - {n});
    GeneratedNameRoundTrip(d.nullified[n].obj);
    assert n == GeneratedName(d.live[n].obj);
    SameLive(d, e);
    forall o ensures HasNullified(e, o) <==> HasNullified(d, o) && o != d.live[n].obj {
      if GeneratedName(o) == n { GeneratedNameInjective(o, d.live[n].obj); }
    }
    hide GeneratedName, HasGeneratedShape;
  }

  lemma FreeingProgresses(s: Disk, p: Plan, d: Disk, n: string)
    requires Progress(s, p, d) && n in d.live && n in d.nullified
    requires d.live[n].obj in p.freed && d.live[n].status.Live?
    ensures Progress(s, p, d.(nullified := d.nullified - {n}))
  {
    WithoutNullified(d, n);
    assert LiveAs(d, d.live[n].obj, n);
    assert Shows(d, d.live[n].obj, Live);
    assert HasLive(d, d.live[n].obj);
    hide GeneratedName, HasGeneratedShape, HasNullified, Ordered, HasLive, Shows;
    var e := d.(nullified := d.nullified - {n});
    forall o | HasLive(s, o) ensures HasLive(e, o) || (o in p.spent && HasNullified(e, o)) {
      assert HasLive(d, o) || (o in p.spent && HasNullified(d, o));
    }
  }

  lemma RenamingKeepsOrder(d: Disk, from: string, to: string)
    requires Ordered(d) && from in d.live && to !in d.live && OwnName(to, d.live[from].obj)
    ensures var e := Renamed(d, from, to);
      && Ordered(e) && (forall o :: HasNullified(e, o) <==> HasNullified(d, o))
      && (forall o :: HasLive(e, o) <==> HasLive(d, o)) && (forall o, st :: Shows(d, o, st) <==> Shows(e, o, st))
  {
    var e := Renamed(d, from, to);
    hide GeneratedName, HasGeneratedShape;
    assert forall o, m ::
      LiveAs(e, o, m) <==> if m == to then o == d.live[from].obj else LiveAs(d, o, m) && m != from;
    assert LiveAs(d, d.live[from].obj, from);
    hide Ordered;
    forall o ensures HasLive(e, o) <==> HasLive(d, o) {
      if HasLive(d, o) { var m :| LiveAs(d, o, m); assert LiveAs(e, o, if m == from then to else m); }
      if HasLive(e, o) { var m :| LiveAs(e, o, m); assert LiveAs(d, o, if m == to then from else m); }
    }
    forall o, st ensures Shows(e, o, st) <==> Shows(d, o, st) {
      if Shows(d, o, st) {
        var m :| LiveAs(d, o, m) && d.live[m].status == st;
        assert LiveAs(e, o, if m == from then to else m);
      }
      if Shows(e, o, st) {
        var m :| LiveAs(e, o, m) && e.live[m].status == st;
        assert LiveAs(d, o, if m == to then from else m);
      }
    }
  }

  lemma RenamingProgresses(s: Disk, p: Plan, d: Disk, from: string, to: string)
    requires Progress(s, p, d) && from in d.live && to !in d.live
    requires d.live[from].obj in p.movers && !d.live[from].status.Unknown? && !HasGeneratedShape(to)
    ensures Progress(s, p, Renamed(d, from, to))
  {
    var e := Renamed(d, from, to);
    RenamingKeepsOrder(d, from, to);
    assert Origin(s, p, d.live[from], from);
    var m :| LiveAs(s, e.live[to].obj, m) && ComesFrom(p, s.live[m], m, d.live[from], from);
    assert ComesFrom(p, s.live[m], m, e.live[to], to);
    hide Ordered, HasNullified, HasLive, Shows, GeneratedName, HasGeneratedShape;
  }

  // ------------------------------------------------------------------
  // The end

  /** The same objects, in the same directories and with the same statuses. */
  ghost predicate SameView(d: Disk, e: Disk) {
    && (forall o, st :: Shows(d, o, st) <==> Shows(e, o, st))
    && (forall o :: HasNullified(d, o) <==> HasNullified(e, o))
  }

  /** The view a plan leads to, in terms of the start alone. */
  ghost predicate PlannedStatus(s: Disk, p: Plan, o: Object, st: Status) {
    && o !in p.spent
    && if o in p.made then (st.Live? && (Shows(s, o, Unknown) || Shows(s, o, Live))) else Shows(s, o, st)
  }

  lemma DoneLive(s: Disk, p: Plan, d: Disk, o: Object, st: Status)
    requires Ordered(s) && Progress(s, p, d) && Done(p, d)
    ensures Shows(d, o, st) <==> PlannedStatus(s, p, o, st)
  {
    hide GeneratedName, HasGeneratedShape, HasNullified, SpentKept;
    if Shows(d, o, st) {
      var n :| LiveAs(d, o, n) && d.live[n].status == st;
      assert Origin(s, p, d.live[n], n);
      var m :| LiveAs(s, o, m) && ComesFrom(p, s.live[m], m, d.live[n], n);
    }
    if PlannedStatus(s, p, o, st) {
      var m :| LiveAs(s, o, m);
      assert HasLive(s, o);
      var n :| LiveAs(d, o, n);
      assert Origin(s, p, d.live[n], n);
      var k :| LiveAs(s, o, k) && ComesFrom(p, s.live[k], k, d.live[n], n);
      assert k == m;
    }
  }

  lemma DoneSpent(s: Disk, p: Plan, d: Disk, o: Object)
    requires Ordered(s) && Progress(s, p, d) && Done(p, d) && p.freed == {}
    requires forall o :: o in p.spent ==> HasLive(s, o)
    ensures HasNullified(d, o) <==> HasNullified(s, o) || o in p.spent
  {
  }

  /** Whatever the path, a finished reconciliation ends in the same view. */
  lemma DoneIsUnique(s: Disk, p: Plan, d: Disk, e: Disk)
    requires Ordered(s) && p.freed == {} && (forall o :: o in p.spent ==> HasLive(s, o))
    requires Progress(s, p, d) && Done(p, d) && Progress(s, p, e) && Done(p, e)
    ensures SameView(d, e)
  {
    hide GeneratedName, HasGeneratedShape, Progress, Done, PlannedStatus;
    forall o, st ensures Shows(d, o, st) <==> Shows(e, o, st) {
      DoneLive(s, p, d, o, st);
      DoneLive(s, p, e, o, st);
    }
    forall o ensures HasNullified(d, o) <==> HasNullified(e, o) {
      DoneSpent(s, p, d, o);
      DoneSpent(s, p, e, o);
    }
  }

  /** After it each object has exactly one file, exactly when every object
      stranded before was one it had to nullify. */
  lemma DoneValidIff(s: Disk, p: Plan, d: Disk)
    requires Ordered(s) && Progress(s, p, d) && Done(p, d) && p.freed == {}
    ensures Valid(d) <==> forall o :: Stranded(s, o) ==> o in p.spent
  {
  }

  /** An object stranded, and neither to be nullified nor freed, stays so, and
      keeps its name unless it may change it. */
  lemma StrandedStays(s: Disk, p: Plan, d: Disk, o: Object, n: string)
    requires Ordered(s) && Progress(s, p, d) && LiveAs(s, o, n) && HasNullified(s, o)
    requires o !in p.spent && o !in p.freed
    ensures Stranded(d, o) && (o !in p.movers ==> LiveAs(d, o, n))
  {
  }

  /** Nothing to do: any progress is then none that shows. */
  lemma NothingPlanned(s: Disk, p: Plan, d: Disk)
    requires Ordered(s) && Progress(s, p, d) && p.spent == {} && p.made == {} && p.freed == {}
    ensures SameView(s, d)
  {
    ProgressStarts(s, p);
    hide GeneratedName, HasGeneratedShape, Progress;
    DoneIsUnique(s, p, s, d);
  }

  /** No stopping point loses an object, makes a known one unknown, or, but for
      a freed one, takes a nullified one back. */
  lemma ProgressKeeps(s: Disk, p: Plan, d: Disk)
    requires Ordered(s) && Progress(s, p, d)
    ensures forall o :: Has(s, o) ==> Has(d, o)
    ensures forall o :: Known(s, o) ==> Known(d, o)
    ensures forall o :: HasNullified(s, o) && o !in p.freed ==> HasNullified(d, o)
  {
  }
}
