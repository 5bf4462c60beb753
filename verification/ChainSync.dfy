/** Moving object files forward to what the chain's created and nullifier sets
    say about them. */
module ChainSync {
  import opened Wrappers
  import opened Naming
  import opened ObjectStore
  import opened Reconcile
  import opened Settlement

  /** The chain's answer about the scanned objects. */
  datatype Membership = Membership(created: set<Object>, spent: set<Object>)

  /** A file only moves forward, to live and then to nullified. */
  function ChainFileStatus(f: File, m: Membership): (st: Status)
    ensures f.obj in m.spent || f.status.Nullified? <==> st.Nullified?
    ensures f.status.Live? ==> !st.Unknown?
    ensures st.Unknown? ==> f.obj !in m.created
  {
    match f.status
    case Nullified => Nullified
    case _ =>
      if f.obj in m.spent then Nullified
      else if f.status.Unknown? && f.obj in m.created then Live
      else f.status
  }

  function Synced(f: File, m: Option<Membership>, txHash: Option<nat>): File {
    f.(status := if m.Some? then ChainFileStatus(f, m.value) else f.status,
       txHash := if txHash.Some? then txHash else f.txHash)
  }

  lemma SyncedKeepsObject(f: File, m: Option<Membership>, txHash: Option<nat>)
    ensures Synced(f, m, txHash).obj == f.obj && Synced(f, m, txHash).tx == f.tx
    ensures f.status.Nullified? ==> Synced(f, m, txHash).status.Nullified?
    ensures Synced(f, m, txHash).status.Nullified? && !f.status.Nullified? ==> m.Some? && f.obj in m.value.spent
    ensures f.status.Unknown? && Synced(f, m, txHash).status.Live? ==> m.Some? && f.obj in m.value.created
    ensures f.status.Live? ==> !Synced(f, m, txHash).status.Unknown?
  {
  }

  function ChainPlan(s: Disk, m: Option<Membership>): Plan {
    if m.None? then Plan({}, {}, {}, {}, {})
    else Plan(
      set n | n in s.live && s.live[n].obj in m.value.spent :: s.live[n].obj,
      set n | n in s.live && s.live[n].status.Unknown? && s.live[n].obj in m.value.created :: s.live[n].obj,
      {}, {}, {})
  }

  lemma ChainPlanFrees(s: Disk, m: Option<Membership>)
    ensures ChainPlan(s, m).freed == ChainPlan(s, m).kept == {}
  {
  }

  /** A pass over the store `s`, which could be loaded, has got to `d`. */
  ghost predicate Syncing(s: Disk, m: Option<Membership>, d: Disk) {
    Ordered(s) && Loadable(s) && Progress(s, ChainPlan(s, m), d)
  }

  /** The file named `n` is as scanned, or, if nullified, of the same object. */
  predicate Untouched(s: Disk, d: Disk, n: string) {
    && (n in s.live ==> n in d.live && d.live[n] == s.live[n])
    && (n in s.nullified ==> n in d.nullified && d.nullified[n].obj == s.nullified[n].obj && n !in d.live)
  }

  /** The file named `n`, if live, is as planned. */
  predicate AsPlanned(p: Plan, d: Disk, n: string) {
    n in d.live ==> d.live[n].obj !in p.spent && (d.live[n].obj in p.made ==> !d.live[n].status.Unknown?)
  }

  /** The status a live file may be rewritten with, unless newly spent. */
  predicate StatusAllowed(p: Plan, f: File, st: Status) {
    st.Nullified? || st == f.status || (st.Live? && f.status.Unknown? && f.obj in p.made)
  }

  /** A scanned file is newly spent exactly when it is live and planned to be. */
  lemma NewlySpentIsPlanned(s: Disk, m: Option<Membership>, d: Disk, n: string, txHash: Option<nat>)
    requires Syncing(s, m, d) && Untouched(s, d, n)
    ensures n in s.live ==>
      (d.live[n].obj in ChainPlan(s, m).spent <==> Synced(s.live[n], m, txHash).status.Nullified?)
    ensures n in s.live ==> StatusAllowed(ChainPlan(s, m), s.live[n], Synced(s.live[n], m, txHash).status)
    ensures n in s.live ==> !s.live[n].status.Nullified?
    ensures n in s.nullified ==> s.nullified[n].status.Nullified?
  {
  }

  /** The name of a live file not being spent is free in the nullified directory. */
  lemma UnspentNameIsFree(s: Disk, m: Option<Membership>, d: Disk, n: string)
    requires Syncing(s, m, d) && n in d.live && d.live[n].obj !in ChainPlan(s, m).spent
    ensures n !in d.nullified
  {
    var p := ChainPlan(s, m);
    assert Origin(s, p, d.live[n], n);
    assert LiveAs(s, d.live[n].obj, n);
    if n in d.nullified {
      ProgressIsOrdered(s, p, d);
      WithoutNullified(d, n);
      assert HasNullified(d, d.live[n].obj);
      StrandedBefore(s, p, d, n);
    }
  }

  /** Rewriting a scanned live file that is not newly spent. */
  lemma LiveRewriteSyncs(s: Disk, m: Option<Membership>, d: Disk, n: string, txHash: Option<nat>)
    requires Syncing(s, m, d) && Untouched(s, d, n) && n in s.live
    requires !Synced(s.live[n], m, txHash).status.Nullified?
    ensures var g := Synced(s.live[n], m, txHash);
      Put(d, g, n) == Written(d, g, n) == d.(live := d.live[n := g]) && Syncing(s, m, Put(d, g, n))
  {
    hide ChainPlan, GeneratedName, HasGeneratedShape, Ordered, Progress;
    var p, g := ChainPlan(s, m), Synced(s.live[n], m, txHash);
    NewlySpentIsPlanned(s, m, d, n, txHash);
    UnspentNameIsFree(s, m, d, n);
    assert d.nullified - {n} == d.nullified;
    ChainPlanFrees(s, m);
    RewritingProgresses(s, p, d, n, g);
  }

  lemma NullifiedRewriteSyncs(s: Disk, m: Option<Membership>, d: Disk, n: string, txHash: Option<nat>)
    requires Syncing(s, m, d) && Untouched(s, d, n) && n in s.nullified
    ensures var g := Synced(s.nullified[n], m, txHash);
      Put(d, g, n) == Written(d, g, n) == d.(nullified := d.nullified[n := g]) && Syncing(s, m, Put(d, g, n))
  {
    var p, g := ChainPlan(s, m), Synced(s.nullified[n], m, txHash);
    NewlySpentIsPlanned(s, m, d, n, txHash);
    hide ChainPlan, GeneratedName, HasGeneratedShape, Ordered, Progress;
    assert d.live - {n} == d.live;
    RewritingSpentProgresses(s, p, d, n, g);
  }

  /** `f` is the scanned file named `n`. */
  ghost predicate Scanned(s: Disk, m: Option<Membership>, d: Disk, n: string, f: File) {
    && Syncing(s, m, d) && Untouched(s, d, n)
    && ((n in s.live && f == s.live[n]) || (n in s.nullified && f == s.nullified[n]))
  }

  /** No other live file differs. */
  ghost predicate SameElsewhere(d: Disk, e: Disk, n: string) {
    && (forall k :: k != n ==> (k in d.live <==> k in e.live))
    && (forall k :: k != n && k in d.live && k in e.live ==> d.live[k] == e.live[k])
  }

  lemma RemovalIsElsewhere(d: Disk, e: Disk, n: string)
    requires e.live == d.live || e.live == d.live - {n}
    ensures SameElsewhere(d, e, n)
  {
  }

  /** Nullifying one scanned file leaves every other as scanned. */
  lemma NullifyingLeavesOthers(s: Disk, m: Option<Membership>, d: Disk, e: Disk, n: string, g: File)
    requires Syncing(s, m, d) && SameElsewhere(d, e, n)
    requires e.nullified == d.nullified || e.nullified == d.nullified[GeneratedName(g.obj) := g]
    ensures forall k :: k != n && Untouched(s, d, k) ==> Untouched(s, e, k)
  {
    ProgressIsOrdered(s, ChainPlan(s, m), d);
    var name := GeneratedName(g.obj);
    if name in d.nullified { GeneratedNameInjective(g.obj, d.nullified[name].obj); }
    hide Syncing, GeneratedName, HasGeneratedShape;
    forall k | k != n && Untouched(s, d, k) ensures Untouched(s, e, k) {}
  }

  lemma AllAsPlannedIsDone(s: Disk, m: Option<Membership>, d: Disk)
    requires Syncing(s, m, d) && forall n :: n in s.live ==> AsPlanned(ChainPlan(s, m), d, n)
    ensures Done(ChainPlan(s, m), d)
  {
  }

  /** What a finished pass leaves: exactly the objects whose nullifier is on
      chain moved, every other keeps or gains its place. Each object has one
      file exactly when those stranded before were among the spent ones. */
  lemma SyncedView(s: Disk, m: Membership, d: Disk, o: Object)
    requires Syncing(s, Some(m), d) && Done(ChainPlan(s, Some(m)), d)
    ensures HasNullified(d, o) <==> HasNullified(s, o) || (HasLive(s, o) && o in m.spent)
    ensures Shows(d, o, Live) <==> o !in m.spent && (Shows(s, o, Live) || (Shows(s, o, Unknown) && o in m.created))
    ensures Shows(d, o, Unknown) <==> o !in m.spent && Shows(s, o, Unknown) && o !in m.created
    ensures Valid(d) <==> forall q :: Stranded(s, q) ==> q in m.spent
  {
    var p := ChainPlan(s, Some(m));
    forall q ensures q in p.spent <==> HasLive(s, q) && q in m.spent { PlanMembers(s, m, q); }
    PlanMembers(s, m, o);
    hide ChainPlan, GeneratedName, HasGeneratedShape, Progress, Done, Loadable;
    DoneSpent(s, p, d, o);
    DoneLive(s, p, d, o, Live);
    DoneLive(s, p, d, o, Unknown);
    DoneValidIff(s, p, d);
    ShownOnce(s, o);
  }

  lemma ShownOnce(s: Disk, o: Object)
    requires Ordered(s)
    ensures !(Shows(s, o, Live) && Shows(s, o, Unknown))
    ensures Shows(s, o, Live) || Shows(s, o, Unknown) <==> HasLive(s, o)
  {
  }

  lemma PlanMembers(s: Disk, m: Membership, o: Object)
    requires Ordered(s)
    ensures o in ChainPlan(s, Some(m)).spent <==> HasLive(s, o) && o in m.spent
    ensures o in ChainPlan(s, Some(m)).made <==> Shows(s, o, Unknown) && o in m.created
  {
    if HasLive(s, o) && o in m.spent {
      var n :| LiveAs(s, o, n);
    }
    if o in ChainPlan(s, Some(m)).spent {
      var n :| n in s.live && s.live[n].obj == o && o in m.spent;
      assert LiveAs(s, o, n);
    }
    if o in ChainPlan(s, Some(m)).made {
      var n :| n in s.live && s.live[n].obj == o && s.live[n].status.Unknown? && o in m.created;
      assert LiveAs(s, o, n);
    }
  }

  // ------------------------------------------------------------------
  // Steps of the pass

  lemma SyncStarts(s: Disk, m: Option<Membership>)
    requires Ordered(s) && Loadable(s)
    ensures Syncing(s, m, s) && forall n :: Untouched(s, s, n)
  {
  }

  lemma EntryIsScanned(s: Disk, m: Option<Membership>, d: Disk, n: string)
    requires Syncing(s, m, d) && Untouched(s, d, n) && n in s.live + s.nullified
    ensures Scanned(s, m, d, n, (s.live + s.nullified)[n])
  {
  }

  lemma OthersStayPlanned(p: Plan, d: Disk, e: Disk, n: string)
    requires SameElsewhere(d, e, n)
    ensures forall k :: k != n && AsPlanned(p, d, k) ==> AsPlanned(p, e, k)
  {
  }
}
