/** Whether the store can feed an action: the greedy report of `check_action`
    against any way of filling the slots, and against what proving demands. */
module Feasibility {
  import opened Wrappers
  import opened ChainRules
  import opened Text
  import opened Naming
  import opened ObjectStore
  import opened Filters
  import opened Paths
  import Holds
  import StoreMoves
  import StoreTheorems

  /** An input slot; `hash` is its class hash, if readable. */
  datatype Slot = Slot(kind: string, hash: Option<nat>)

  /** A file: the object its content hash stands for, and the class and type it
      is recorded with. */
  datatype Entry = Entry(name: string, live: bool, kind: string, content: Object, typeHash: Option<nat>)

  /** Qualified class and committed type must both be the slot's. */
  predicate Matches(e: Entry, s: Slot) {
    e.kind == s.kind && s.hash.Some? && e.typeHash == s.hash
  }

  /** The entry may be an input now. */
  predicate Available(e: Entry, locked: set<string>, held: set<string>) {
    e.live && e.name !in locked && e.name !in held
  }

  /** An object is recorded with one class and type only. */
  predicate OneKindEach(es: seq<Entry>) {
    forall a, b :: a in es && b in es && a.content == b.content ==> a.kind == b.kind && a.typeHash == b.typeHash
  }

  // ------------------------------------------------------------------
  // Filling slots

  /** `pick` fills the slots with different objects of `es`, none `used`. */
  ghost predicate Fills(pick: seq<Entry>, es: seq<Entry>, used: set<Object>, slots: seq<Slot>) {
    && |pick| == |slots|
    && (forall i :: 0 <= i < |pick| ==> pick[i] in es && Matches(pick[i], slots[i]) && pick[i].content !in used)
    && (forall i, j :: 0 <= i < j < |pick| ==> pick[i].content != pick[j].content)
  }

  ghost predicate Fillable(es: seq<Entry>, used: set<Object>, slots: seq<Slot>) {
    exists pick :: Fills(pick, es, used, slots)
  }

  /** Whichever candidate the first slot takes, the others can still be filled
      if all could: another slot wanting it has the same candidates. */
  lemma Exchange(pick: seq<Entry>, es: seq<Entry>, used: set<Object>, slots: seq<Slot>, e: Entry)
    requires slots != [] && Fills(pick, es, used, slots) && OneKindEach(es)
    requires e in es && Matches(e, slots[0]) && e.content !in used
    ensures Fillable(es, used + {e.content}, slots[1..])
  {
    hide IsHashPrefix;
    var rest := slots[1..];
    if j :| 1 <= j < |pick| && pick[j].content == e.content {
      assert pick[j].kind == e.kind && pick[j].typeHash == e.typeHash;
      var other := pick[1..][j - 1 := pick[0]];
      assert forall i :: 0 <= i < |other| ==> other[i] == if i == j - 1 then pick[0] else pick[i + 1];
      assert Fills(other, es, used + {e.content}, rest);
    } else {
      assert Fills(pick[1..], es, used + {e.content}, rest);
    }
  }

  /** Greedy step: taking a candidate for the first slot decides nothing. */
  lemma GreedyStep(es: seq<Entry>, used: set<Object>, slots: seq<Slot>, e: Entry)
    requires slots != [] && OneKindEach(es)
    requires e in es && Matches(e, slots[0]) && e.content !in used
    ensures Fillable(es, used, slots) <==> Fillable(es, used + {e.content}, slots[1..])
  {
    hide OneKindEach, Matches, IsHashPrefix;
    if Fillable(es, used, slots) {
      var pick :| Fills(pick, es, used, slots);
      Exchange(pick, es, used, slots, e);
    }
    if Fillable(es, used + {e.content}, slots[1..]) {
      var pick :| Fills(pick, es, used + {e.content}, slots[1..]);
      assert Fills([e] + pick, es, used, slots);
    }
  }

  lemma NoCandidate(es: seq<Entry>, used: set<Object>, slots: seq<Slot>)
    requires slots != []
    requires forall e :: e in es && e.content !in used ==> !Matches(e, slots[0])
    ensures !Fillable(es, used, slots)
  {
    forall pick: seq<Entry> ensures !Fills(pick, es, used, slots) {
      if |pick| == |slots| { assert Matches(pick[0], slots[0]) ==> pick[0] !in es || pick[0].content in used; }
    }
  }

  /** The entries that may be inputs, in order. */
  function AvailableEntries(entries: seq<Entry>, locked: set<string>, held: set<string>): (r: seq<Entry>)
    ensures forall e :: e in r <==> e in entries && Available(e, locked, held)
  {
    if entries == [] then []
    else if Available(entries[0], locked, held) then [entries[0]] + AvailableEntries(entries[1..], locked, held)
    else AvailableEntries(entries[1..], locked, held)
  }

  /** The first unused match. */
  function FirstCandidate(es: seq<Entry>, used: set<Object>, s: Slot): (r: Option<Entry>)
    ensures r.Some? ==> r.value in es && Matches(r.value, s) && r.value.content !in used
    ensures r.None? ==> forall e :: e in es && e.content !in used ==> !Matches(e, s)
  {
    if es == [] then None
    else if Matches(es[0], s) && es[0].content !in used then Some(es[0])
    else FirstCandidate(es[1..], used, s)
  }

  method FindCandidate(es: seq<Entry>, used: set<Object>, s: Slot) returns (r: Option<Entry>)
    ensures r == FirstCandidate(es, used, s)
  {
    for i := 0 to |es|
      invariant FirstCandidate(es, used, s) == FirstCandidate(es[i..], used, s)
    {
      assert es[i..][0] == es[i] && es[i..][1..] == es[i + 1..];
      if Matches(es[i], s) && es[i].content !in used { return Some(es[i]); }
    }
    r := None;
  }

  /** What the report says: each slot in turn takes its first unused match. */
  datatype Report = Report(available: seq<Entry>, missing: seq<Slot>)

  function Reported(es: seq<Entry>, used: set<Object>, slots: seq<Slot>): Report
    decreases |slots|
  {
    if slots == [] then Report([], [])
    else
      var e := FirstCandidate(es, used, slots[0]);
      if e.Some? then
        var r := Reported(es, used + {e.value.content}, slots[1..]);
        Report([e.value] + r.available, r.missing)
      else
        var r := Reported(es, used, slots[1..]);
        Report(r.available, [slots[0]] + r.missing)
  }

  /** `r` after what was already reported. */
  function After(available: seq<Entry>, missing: seq<Slot>, r: Report): Report {
    Report(available + r.available, missing + r.missing)
  }

  method CheckSlots(es: seq<Entry>, slots: seq<Slot>) returns (available: seq<Entry>, missing: seq<Slot>)
    ensures Report(available, missing) == Reported(es, {}, slots)
  {
    available, missing := [], [];
    var used := {};
    assert slots[0..] == slots;
    for i := 0 to |slots|
      invariant Reported(es, {}, slots) == After(available, missing, Reported(es, used, slots[i..]))
    {
      assert slots[i..][0] == slots[i] && slots[i..][1..] == slots[i + 1..];
      var candidate := FindCandidate(es, used, slots[i]);
      if candidate.Some? {
        used := used + {candidate.value.content};
        AfterOne(available, missing, candidate.value, Reported(es, used, slots[i + 1..]));
        available := available + [candidate.value];
      } else {
        AfterMissing(available, missing, slots[i], Reported(es, used, slots[i + 1..]));
        missing := missing + [slots[i]];
      }
    }
  }

  lemma AfterOne(available: seq<Entry>, missing: seq<Slot>, e: Entry, r: Report)
    ensures After(available, missing, Report([e] + r.available, r.missing)) == After(available + [e], missing, r)
  {
  }

  lemma AfterMissing(available: seq<Entry>, missing: seq<Slot>, s: Slot, r: Report)
    ensures After(available, missing, Report(r.available, [s] + r.missing)) == After(available, missing + [s], r)
  {
  }

  /** A report without missing slots fills them all. */
  lemma {:induction false} CompleteReportFills(es: seq<Entry>, used: set<Object>, slots: seq<Slot>)
    ensures var r := Reported(es, used, slots);
      && |r.available| + |r.missing| == |slots|
      && (r.missing == [] ==> Fills(r.available, es, used, slots))
    decreases |slots|
  {
    if slots != [] {
      var e := FirstCandidate(es, used, slots[0]);
      if e.Some? {
        CompleteReportFills(es, used + {e.value.content}, slots[1..]);
      } else {
        CompleteReportFills(es, used, slots[1..]);
      }
    }
  }

  // ------------------------------------------------------------------
  // What a report says

  /** Every slot is in one of the two lists, which are in order. */
  ghost predicate IsSplit(n: nat, taken: seq<nat>, left: seq<nat>) {
    && IsIncreasing(taken) && IsIncreasing(left)
    && (forall k :: 0 <= k < |taken| ==> taken[k] < n) && (forall k :: 0 <= k < |left| ==> left[k] < n)
    && forall i: nat :: i < n ==> (i in taken <==> i !in left)
  }

  /** The entry may go to the slot: it matches, and its object is free. */
  predicate IsFree(e: Entry, s: Slot, used: set<Object>, before: seq<Entry>) {
    Matches(e, s) && e.content !in used && forall j :: 0 <= j < |before| ==> before[j].content != e.content
  }

  /** The first entry that may go to the slot. */
  ghost predicate IsFirstFree(es: seq<Entry>, e: Entry, s: Slot, used: set<Object>, before: seq<Entry>) {
    exists p :: 0 <= p < |es| && es[p] == e && IsFree(e, s, used, before) &&
      forall q :: 0 <= q < p ==> !IsFree(es[q], s, used, before)
  }

  /** The available entries go to the slots `taken`, in order, each the first that
      its slot may have after the earlier ones; the missing slots are those
      `left`, in order, and all matches of each have gone to earlier slots. */
  ghost predicate Explains(
    es: seq<Entry>, used: set<Object>, slots: seq<Slot>, r: Report, taken: seq<nat>, left: seq<nat>)
  {
    && IsSplit(|slots|, taken, left) && |taken| == |r.available| && |left| == |r.missing|
    && (forall k :: 0 <= k < |taken| ==>
          IsFirstFree(es, r.available[k], slots[taken[k]], used, r.available[..k]))
    && (forall k :: 0 <= k < |left| ==> r.missing[k] == slots[left[k]])
    && (forall k, e :: 0 <= k < |left| && e in es && Matches(e, slots[left[k]]) && e.content !in used ==>
          IsGone(r.available, taken, left[k], e.content))
  }

  /** The object went to a slot before `i`. */
  ghost predicate IsGone(available: seq<Entry>, taken: seq<nat>, i: nat, content: Object)
    requires |taken| == |available|
  {
    exists j :: 0 <= j < |taken| && taken[j] < i && available[j].content == content
  }

  lemma SplitShifts(n: nat, taken: seq<nat>, left: seq<nat>)
    requires IsSplit(n, taken, left)
    ensures IsSplit(n + 1, [0] + Shifted(taken), Shifted(left))
    ensures IsSplit(n + 1, Shifted(taken), [0] + Shifted(left))
  {
    forall i: nat | i <= n
      ensures i in Shifted(taken) <==> i > 0 && i - 1 in taken
      ensures i in Shifted(left) <==> i > 0 && i - 1 in left
    {
      if i > 0 { ShiftedMembers(taken, i - 1); ShiftedMembers(left, i - 1); }
    }
  }

  lemma {:induction false} FirstCandidateIsFirst(es: seq<Entry>, used: set<Object>, s: Slot) returns (p: nat)
    requires FirstCandidate(es, used, s).Some?
    ensures p < |es| && es[p] == FirstCandidate(es, used, s).value
    ensures forall q :: 0 <= q < p ==> !(Matches(es[q], s) && es[q].content !in used)
  {
    if Matches(es[0], s) && es[0].content !in used {
      p := 0;
    } else {
      var q := FirstCandidateIsFirst(es[1..], used, s);
      p := q + 1;
      assert es[1..][q] == es[p];
      assert forall k :: 0 < k < p ==> es[k] == es[1..][k - 1];
    }
  }

  lemma FirstFreeLater(es: seq<Entry>, e: Entry, s: Slot, used: set<Object>, first: Entry, before: seq<Entry>)
    requires IsFirstFree(es, e, s, used + {first.content}, before)
    ensures IsFirstFree(es, e, s, used, [first] + before)
  {
    var p :| 0 <= p < |es| && es[p] == e && IsFree(e, s, used + {first.content}, before) &&
      forall q :: 0 <= q < p ==> !IsFree(es[q], s, used + {first.content}, before);
    forall x: Entry ensures IsFree(x, s, used, [first] + before) <==> IsFree(x, s, used + {first.content}, before) {
      SameFree(x, s, used, first, before);
    }
  }

  lemma SameFree(x: Entry, s: Slot, used: set<Object>, first: Entry, before: seq<Entry>)
    ensures IsFree(x, s, used, [first] + before) <==> IsFree(x, s, used + {first.content}, before)
  {
    var more := [first] + before;
    assert more[0] == first && forall j :: 0 <= j < |before| ==> more[j + 1] == before[j];
  }

  /** Every report can be explained so. */
  lemma {:induction false} ReportExplained(es: seq<Entry>, used: set<Object>, slots: seq<Slot>)
    returns (taken: seq<nat>, left: seq<nat>)
    ensures Explains(es, used, slots, Reported(es, used, slots), taken, left)
    decreases |slots|
  {
    if slots == [] {
      taken, left := [], [];
    } else {
      var e := FirstCandidate(es, used, slots[0]);
      if e.Some? {
        var t, l := ReportExplained(es, used + {e.value.content}, slots[1..]);
        TakenExplained(es, used, slots, e.value, Reported(es, used + {e.value.content}, slots[1..]), t, l);
        taken, left := [0] + Shifted(t), Shifted(l);
      } else {
        var t, l := ReportExplained(es, used, slots[1..]);
        MissingExplained(es, used, slots, Reported(es, used, slots[1..]), t, l);
        taken, left := Shifted(t), [0] + Shifted(l);
      }
    }
  }

  lemma TakenExplained(
    es: seq<Entry>, used: set<Object>, slots: seq<Slot>, e: Entry, r: Report, t: seq<nat>, l: seq<nat>)
    requires slots != [] && FirstCandidate(es, used, slots[0]) == Some(e)
    requires Explains(es, used + {e.content}, slots[1..], r, t, l)
    ensures Explains(es, used, slots, Report([e] + r.available, r.missing), [0] + Shifted(t), Shifted(l))
  {
    hide IsHashPrefix, Matches, IsFirstFree, IsGone, IsIncreasing;
    var taken, left, available := [0] + Shifted(t), Shifted(l), [e] + r.available;
    SplitShifts(|slots| - 1, t, l);
    forall k | 0 <= k < |taken| ensures IsFirstFree(es, available[k], slots[taken[k]], used, available[..k]) {
      if k == 0 {
        FirstIsFirstFree(es, used, slots[0], e);
        assert available[..0] == [];
      } else {
        assert available[..k] == [e] + r.available[..k - 1];
        FirstFreeLater(es, available[k], slots[taken[k]], used, e, r.available[..k - 1]);
      }
    }
    forall k, x | 0 <= k < |left| && x in es && Matches(x, slots[left[k]]) && x.content !in used
      ensures IsGone(available, taken, left[k], x.content)
    {
      assert slots[1..][l[k]] == slots[left[k]];
      GoneLater(r.available, t, l[k], x.content, e);
    }
  }

  lemma FirstIsFirstFree(es: seq<Entry>, used: set<Object>, s: Slot, e: Entry)
    requires FirstCandidate(es, used, s) == Some(e)
    ensures IsFirstFree(es, e, s, used, [])
  {
    hide IsHashPrefix, Matches;
    var p := FirstCandidateIsFirst(es, used, s);
    assert IsFree(e, s, used, []);
  }

  lemma GoneLater(available: seq<Entry>, t: seq<nat>, i: nat, content: Object, e: Entry)
    requires |t| == |available| && (content == e.content || IsGone(available, t, i, content))
    ensures IsGone([e] + available, [0] + Shifted(t), i + 1, content)
  {
    var taken, more := [0] + Shifted(t), [e] + available;
    if content == e.content {
      assert more[0].content == content && taken[0] < i + 1;
    } else {
      var j :| 0 <= j < |t| && t[j] < i && available[j].content == content;
      assert more[j + 1].content == content && taken[j + 1] < i + 1;
    }
  }

  lemma MissingExplained(es: seq<Entry>, used: set<Object>, slots: seq<Slot>, r: Report, t: seq<nat>, l: seq<nat>)
    requires slots != [] && FirstCandidate(es, used, slots[0]).None?
    requires Explains(es, used, slots[1..], r, t, l)
    ensures Explains(es, used, slots, Report(r.available, [slots[0]] + r.missing), Shifted(t), [0] + Shifted(l))
  {
    hide IsHashPrefix, Matches, IsFirstFree, IsGone, IsIncreasing, FirstCandidate;
    var taken, left := Shifted(t), [0] + Shifted(l);
    SplitShifts(|slots| - 1, t, l);
    forall k, x | 0 <= k < |left| && x in es && Matches(x, slots[left[k]]) && x.content !in used
      ensures IsGone(r.available, taken, left[k], x.content)
    {
      if k > 0 {
        assert slots[1..][l[k - 1]] == slots[left[k]];
        GoneShifted(r.available, t, l[k - 1], x.content);
      }
    }
  }

  lemma GoneShifted(available: seq<Entry>, t: seq<nat>, i: nat, content: Object)
    requires |t| == |available| && IsGone(available, t, i, content)
    ensures IsGone(available, Shifted(t), i + 1, content)
  {
    var j :| 0 <= j < |t| && t[j] < i && available[j].content == content;
    assert Shifted(t)[j] < i + 1;
  }

  // ------------------------------------------------------------------
  // The same in terms of all the store's entries

  /** The entry may go to the slot after those of `before`: it is live and neither
      locked nor held, its class and its committed type are the slot's, and its
      object has not been used. */
  ghost predicate IsCandidate(e: Entry, s: Slot, locked: set<string>, held: set<string>, before: seq<Entry>) {
    && e.live && e.name !in locked && e.name !in held
    && e.kind == s.kind && s.hash.Some? && e.typeHash == s.hash
    && forall j :: 0 <= j < |before| ==> before[j].content != e.content
  }

  /** The first entry that may. */
  ghost predicate IsFirstCandidate(
    entries: seq<Entry>, e: Entry, s: Slot, locked: set<string>, held: set<string>, before: seq<Entry>)
  {
    exists p :: 0 <= p < |entries| && entries[p] == e && IsCandidate(e, s, locked, held, before) &&
      forall q :: 0 <= q < p ==> !IsCandidate(entries[q], s, locked, held, before)
  }

  /** The slots `taken` got each its first candidate after the earlier ones, in
      order; those `left` are the missing ones, in order, and every entry that
      would do for one of them has its object in an earlier slot. */
  ghost predicate Tells(
    entries: seq<Entry>, locked: set<string>, held: set<string>, slots: seq<Slot>, r: Report, taken: seq<nat>,
    left: seq<nat>)
  {
    && IsSplit(|slots|, taken, left) && |taken| == |r.available| && |left| == |r.missing|
    && (forall k :: 0 <= k < |taken| ==>
          IsFirstCandidate(entries, r.available[k], slots[taken[k]], locked, held, r.available[..k]))
    && (forall k :: 0 <= k < |left| ==> r.missing[k] == slots[left[k]])
    && (forall k, e :: 0 <= k < |left| && e in entries && IsCandidate(e, slots[left[k]], locked, held, []) ==>
          IsGone(r.available, taken, left[k], e.content))
  }

  lemma {:induction false} AvailableInOrder(entries: seq<Entry>, locked: set<string>, held: set<string>)
    ensures IsKept(entries, IsAvailable(locked, held), AvailableEntries(entries, locked, held))
  {
    hide IsKept;
    if entries == [] {
      NoneKept(IsAvailable(locked, held));
    } else {
      var rest := AvailableEntries(entries[1..], locked, held);
      AvailableInOrder(entries[1..], locked, held);
      KeptBehind(entries, IsAvailable(locked, held), rest);
      assert [] + rest == rest;
    }
  }

  function IsAvailable(locked: set<string>, held: set<string>): Entry -> bool {
    (e: Entry) => Available(e, locked, held)
  }

  lemma CandidateIsFree(e: Entry, s: Slot, locked: set<string>, held: set<string>, before: seq<Entry>)
    ensures IsCandidate(e, s, locked, held, before) <==> Available(e, locked, held) && IsFree(e, s, {}, before)
  {
  }

  lemma FirstOfAll(
    entries: seq<Entry>, e: Entry, s: Slot, locked: set<string>, held: set<string>, before: seq<Entry>)
    requires IsFirstFree(AvailableEntries(entries, locked, held), e, s, {}, before)
    ensures IsFirstCandidate(entries, e, s, locked, held, before)
  {
    hide IsHashPrefix, IsFree, Available, IsCandidate, ArePositions, AvailableEntries;
    var es := AvailableEntries(entries, locked, held);
    var p :| 0 <= p < |es| && es[p] == e && IsFree(e, s, {}, before) &&
      forall q :: 0 <= q < p ==> !IsFree(es[q], s, {}, before);
    AvailableInOrder(entries, locked, held);
    var ks: seq<nat> :| ArePositions(entries, IsAvailable(locked, held), ks) && IsAt(entries, es, ks);
    CandidateIsFree(e, s, locked, held, before);
    assert entries[ks[p]] == e;
    forall q | 0 <= q < ks[p] ensures !IsCandidate(entries[q], s, locked, held, before) {
      CandidateIsFree(entries[q], s, locked, held, before);
      if Available(entries[q], locked, held) {
        var j := EarlierKept(entries, IsAvailable(locked, held), es, ks, p, q);
      }
    }
  }

  lemma ExplainedTells(
    entries: seq<Entry>, locked: set<string>, held: set<string>, slots: seq<Slot>, r: Report, taken: seq<nat>,
    left: seq<nat>)
    requires Explains(AvailableEntries(entries, locked, held), {}, slots, r, taken, left)
    ensures Tells(entries, locked, held, slots, r, taken, left)
  {
    hide IsHashPrefix, IsFirstFree, IsFirstCandidate, IsGone, Available, IsIncreasing;
    forall k | 0 <= k < |taken|
      ensures IsFirstCandidate(entries, r.available[k], slots[taken[k]], locked, held, r.available[..k])
    {
      FirstOfAll(entries, r.available[k], slots[taken[k]], locked, held, r.available[..k]);
    }
    forall k, e | 0 <= k < |left| && e in entries && IsCandidate(e, slots[left[k]], locked, held, [])
      ensures IsGone(r.available, taken, left[k], e.content)
    {
      CandidateIsFree(e, slots[left[k]], locked, held, []);
    }
  }

  // ------------------------------------------------------------------
  // The fewest missing

  /** `pick` fills some of the slots with different objects of `es`, none `used`. */
  ghost predicate PartlyFills(pick: seq<Option<Entry>>, es: seq<Entry>, used: set<Object>, slots: seq<Slot>) {
    && |pick| == |slots|
    && (forall i :: 0 <= i < |pick| && pick[i].Some? ==>
          pick[i].value in es && Matches(pick[i].value, slots[i]) && pick[i].value.content !in used)
    && (forall i, j :: 0 <= i < j < |pick| && pick[i].Some? && pick[j].Some? ==>
          pick[i].value.content != pick[j].value.content)
  }

  /** How many slots it leaves empty. */
  function Empties(pick: seq<Option<Entry>>): nat {
    if pick == [] then 0 else (if pick[0].None? then 1 else 0) + Empties(pick[1..])
  }

  lemma {:induction false} EmptiesUpdate(pick: seq<Option<Entry>>, i: nat, e: Option<Entry>)
    requires i < |pick| && pick[i].Some?
    ensures Empties(pick[i := e]) == Empties(pick) + if e.None? then 1 else 0
  {
    if i == 0 {
      assert pick[0 := e][1..] == pick[1..];
    } else {
      EmptiesUpdate(pick[1..], i - 1, e);
      assert pick[i := e][1..] == pick[1..][i - 1 := e];
    }
  }

  /** Whichever entry the first slot takes, the others can be filled as far as
      before, counting the first. */
  lemma PartlyExchange(
    pick: seq<Option<Entry>>, es: seq<Entry>, used: set<Object>, slots: seq<Slot>, e: Entry)
    returns (rest: seq<Option<Entry>>)
    requires slots != [] && PartlyFills(pick, es, used, slots) && OneKindEach(es)
    requires e in es && Matches(e, slots[0]) && e.content !in used
    ensures PartlyFills(rest, es, used + {e.content}, slots[1..]) && Empties(rest) <= Empties(pick)
  {
    hide IsHashPrefix;
    rest := pick[1..];
    if j :| 1 <= j < |pick| && pick[j].Some? && pick[j].value.content == e.content {
      assert pick[j].value.kind == e.kind && pick[j].value.typeHash == e.typeHash;
      EmptiesUpdate(rest, j - 1, pick[0]);
      rest := rest[j - 1 := pick[0]];
      assert forall i :: 0 <= i < |rest| ==> rest[i] == if i == j - 1 then pick[0] else pick[i + 1];
    }
  }

  /** With each object of one kind, no way of filling slots leaves fewer empty than
      the report says are missing. */
  lemma {:induction false} ReportIsLeast(
    es: seq<Entry>, used: set<Object>, slots: seq<Slot>, pick: seq<Option<Entry>>)
    requires OneKindEach(es) && PartlyFills(pick, es, used, slots)
    ensures |Reported(es, used, slots).missing| <= Empties(pick)
    decreases |slots|
  {
    if slots != [] {
      var e := FirstCandidate(es, used, slots[0]);
      if e.Some? {
        var rest := PartlyExchange(pick, es, used, slots, e.value);
        ReportIsLeast(es, used + {e.value.content}, slots[1..], rest);
      } else {
        hide OneKindEach, IsHashPrefix;
        assert pick[0].None?;
        assert PartlyFills(pick[1..], es, used, slots[1..]);
        ReportIsLeast(es, used, slots[1..], pick[1..]);
      }
    }
  }

  /** And the report itself leaves that many. */
  lemma {:induction false} ReportFills(es: seq<Entry>, used: set<Object>, slots: seq<Slot>)
    returns (pick: seq<Option<Entry>>)
    ensures PartlyFills(pick, es, used, slots) && Empties(pick) == |Reported(es, used, slots).missing|
    decreases |slots|
  {
    hide Matches, IsHashPrefix;
    if slots == [] {
      pick := [];
    } else {
      var e := FirstCandidate(es, used, slots[0]);
      var rest := ReportFills(es, if e.Some? then used + {e.value.content} else used, slots[1..]);
      pick := [e] + rest;
      assert pick[1..] == rest;
    }
  }

  /** With each object of one kind, the report misses no way of filling the slots. */
  lemma {:induction false} ReportIsExact(es: seq<Entry>, used: set<Object>, slots: seq<Slot>)
    requires OneKindEach(es)
    ensures Reported(es, used, slots).missing == [] <==> Fillable(es, used, slots)
    decreases |slots|
  {
    if slots == [] {
      NothingFills(es, used);
    } else {
      var e := FirstCandidate(es, used, slots[0]);
      if e.Some? {
        GreedyStep(es, used, slots, e.value);
        ReportIsExact(es, used + {e.value.content}, slots[1..]);
      } else {
        NoCandidate(es, used, slots);
      }
    }
  }

  /** What `check_action` reports: a candidate for each slot it can fill, and
      the slots it cannot. It finds the action feasible exactly when different
      available objects can fill every slot. */
  method CheckAction(entries: seq<Entry>, locked: set<string>, held: set<string>, slots: seq<Slot>)
    returns (available: seq<Entry>, missing: seq<Slot>)
    ensures Report(available, missing) == Reported(AvailableEntries(entries, locked, held), {}, slots)
    ensures var es := AvailableEntries(entries, locked, held);
      OneKindEach(es) ==> (missing == [] <==> Fillable(es, {}, slots))
    ensures missing == [] ==> Fills(available, AvailableEntries(entries, locked, held), {}, slots)
    ensures exists taken, left :: Tells(entries, locked, held, slots, Report(available, missing), taken, left)
    ensures var es := AvailableEntries(entries, locked, held);
      OneKindEach(es) ==> forall pick :: PartlyFills(pick, es, {}, slots) ==> |missing| <= Empties(pick)
  {
    hide Fillable, Fills, OneKindEach, AvailableEntries, Reported, Explains, Tells, PartlyFills;
    var es := AvailableEntries(entries, locked, held);
    available, missing := CheckSlots(es, slots);
    CompleteReportFills(es, {}, slots);
    var taken, left := ReportExplained(es, {}, slots);
    ExplainedTells(entries, locked, held, slots, Report(available, missing), taken, left);
    if OneKindEach(es) {
      ReportIsExact(es, {}, slots);
      forall pick | PartlyFills(pick, es, {}, slots) ensures |missing| <= Empties(pick) {
        ReportIsLeast(es, {}, slots, pick);
      }
    }
  }

  lemma NothingFills(es: seq<Entry>, used: set<Object>)
    ensures Fills([], es, used, []) && Fillable(es, used, [])
  {
  }

  /** Otherwise it can miss one: of the object ONE, filed both as an A and as a B,
      and the object TWO, an A, the report gives ONE to the slot for an A and
      finds nothing for the slot for a B, though TWO and ONE fill both. */
  lemma TwoKindsMislead()
    ensures Fillable(TWO_KINDS, {}, TWO_SLOTS)
    ensures Reported(TWO_KINDS, {}, TWO_SLOTS) == Report([TWO_KINDS[0]], [TWO_SLOTS[1]])
  {
    assert ONE.prefix != TWO.prefix;
    assert Fills([TWO_KINDS[1], TWO_KINDS[2]], TWO_KINDS, {}, TWO_SLOTS);
    MisledReport();
  }

  const ONE: Object := RawObject("one", "0000000000000000", "0000000000000000")

  const TWO: Object := RawObject("two", "0000000000000000", "0000000000000000")

  const TWO_KINDS: seq<Entry> :=
    [Entry("a", true, "A", ONE, Some(1)), Entry("b", true, "A", TWO, Some(1)), Entry("c", true, "B", ONE, Some(2))]

  const TWO_SLOTS: seq<Slot> := [Slot("A", Some(1)), Slot("B", Some(2))]

  lemma MisledReport()
    ensures Reported(TWO_KINDS, {}, TWO_SLOTS) == Report([TWO_KINDS[0]], [TWO_SLOTS[1]])
  {
    assert ONE.prefix != TWO.prefix;
  }

  // ------------------------------------------------------------------
  // The entries of a store

  /** The entries are the files loading finds, each once; class and type are what
      the file says they are. */
  ghost predicate IsListingOf(entries: seq<Entry>, d: Disk) {
    && IsListing(entries)
    && var files := d.live + d.nullified;
       forall e :: e in entries ==>
         e.name in files && files[e.name].obj == e.content && (e.live <==> files[e.name].status.Live?)
  }

  /** No object has two live files, whatever kind they say it is of. */
  lemma LiveEntriesDiffer(entries: seq<Entry>, d: Disk, locked: set<string>, held: set<string>)
    requires IsListingOf(entries, d) && Ordered(d)
    ensures OneKindEach(AvailableEntries(entries, locked, held))
  {
    hide GeneratedName, HasGeneratedShape;
    var es := AvailableEntries(entries, locked, held);
    forall a, b | a in es && b in es && a.content == b.content ensures a == b {
      assert LiveAs(d, a.content, a.name) && LiveAs(d, b.content, b.name);
      NamedEntry(entries, a);
      NamedEntry(entries, b);
    }
  }

  /** In every state the driver can bring its store to, the report misses no way
      of filling the slots. */
  lemma StoreReportIsExact(
    h: seq<StoreMoves.State>, i: nat, entries: seq<Entry>, locked: set<string>, held: set<string>, slots: seq<Slot>)
    requires StoreMoves.Run(h) && i < |h| && IsListingOf(entries, h[i].disk)
    ensures var es := AvailableEntries(entries, locked, held);
      OneKindEach(es) && (Reported(es, {}, slots).missing == [] <==> Fillable(es, {}, slots))
  {
    StoreTheorems.RunIsOrdered(h, i);
    hide StoreMoves.Run, IsListingOf, Ordered, Valid, Loadable;
    LiveEntriesDiffer(entries, h[i].disk, locked, held);
    ReportIsExact(AvailableEntries(entries, locked, held), {}, slots);
  }

  // ------------------------------------------------------------------
  // What proving demands of its inputs

  predicate AllNamed(inputs: seq<string>) {
    forall i :: 0 <= i < |inputs| ==> Basename(inputs[i]).Some?
  }

  /** As many inputs as slots, and different files. */
  predicate Validates(inputs: seq<string>, slots: seq<Slot>) {
    && |inputs| == |slots| && AllNamed(inputs)
    && forall i, j :: 0 <= i < j < |inputs| ==> Basename(inputs[i]) != Basename(inputs[j])
  }

  method ValidateExecuteRequest(inputs: seq<string>, slots: seq<Slot>) returns (ok: bool)
    ensures ok <==> Validates(inputs, slots)
  {
    if |inputs| != |slots| { return false; }
    var seen := {};
    for i := 0 to |inputs|
      invariant forall k :: 0 <= k < i ==> Basename(inputs[k]).Some?
      invariant seen == set k | 0 <= k < i :: Basename(inputs[k])
      invariant forall k, j :: 0 <= k < j < i ==> Basename(inputs[k]) != Basename(inputs[j])
    {
      var name := Basename(inputs[i]);
      if name.None? || name in seen { return false; }
      seen := seen + {name};
    }
    ok := true;
  }

  /** The first entry called `name`. */
  function Named(entries: seq<Entry>, name: string): (r: Option<Entry>)
    ensures r.Some? ==> r.value in entries && r.value.name == name
    ensures r.None? <==> forall e :: e in entries ==> e.name != name
  {
    if entries == [] then None
    else if entries[0].name == name then Some(entries[0])
    else Named(entries[1..], name)
  }

  predicate Resolves(entries: seq<Entry>, input: string, s: Slot) {
    var name := Basename(input);
    && name.Some?
    && var e := Named(entries, name.value);
       && e.Some? && e.value.live
       && e.value.kind == s.kind && s.hash.Some? && e.value.typeHash == s.hash
  }

  /** Inputs and slots are walked in step; the lengths were compared before. */
  method ResolveInputs(entries: seq<Entry>, inputs: seq<string>, slots: seq<Slot>) returns (r: Result<seq<Entry>, ()>)
    requires |inputs| == |slots|
    ensures r.Ok? <==> forall i :: 0 <= i < |inputs| ==> Resolves(entries, inputs[i], slots[i])
    ensures r.Ok? ==> |r.value| == |inputs| && forall i :: 0 <= i < |inputs| ==>
      Some(r.value[i].name) == Basename(inputs[i])
  {
    var resolved: seq<Entry> := [];
    for i := 0 to |inputs|
      invariant |resolved| == i
      invariant forall k :: 0 <= k < i ==>
        Resolves(entries, inputs[k], slots[k]) && Some(resolved[k].name) == Basename(inputs[k])
    {
      if slots[i].hash.None? || Basename(inputs[i]).None? { return Err(()); }
      var entry := Named(entries, Basename(inputs[i]).value);
      if entry.None? || !entry.value.live || !Matches(entry.value, slots[i]) { return Err(()); }
      resolved := resolved + [entry.value];
    }
    r := Ok(resolved);
  }

  /** Files, as a directory lists them: plain names, each once. */
  predicate IsListing(entries: seq<Entry>) {
    && (forall i :: 0 <= i < |entries| ==> IsPlainName(entries[i].name))
    && (forall i, j :: 0 <= i < j < |entries| ==> entries[i].name != entries[j].name)
  }

  function Names(es: seq<Entry>): (r: seq<string>)
    ensures |r| == |es| && forall i :: 0 <= i < |es| ==> r[i] == es[i].name
  {
    seq(|es|, i requires 0 <= i < |es| => es[i].name)
  }

  lemma NamedEntry(entries: seq<Entry>, e: Entry)
    requires IsListing(entries) && e in entries
    ensures IsPlainName(e.name) && Named(entries, e.name) == Some(e)
  {
  }

  /** Feasibility agrees with execution: the reported files, in order, pass
      every check proving makes in the same state. */
  lemma ReportedFilesExecute(
    entries: seq<Entry>, locked: set<string>, held: set<string>, slots: seq<Slot>, available: seq<Entry>)
    requires IsListing(entries) && Fills(available, AvailableEntries(entries, locked, held), {}, slots)
    ensures Validates(Names(available), slots)
    ensures forall i :: 0 <= i < |available| ==> Resolves(entries, Names(available)[i], slots[i])
    ensures forall i :: 0 <= i < |available| ==> Basename(Names(available)[i]) == Some(Names(available)[i])
    ensures forall n :: n in Names(available) ==> n !in locked && n !in held
  {
    forall i | 0 <= i < |available|
      ensures Basename(available[i].name) == Some(available[i].name)
      ensures Named(entries, available[i].name) == Some(available[i])
      ensures available[i].live && available[i].name !in locked && available[i].name !in held
    {
      NamedEntry(entries, available[i]);
      BasenameOfName("", available[i].name);
    }
  }

  /** The input phase of proving: validate, resolve, and take the holds. */
  method HoldInputs(
    entries: seq<Entry>, inputs: seq<string>, slots: seq<Slot>, owner: string, locked: set<string>,
    table: Holds.HoldTable)
    returns (ok: bool)
    modifies table
    ensures ok <==>
      && Validates(inputs, slots) && (forall i :: 0 <= i < |inputs| ==> Resolves(entries, inputs[i], slots[i]))
      && forall i :: 0 <= i < |inputs| ==>
           Basename(inputs[i]).value !in old(table.owners) && Basename(inputs[i]).value !in locked
    ensures ok ==> forall i :: 0 <= i < |inputs| ==> Basename(inputs[i]).value in table.owners
    ensures !ok ==> table.owners == old(table.owners)
  {
    ok := ValidateExecuteRequest(inputs, slots);
    if !ok { return; }
    var resolved := ResolveInputs(entries, inputs, slots);
    if resolved.Err? { return false; }
    var files := Names(resolved.value);
    var r := table.Take(files, owner, locked);
    ok := r.Taken?;
    assert forall i :: 0 <= i < |inputs| ==> files[i] in files && files[i] == Basename(inputs[i]).value;
  }

  /** An action reported feasible can be proved at once with the files reported. */
  method CheckThenHold(
    entries: seq<Entry>, slots: seq<Slot>, owner: string, locked: set<string>, table: Holds.HoldTable)
    returns (feasible: bool, ok: bool)
    requires IsListing(entries)
    modifies table
    ensures ok == feasible
    ensures var es := AvailableEntries(entries, locked, old(table.owners).Keys);
      OneKindEach(es) ==> (feasible <==> Fillable(es, {}, slots))
  {
    hide Tells, Reported, Fillable, Fills, OneKindEach, AvailableEntries, PartlyFills, Basename, Resolves, IsListing;
    hide IsHashPrefix, Validates;
    var available, missing := CheckAction(entries, locked, table.owners.Keys, slots);
    feasible, ok := missing == [], false;
    if feasible {
      ReportedFilesExecute(entries, locked, table.owners.Keys, slots, available);
      var inputs := Names(available);
      assert forall i :: 0 <= i < |inputs| ==> inputs[i] in inputs;
      ok := HoldInputs(entries, inputs, slots, owner, locked, table);
    }
  }
}
