/** What it means to keep some elements of a list, in order. */
module Filters {

  predicate IsIncreasing(ks: seq<nat>) {
    forall i, j :: 0 <= i < j < |ks| ==> ks[i] < ks[j]
  }

  /** `ks` are the positions of the elements kept, in order. */
  ghost predicate ArePositions<T>(s: seq<T>, keep: T -> bool, ks: seq<nat>) {
    && IsIncreasing(ks) && (forall j :: 0 <= j < |ks| ==> ks[j] < |s|)
    && forall i: nat :: i < |s| ==> (i in ks <==> keep(s[i]))
  }

  /** `r` is what is kept of `s`. */
  ghost predicate IsKept<T>(s: seq<T>, keep: T -> bool, r: seq<T>) {
    exists ks: seq<nat> :: ArePositions(s, keep, ks) && IsAt(s, r, ks)
  }

  ghost predicate IsAt<T>(s: seq<T>, r: seq<T>, ks: seq<nat>) {
    |r| == |ks| && forall j :: 0 <= j < |ks| ==> ks[j] < |s| && r[j] == s[ks[j]]
  }

  lemma NoPositions<T>(keep: T -> bool)
    ensures ArePositions([], keep, [])
  {
  }

  lemma NoneKept<T>(keep: T -> bool)
    ensures IsKept([], keep, [])
  {
    var s: seq<T> := [];
    assert ArePositions(s, keep, []) && IsAt(s, [], []);
  }

  /** One more element at the end. */
  lemma PositionsGrow<T>(s: seq<T>, keep: T -> bool, ks: seq<nat>, x: T)
    requires ArePositions(s, keep, ks)
    ensures ArePositions(s + [x], keep, if keep(x) then ks + [|s|] else ks)
  {
    var more, t := if keep(x) then ks + [|s|] else ks, s + [x];
    forall i: nat | i < |t| ensures i in more <==> keep(t[i]) {
      if i < |s| { assert i in ks <==> keep(s[i]); }
    }
  }

  function Shifted(ks: seq<nat>): (r: seq<nat>)
    ensures |r| == |ks| && forall i :: 0 <= i < |ks| ==> r[i] == ks[i] + 1
  {
    seq(|ks|, i requires 0 <= i < |ks| => ks[i] + 1)
  }

  lemma ShiftedMembers(ks: seq<nat>, i: nat)
    ensures (i + 1 in Shifted(ks) <==> i in ks) && 0 !in Shifted(ks)
  {
    if i in ks {
      var k :| 0 <= k < |ks| && ks[k] == i;
      assert Shifted(ks)[k] == i + 1;
    }
  }

  /** One more element in front. */
  lemma PositionsShift<T>(s: seq<T>, keep: T -> bool, ks: seq<nat>)
    requires s != [] && ArePositions(s[1..], keep, ks)
    ensures ArePositions(s, keep, (if keep(s[0]) then [0] else []) + Shifted(ks))
  {
    var more := (if keep(s[0]) then [0] else []) + Shifted(ks);
    forall i: nat | i < |s| ensures i in more <==> keep(s[i]) {
      if i > 0 {
        ShiftedMembers(ks, i - 1);
        assert i - 1 in ks <==> keep(s[1..][i - 1]);
      } else {
        ShiftedMembers(ks, 0);
      }
    }
  }

  lemma KeptBehind<T>(s: seq<T>, keep: T -> bool, r: seq<T>)
    requires s != [] && IsKept(s[1..], keep, r)
    ensures IsKept(s, keep, (if keep(s[0]) then [s[0]] else []) + r)
  {
    hide ArePositions, IsAt;
    var ks: seq<nat> :| ArePositions(s[1..], keep, ks) && IsAt(s[1..], r, ks);
    PositionsShift(s, keep, ks);
    AtShifted(s, r, ks, keep(s[0]));
  }

  lemma AtShifted<T>(s: seq<T>, r: seq<T>, ks: seq<nat>, first: bool)
    requires s != [] && IsAt(s[1..], r, ks)
    ensures IsAt(s, (if first then [s[0]] else []) + r, (if first then [0] else []) + Shifted(ks))
  {
  }

  /** What is kept of what comes before the `p`th kept element comes before it. */
  lemma EarlierKept<T>(s: seq<T>, keep: T -> bool, r: seq<T>, ks: seq<nat>, p: nat, q: nat) returns (j: nat)
    requires ArePositions(s, keep, ks) && IsAt(s, r, ks) && p < |ks| && q < ks[p] && keep(s[q])
    ensures j < p && r[j] == s[q]
  {
    assert q in ks;
    j :| 0 <= j < |ks| && ks[j] == q;
    assert j < p;
  }

  lemma PositionIn<T>(s: seq<T>, keep: T -> bool, ks: seq<nat>, i: nat)
    requires ArePositions(s, keep, ks) && i < |s|
    ensures i in ks <==> keep(s[i])
  {
  }
}
