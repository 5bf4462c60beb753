/** Texts as runs of characters of one kind, whatever separates them. */
module Runs {

  /** The characters of the kind, each with whether something else separates it
      from the one before. `had` says that there was one before, `gap` that
      something else has come since. */
  function MarkedFrom(s: string, keep: char -> bool, had: bool, gap: bool): seq<(char, bool)> {
    if s == "" then []
    else if keep(s[0]) then [(s[0], had && gap)] + MarkedFrom(s[1..], keep, true, false)
    else MarkedFrom(s[1..], keep, had, true)
  }

  function Marked(s: string, keep: char -> bool): seq<(char, bool)> {
    MarkedFrom(s, keep, false, false)
  }

  predicate HasNone(s: string, keep: char -> bool) { forall i :: 0 <= i < |s| ==> !keep(s[i]) }

  predicate GapAfter(s: string, keep: char -> bool, gap: bool) {
    if s == "" then gap else !keep(s[|s| - 1])
  }

  lemma {:induction false} MarkedAppend(a: string, b: string, keep: char -> bool, had: bool, gap: bool)
    ensures MarkedFrom(a + b, keep, had, gap) ==
      MarkedFrom(a, keep, had, gap) + MarkedFrom(b, keep, had || !HasNone(a, keep), GapAfter(a, keep, gap))
    decreases |a|
  {
    hide HasNone, MarkedFrom, GapAfter;
    if a == "" {
      AppendToNothing(b, keep, had, gap);
    } else {
      var rest, first := a[1..], keep(a[0]);
      assert (a + b)[1..] == rest + b && (a + b)[0] == a[0];
      HasNoneSplits(a, keep);
      GapGoesOn(a, keep, gap);
      MarkedHead(a, keep, had, gap);
      MarkedHead(a + b, keep, had, gap);
      MarkedAppend(rest, b, keep, had || first, !first);
      var x, y := if first then [(a[0], had && gap)] else [], MarkedFrom(rest, keep, had || first, !first);
      var z := MarkedFrom(b, keep, had || !HasNone(a, keep), GapAfter(a, keep, gap));
      assert had || first || !HasNone(rest, keep) <==> had || !HasNone(a, keep);
      assert x + (y + z) == (x + y) + z;
    }
  }

  lemma AppendToNothing(b: string, keep: char -> bool, had: bool, gap: bool)
    ensures MarkedFrom("" + b, keep, had, gap) ==
      MarkedFrom("", keep, had, gap) + MarkedFrom(b, keep, had || !HasNone("", keep), GapAfter("", keep, gap))
  {
    assert "" + b == b;
  }

  lemma MarkedHead(s: string, keep: char -> bool, had: bool, gap: bool)
    requires s != ""
    ensures MarkedFrom(s, keep, had, gap) ==
      (if keep(s[0]) then [(s[0], had && gap)] else []) + MarkedFrom(s[1..], keep, had || keep(s[0]), !keep(s[0]))
  {
  }

  lemma GapGoesOn(s: string, keep: char -> bool, gap: bool)
    requires s != ""
    ensures GapAfter(s, keep, gap) == GapAfter(s[1..], keep, !keep(s[0]))
  {
  }

  lemma HasNoneSplits(a: string, keep: char -> bool)
    requires a != ""
    ensures HasNone(a, keep) <==> !keep(a[0]) && HasNone(a[1..], keep)
  {
    if !keep(a[0]) && HasNone(a[1..], keep) {
      forall i | 0 <= i < |a| ensures !keep(a[i]) {
        if i > 0 { assert !keep(a[1..][i - 1]); }
      }
    }
    if HasNone(a, keep) {
      forall i | 0 <= i < |a[1..]| ensures !keep(a[1..][i]) { assert !keep(a[i + 1]); }
    }
  }

  /** One more character. */
  lemma MarkedGrows(s: string, c: char, keep: char -> bool)
    ensures Marked(s + [c], keep) ==
      Marked(s, keep) + if keep(c) then [(c, !HasNone(s, keep) && GapAfter(s, keep, false))] else []
  {
    MarkedAppend(s, [c], keep, false, false);
    assert [c][1..] == "";
  }

  lemma {:induction false} GapBeforeFirst(s: string, keep: char -> bool)
    ensures MarkedFrom(s, keep, false, true) == MarkedFrom(s, keep, false, false)
  {
    if s != "" && !keep(s[0]) { GapBeforeFirst(s[1..], keep); }
  }

  lemma {:induction false} NothingMarked(s: string, keep: char -> bool, had: bool, gap: bool)
    requires HasNone(s, keep)
    ensures MarkedFrom(s, keep, had, gap) == []
  {
    if s != "" {
      HasNoneSplits(s, keep);
      NothingMarked(s[1..], keep, had, true);
    }
  }

  lemma {:induction false} SomethingMarked(s: string, keep: char -> bool, had: bool, gap: bool)
    ensures MarkedFrom(s, keep, had, gap) == [] <==> HasNone(s, keep)
  {
    if s != "" {
      HasNoneSplits(s, keep);
      if !keep(s[0]) { SomethingMarked(s[1..], keep, had, true); }
    }
  }

  /** What is around does not matter. */
  lemma MarkedWithin(before: string, s: string, after: string, keep: char -> bool)
    requires HasNone(before, keep) && HasNone(after, keep)
    ensures Marked(before + s + after, keep) == Marked(s, keep)
  {
    hide HasNone, GapAfter;
    MarkedAppend(before + s, after, keep, false, false);
    NothingMarked(after, keep, false || !HasNone(before + s, keep), GapAfter(before + s, keep, false));
    MarkedAppend(before, s, keep, false, false);
    NothingMarked(before, keep, false, false);
    GapBeforeFirst(s, keep);
    hide MarkedFrom;
  }
}
