/** The dependency graph of a plan as `pexe inspect` draws it: in compressed
    form only custom and introduced statements are nodes, rewritten statements
    stand for their sources, and edges reach through what is hidden. */
module GraphView {
  import opened Filters

  import opened Wrappers

  type Stmt = nat

  // ------------------------------------------------------------------
  // Rewrites

  /** An operation; `source` is the statement its last argument names. */
  datatype Operation = Operation(replacesValue: bool, source: Option<Stmt>)

  /** The last position of each statement. */
  method IndexStatements(statements: seq<Stmt>) returns (index: map<Stmt, nat>)
    ensures forall s :: s in index <==> s in statements
    ensures forall s :: s in index ==> IsLastAt(statements, s, index[s])
  {
    index := map[];
    for i := 0 to |statements|
      invariant forall s :: s in index <==> s in statements[..i]
      invariant forall s :: s in index ==> IsLastAt(statements[..i], s, index[s])
    {
      assert statements[..i + 1] == statements[..i] + [statements[i]];
      index := index[statements[i] := i];
    }
    assert statements[..|statements|] == statements;
  }

  predicate IsLastAt(statements: seq<Stmt>, s: Stmt, i: nat) {
    i < |statements| && statements[i] == s && forall j :: i < j < |statements| ==> statements[j] != s
  }

  /** Statement `i` rewrites the statement last found at `j`. */
  predicate IsRewrite(statements: seq<Stmt>, ops: seq<Operation>, i: nat, j: nat) {
    i < |ops| && ops[i].replacesValue && ops[i].source.Some? && IsLastAt(statements, ops[i].source.value, j)
  }

  /** The rewrites of the first `k` operations. */
  ghost predicate RewritesUpTo(rewrites: map<nat, nat>, statements: seq<Stmt>, ops: seq<Operation>, k: nat) {
    && (forall i :: i in rewrites ==> i < k && IsRewrite(statements, ops, i, rewrites[i]))
    && (forall i: nat, j: nat :: i < k && IsRewrite(statements, ops, i, j) ==> i in rewrites)
  }

  lemma RewriteAdded(rewrites: map<nat, nat>, statements: seq<Stmt>, ops: seq<Operation>, k: nat, j: nat)
    requires RewritesUpTo(rewrites, statements, ops, k) && IsRewrite(statements, ops, k, j)
    ensures RewritesUpTo(rewrites[k := j], statements, ops, k + 1)
  {
  }

  lemma NoRewrite(rewrites: map<nat, nat>, statements: seq<Stmt>, ops: seq<Operation>, k: nat)
    requires RewritesUpTo(rewrites, statements, ops, k) && forall j: nat :: !IsRewrite(statements, ops, k, j)
    ensures RewritesUpTo(rewrites, statements, ops, k + 1)
  {
  }

  /** Statement `i` is mapped to `j` exactly when it rewrites the statement last
      found there. */
  ghost predicate IsRewriteSource(rewrites: map<nat, nat>, statements: seq<Stmt>, ops: seq<Operation>) {
    RewritesUpTo(rewrites, statements, ops, |ops|)
  }

  lemma RewriteSourceIff(rewrites: map<nat, nat>, statements: seq<Stmt>, ops: seq<Operation>, i: nat, j: nat)
    requires IsRewriteSource(rewrites, statements, ops)
    ensures i in rewrites && rewrites[i] == j <==> IsRewrite(statements, ops, i, j)
  {
  }

  ghost predicate Rewrites(statements: seq<Stmt>, ops: seq<Operation>, i: nat) {
    exists j: nat :: IsRewrite(statements, ops, i, j)
  }

  ghost function SourceOf(statements: seq<Stmt>, ops: seq<Operation>, i: nat): (j: nat)
    requires Rewrites(statements, ops, i)
    ensures IsRewrite(statements, ops, i, j)
  {
    var j: nat :| IsRewrite(statements, ops, i, j);
    j
  }

  /** The rewrites the operations make. */
  ghost function RewritesOf(statements: seq<Stmt>, ops: seq<Operation>): map<nat, nat> {
    map i: nat | i < |ops| && Rewrites(statements, ops, i) :: SourceOf(statements, ops, i)
  }

  lemma RewriteSourceIsUnique(rewrites: map<nat, nat>, statements: seq<Stmt>, ops: seq<Operation>)
    requires IsRewriteSource(rewrites, statements, ops)
    ensures rewrites == RewritesOf(statements, ops)
  {
    forall i: nat ensures i in rewrites <==> i < |ops| && Rewrites(statements, ops, i) {
      if i in rewrites { assert IsRewrite(statements, ops, i, rewrites[i]); }
    }
    forall i | i in rewrites ensures rewrites[i] == SourceOf(statements, ops, i) {
      RewriteSourceIff(rewrites, statements, ops, i, SourceOf(statements, ops, i));
    }
  }

  lemma RewritesOfIsSource(statements: seq<Stmt>, ops: seq<Operation>)
    ensures IsRewriteSource(RewritesOf(statements, ops), statements, ops)
  {
  }

  method BuildRewriteSource(statements: seq<Stmt>, ops: seq<Operation>) returns (rewrites: map<nat, nat>)
    ensures IsRewriteSource(rewrites, statements, ops)
    ensures forall i :: i in rewrites ==> rewrites[i] < |statements|
  {
    hide RewritesUpTo;
    var index := IndexStatements(statements);
    rewrites := map[];
    NoneUpTo(statements, ops);
    for i := 0 to |ops|
      invariant RewritesUpTo(rewrites, statements, ops, i)
      invariant forall i :: i in rewrites ==> rewrites[i] < |statements|
    {
      if ops[i].replacesValue && ops[i].source.Some? && ops[i].source.value in index {
        RewriteAdded(rewrites, statements, ops, i, index[ops[i].source.value]);
        rewrites := rewrites[i := index[ops[i].source.value]];
      } else {
        assert forall j: nat :: !IsRewrite(statements, ops, i, j);
        NoRewrite(rewrites, statements, ops, i);
      }
    }
  }

  lemma NoneUpTo(statements: seq<Stmt>, ops: seq<Operation>)
    ensures RewritesUpTo(map[], statements, ops, 0)
  {
  }

  // ------------------------------------------------------------------
  // Following rewrites

  /** The statement reached from `i` after `n` steps, staying where none leads on. */
  function Follow(rewrites: map<nat, nat>, i: nat, n: nat): nat {
    if n == 0 then i
    else
      var j := Follow(rewrites, i, n - 1);
      if j in rewrites then rewrites[j] else j
  }

  /** Following the rewrites of `i` comes to an end. */
  ghost predicate Ends(rewrites: map<nat, nat>, i: nat) {
    exists n: nat :: Follow(rewrites, i, n) !in rewrites
  }

  /** Following the rewrites of `i` comes back to a rewritten statement. */
  ghost predicate Cycles(rewrites: map<nat, nat>, i: nat) {
    exists m: nat, n: nat ::
      m < n && Follow(rewrites, i, m) == Follow(rewrites, i, n) && Follow(rewrites, i, m) in rewrites
  }

  lemma {:induction false} FollowFurther(rewrites: map<nat, nat>, i: nat, m: nat, n: nat)
    ensures Follow(rewrites, i, m + n) == Follow(rewrites, Follow(rewrites, i, m), n)
  {
    if n > 0 { FollowFurther(rewrites, i, m, n - 1); }
  }

  lemma {:induction false} EndedStays(rewrites: map<nat, nat>, i: nat, m: nat, n: nat)
    requires Follow(rewrites, i, m) !in rewrites && m <= n
    ensures Follow(rewrites, i, n) == Follow(rewrites, i, m)
  {
    if m < n { EndedStays(rewrites, i, m, n - 1); }
  }

  /** Once around a cycle, always around it. */
  lemma {:induction false} Around(rewrites: map<nat, nat>, i: nat, m: nat, n: nat, k: nat)
    requires m < n && Follow(rewrites, i, m) == Follow(rewrites, i, n)
    ensures Follow(rewrites, i, m + k * (n - m)) == Follow(rewrites, i, m)
  {
    if k > 0 {
      Around(rewrites, i, m, n, k - 1);
      var before := m + (k - 1) * (n - m);
      assert m + k * (n - m) == before + (n - m);
      FollowFurther(rewrites, i, before, n - m);
      FollowFurther(rewrites, i, m, n - m);
    }
  }

  /** The statements passed in the first `n` steps. */
  ghost function Passed(rewrites: map<nat, nat>, i: nat, n: nat): set<nat> {
    set k | 0 <= k < n :: Follow(rewrites, i, k)
  }

  /** No statement is passed twice in the first `n` steps. */
  ghost predicate AllDiffer(rewrites: map<nat, nat>, i: nat, n: nat) {
    forall k, l :: 0 <= k < l < n ==> Follow(rewrites, i, k) != Follow(rewrites, i, l)
  }

  lemma {:induction false} PassedSize(rewrites: map<nat, nat>, i: nat, n: nat)
    requires AllDiffer(rewrites, i, n)
    ensures |Passed(rewrites, i, n)| == n
  {
    hide Follow, Passed, AllDiffer;
    if n > 0 {
      PassedOnce(rewrites, i, n - 1);
      PassedSize(rewrites, i, n - 1);
      PassedGrows(rewrites, i, n - 1);
    } else {
      NonePassed(rewrites, i);
    }
  }

  lemma NonePassed(rewrites: map<nat, nat>, i: nat)
    ensures Passed(rewrites, i, 0) == {}
  {
  }

  lemma PassedOnce(rewrites: map<nat, nat>, i: nat, n: nat)
    requires AllDiffer(rewrites, i, n + 1)
    ensures AllDiffer(rewrites, i, n) && Follow(rewrites, i, n) !in Passed(rewrites, i, n)
  {
    hide Follow;
  }

  lemma PassedGrows(rewrites: map<nat, nat>, i: nat, n: nat)
    ensures Passed(rewrites, i, n + 1) == Passed(rewrites, i, n) + {Follow(rewrites, i, n)}
  {
  }

  lemma {:induction false} SubsetSize(a: set<nat>, b: set<nat>)
    requires a <= b
    ensures |a| <= |b|
  {
    if a != {} {
      var x :| x in a;
      SubsetSize(a - {x}, b - {x});
    }
  }

  lemma CycleNeverEnds(rewrites: map<nat, nat>, i: nat, m: nat, n: nat, e: nat)
    requires m < n && Follow(rewrites, i, m) == Follow(rewrites, i, n) && Follow(rewrites, i, m) in rewrites
    ensures Follow(rewrites, i, e) in rewrites
  {
    hide Follow;
    Around(rewrites, i, m, n, e);
    var far := m + e * (n - m);
    Farther(m, e, n - m);
    if Follow(rewrites, i, e) !in rewrites { EndedStays(rewrites, i, e, far); }
  }

  lemma Farther(m: nat, e: nat, p: nat)
    requires p > 0
    ensures e <= m + e * p
  {
  }

  /** Without an end, the steps pass more statements than there are. */
  lemma EndlessCycles(rewrites: map<nat, nat>, i: nat)
    requires !Ends(rewrites, i)
    ensures Cycles(rewrites, i)
  {
    hide Follow;
    var n := |rewrites.Keys| + 1;
    if AllDiffer(rewrites, i, n) {
      PassedSize(rewrites, i, n);
      SubsetSize(Passed(rewrites, i, n), rewrites.Keys);
    }
  }

  /** Following the rewrites of a statement ends exactly when it meets no cycle. */
  lemma EndsIff(rewrites: map<nat, nat>, i: nat)
    ensures Ends(rewrites, i) <==> !Cycles(rewrites, i)
  {
    hide Follow;
    if !Ends(rewrites, i) { EndlessCycles(rewrites, i); }
    if Cycles(rewrites, i) {
      var m: nat, n: nat :|
        m < n && Follow(rewrites, i, m) == Follow(rewrites, i, n) && Follow(rewrites, i, m) in rewrites;
      forall e: nat ensures Follow(rewrites, i, e) in rewrites { CycleNeverEnds(rewrites, i, m, n, e); }
    }
  }

  /** The fewest steps to the end. */
  ghost function StepsLeft(rewrites: map<nat, nat>, i: nat): (n: nat)
    requires Ends(rewrites, i)
    ensures Follow(rewrites, i, n) !in rewrites && forall k: nat :: k < n ==> Follow(rewrites, i, k) in rewrites
  {
    var n: nat :| Follow(rewrites, i, n) !in rewrites;
    LeastStep(rewrites, i, n)
  }

  ghost function LeastStep(rewrites: map<nat, nat>, i: nat, n: nat): (k: nat)
    requires Follow(rewrites, i, n) !in rewrites
    ensures Follow(rewrites, i, k) !in rewrites && forall l: nat :: l < k ==> Follow(rewrites, i, l) in rewrites
  {
    if n == 0 then 0
    else if Follow(rewrites, i, n - 1) !in rewrites then LeastStep(rewrites, i, n - 1)
    else
      assert forall l: nat :: l < n ==> Follow(rewrites, i, l) in rewrites by {
        forall l: nat | l < n ensures Follow(rewrites, i, l) in rewrites {
          if Follow(rewrites, i, l) !in rewrites { EndedStays(rewrites, i, l, n - 1); }
        }
      }
      n
  }

  lemma StepShortens(rewrites: map<nat, nat>, i: nat)
    requires Ends(rewrites, i) && i in rewrites
    ensures Ends(rewrites, rewrites[i]) && StepsLeft(rewrites, rewrites[i]) < StepsLeft(rewrites, i)
  {
    var n := StepsLeft(rewrites, i);
    assert Follow(rewrites, i, 0) == i && Follow(rewrites, i, 1) == rewrites[i];
    FollowFurther(rewrites, i, 1, n - 1);
    assert Follow(rewrites, rewrites[i], n - 1) !in rewrites;
  }

  /** The statement a rewritten one stands for in the end. */
  function Resolved(rewrites: map<nat, nat>, i: nat): (r: nat)
    requires Ends(rewrites, i)
    ensures r !in rewrites
    decreases StepsLeft(rewrites, i)
  {
    if i in rewrites then
      StepShortens(rewrites, i);
      Resolved(rewrites, rewrites[i])
    else i
  }

  method Resolve(rewrites: map<nat, nat>, start: nat) returns (i: nat)
    requires Ends(rewrites, start)
    ensures i == Resolved(rewrites, start)
  {
    i := start;
    while i in rewrites
      invariant Ends(rewrites, i) && Resolved(rewrites, i) == Resolved(rewrites, start)
      decreases StepsLeft(rewrites, i)
    {
      StepShortens(rewrites, i);
      i := rewrites[i];
    }
  }

  /** A chain of statements, each rewriting the one after it as last found. */
  ghost predicate IsChain(statements: seq<Stmt>, ops: seq<Operation>, chain: seq<nat>) {
    forall a, b :: 0 <= a < b < |chain| && b == a + 1 ==> IsRewrite(statements, ops, chain[a], chain[b])
  }

  /** From statement `i` a chain of rewrites leads to a statement that rewrites,
      further on, itself. */
  ghost predicate ReachesLoop(statements: seq<Stmt>, ops: seq<Operation>, i: nat) {
    exists chain :: |chain| > 1 && chain[0] == i && IsChain(statements, ops, chain) && IsLooped(chain)
  }

  /** The last statement of the chain came before. */
  predicate IsLooped(chain: seq<nat>) {
    |chain| > 1 && chain[|chain| - 1] in chain[..|chain| - 1]
  }

  lemma {:induction false} ChainFollows(
    rewrites: map<nat, nat>, statements: seq<Stmt>, ops: seq<Operation>, chain: seq<nat>, k: nat)
    requires IsRewriteSource(rewrites, statements, ops) && IsChain(statements, ops, chain) && k < |chain|
    ensures chain[k] == Follow(rewrites, chain[0], k)
    ensures k + 1 < |chain| ==> chain[k] in rewrites
  {
    if k + 1 < |chain| {
      assert IsRewrite(statements, ops, chain[k], chain[k + 1]);
      RewriteSourceIff(rewrites, statements, ops, chain[k], chain[k + 1]);
    }
    if k > 0 {
      ChainFollows(rewrites, statements, ops, chain, k - 1);
      assert IsRewrite(statements, ops, chain[k - 1], chain[k]);
      RewriteSourceIff(rewrites, statements, ops, chain[k - 1], chain[k]);
    }
  }

  /** The exact condition on statements and operations: following the rewrites
      of statement `i` ends exactly when no chain of rewrites from it comes back
      to a statement it passed. */
  lemma EndsUnlessLooped(rewrites: map<nat, nat>, statements: seq<Stmt>, ops: seq<Operation>, i: nat)
    requires IsRewriteSource(rewrites, statements, ops)
    ensures Ends(rewrites, i) <==> !ReachesLoop(statements, ops, i)
  {
    EndsIff(rewrites, i);
    if ReachesLoop(statements, ops, i) {
      var chain :| |chain| > 1 && chain[0] == i && IsChain(statements, ops, chain) && IsLooped(chain);
      var n := |chain| - 1;
      var m :| 0 <= m < n && chain[m] == chain[n];
      ChainFollows(rewrites, statements, ops, chain, m);
      ChainFollows(rewrites, statements, ops, chain, n);
      assert Cycles(rewrites, i);
    }
    if Cycles(rewrites, i) {
      var m: nat, n: nat :|
        m < n && Follow(rewrites, i, m) == Follow(rewrites, i, n) && Follow(rewrites, i, m) in rewrites;
      LoopedChain(rewrites, statements, ops, i, m, n);
    }
  }

  lemma LoopedChain(
    rewrites: map<nat, nat>, statements: seq<Stmt>, ops: seq<Operation>, i: nat, m: nat, n: nat)
    requires IsRewriteSource(rewrites, statements, ops) && m < n
    requires Follow(rewrites, i, m) == Follow(rewrites, i, n) && Follow(rewrites, i, m) in rewrites
    ensures ReachesLoop(statements, ops, i)
  {
    var chain := seq(n + 1, k requires 0 <= k <= n => Follow(rewrites, i, k));
    forall a, b | 0 <= a < b < |chain| && b == a + 1 ensures IsRewrite(statements, ops, chain[a], chain[b]) {
      if chain[a] !in rewrites {
        if a <= m { EndedStays(rewrites, i, a, m); } else { EndedStays(rewrites, i, a, n); }
      }
      RewriteSourceIff(rewrites, statements, ops, chain[a], chain[b]);
    }
    assert chain[..n][m] == chain[n];
    assert chain[0] == i && IsLooped(chain);
  }

  /** Rewrites of statements last found earlier always end. */
  lemma {:induction false} EarlierSourcesEnd(rewrites: map<nat, nat>, i: nat)
    requires forall k :: k in rewrites ==> rewrites[k] < k
    ensures Ends(rewrites, i)
  {
    if i in rewrites {
      EarlierSourcesEnd(rewrites, rewrites[i]);
      var n: nat :| Follow(rewrites, rewrites[i], n) !in rewrites;
      FollowFurther(rewrites, i, 1, n);
      assert Follow(rewrites, i, 0) == i;
      assert Follow(rewrites, i, 1 + n) !in rewrites;
    } else {
      assert Follow(rewrites, i, 0) !in rewrites;
    }
  }

  /** Statements are found by value, at their last position, so a rewrite of a
      later copy can lead back: in `A, B, A`, with the second statement rewriting
      A and the third B, following either does not end. */
  lemma LaterCopiesLoop(rewrites: map<nat, nat>)
    requires var a, b := 7, 8; IsRewriteSource(rewrites, [a, b, a],
      [Operation(false, None), Operation(true, Some(a)), Operation(true, Some(b))])
    ensures !Ends(rewrites, 1) && !Ends(rewrites, 2)
  {
    var statements := [7, 8, 7];
    var ops := [Operation(false, None), Operation(true, Some(7)), Operation(true, Some(8))];
    assert IsRewrite(statements, ops, 1, 2) && IsRewrite(statements, ops, 2, 1);
    assert IsChain(statements, ops, [1, 2, 1]) && [1, 2, 1][..2] == [1, 2] && IsLooped([1, 2, 1]);
    assert IsChain(statements, ops, [2, 1, 2]) && [2, 1, 2][..2] == [2, 1] && IsLooped([2, 1, 2]);
    EndsUnlessLooped(rewrites, statements, ops, 1);
    EndsUnlessLooped(rewrites, statements, ops, 2);
  }

  /** So does a rewrite that leaves its statement as it was. */
  lemma UnchangedRewriteLoops(rewrites: map<nat, nat>, statements: seq<Stmt>, ops: seq<Operation>, i: nat)
    requires IsRewriteSource(rewrites, statements, ops) && IsRewrite(statements, ops, i, i)
    ensures !Ends(rewrites, i)
  {
    assert IsChain(statements, ops, [i, i]) && [i, i][..1] == [i] && IsLooped([i, i]);
    EndsUnlessLooped(rewrites, statements, ops, i);
  }

  // ------------------------------------------------------------------
  // The graph

  datatype Dep = Internal(index: nat) | External(pod: nat, statement: nat)

  type Ref = (nat, nat)

  /** `shown[s]`: statement `s` is custom or introduced. */
  datatype Graph = Graph(shown: seq<bool>, deps: seq<seq<Dep>>, rewrites: map<nat, nat>, compressed: bool)

  ghost predicate IsShaped(g: Graph) {
    |g.deps| >= |g.shown| && (!g.compressed ==> g.rewrites == map[])
  }

  predicate IsNode(g: Graph, s: nat) {
    s < |g.shown| && (!g.compressed || (s !in g.rewrites && g.shown[s]))
  }

  predicate IsHidden(g: Graph, s: nat) {
    s < |g.shown| && !IsNode(g, s)
  }

  /** What `i` stands for, if following its rewrites ends. */
  ghost function Final(rewrites: map<nat, nat>, i: nat): nat {
    if Ends(rewrites, i) then Resolved(rewrites, i) else i
  }

  /** `d` is what some dependency of `s` stands for. */
  ghost predicate DependsOn(g: Graph, s: nat, d: nat)
    requires IsShaped(g)
  {
    s < |g.shown| && exists dep :: dep in g.deps[s] && dep.Internal? && StandsFor(g.rewrites, dep.index, d)
  }

  ghost predicate StandsFor(rewrites: map<nat, nat>, i: nat, d: nat) {
    Ends(rewrites, i) && Final(rewrites, i) == d
  }

  /** From a hidden statement to what it depends on. */
  ghost predicate Passes(g: Graph, s: nat, d: nat)
    requires IsShaped(g)
  {
    IsHidden(g, s) && DependsOn(g, s, d)
  }

  /** A walk from `s` over dependencies that passes hidden statements only. */
  ghost predicate IsWalk(g: Graph, s: nat, walk: seq<nat>)
    requires IsShaped(g)
  {
    && walk != [] && DependsOn(g, s, walk[0])
    && forall i, j :: 0 <= i < j < |walk| && j == i + 1 ==> Passes(g, walk[i], walk[j])
  }

  ghost predicate Reaches(g: Graph, s: nat, d: nat)
    requires IsShaped(g)
  {
    exists walk :: IsWalk(g, s, walk) && walk[|walk| - 1] == d
  }

  /** `s` or a hidden statement it reaches depends on the external statement. */
  ghost predicate ReachesExternal(g: Graph, s: nat, e: Ref)
    requires IsShaped(g)
  {
    exists x: nat ::
      (x == s || (Reaches(g, s, x) && IsHidden(g, x))) && x < |g.shown| && External(e.0, e.1) in g.deps[x]
  }

  lemma ReachesNext(g: Graph, s: nat, d: nat)
    requires IsShaped(g) && DependsOn(g, s, d)
    ensures Reaches(g, s, d)
  {
    assert IsWalk(g, s, [d]) && [d][|[d]| - 1] == d;
  }

  lemma ReachesFurther(g: Graph, s: nat, x: nat, d: nat)
    requires IsShaped(g) && Reaches(g, s, x) && IsHidden(g, x) && DependsOn(g, x, d)
    ensures Reaches(g, s, d)
  {
    var walk :| IsWalk(g, s, walk) && walk[|walk| - 1] == x;
    var longer := walk + [d];
    forall i, j | 0 <= i < j < |longer| && j == i + 1 ensures Passes(g, longer[i], longer[j]) {
      if j < |walk| { assert Passes(g, walk[i], walk[j]); }
    }
    assert IsWalk(g, s, longer) && longer[|longer| - 1] == d;
  }

  /** Drawing looks at the dependencies of visible statements, and of hidden ones
      they reach. */
  ghost predicate IsLookedAt(g: Graph, x: nat)
    requires IsShaped(g)
  {
    IsNode(g, x) || (IsHidden(g, x) && exists s :: IsNode(g, s) && Reaches(g, s, x))
  }

  /** Resolving any of these dependencies ends. */
  ghost predicate WellFormed(g: Graph) {
    && IsShaped(g)
    && forall x: nat, dep :: IsLookedAt(g, x) && dep in g.deps[x] && dep.Internal? ==> Ends(g.rewrites, dep.index)
  }

  // ------------------------------------------------------------------
  // The worklist

  /** The statements whose dependencies have been queued. */
  predicate Opened(g: Graph, s: nat, visited: set<nat>, x: nat) {
    x == s || (x in visited && IsHidden(g, x))
  }

  /** Queued dependencies belong to opened statements, visited ones are reached. */
  ghost predicate Sound(g: Graph, s: nat, visited: set<nat>, queue: seq<Dep>, external: set<Ref>)
    requires IsShaped(g)
  {
    && (forall d :: d in visited ==> Reaches(g, s, d))
    && (forall dep :: dep in queue ==> FromOpened(g, s, dep))
    && (forall e :: e in external ==> ReachesExternal(g, s, e))
  }

  ghost predicate FromOpened(g: Graph, s: nat, dep: Dep)
    requires IsShaped(g)
  {
    match dep
    case Internal(d) => Ends(g.rewrites, d) && Reaches(g, s, Final(g.rewrites, d))
    case External(p, t) => ReachesExternal(g, s, (p, t))
  }

  /** Every dependency of an opened statement has been taken in or is queued. */
  ghost predicate Complete(g: Graph, s: nat, visited: set<nat>, queue: seq<Dep>, external: set<Ref>)
    requires IsShaped(g)
  {
    forall x: nat, dep :: Opened(g, s, visited, x) && x < |g.shown| && dep in g.deps[x] ==>
      dep in queue || TakenIn(g, visited, external, dep)
  }

  ghost predicate TakenIn(g: Graph, visited: set<nat>, external: set<Ref>, dep: Dep)
    requires IsShaped(g)
  {
    match dep
    case Internal(d) => Final(g.rewrites, d) in visited
    case External(p, t) => (p, t) in external
  }

  /** Everything a dependency of the graph can stand for. */
  ghost function Targets(g: Graph): set<nat>
    requires IsShaped(g)
  {
    set x, k | 0 <= x < |g.shown| && 0 <= k < |g.deps[x]| && g.deps[x][k].Internal? ::
      Final(g.rewrites, g.deps[x][k].index)
  }

  lemma DepsFromOpened(g: Graph, s: nat, x: nat)
    requires WellFormed(g) && IsNode(g, s) && (x == s || (Reaches(g, s, x) && IsHidden(g, x)))
    ensures forall dep :: dep in g.deps[x] ==> FromOpened(g, s, dep)
  {
    assert IsLookedAt(g, x);
    forall dep | dep in g.deps[x] ensures FromOpened(g, s, dep) {
      if dep.Internal? {
        assert StandsFor(g.rewrites, dep.index, Final(g.rewrites, dep.index));
        assert DependsOn(g, x, Final(g.rewrites, dep.index));
        if x == s {
          ReachesNext(g, s, Final(g.rewrites, dep.index));
        } else {
          ReachesFurther(g, s, x, Final(g.rewrites, dep.index));
        }
      } else {
        assert External(dep.pod, dep.statement) in g.deps[x];
      }
    }
  }

  /** With the queue empty, everything reached has been visited. */
  lemma {:induction false} WalksAreVisited(
    g: Graph, s: nat, visited: set<nat>, external: set<Ref>, walk: seq<nat>, k: nat)
    requires IsShaped(g) && s < |g.shown| && Complete(g, s, visited, [], external) && IsWalk(g, s, walk) && k < |walk|
    ensures walk[k] in visited
  {
    var from := s;
    if k > 0 {
      WalksAreVisited(g, s, visited, external, walk, k - 1);
      from := walk[k - 1];
      assert Passes(g, walk[k - 1], walk[k]);
    }
    assert Opened(g, s, visited, from);
    var dep :| dep in g.deps[from] && dep.Internal? && StandsFor(g.rewrites, dep.index, walk[k]);
    assert TakenIn(g, visited, external, dep);
  }

  lemma EmptyQueueIsExact(g: Graph, s: nat, visited: set<nat>, external: set<Ref>)
    requires IsShaped(g) && s < |g.shown|
    requires Sound(g, s, visited, [], external) && Complete(g, s, visited, [], external)
    ensures forall d :: d in visited <==> Reaches(g, s, d)
    ensures forall e :: e in external <==> ReachesExternal(g, s, e)
  {
    forall d | Reaches(g, s, d) ensures d in visited {
      var walk :| IsWalk(g, s, walk) && walk[|walk| - 1] == d;
      WalksAreVisited(g, s, visited, external, walk, |walk| - 1);
    }
    forall e | ReachesExternal(g, s, e) ensures e in external {
      var x: nat :|
        (x == s || (Reaches(g, s, x) && IsHidden(g, x))) && x < |g.shown| && External(e.0, e.1) in g.deps[x];
      assert Opened(g, s, visited, x);
      assert TakenIn(g, visited, external, External(e.0, e.1));
    }
  }

  lemma QueueStarts(g: Graph, s: nat)
    requires WellFormed(g) && IsNode(g, s)
    ensures Sound(g, s, {}, g.deps[s], {}) && Complete(g, s, {}, g.deps[s], {})
  {
    DepsFromOpened(g, s, s);
  }

  /** Taking the last queued dependency off: its statement, if new and hidden,
      is opened. */
  lemma TakingExternal(g: Graph, s: nat, visited: set<nat>, queue: seq<Dep>, external: set<Ref>, e: Ref)
    requires IsShaped(g) && queue != [] && queue[|queue| - 1] == External(e.0, e.1)
    requires Sound(g, s, visited, queue, external) && Complete(g, s, visited, queue, external)
    ensures Sound(g, s, visited, queue[..|queue| - 1], external + {e})
    ensures Complete(g, s, visited, queue[..|queue| - 1], external + {e})
  {
    var rest := queue[..|queue| - 1];
    assert queue == rest + [queue[|queue| - 1]];
    assert FromOpened(g, s, queue[|queue| - 1]);
    forall x: nat, dep | Opened(g, s, visited, x) && x < |g.shown| && dep in g.deps[x]
      ensures dep in rest || TakenIn(g, visited, external + {e}, dep)
    {
      assert dep in queue || TakenIn(g, visited, external, dep);
    }
  }

  lemma TakingVisited(g: Graph, s: nat, visited: set<nat>, queue: seq<Dep>, external: set<Ref>, d: nat)
    requires IsShaped(g) && queue != [] && queue[|queue| - 1] == Internal(d) && Final(g.rewrites, d) in visited
    requires Sound(g, s, visited, queue, external) && Complete(g, s, visited, queue, external)
    ensures Sound(g, s, visited, queue[..|queue| - 1], external)
    ensures Complete(g, s, visited, queue[..|queue| - 1], external)
  {
  }

  lemma TakingNew(g: Graph, s: nat, visited: set<nat>, queue: seq<Dep>, external: set<Ref>, d: nat)
    requires WellFormed(g) && IsNode(g, s)
    requires queue != [] && queue[|queue| - 1] == Internal(d) && Final(g.rewrites, d) !in visited
    requires Sound(g, s, visited, queue, external) && Complete(g, s, visited, queue, external)
    ensures var r := Final(g.rewrites, d);
      var rest := queue[..|queue| - 1] + (if IsHidden(g, r) then g.deps[r] else []);
      Sound(g, s, visited + {r}, rest, external) && Complete(g, s, visited + {r}, rest, external)
  {
    var r := Final(g.rewrites, d);
    var rest := queue[..|queue| - 1] + (if IsHidden(g, r) then g.deps[r] else []);
    assert queue == queue[..|queue| - 1] + [queue[|queue| - 1]];
    assert FromOpened(g, s, queue[|queue| - 1]);
    if IsHidden(g, r) { DepsFromOpened(g, s, r); }
    forall x: nat, dep | Opened(g, s, visited + {r}, x) && x < |g.shown| && dep in g.deps[x]
      ensures dep in rest || TakenIn(g, visited + {r}, external, dep)
    {
      if Opened(g, s, visited, x) { assert dep in queue || TakenIn(g, visited, external, dep); }
    }
  }

  lemma QueuedEnds(g: Graph, s: nat, visited: set<nat>, queue: seq<Dep>, external: set<Ref>)
    requires IsShaped(g) && queue != [] && Sound(g, s, visited, queue, external) && queue[|queue| - 1].Internal?
    ensures Ends(g.rewrites, queue[|queue| - 1].index)
    ensures Final(g.rewrites, queue[|queue| - 1].index) == Resolved(g.rewrites, queue[|queue| - 1].index)
  {
    hide Ends, Resolved;
    assert FromOpened(g, s, queue[|queue| - 1]);
  }

  lemma QueuedTargets(g: Graph, x: nat)
    requires IsShaped(g) && x < |g.shown|
    ensures InTargets(g.deps[x], g.rewrites, Targets(g))
  {
  }

  ghost predicate InTargets(queue: seq<Dep>, rewrites: map<nat, nat>, targets: set<nat>) {
    forall dep :: dep in queue && dep.Internal? ==> Final(rewrites, dep.index) in targets
  }

  lemma LastTarget(queue: seq<Dep>, rewrites: map<nat, nat>, targets: set<nat>)
    requires queue != [] && InTargets(queue, rewrites, targets)
    ensures InTargets(queue[..|queue| - 1], rewrites, targets)
    ensures queue[|queue| - 1].Internal? ==> Final(rewrites, queue[|queue| - 1].index) in targets
  {
  }

  lemma BothTargets(queue: seq<Dep>, more: seq<Dep>, rewrites: map<nat, nat>, targets: set<nat>)
    requires InTargets(queue, rewrites, targets) && InTargets(more, rewrites, targets)
    ensures InTargets(queue + more, rewrites, targets)
  {
  }

  /** The edges into `s`: a different visible statement is linked exactly when
      it is reached through hidden statements, after following rewrites, and an
      external one exactly when `s` or a hidden statement reached needs it. */
  method EdgesInto(g: Graph, s: nat) returns (internal: set<nat>, external: set<Ref>)
    requires WellFormed(g) && IsNode(g, s)
    ensures forall d: nat :: d in internal <==> d != s && IsNode(g, d) && Reaches(g, s, d)
    ensures forall e :: e in external <==> ReachesExternal(g, s, e)
  {
    hide Reaches, ReachesExternal, Resolved, Final, Ends, DependsOn, FromOpened, TakenIn, Opened, Targets, InTargets;
    hide Sound, Complete;
    internal, external := {}, {};
    var visited := {};
    var queue := g.deps[s];
    ghost var targets := Targets(g);
    QueueStarts(g, s);
    QueuedTargets(g, s);
    hide IsNode, IsHidden, WellFormed;
    while queue != []
      invariant Sound(g, s, visited, queue, external) && Complete(g, s, visited, queue, external)
      invariant forall d: nat :: d in internal <==> d in visited && d != s && IsNode(g, d)
      invariant visited <= targets && InTargets(queue, g.rewrites, targets)
      decreases |targets - visited|, |queue|
    {
      var dep := queue[|queue| - 1];
      var rest := queue[..|queue| - 1];
      LastTarget(queue, g.rewrites, targets);
      match dep
      case External(pod, statement) =>
        TakingExternal(g, s, visited, queue, external, (pod, statement));
        external := external + {(pod, statement)};
        queue := rest;
      case Internal(index) =>
        QueuedEnds(g, s, visited, queue, external);
        var d := Resolve(g.rewrites, index);
        if d in visited {
          TakingVisited(g, s, visited, queue, external, index);
          queue := rest;
        } else {
          TakingNew(g, s, visited, queue, external, index);
          Shrinks(targets, visited, d);
          visited := visited + {d};
          queue := rest;
          assert rest + [] == rest;
          if d < |g.shown| && d != s {
            if IsNode(g, d) {
              internal := internal + {d};
            } else if g.compressed {
              QueuedTargets(g, d);
              BothTargets(rest, g.deps[d], g.rewrites, targets);
              queue := rest + g.deps[d];
            }
          }
        }
    }
    EmptyQueueIsExact(g, s, visited, external);
  }

  lemma Shrinks(all: set<nat>, some: set<nat>, d: nat)
    requires d in all && d !in some
    ensures |all - (some + {d})| < |all - some|
  {
    assert all - (some + {d}) == (all - some) - {d};
  }

  datatype View = View(podVisible: seq<seq<nat>>, edges: map<nat, (set<nat>, set<Ref>)>, externalRefs: set<Ref>)

  /** The visible ones among the statements, in order. */
  function VisibleIn(g: Graph, stmts: seq<nat>): (r: seq<nat>) {
    if stmts == [] then []
    else (if IsNode(g, stmts[0]) then [stmts[0]] else []) + VisibleIn(g, stmts[1..])
  }

  /** A plan: its statements, which of them are custom or introduced, the
      operations that made them, what each depends on, and the statements of
      each pod. */
  datatype Plan = Plan(
    statements: seq<Stmt>, shown: seq<bool>, ops: seq<Operation>, deps: seq<seq<Dep>>, pods: seq<seq<nat>>)

  /** The plan's graph, with the rewrites its operations make. */
  ghost function GraphOf(plan: Plan, compressed: bool): Graph {
    Graph(plan.shown, plan.deps, if compressed then RewritesOf(plan.statements, plan.ops) else map[], compressed)
  }

  /** Every statement has its flag and its dependencies. */
  predicate IsWhole(plan: Plan) {
    |plan.shown| == |plan.statements| && |plan.deps| >= |plan.statements|
  }

  /** In the compressed view no dependency of a visible statement, nor of a hidden
      one it reaches, leads by rewrites into a loop. */
  ghost predicate IsDrawable(plan: Plan, compressed: bool)
    requires IsWhole(plan)
  {
    compressed ==> forall x: nat, dep ::
      IsLookedAt(GraphOf(plan, compressed), x) && dep in plan.deps[x] && dep.Internal? ==>
        !ReachesLoop(plan.statements, plan.ops, dep.index)
  }

  /** The graph can be drawn exactly then. */
  lemma DrawableIff(plan: Plan, compressed: bool)
    requires IsWhole(plan)
    ensures WellFormed(GraphOf(plan, compressed)) <==> IsDrawable(plan, compressed)
  {
    hide Ends, ReachesLoop, Reaches, RewritesOf;
    if compressed {
      RewritesOfIsSource(plan.statements, plan.ops);
      forall i: nat ensures
        Ends(RewritesOf(plan.statements, plan.ops), i) <==> !ReachesLoop(plan.statements, plan.ops, i)
      {
        EndsUnlessLooped(RewritesOf(plan.statements, plan.ops), plan.statements, plan.ops, i);
      }
    } else {
      forall i: nat ensures Ends(map[], i) { NothingToFollow(i); }
    }
  }

  lemma NothingToFollow(i: nat)
    ensures Ends(map[], i)
  {
    var none: map<nat, nat> := map[];
    assert Follow(none, i, 0) !in none;
  }

  /** The whole view: graph compression is exact, for the rewrites the plan's own
      operations make. */
  method BuildGraphView(plan: Plan, compressed: bool) returns (v: View)
    requires IsWhole(plan) && IsDrawable(plan, compressed)
    ensures IsViewOf(v, GraphOf(plan, compressed), plan.pods)
  {
    var rewrites := map[];
    if compressed {
      rewrites := BuildRewriteSource(plan.statements, plan.ops);
      RewriteSourceIsUnique(rewrites, plan.statements, plan.ops);
    }
    DrawableIff(plan, compressed);
    v := DrawGraph(Graph(plan.shown, plan.deps, rewrites, compressed), plan.pods);
  }

  /** The view shows exactly the visible statements; a statement is linked exactly
      to the different visible ones it reaches through hidden ones, and to the
      external ones these need; and the pods list their visible statements. */
  ghost predicate IsViewOf(v: View, g: Graph, pods: seq<seq<nat>>)
    requires IsShaped(g)
  {
    && (forall s: nat :: s in v.edges <==> IsNode(g, s))
    && (forall s: nat, d: nat :: s in v.edges ==> (d in v.edges[s].0 <==> d != s && IsNode(g, d) && Reaches(g, s, d)))
    && (forall s: nat, e :: s in v.edges ==> (e in v.edges[s].1 <==> ReachesExternal(g, s, e)))
    && (forall e :: e in v.externalRefs <==> exists s: nat :: IsNode(g, s) && ReachesExternal(g, s, e))
    && |v.podVisible| == |pods| && forall p :: 0 <= p < |pods| ==> IsKept(pods[p], Nodes(g), v.podVisible[p])
  }

  function Nodes(g: Graph): nat -> bool { (s: nat) => IsNode(g, s) }

  lemma {:induction false} VisibleInOrder(g: Graph, stmts: seq<nat>)
    ensures IsKept(stmts, Nodes(g), VisibleIn(g, stmts))
  {
    hide IsKept;
    if stmts == [] {
      NoneKept(Nodes(g));
    } else {
      VisibleInOrder(g, stmts[1..]);
      KeptBehind(stmts, Nodes(g), VisibleIn(g, stmts[1..]));
    }
  }

  /** What is drawn as a node: every statement, or, in the compressed view, the
      custom and introduced ones that no operation of the plan rewrites. */
  lemma NodesAre(plan: Plan, compressed: bool, s: nat)
    requires IsWhole(plan)
    ensures IsNode(GraphOf(plan, compressed), s) <==>
      && s < |plan.statements|
      && (compressed ==> plan.shown[s] && forall j: nat :: !IsRewrite(plan.statements, plan.ops, s, j))
  {
  }

  method DrawGraph(g: Graph, pods: seq<seq<nat>>) returns (v: View)
    requires WellFormed(g)
    ensures IsViewOf(v, g, pods)
  {
    hide Reaches, ReachesExternal, Resolved, Final, Ends, DependsOn;
    var edges: map<nat, (set<nat>, set<Ref>)>, refs: set<Ref> := map[], {};
    for s := 0 to |g.shown|
      invariant forall k: nat :: k in edges <==> k < s && IsNode(g, k)
      invariant forall k: nat, d: nat :: k in edges ==>
        (d in edges[k].0 <==> d != k && IsNode(g, d) && Reaches(g, k, d))
      invariant forall k: nat, e :: k in edges ==> (e in edges[k].1 <==> ReachesExternal(g, k, e))
      invariant forall e :: e in refs <==> exists k: nat :: k < s && IsNode(g, k) && ReachesExternal(g, k, e)
    {
      if !IsNode(g, s) { continue; }
      var internal, external := EdgesInto(g, s);
      edges := edges[s := (internal, external)];
      refs := refs + external;
    }
    v := View(seq(|pods|, p requires 0 <= p < |pods| => VisibleIn(g, pods[p])), edges, refs);
    forall p | 0 <= p < |pods| ensures IsKept(pods[p], Nodes(g), v.podVisible[p]) { VisibleInOrder(g, pods[p]); }
  }
}
