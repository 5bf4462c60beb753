/** One-level inlining of an action predicate: the helper calls of the same
    batch are expanded into one flat list of statements over one wildcard
    namespace. */
module Inlining {
  import opened Filters

  datatype Wildcard = Wildcard(name: string, index: nat)

  datatype Arg =
    | Literal(value: nat)
    | Variable(wildcard: Wildcard)
    | AnchoredKey(wildcard: Wildcard, key: string)
    | SelfPredicateHash(index: nat)

  datatype NativePredicate =
    | ContainerInsert | ContainerUpdate | ContainerDelete
    | DictInsert | DictUpdate | DictDelete
    | OtherNative(code: nat)

  datatype Predicate =
    | Native(op: NativePredicate)
    | Custom(id: nat)
    | Intro(id: nat)
    | BatchSelf(index: nat)
    | Unbound(wildcard: Wildcard)

  datatype Statement = Statement(pred: Predicate, args: seq<Arg>)

  /** A predicate of the batch is a conjunction of statements. */
  type Body = seq<Statement>

  /** Indices reserved for the caller and for each expanded call. */
  const SPACING: nat := 10_000

  // ------------------------------------------------------------------
  // The transformation

  function SubstituteArg(arg: Arg, bindings: seq<Arg>, offset: nat): Arg {
    match arg
    case Variable(w) =>
      if w.index < |bindings| then bindings[w.index] else Variable(Wildcard(w.name, w.index + offset))
    case AnchoredKey(w, key) =>
      if w.index < |bindings| then
        match bindings[w.index]
        case Variable(v) => AnchoredKey(v, key)
        case _ => arg
      else AnchoredKey(Wildcard(w.name, w.index + offset), key)
    case _ => arg
  }

  function SubstituteStatement(stmt: Statement, bindings: seq<Arg>, offset: nat): Statement {
    Statement(
      stmt.pred,
      seq(|stmt.args|, i requires 0 <= i < |stmt.args| => SubstituteArg(stmt.args[i], bindings, offset)))
  }

  function SubstituteBody(body: Body, bindings: seq<Arg>, offset: nat): (r: Body)
    ensures |r| == |body|
  {
    seq(|body|, i requires 0 <= i < |body| => SubstituteStatement(body[i], bindings, offset))
  }

  /** A call of a predicate of the batch. */
  datatype Call = Call(args: seq<Arg>, body: Body)

  predicate IsCall(stmt: Statement, batch: seq<Body>) {
    stmt.pred.BatchSelf? && stmt.pred.index < |batch|
  }

  function CallOf(stmt: Statement, batch: seq<Body>): seq<Call> {
    if IsCall(stmt, batch) then [Call(stmt.args, batch[stmt.pred.index])] else []
  }

  /** The calls among `stmts`, in order; an index outside the batch is none. */
  function Calls(stmts: Body, batch: seq<Body>): seq<Call> {
    if stmts == [] then []
    else
      var k := |stmts| - 1;
      Calls(stmts[..k], batch) + CallOf(stmts[k], batch)
  }

  function Offset(k: nat): nat { (k + 1) * SPACING }

  /** The bodies of the calls, each over wildcards of its own. */
  function Expanded(calls: seq<Call>): Body {
    if calls == [] then []
    else
      var k := |calls| - 1;
      Expanded(calls[..k]) + SubstituteBody(calls[k].body, calls[k].args, Offset(k))
  }

  lemma ExpandedGrows(calls: seq<Call>, call: Call)
    ensures Expanded(calls + [call]) == Expanded(calls) + SubstituteBody(call.body, call.args, Offset(|calls|))
  {
  }

  lemma CallsGrow(stmts: Body, batch: seq<Body>, i: nat)
    requires i < |stmts|
    ensures Calls(stmts[..i + 1], batch) ==
      Calls(stmts[..i], batch) + CallOf(stmts[i], batch)
  {
    assert stmts[..i + 1][..i] == stmts[..i];
  }

  /** The helper's statements, substituted, pushed one by one. */
  method PushBody(flat: Body, helper: Body, bindings: seq<Arg>, offset: nat) returns (out: Body)
    ensures out == flat + SubstituteBody(helper, bindings, offset)
  {
    out := flat;
    for j := 0 to |helper|
      invariant out == flat + SubstituteBody(helper, bindings, offset)[..j]
    {
      out := out + [SubstituteStatement(helper[j], bindings, offset)];
    }
    assert SubstituteBody(helper, bindings, offset)[..|helper|] == SubstituteBody(helper, bindings, offset);
  }

  method InlineAction(action: Body, batch: seq<Body>) returns (out: Body)
    ensures out == action + Expanded(Calls(action, batch))
  {
    hide SubstituteBody, Expanded;
    out := action;
    var nextOffset := SPACING;
    NoneExpanded();
    for i := 0 to |action|
      invariant nextOffset == Offset(|Calls(action[..i], batch)|)
      invariant out == action + Expanded(Calls(action[..i], batch))
    {
      var stmt := action[i];
      CallsGrow(action, batch, i);
      if IsCall(stmt, batch) {
        var helper := batch[stmt.pred.index];
        ExpandedGrows(Calls(action[..i], batch), Call(stmt.args, helper));
        var offset := nextOffset;
        nextOffset := nextOffset + SPACING;
        out := PushBody(out, helper, stmt.args, offset);
        assert out == action + (Expanded(Calls(action[..i], batch)) + SubstituteBody(helper, stmt.args, offset));
      } else {
        assert Calls(action[..i + 1], batch) == Calls(action[..i], batch);
      }
    }
    assert action[..|action|] == action;
  }

  /** The calls are those of the statements that name a predicate of the batch, in
      order. */
  lemma {:induction false} CallsInOrder(stmts: Body, batch: seq<Body>) returns (ks: seq<nat>)
    ensures ArePositions(stmts, (s: Statement) => s.pred.BatchSelf? && s.pred.index < |batch|, ks)
    ensures AreCallsAt(stmts, batch, ks, Calls(stmts, batch))
  {
    hide ArePositions, AreCallsAt;
    var keep := (s: Statement) => s.pred.BatchSelf? && s.pred.index < |batch|;
    if stmts == [] {
      ks := [];
      NoPositions(keep);
      NoCallsAt(batch);
    } else {
      var n := |stmts| - 1;
      var before := CallsInOrder(stmts[..n], batch);
      CallsAtGrow(stmts, batch, n, before);
      hide Calls;
      assert stmts == stmts[..n] + [stmts[n]];
      PositionsGrow(stmts[..n], keep, before, stmts[n]);
      ks := if IsCall(stmts[n], batch) then before + [n] else before;
    }
  }

  lemma NoCallsAt(batch: seq<Body>)
    ensures AreCallsAt([], batch, [], Calls([], batch))
  {
  }

  lemma CallsAtGrow(stmts: Body, batch: seq<Body>, n: nat, ks: seq<nat>)
    requires |stmts| == n + 1 && AreCallsAt(stmts[..n], batch, ks, Calls(stmts[..n], batch))
    ensures AreCallsAt(stmts, batch, if IsCall(stmts[n], batch) then ks + [n] else ks, Calls(stmts, batch))
  {
  }

  /** The `j`th call is that of the statement at `ks[j]`. */
  ghost predicate AreCallsAt(stmts: Body, batch: seq<Body>, ks: seq<nat>, calls: seq<Call>) {
    && |calls| == |ks|
    && forall j :: 0 <= j < |ks| ==>
         && ks[j] < |stmts| && stmts[ks[j]].pred.BatchSelf? && stmts[ks[j]].pred.index < |batch|
         && calls[j] == Call(stmts[ks[j]].args, batch[stmts[ks[j]].pred.index])
  }

  /** Where the body of the `k`th call begins. */
  function StartOf(calls: seq<Call>, k: nat): nat
    requires k <= |calls|
  {
    if k == 0 then 0 else StartOf(calls, k - 1) + |calls[k - 1].body|
  }

  lemma {:induction false} StartOfFront(calls: seq<Call>, n: nat, k: nat)
    requires k <= n <= |calls|
    ensures StartOf(calls[..n], k) == StartOf(calls, k)
  {
    if k > 0 { StartOfFront(calls, n, k - 1); }
  }

  lemma {:induction false} StartsInOrder(calls: seq<Call>, k: nat, l: nat)
    requires k <= l <= |calls|
    ensures StartOf(calls, k) <= StartOf(calls, l)
  {
    if k < l { StartsInOrder(calls, k, l - 1); }
  }

  /** The flat list has the bodies one after the other, each statement with the
      call's arguments for its parameters and its other wildcards moved by 10000
      for each call up to its own. */
  lemma {:induction false} ExpandedAt(calls: seq<Call>, k: nat, m: nat)
    requires k < |calls| && m < |calls[k].body|
    ensures |Expanded(calls)| == StartOf(calls, |calls|) && StartOf(calls, k) + m < |Expanded(calls)|
    ensures Expanded(calls)[StartOf(calls, k) + m] ==
      SubstituteStatement(calls[k].body[m], calls[k].args, 10_000 * k + 10_000)
  {
    hide SubstituteStatement;
    var n := |calls| - 1;
    ExpandedLength(calls[..n]);
    ExpandedLength(calls);
    StartOfFront(calls, n, n);
    StartsInOrder(calls, k + 1, |calls|);
    if k < n {
      ExpandedAt(calls[..n], k, m);
      StartOfFront(calls, n, k);
    }
  }

  lemma {:induction false} ExpandedLength(calls: seq<Call>)
    ensures |Expanded(calls)| == StartOf(calls, |calls|)
  {
    if calls != [] {
      ExpandedLength(calls[..|calls| - 1]);
      StartOfFront(calls, |calls| - 1, |calls| - 1);
    }
  }

  lemma NoneExpanded()
    ensures Expanded([]) == []
  {
  }

  // ------------------------------------------------------------------
  // Meaning

  /** What predicates and dictionary entries are, over opaque values. */
  datatype Interpretation = Interpretation(
    entry: (nat, string) -> nat,
    self: nat -> nat,
    holds: (Predicate, seq<nat>) -> bool,
    denoted: nat -> Predicate)

  type Assignment = nat -> nat

  function Eval(I: Interpretation, arg: Arg, a: Assignment): nat {
    match arg
    case Literal(v) => v
    case Variable(w) => a(w.index)
    case AnchoredKey(w, key) => I.entry(a(w.index), key)
    case SelfPredicateHash(i) => I.self(i)
  }

  function EvalAll(I: Interpretation, args: seq<Arg>, a: Assignment): seq<nat> {
    seq(|args|, i requires 0 <= i < |args| => Eval(I, args[i], a))
  }

  predicate Holds(I: Interpretation, stmt: Statement, a: Assignment) {
    var p := if stmt.pred.Unbound? then I.denoted(a(stmt.pred.wildcard.index)) else stmt.pred;
    I.holds(p, EvalAll(I, stmt.args, a))
  }

  predicate Satisfies(I: Interpretation, body: Body, a: Assignment) {
    forall i :: 0 <= i < |body| ==> Holds(I, body[i], a)
  }

  /** A helper sees its arguments as parameters, and `private` beyond them. */
  function Scope(I: Interpretation, args: seq<Arg>, a: Assignment, private: Assignment): Assignment {
    (i: nat) => if i < |args| then Eval(I, args[i], a) else private(i)
  }

  // ------------------------------------------------------------------
  // One argument

  /** The shape inlining cannot express: an entry of a parameter that is not
      bound to a wildcard. */
  predicate Inexpressible(arg: Arg, bindings: seq<Arg>) {
    arg.AnchoredKey? && arg.wildcard.index < |bindings| && !bindings[arg.wildcard.index].Variable?
  }

  function Shifted(a: Assignment, offset: nat): Assignment { (i: nat) => a(i + offset) }

  ghost predicate SameValue(I: Interpretation, arg: Arg, bindings: seq<Arg>, offset: nat, a: Assignment) {
    Eval(I, SubstituteArg(arg, bindings, offset), a) == Eval(I, arg, Scope(I, bindings, a, Shifted(a, offset)))
  }

  /** Substitution keeps an argument's value, in every interpretation and under
      every assignment, exactly when the shape is expressible. */
  lemma SubstituteArgExact(arg: Arg, bindings: seq<Arg>, offset: nat)
    ensures !Inexpressible(arg, bindings) <==>
      forall I, a: Assignment :: SameValue(I, arg, bindings, offset, a)
  {
    if Inexpressible(arg, bindings) {
      var I, a := Difference(arg, bindings, offset);
    } else {
      forall I, a: Assignment
        ensures SameValue(I, arg, bindings, offset, a)
      {
        var scope := Scope(I, bindings, a, Shifted(a, offset));
        assert forall i: nat :: scope(i) == if i < |bindings| then Eval(I, bindings[i], a) else Shifted(a, offset)(i);
      }
    }
  }

  /** Otherwise the entry is read from whatever the wildcard of the same index
      stands for in the caller. */
  lemma Difference(arg: Arg, bindings: seq<Arg>, offset: nat) returns (I: Interpretation, a: Assignment)
    requires Inexpressible(arg, bindings)
    ensures !SameValue(I, arg, bindings, offset, a)
  {
    var i, b := arg.wildcard.index, bindings[arg.wildcard.index];
    var v := if b.Literal? then b.value + 1 else 5;
    I := Interpretation((d: nat, k: string) => d + 1, (j: nat) => 0,
      (p: Predicate, s: seq<nat>) => true, (d: nat) => Native(OtherNative(d)));
    a := (j: nat) => if j == i then v else 0;
    assert Eval(I, b, a) != v;
    assert Scope(I, bindings, a, Shifted(a, offset))(i) == Eval(I, b, a);
  }

  /** A predicate wildcard is left as it is, so it is read in the caller: right
      only for a parameter bound to the caller's wildcard of the same index. */
  predicate MisScoped(p: Predicate, bindings: seq<Arg>) {
    p.Unbound? &&
      !(p.wildcard.index < |bindings| && bindings[p.wildcard.index].Variable? &&
        bindings[p.wildcard.index].wildcard.index == p.wildcard.index)
  }

  /** Every argument is expressible, and the predicate read where it should be. */
  predicate IsInlinable(stmt: Statement, bindings: seq<Arg>) {
    && !MisScoped(stmt.pred, bindings)
    && forall j :: 0 <= j < |stmt.args| ==> !Inexpressible(stmt.args[j], bindings)
  }

  /** Substituting a statement keeps its truth, in every interpretation and under
      every assignment, exactly when it is inlinable. */
  lemma SubstituteStatementExact(stmt: Statement, bindings: seq<Arg>, offset: nat)
    requires offset > 0
    ensures IsInlinable(stmt, bindings) <==>
      forall I, a: Assignment :: SameTruth(I, stmt, bindings, offset, a)
  {
    if IsInlinable(stmt, bindings) {
      forall I, a: Assignment ensures SameTruth(I, stmt, bindings, offset, a) {
        StatementKeepsMeaning(I, stmt, bindings, offset, a);
      }
    } else if MisScoped(stmt.pred, bindings) {
      var I, a := PredicateDifference(stmt, bindings, offset);
    } else {
      var j :| 0 <= j < |stmt.args| && Inexpressible(stmt.args[j], bindings);
      var I, a := ArgumentDifference(stmt, j, bindings, offset);
    }
  }

  ghost predicate SameTruth(I: Interpretation, stmt: Statement, bindings: seq<Arg>, offset: nat, a: Assignment) {
    Holds(I, SubstituteStatement(stmt, bindings, offset), a) <==>
      Holds(I, stmt, Scope(I, bindings, a, Shifted(a, offset)))
  }

  lemma ArgumentDifference(stmt: Statement, j: nat, bindings: seq<Arg>, offset: nat)
    returns (I: Interpretation, a: Assignment)
    requires j < |stmt.args| && Inexpressible(stmt.args[j], bindings)
    ensures !SameTruth(I, stmt, bindings, offset, a)
  {
    var base, b := Difference(stmt.args[j], bindings, offset);
    a := b;
    var v := Eval(base, SubstituteArg(stmt.args[j], bindings, offset), a);
    I := base.(holds := (p: Predicate, s: seq<nat>) => |s| > j && s[j] == v);
    var sub := SubstituteStatement(stmt, bindings, offset);
    var scope := Scope(I, bindings, a, Shifted(a, offset));
    SameEval(base, I, SubstituteArg(stmt.args[j], bindings, offset), a);
    SameEval(base, I, stmt.args[j], scope);
    SameScope(base, I, bindings, a, offset, stmt.args[j]);
    assert EvalAll(I, sub.args, a)[j] == v;
    assert EvalAll(I, stmt.args, scope)[j] != v;
  }

  /** Values do not depend on which predicates hold. */
  lemma SameEval(I: Interpretation, J: Interpretation, arg: Arg, a: Assignment)
    requires J == I.(holds := J.holds)
    ensures Eval(I, arg, a) == Eval(J, arg, a)
  {
  }

  lemma SameScope(I: Interpretation, J: Interpretation, bindings: seq<Arg>, a: Assignment, offset: nat, arg: Arg)
    requires J == I.(holds := J.holds)
    ensures Eval(I, arg, Scope(I, bindings, a, Shifted(a, offset))) ==
      Eval(I, arg, Scope(J, bindings, a, Shifted(a, offset)))
  {
    if (arg.Variable? || arg.AnchoredKey?) && arg.wildcard.index < |bindings| {
      SameEval(I, J, bindings[arg.wildcard.index], a);
    }
  }

  lemma PredicateDifference(stmt: Statement, bindings: seq<Arg>, offset: nat)
    returns (I: Interpretation, a: Assignment)
    requires MisScoped(stmt.pred, bindings) && offset > 0
    ensures !SameTruth(I, stmt, bindings, offset, a)
  {
    var i := stmt.pred.wildcard.index;
    var v := if i < |bindings| && bindings[i].Literal? then bindings[i].value + 1 else 5;
    I := Interpretation((d: nat, k: string) => d + 1, (j: nat) => 0,
      (p: Predicate, s: seq<nat>) => p == Native(OtherNative(v)), (d: nat) => Native(OtherNative(d)));
    a := (j: nat) => if j == i then v else 0;
    var scope := Scope(I, bindings, a, Shifted(a, offset));
    if i < |bindings| {
      assert Eval(I, bindings[i], a) != v;
      assert scope(i) == Eval(I, bindings[i], a);
    } else {
      assert scope(i) == Shifted(a, offset)(i) == a(i + offset) == 0;
    }
    assert a(i) == v && scope(i) != v;
  }

  // ------------------------------------------------------------------
  // A whole body

  /** Every statement of the call's body is inlinable. */
  predicate Inlinable(call: Call) {
    forall i :: 0 <= i < |call.body| ==> IsInlinable(call.body[i], call.args)
  }

  lemma StatementKeepsMeaning(I: Interpretation, stmt: Statement, bindings: seq<Arg>, offset: nat, a: Assignment)
    requires IsInlinable(stmt, bindings)
    ensures SameTruth(I, stmt, bindings, offset, a)
  {
    var sub := SubstituteStatement(stmt, bindings, offset);
    var scope := Scope(I, bindings, a, Shifted(a, offset));
    forall j | 0 <= j < |stmt.args| ensures Eval(I, sub.args[j], a) == Eval(I, stmt.args[j], scope) {
      SubstituteArgExact(stmt.args[j], bindings, offset);
      assert SameValue(I, stmt.args[j], bindings, offset, a);
    }
    assert EvalAll(I, sub.args, a) == EvalAll(I, stmt.args, scope);
    if stmt.pred.Unbound? {
      var i := stmt.pred.wildcard.index;
      assert scope(i) == Eval(I, bindings[i], a) == a(i);
    }
  }

  lemma BodyKeepsMeaning(I: Interpretation, call: Call, offset: nat, a: Assignment)
    requires Inlinable(call)
    ensures Satisfies(I, SubstituteBody(call.body, call.args, offset), a) <==>
      Satisfies(I, call.body, Scope(I, call.args, a, Shifted(a, offset)))
  {
    var sub := SubstituteBody(call.body, call.args, offset);
    forall i | 0 <= i < |call.body|
      ensures Holds(I, sub[i], a) <==> Holds(I, call.body[i], Scope(I, call.args, a, Shifted(a, offset)))
    {
      StatementKeepsMeaning(I, call.body[i], call.args, offset, a);
      assert SameTruth(I, call.body[i], call.args, offset, a);
    }
  }

  predicate AllInlinable(calls: seq<Call>) {
    forall k :: 0 <= k < |calls| ==> Inlinable(calls[k])
  }

  lemma SatisfiesBoth(I: Interpretation, x: Body, y: Body, a: Assignment)
    ensures Satisfies(I, x + y, a) <==> Satisfies(I, x, a) && Satisfies(I, y, a)
  {
    if Satisfies(I, x + y, a) {
      forall i | 0 <= i < |x| ensures Holds(I, x[i], a) { assert (x + y)[i] == x[i]; }
      forall i | 0 <= i < |y| ensures Holds(I, y[i], a) { assert (x + y)[|x| + i] == y[i]; }
    }
  }

  /** The helper's body holds, its other wildcards being those at the offset. */
  predicate CallSatisfied(I: Interpretation, call: Call, a: Assignment, offset: nat) {
    Satisfies(I, call.body, Scope(I, call.args, a, Shifted(a, offset)))
  }

  lemma {:induction false} ExpandedMeaning(I: Interpretation, calls: seq<Call>, a: Assignment)
    requires AllInlinable(calls)
    ensures Satisfies(I, Expanded(calls), a) <==>
      forall k :: 0 <= k < |calls| ==> CallSatisfied(I, calls[k], a, Offset(k))
  {
    if calls != [] {
      var k := |calls| - 1;
      var front := calls[..k];
      ExpandedMeaning(I, front, a);
      SatisfiesBoth(I, Expanded(front), SubstituteBody(calls[k].body, calls[k].args, Offset(k)), a);
      BodyKeepsMeaning(I, calls[k], Offset(k), a);
      assert forall j :: 0 <= j < k ==> front[j] == calls[j];
    }
  }

  /** Inlining preserves meaning: an assignment satisfies the flat list exactly
      when it satisfies the caller and the body of each called helper, its
      parameters standing for the call's arguments and its other wildcards for
      those at the call's offset. */
  lemma InliningKeepsMeaning(I: Interpretation, action: Body, batch: seq<Body>, a: Assignment)
    requires AllInlinable(Calls(action, batch))
    ensures var calls := Calls(action, batch);
      Satisfies(I, action + Expanded(calls), a) <==>
        && Satisfies(I, action, a)
        && forall k :: 0 <= k < |calls| ==> CallSatisfied(I, calls[k], a, Offset(k))
  {
    var calls := Calls(action, batch);
    SatisfiesBoth(I, action, Expanded(calls), a);
    ExpandedMeaning(I, calls, a);
  }

  // ------------------------------------------------------------------
  // Private wildcards

  predicate ArgWithin(arg: Arg, bound: nat) {
    arg.Variable? || arg.AnchoredKey? ==> arg.wildcard.index < bound
  }

  predicate Within(body: Body, bound: nat) {
    forall i :: 0 <= i < |body| ==>
      && (body[i].pred.Unbound? ==> body[i].pred.wildcard.index < bound)
      && forall j :: 0 <= j < |body[i].args| ==> ArgWithin(body[i].args[j], bound)
  }

  /** The wildcard of index `w` occurs. */
  predicate ArgMentions(arg: Arg, w: nat) {
    (arg.Variable? || arg.AnchoredKey?) && arg.wildcard.index == w
  }

  predicate ArgsMention(args: seq<Arg>, w: nat) {
    exists j :: 0 <= j < |args| && ArgMentions(args[j], w)
  }

  predicate Mentions(stmt: Statement, w: nat) {
    (stmt.pred.Unbound? && stmt.pred.wildcard.index == w) || ArgsMention(stmt.args, w)
  }

  predicate BodyMentions(body: Body, w: nat) {
    exists i :: 0 <= i < |body| && Mentions(body[i], w)
  }

  /** A wildcard of an expanded call is one of the call's arguments, or lies in
      the indices reserved for the call. */
  lemma ExpandedMentions(call: Call, offset: nat, w: nat)
    requires Inlinable(call) && Within(call.body, SPACING)
    requires BodyMentions(SubstituteBody(call.body, call.args, offset), w)
    ensures ArgsMention(call.args, w) || offset <= w < offset + SPACING
  {
  }

  /** With fewer than the spacing's wildcards each, a wildcard two expanded calls
      share is an argument of both, and so one of the caller's: private
      wildcards of different calls never coincide, nor meet the caller's. */
  lemma PrivateWildcardsApart(calls: seq<Call>, k: nat, l: nat, w: nat)
    requires AllInlinable(calls) && CallsWithin(calls) && k < l < |calls|
    requires BodyMentions(SubstituteBody(calls[k].body, calls[k].args, Offset(k)), w)
    requires BodyMentions(SubstituteBody(calls[l].body, calls[l].args, Offset(l)), w)
    ensures w < SPACING && ArgsMention(calls[k].args, w) && ArgsMention(calls[l].args, w)
  {
    ExpandedMentions(calls[k], Offset(k), w);
    ExpandedMentions(calls[l], Offset(l), w);
    ArgumentsWithin(calls[k].args, w);
    ArgumentsWithin(calls[l].args, w);
    assert Offset(l) >= Offset(k) + SPACING;
  }

  lemma ArgumentsWithin(args: seq<Arg>, w: nat)
    requires forall j :: 0 <= j < |args| ==> ArgWithin(args[j], SPACING)
    ensures ArgsMention(args, w) ==> w < SPACING
  {
  }

  /** Predicate `n` holds of the value `n` only. */
  function TellApart(): Interpretation {
    Interpretation((d: nat, k: string) => 0, (j: nat) => 0,
      (p: Predicate, s: seq<nat>) => p.Native? && p.op.OtherNative? ==> s == [p.op.code],
      (d: nat) => Native(OtherNative(d)))
  }

  const TWO_CALLS: Body := [Statement(BatchSelf(0), []), Statement(BatchSelf(1), [])]

  const TWO_HELPERS: seq<Body> := [
    [Statement(Native(OtherNative(1)), [Variable(Wildcard("x", SPACING))])],
    [Statement(Native(OtherNative(2)), [Variable(Wildcard("y", 0))])]]

  lemma EachHelperHolds(k: nat, c: Assignment)
    requires k < 2
    ensures CallHolds(TellApart(), Call([], TWO_HELPERS[k]), c)
  {
    var I, call := TellApart(), Call([], TWO_HELPERS[k]);
    var private: Assignment := (j: nat) => k + 1;
    assert EvalAll(I, call.body[0].args, Scope(I, [], c, private)) == [k + 1];
    assert Satisfies(I, call.body, Scope(I, [], c, private));
  }

  lemma NoCommonSolution(a: Assignment)
    ensures var calls := Calls(TWO_CALLS, TWO_HELPERS);
      AllInlinable(calls) && !Satisfies(TellApart(), TWO_CALLS + Expanded(calls), a)
  {
    MeetingCalls(TWO_CALLS, TWO_HELPERS);
    var I, calls := TellApart(), Calls(TWO_CALLS, TWO_HELPERS);
    InliningKeepsMeaning(I, TWO_CALLS, TWO_HELPERS, a);
    var first, second := calls[0].body[0], calls[1].body[0];
    OneWildcard(I, first, second, a);
    hide Expanded, Calls, Scope, EvalAll, Shifted;
  }

  /** At the bound they do coincide, and a solution is lost: the first helper's
      wildcard 10,000 and the second's wildcard 0 become one, so two calls that
      hold each by itself have no common solution. */
  lemma WildcardsMeetAtTheBound(c: Assignment)
    ensures var calls := Calls(TWO_CALLS, TWO_HELPERS);
      && AllInlinable(calls) && Within(TWO_CALLS, SPACING) && ActionHolds(TellApart(), TWO_CALLS, TWO_HELPERS, c)
      && forall a: Assignment :: !Satisfies(TellApart(), TWO_CALLS + Expanded(calls), a)
  {
    MeetingCalls(TWO_CALLS, TWO_HELPERS);
    EachHelperHolds(0, c);
    EachHelperHolds(1, c);
    NoCommonSolution(c);
    hide Expanded, Calls, CallHolds;
    forall a: Assignment ensures !Satisfies(TellApart(), TWO_CALLS + Expanded(Calls(TWO_CALLS, TWO_HELPERS)), a) {
      NoCommonSolution(a);
    }
  }

  lemma MeetingCalls(caller: Body, batch: seq<Body>)
    requires |batch| == 2 && caller == [Statement(BatchSelf(0), []), Statement(BatchSelf(1), [])]
    ensures Calls(caller, batch) == [Call([], batch[0]), Call([], batch[1])]
  {
    assert caller[..1] == [caller[0]] && [caller[0]][..0] == [];
    assert Calls([], batch) == [];
    assert Calls([caller[0]], batch) == [Call([], batch[0])];
  }

  lemma OneWildcard(I: Interpretation, first: Statement, second: Statement, a: Assignment)
    requires first.args == [Variable(Wildcard("x", SPACING))] && second.args == [Variable(Wildcard("y", 0))]
    ensures EvalAll(I, first.args, Scope(I, [], a, Shifted(a, Offset(0)))) ==
      EvalAll(I, second.args, Scope(I, [], a, Shifted(a, Offset(1)))) == [a(2 * SPACING)]
  {
  }

  predicate Agree(a: Assignment, b: Assignment, bound: nat) {
    forall i: nat :: i < bound ==> a(i) == b(i)
  }

  lemma AgreeingBody(I: Interpretation, body: Body, a: Assignment, b: Assignment, bound: nat)
    requires Within(body, bound) && Agree(a, b, bound)
    ensures Satisfies(I, body, a) <==> Satisfies(I, body, b)
  {
    forall i | 0 <= i < |body| ensures Holds(I, body[i], a) <==> Holds(I, body[i], b) {
      forall j | 0 <= j < |body[i].args| ensures Eval(I, body[i].args[j], a) == Eval(I, body[i].args[j], b) {
        assert ArgWithin(body[i].args[j], bound);
      }
      assert EvalAll(I, body[i].args, a) == EvalAll(I, body[i].args, b);
    }
  }

  /** The helper's body holds for some choice of its private wildcards. */
  ghost predicate CallHolds(I: Interpretation, call: Call, a: Assignment) {
    exists private: Assignment :: Satisfies(I, call.body, Scope(I, call.args, a, private))
  }

  /** What the action means before inlining: its statements hold, and so does the
      predicate of the batch each of them calls, with private wildcards of its
      own. */
  ghost predicate ActionHolds(I: Interpretation, action: Body, batch: seq<Body>, a: Assignment) {
    && Satisfies(I, action, a)
    && forall i :: 0 <= i < |action| && action[i].pred.BatchSelf? && action[i].pred.index < |batch| ==>
         CallHolds(I, Call(action[i].args, batch[action[i].pred.index]), a)
  }

  lemma ActionHoldsIff(I: Interpretation, action: Body, batch: seq<Body>, a: Assignment)
    ensures var calls := Calls(action, batch);
      ActionHolds(I, action, batch, a) <==>
        Satisfies(I, action, a) && forall k :: 0 <= k < |calls| ==> CallHolds(I, calls[k], a)
  {
    hide CallHolds, Satisfies, ArePositions, Calls;
    var calls := Calls(action, batch);
    var ks := CallsInOrder(action, batch);
    forall i: nat | i < |action| && IsCall(action[i], batch)
      ensures exists k :: 0 <= k < |calls| && calls[k] == Call(action[i].args, batch[action[i].pred.index])
    {
      PositionIn(action, (s: Statement) => s.pred.BatchSelf? && s.pred.index < |batch|, ks, i);
      var k :| 0 <= k < |ks| && ks[k] == i;
      assert calls[k] == Call(action[i].args, batch[action[i].pred.index]);
    }
    assert forall k :: 0 <= k < |calls| ==> IsCall(action[ks[k]], batch);
  }

  predicate CallsWithin(calls: seq<Call>) {
    forall k :: 0 <= k < |calls| ==>
      && Within(calls[k].body, SPACING)
      && forall j :: 0 <= j < |calls[k].args| ==> ArgWithin(calls[k].args[j], SPACING)
  }

  /** `c` on the caller's wildcards, each of `privates` at its call's offset. */
  function Combined(c: Assignment, privates: seq<Assignment>): Assignment {
    (j: nat) =>
      if j < SPACING then c(j)
      else if j / SPACING - 1 < |privates| then privates[j / SPACING - 1](j % SPACING)
      else 0
  }

  lemma {:induction false} ChoosePrivates(I: Interpretation, calls: seq<Call>, a: Assignment)
    returns (privates: seq<Assignment>)
    requires forall k :: 0 <= k < |calls| ==> CallHolds(I, calls[k], a)
    ensures |privates| == |calls|
    ensures forall k :: 0 <= k < |calls| ==> Satisfies(I, calls[k].body, Scope(I, calls[k].args, a, privates[k]))
  {
    privates := [];
    for n := 0 to |calls|
      invariant |privates| == n
      invariant forall k :: 0 <= k < n ==> Satisfies(I, calls[k].body, Scope(I, calls[k].args, a, privates[k]))
    {
      var private: Assignment :| Satisfies(I, calls[n].body, Scope(I, calls[n].args, a, private));
      privates := privates + [private];
    }
  }

  /** A helper's scope depends on the caller's wildcards and on its own only. */
  lemma ScopesAgree(I: Interpretation, call: Call, a: Assignment, c: Assignment, p: Assignment, q: Assignment)
    requires Agree(a, c, SPACING) && Agree(p, q, SPACING)
    requires forall j :: 0 <= j < |call.args| ==> ArgWithin(call.args[j], SPACING)
    ensures Agree(Scope(I, call.args, a, p), Scope(I, call.args, c, q), SPACING)
  {
    forall i: nat | i < SPACING ensures Scope(I, call.args, a, p)(i) == Scope(I, call.args, c, q)(i) {
      if i < |call.args| {
        var arg := call.args[i];
        assert ArgWithin(arg, SPACING);
        assert arg.Variable? || arg.AnchoredKey? ==> a(arg.wildcard.index) == c(arg.wildcard.index);
        assert Eval(I, arg, a) == Eval(I, arg, c);
      } else {
        assert p(i) == q(i);
      }
    }
  }

  lemma CombinedAgrees(c: Assignment, privates: seq<Assignment>, k: nat)
    requires k < |privates|
    ensures Agree(Combined(c, privates), c, SPACING)
    ensures Agree(Shifted(Combined(c, privates), Offset(k)), privates[k], SPACING)
  {
  }

  /** Inlining neither adds nor loses solutions: an assignment of the caller's
      wildcards extends to one satisfying the flat list exactly when the action
      holds under it with every helper's private wildcards its own. */
  lemma InliningKeepsSolutions(I: Interpretation, action: Body, batch: seq<Body>, c: Assignment)
    requires var calls := Calls(action, batch); AllInlinable(calls) && CallsWithin(calls) && Within(action, SPACING)
    ensures ActionHolds(I, action, batch, c) <==>
      exists a: Assignment :: Agree(a, c, SPACING) && Satisfies(I, action + Expanded(Calls(action, batch)), a)
  {
    ActionHoldsIff(I, action, batch, c);
    hide ActionHolds;
    var calls := Calls(action, batch);
    if ActionHolds(I, action, batch, c) {
      var privates := ChoosePrivates(I, calls, c);
      var a := Combined(c, privates);
      assert Agree(a, c, SPACING);
      AgreeingBody(I, action, a, c, SPACING);
      forall k | 0 <= k < |calls| ensures CallSatisfied(I, calls[k], a, Offset(k)) {
        CombinedAgrees(c, privates, k);
        ScopesAgree(I, calls[k], a, c, Shifted(a, Offset(k)), privates[k]);
        var call := calls[k];
        var own := Shifted(a, Offset(k));
        AgreeingBody(I, call.body, Scope(I, call.args, a, own), Scope(I, call.args, c, privates[k]), SPACING);
      }
      InliningKeepsMeaning(I, action, batch, a);
    }
    forall a: Assignment | Agree(a, c, SPACING) && Satisfies(I, action + Expanded(calls), a)
      ensures ActionHolds(I, action, batch, c)
    {
      InliningKeepsMeaning(I, action, batch, a);
      AgreeingBody(I, action, a, c, SPACING);
      forall k | 0 <= k < |calls| ensures CallHolds(I, calls[k], c) {
        var private := Shifted(a, Offset(k));
        ScopesAgree(I, calls[k], a, c, private, private);
        var call := calls[k];
        AgreeingBody(I, call.body, Scope(I, call.args, a, private), Scope(I, call.args, c, private), SPACING);
      }
    }
  }
}
