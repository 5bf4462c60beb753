/** Tracing the dictionary states linked to a focused one through the inlined
    scope of an action. */
module StateChain {
  import opened Wrappers
  import opened Inlining

  datatype Transition = Transition(newState: Arg, oldState: Arg)

  /** The states a dictionary operation links: the old root comes first, the
      new one last. */
  function DictTransition(stmt: Statement): Option<Transition> {
    if !stmt.pred.Native? then None
    else
      match stmt.pred.op
      case ContainerInsert | ContainerUpdate | DictInsert | DictUpdate =>
        if |stmt.args| > 3 then Some(Transition(stmt.args[3], stmt.args[0])) else None
      case ContainerDelete | DictDelete =>
        if |stmt.args| > 2 then Some(Transition(stmt.args[2], stmt.args[0])) else None
      case OtherNative(_) => None
  }

  /** The statement says that `to` is `from` with a key set or deleted: insert and
      update have the old root first and the new one fourth, delete first and
      third. */
  ghost predicate Turns(stmt: Statement, from: Arg, to: Arg) {
    || (IsSetting(stmt) && from == stmt.args[0] && to == stmt.args[3])
    || (IsDeleting(stmt) && from == stmt.args[0] && to == stmt.args[2])
  }

  ghost predicate IsSetting(stmt: Statement) {
    && |stmt.args| >= 4
    && stmt.pred in {Native(ContainerInsert), Native(DictInsert), Native(ContainerUpdate), Native(DictUpdate)}
  }

  ghost predicate IsDeleting(stmt: Statement) {
    |stmt.args| >= 3 && stmt.pred in {Native(ContainerDelete), Native(DictDelete)}
  }

  lemma TransitionIff(stmt: Statement, from: Arg, to: Arg)
    ensures DictTransition(stmt) == Some(Transition(to, from)) <==> Turns(stmt, from, to)
  {
  }

  /** Some statement of the scope turns one of the states into the other. */
  ghost predicate Linked(scope: Body, x: Arg, y: Arg) {
    exists i :: 0 <= i < |scope| && LinkedBy(scope[i], x, y)
  }

  ghost predicate LinkedBy(stmt: Statement, x: Arg, y: Arg) {
    Turns(stmt, x, y) || Turns(stmt, y, x)
  }

  /** A walk over links. */
  ghost predicate IsWalk(scope: Body, walk: seq<Arg>) {
    walk != [] && forall i, j :: 0 <= i < j < |walk| && j == i + 1 ==> Linked(scope, walk[i], walk[j])
  }

  ghost predicate Connected(scope: Body, x: Arg, y: Arg) {
    exists walk :: IsWalk(scope, walk) && walk[0] == x && walk[|walk| - 1] == y
  }

  lemma ConnectedToItself(scope: Body, x: Arg)
    ensures Connected(scope, x, x)
  {
    assert IsWalk(scope, [x]) && [x][0] == x;
  }

  lemma ConnectedFurther(scope: Body, x: Arg, y: Arg, z: Arg)
    requires Connected(scope, x, y) && Linked(scope, y, z)
    ensures Connected(scope, x, z)
  {
    var walk :| IsWalk(scope, walk) && walk[0] == x && walk[|walk| - 1] == y;
    var longer := walk + [z];
    forall i, j | 0 <= i < j < |longer| && j == i + 1 ensures Linked(scope, longer[i], longer[j]) {
      if j < |walk| { assert Linked(scope, walk[i], walk[j]); }
    }
    assert IsWalk(scope, longer);
  }

  /** No statement leads out of the set. */
  predicate Closed(stmts: Body, chain: set<Arg>) {
    forall i :: 0 <= i < |stmts| ==> ClosedAt(stmts[i], chain)
  }

  predicate ClosedAt(stmt: Statement, chain: set<Arg>) {
    var t := DictTransition(stmt);
    t.Some? ==> (t.value.newState in chain <==> t.value.oldState in chain)
  }

  lemma {:induction false} WalksStayInside(scope: Body, chain: set<Arg>, walk: seq<Arg>, k: nat)
    requires Closed(scope, chain) && IsWalk(scope, walk) && walk[0] in chain && k < |walk|
    ensures walk[k] in chain
  {
    if k > 0 {
      WalksStayInside(scope, chain, walk, k - 1);
      assert Linked(scope, walk[k - 1], walk[k]);
      var i :| 0 <= i < |scope| && LinkedBy(scope[i], walk[k - 1], walk[k]);
      TransitionIff(scope[i], walk[k - 1], walk[k]);
      TransitionIff(scope[i], walk[k], walk[k - 1]);
      assert ClosedAt(scope[i], chain);
    }
  }

  /** The states any transition mentions. */
  function States(scope: Body): set<Arg> {
    if scope == [] then {}
    else
      var t := DictTransition(scope[0]);
      (if t.Some? then {t.value.newState, t.value.oldState} else {}) + States(scope[1..])
  }

  lemma StatesOf(scope: Body, i: nat)
    requires i < |scope|
    ensures var t := DictTransition(scope[i]); t.Some? ==>
      t.value.newState in States(scope) && t.value.oldState in States(scope)
  {
    if i > 0 { StatesOf(scope[1..], i - 1); }
  }

  lemma TransitionLinks(scope: Body, i: nat)
    requires i < |scope| && DictTransition(scope[i]).Some?
    ensures var t := DictTransition(scope[i]).value;
      Linked(scope, t.newState, t.oldState) && Linked(scope, t.oldState, t.newState)
  {
    var t := DictTransition(scope[i]).value;
    TransitionIff(scope[i], t.oldState, t.newState);
    assert LinkedBy(scope[i], t.newState, t.oldState) && LinkedBy(scope[i], t.oldState, t.newState);
  }

  /** One pass over the scope: everything linked to a state already found is
      added, and nothing else. */
  method Pass(scope: Body, focused: Arg, start: set<Arg>) returns (chain: set<Arg>, grew: bool)
    requires forall x :: x in start ==> Connected(scope, focused, x)
    ensures start <= chain <= start + States(scope) && (grew <==> chain != start)
    ensures forall x :: x in chain ==> Connected(scope, focused, x)
    ensures !grew ==> Closed(scope, chain)
  {
    hide Connected, States, Linked;
    chain, grew := start, false;
    for i := 0 to |scope|
      invariant start <= chain <= start + States(scope) && (grew <==> chain != start)
      invariant forall x :: x in chain ==> Connected(scope, focused, x)
      invariant !grew ==> forall j :: 0 <= j < i ==> ClosedAt(scope[j], chain)
    {
      var t := DictTransition(scope[i]);
      StatesOf(scope, i);
      if t.Some? && (t.value.newState in chain || t.value.oldState in chain) {
        TransitionLinks(scope, i);
        if t.value.oldState in chain {
          ConnectedFurther(scope, focused, t.value.oldState, t.value.newState);
        } else {
          ConnectedFurther(scope, focused, t.value.newState, t.value.oldState);
        }
        if t.value.newState !in chain { chain, grew := chain + {t.value.newState}, true; }
        if t.value.oldState !in chain { chain, grew := chain + {t.value.oldState}, true; }
      }
    }
  }

  /** The trace ends, with exactly the states connected to the focused one. */
  method TraceStateChain(scope: Body, focused: Arg) returns (chain: set<Arg>)
    ensures forall x :: x in chain <==> Connected(scope, focused, x)
  {
    chain := {focused};
    ConnectedToItself(scope, focused);
    ghost var all := {focused} + States(scope);
    var grew := true;
    while grew
      invariant focused in chain && chain <= all
      invariant forall x :: x in chain ==> Connected(scope, focused, x)
      invariant !grew ==> Closed(scope, chain)
      decreases |all - chain|, grew
    {
      ghost var before := chain;
      chain, grew := Pass(scope, focused, chain);
      if grew { SmallerComplement(all, before, chain); }
    }
    forall x | Connected(scope, focused, x) ensures x in chain {
      var walk :| IsWalk(scope, walk) && walk[0] == focused && walk[|walk| - 1] == x;
      WalksStayInside(scope, chain, walk, |walk| - 1);
    }
  }

  lemma SmallerComplement(all: set<Arg>, small: set<Arg>, large: set<Arg>)
    requires small < large <= all
    ensures |all - large| < |all - small|
  {
    var x :| x in large && x !in small;
    assert all - large <= all - small - {x};
    SubsetSize(all - large, all - small - {x});
  }

  lemma {:induction false} SubsetSize(a: set<Arg>, b: set<Arg>)
    requires a <= b
    ensures |a| <= |b|
  {
    if a != {} {
      var x :| x in a;
      SubsetSize(a - {x}, b - {x});
    }
  }

  // ------------------------------------------------------------------
  // What the states of a chain have in common

  /** What arguments stand for: a dictionary, where they are used as a root, and a
      value, where they are used as a key or an entry. */
  datatype Meaning = Meaning(dict: Arg -> map<nat, nat>, value: Arg -> nat)

  /** Insert sets a new key, update one that is there, delete takes one away. */
  ghost predicate IsTrue(I: Meaning, stmt: Statement) {
    && (IsSetting(stmt) ==>
          && (I.value(stmt.args[1]) in I.dict(stmt.args[0]) <==>
                stmt.pred == Native(ContainerUpdate) || stmt.pred == Native(DictUpdate))
          && I.dict(stmt.args[3]) == I.dict(stmt.args[0])[I.value(stmt.args[1]) := I.value(stmt.args[2])])
    && (IsDeleting(stmt) ==>
          && I.value(stmt.args[1]) in I.dict(stmt.args[0])
          && I.dict(stmt.args[2]) == I.dict(stmt.args[0]) - {I.value(stmt.args[1])})
  }

  ghost predicate AllTrue(I: Meaning, scope: Body) {
    forall i :: 0 <= i < |scope| ==> IsTrue(I, scope[i])
  }

  /** No operation of the scope is about the key. */
  ghost predicate IsUntouched(I: Meaning, scope: Body, key: nat) {
    forall i :: 0 <= i < |scope| && (IsSetting(scope[i]) || IsDeleting(scope[i])) ==>
      I.value(scope[i].args[1]) != key
  }

  /** The two states have the same entry, or none. */
  predicate AgreeAt(I: Meaning, x: Arg, y: Arg, key: nat) {
    && (key in I.dict(x) <==> key in I.dict(y))
    && (key in I.dict(x) && key in I.dict(y) ==> I.dict(x)[key] == I.dict(y)[key])
  }

  lemma LinkedAgree(I: Meaning, scope: Body, x: Arg, y: Arg, key: nat)
    requires AllTrue(I, scope) && IsUntouched(I, scope, key) && Linked(scope, x, y)
    ensures AgreeAt(I, x, y, key)
  {
    var i :| 0 <= i < |scope| && LinkedBy(scope[i], x, y);
    assert IsTrue(I, scope[i]);
  }

  lemma {:induction false} WalksAgree(I: Meaning, scope: Body, walk: seq<Arg>, k: nat, key: nat)
    requires AllTrue(I, scope) && IsUntouched(I, scope, key) && IsWalk(scope, walk) && k < |walk|
    ensures AgreeAt(I, walk[0], walk[k], key)
  {
    if k > 0 {
      WalksAgree(I, scope, walk, k - 1, key);
      assert Linked(scope, walk[k - 1], walk[k]);
      LinkedAgree(I, scope, walk[k - 1], walk[k], key);
    }
  }

  /** The states connected to `x` have `entry` at the key, the others nothing. */
  ghost function Varied(I: Meaning, scope: Body, x: Arg, key: nat, entry: nat): Meaning {
    I.(dict := (y: Arg) => if Connected(scope, x, y) then I.dict(y)[key := entry] else I.dict(y) - {key})
  }

  lemma ConnectedBothWays(scope: Body, x: Arg, stmt: Statement, from: Arg, to: Arg)
    requires stmt in scope && Turns(stmt, from, to)
    ensures Connected(scope, x, from) <==> Connected(scope, x, to)
  {
    hide Connected, Turns;
    var i :| 0 <= i < |scope| && scope[i] == stmt;
    assert LinkedBy(scope[i], from, to) && LinkedBy(scope[i], to, from);
    if Connected(scope, x, from) { ConnectedFurther(scope, x, from, to); }
    if Connected(scope, x, to) { ConnectedFurther(scope, x, to, from); }
  }

  /** Whatever makes the scope true still does with an untouched key varied on
      exactly the states of one chain. */
  lemma VariedIsTrue(I: Meaning, scope: Body, x: Arg, key: nat, entry: nat)
    requires AllTrue(I, scope) && IsUntouched(I, scope, key)
    ensures AllTrue(Varied(I, scope, x, key, entry), scope)
    ensures IsUntouched(Varied(I, scope, x, key, entry), scope, key)
  {
    var J := Varied(I, scope, x, key, entry);
    forall i | 0 <= i < |scope| ensures IsTrue(J, scope[i]) {
      var stmt := scope[i];
      assert IsTrue(I, stmt);
      if IsSetting(stmt) {
        ConnectedBothWays(scope, x, stmt, stmt.args[0], stmt.args[3]);
        SetsCommute(I.dict(stmt.args[0]), I.value(stmt.args[1]), I.value(stmt.args[2]), key, entry);
      }
      if IsDeleting(stmt) {
        ConnectedBothWays(scope, x, stmt, stmt.args[0], stmt.args[2]);
        DeletesCommute(I.dict(stmt.args[0]), I.value(stmt.args[1]), key, entry);
      }
    }
  }

  lemma SetsCommute(m: map<nat, nat>, k: nat, v: nat, key: nat, entry: nat)
    requires k != key
    ensures m[k := v][key := entry] == m[key := entry][k := v] && m[k := v] - {key} == (m - {key})[k := v]
  {
  }

  lemma DeletesCommute(m: map<nat, nat>, k: nat, key: nat, entry: nat)
    requires k != key
    ensures (m - {k})[key := entry] == m[key := entry] - {k} && m - {k} - {key} == m - {key} - {k}
  {
  }

  /** What the chain means: its states are exactly those that share with the
      focused one every entry the scope does not touch, however the scope is made
      true. */
  lemma ChainMeans(scope: Body, x: Arg, y: Arg, I: Meaning, key: nat)
    requires AllTrue(I, scope) && IsUntouched(I, scope, key)
    ensures Connected(scope, x, y) <==>
      forall J, k :: AllTrue(J, scope) && IsUntouched(J, scope, k) ==> AgreeAt(J, x, y, k)
  {
    if Connected(scope, x, y) {
      var walk :| IsWalk(scope, walk) && walk[0] == x && walk[|walk| - 1] == y;
      forall J, k | AllTrue(J, scope) && IsUntouched(J, scope, k) ensures AgreeAt(J, x, y, k) {
        WalksAgree(J, scope, walk, |walk| - 1, k);
      }
    } else {
      var J := Varied(I, scope, x, key, 0);
      VariedIsTrue(I, scope, x, key, 0);
      ConnectedToItself(scope, x);
      assert !AgreeAt(J, x, y, key);
    }
  }
}
