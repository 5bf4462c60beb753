/** The rules by which the network accepts or rejects a transaction payload.
    Hashes are free constructors: equal hashes mean equal contents. */
module ChainRules {

  import opened Wrappers

  /** A commitment, nullifier or txFinal. */
  type Hash = nat

  /** The hash of a state header. Being a free constructor, it determines the
      header: the created array, the nullifier set and the earlier roots. */
  datatype Root = Root(
    block: int,
    timestamp: int,
    created: seq<Hash>,
    nullifiers: set<Hash>,
    history: seq<Root>
  )

  datatype Payload = Payload(txFinal: Hash, root: Root, created: seq<Hash>, nullifiers: seq<Hash>)

  /** What the acceptance rules look at. */
  datatype View = View(head: int, roots: map<Root, int>, created: set<Hash>, nullifiers: set<Hash>)

  datatype Reason =
    | UnknownRoot
    | TooOld(age: int, rootBlock: int)
    | DuplicateCreated
    | CreationCollision
    | DuplicateNullifierInPayload
    | NullifierSpent

  const MAX_STATE_ROOT_AGE_BLOCKS: int := 50400

  /** Whether inclusion at `block` would exceed the grounding age limit. */
  predicate GroundingAgedOut(block: int, groundingBlock: int) {
    block - groundingBlock > MAX_STATE_ROOT_AGE_BLOCKS
  }

  predicate NoDuplicates<T(==)>(xs: seq<T>) {
    forall i, j :: 0 <= i < j < |xs| ==> xs[i] != xs[j]
  }

  function Elements<T>(xs: seq<T>): set<T> {
    set x | x in xs
  }

  datatype Clash = Repeated | Known

  /** The first element from `i` on that repeats an earlier one or is already known. */
  function FirstClash(xs: seq<Hash>, known: set<Hash>, i: nat): (r: Option<Clash>)
    requires i <= |xs|
    decreases |xs| - i
  {
    if i == |xs| then None
    else if xs[i] in xs[..i] then Some(Repeated)
    else if xs[i] in known then Some(Known)
    else FirstClash(xs, known, i + 1)
  }

  /** Why `p` would be rejected in the block after `v.head`, if it would. */
  function Rejection(v: View, p: Payload): (r: Option<Reason>) {
    if p.root !in v.roots then Some(UnknownRoot)
    else if GroundingAgedOut(v.head + 1, v.roots[p.root]) then
      Some(TooOld(v.head + 1 - v.roots[p.root], v.roots[p.root]))
    else match FirstClash(p.created, v.created, 0)
      case Some(Repeated) => Some(DuplicateCreated)
      case Some(Known) => Some(CreationCollision)
      case None =>
        match FirstClash(p.nullifiers, v.nullifiers, 0)
        case Some(Repeated) => Some(DuplicateNullifierInPayload)
        case Some(Known) => Some(NullifierSpent)
        case None => None
  }

  /** The acceptance rules, without their order. */
  ghost predicate Acceptable(v: View, p: Payload) {
    && p.root in v.roots
    && !GroundingAgedOut(v.head + 1, v.roots[p.root])
    && NoDuplicates(p.created) && Elements(p.created) !! v.created
    && NoDuplicates(p.nullifiers) && Elements(p.nullifiers) !! v.nullifiers
  }

  lemma {:induction false} NoClashIff(xs: seq<Hash>, known: set<Hash>, i: nat)
    requires i <= |xs|
    requires NoDuplicates(xs[..i]) && Elements(xs[..i]) !! known
    ensures FirstClash(xs, known, i).None? <==> NoDuplicates(xs) && Elements(xs) !! known
    decreases |xs| - i
  {
    if i == |xs| {
      assert xs[..i] == xs;
    } else {
      assert xs[i] in Elements(xs);
      if xs[i] in xs[..i] {
        var j :| 0 <= j < i && xs[..i][j] == xs[i];
        assert xs[j] == xs[i];
      } else if xs[i] !in known {
        assert xs[..i + 1] == xs[..i] + [xs[i]];
        NoClashIff(xs, known, i + 1);
      }
    }
  }

  /** The first element that repeats an earlier one or is already known. */
  ghost predicate IsFirstOffender(xs: seq<Hash>, known: set<Hash>, i: int) {
    && 0 <= i < |xs| && IsOffender(xs, known, i)
    && forall j :: 0 <= j < i ==> !IsOffender(xs, known, j)
  }

  predicate IsOffender(xs: seq<Hash>, known: set<Hash>, i: int)
    requires 0 <= i < |xs|
  {
    xs[i] in known || exists j :: 0 <= j < i && xs[j] == xs[i]
  }

  /** Some element offends, and the first that does repeats an earlier one. */
  ghost predicate FirstRepeats(xs: seq<Hash>, known: set<Hash>) {
    exists i, j :: IsFirstOffender(xs, known, i) && 0 <= j < i && xs[j] == xs[i]
  }

  /** Some element offends, and the first that does is known and new in the list. */
  ghost predicate FirstIsKnown(xs: seq<Hash>, known: set<Hash>) {
    exists i :: IsFirstOffender(xs, known, i) && forall j :: 0 <= j < i ==> xs[j] != xs[i]
  }

  ghost predicate NoneOffends(xs: seq<Hash>, known: set<Hash>) {
    forall i :: 0 <= i < |xs| ==> !IsOffender(xs, known, i)
  }

  lemma {:induction false} FirstClashMeans(xs: seq<Hash>, known: set<Hash>, i: nat)
    requires i <= |xs| && forall j :: 0 <= j < i ==> !IsOffender(xs, known, j)
    ensures var r := FirstClash(xs, known, i);
      && (r == Some(Repeated) <==> FirstRepeats(xs, known))
      && (r == Some(Known) <==> FirstIsKnown(xs, known))
      && (r == None <==> NoneOffends(xs, known))
    decreases |xs| - i
  {
    if i < |xs| {
      assert xs[i] in xs[..i] <==> exists j :: 0 <= j < i && xs[j] == xs[i];
      if IsOffender(xs, known, i) {
        assert IsFirstOffender(xs, known, i);
        forall k | IsFirstOffender(xs, known, k) ensures k == i {}
      } else {
        FirstClashMeans(xs, known, i + 1);
      }
    }
  }

  /** The root is known and at most 50400 blocks behind the block to come. */
  predicate IsYoung(v: View, root: Root) {
    root in v.roots && v.head + 1 - v.roots[root] <= 50400
  }

  /** What each reason means: the first rule broken, in this order. */
  lemma RejectionMeans(v: View, p: Payload)
    ensures var r := Rejection(v, p);
      && (r == Some(UnknownRoot) <==> p.root !in v.roots)
      && (forall age, block :: r == Some(TooOld(age, block)) <==>
            p.root in v.roots && block == v.roots[p.root] && age == v.head + 1 - block && age > 50400)
      && (r == Some(DuplicateCreated) <==> IsYoung(v, p.root) && FirstRepeats(p.created, v.created))
      && (r == Some(CreationCollision) <==> IsYoung(v, p.root) && FirstIsKnown(p.created, v.created))
      && (r == Some(DuplicateNullifierInPayload) <==>
          IsYoung(v, p.root) && NoneOffends(p.created, v.created) && FirstRepeats(p.nullifiers, v.nullifiers))
      && (r == Some(NullifierSpent) <==>
          IsYoung(v, p.root) && NoneOffends(p.created, v.created) && FirstIsKnown(p.nullifiers, v.nullifiers))
      && (r == None <==>
          IsYoung(v, p.root) && NoneOffends(p.created, v.created) && NoneOffends(p.nullifiers, v.nullifiers))
  {
    hide FirstRepeats, FirstIsKnown, NoneOffends, FirstClash;
    FirstClashMeans(p.created, v.created, 0);
    FirstClashMeans(p.nullifiers, v.nullifiers, 0);
  }

  /** A payload is accepted exactly when every rule holds. */
  lemma AcceptedIff(v: View, p: Payload)
    ensures Rejection(v, p).None? <==> Acceptable(v, p)
  {
    NoClashIff(p.created, v.created, 0);
    NoClashIff(p.nullifiers, v.nullifiers, 0);
  }

  /** `w` is `v` after more blocks: nothing the rules look at is ever forgotten. */
  ghost predicate Extends(v: View, w: View) {
    && v.head <= w.head
    && (forall r :: r in v.roots ==> r in w.roots && w.roots[r] == v.roots[r])
    && v.created <= w.created
    && v.nullifiers <= w.nullifiers
  }

  lemma ExtendsTransitive(u: View, v: View, w: View)
    requires Extends(u, v) && Extends(v, w)
    ensures Extends(u, w)
  {
  }

  /** Whether the payload's own lists already break the set rules. */
  ghost predicate ListsClash(v: View, p: Payload) {
    || !NoDuplicates(p.created) || !(Elements(p.created) !! v.created)
    || !NoDuplicates(p.nullifiers) || !(Elements(p.nullifiers) !! v.nullifiers)
  }

  /** Every rule only gets stricter: a rejection under a known root is final. */
  lemma RejectionIsFinal(v: View, w: View, p: Payload)
    requires Extends(v, w)
    requires p.root in v.roots || ListsClash(v, p)
    requires Rejection(v, p).Some?
    ensures Rejection(w, p).Some?
  {
    AcceptedIff(v, p);
    AcceptedIff(w, p);
  }

  /** A rejection is final exactly when the root was known or the lists clash:
      otherwise the root can become known in the next block. */
  lemma RejectionFinalIff(v: View, p: Payload)
    requires Rejection(v, p).Some?
    ensures (forall w :: Extends(v, w) ==> Rejection(w, p).Some?)
       <==> p.root in v.roots || ListsClash(v, p)
  {
    if p.root in v.roots || ListsClash(v, p) {
      forall w | Extends(v, w) ensures Rejection(w, p).Some? {
        RejectionIsFinal(v, w, p);
      }
    } else {
      var w := v.(head := v.head + 1, roots := v.roots[p.root := v.head + 1]);
      AcceptedIff(w, p);
      assert Extends(v, w) && Rejection(w, p).None?;
    }
  }
}
