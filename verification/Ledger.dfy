/** The in-memory network: one state serving relayer and synchronizer, where a
    submitted payload is checked and, if accepted, applied in its own block. */
module Ledger {
  import opened Wrappers
  import opened ChainRules

  /** The state derived at one block. */
  datatype StateHead = StateHead(root: Root, block: int, createdCount: nat, nullifierCount: nat, rootCount: nat)

  datatype Job = Job(txFinal: Hash, root: Root, block: int)

  datatype TxStatus = TxStatus(block: int, error: Option<Reason>)

  /** The chain as derived so far; several fields index the same data. */
  datatype Chain = Chain(
    head: Root,
    created: seq<Hash>,
    createdIndex: map<Hash, int>,
    nullifiers: set<Hash>,
    nullifierHashes: set<Hash>,
    history: seq<Root>,
    rootBlocks: map<Root, int>,
    derived: map<int, StateHead>
  )

  /** What the relayer has received. */
  datatype Inbox = Inbox(statuses: map<Hash, TxStatus>, jobs: map<nat, Job>, jobIds: map<Hash, nat>)

  datatype State = State(chain: Chain, inbox: Inbox)

  function ViewOf(c: Chain): View {
    View(c.head.block, c.rootBlocks, c.createdIndex.Keys, c.nullifierHashes)
  }

  /** The root of block `b`: an earlier one from the history, or the head's. */
  function RootAt(head: Root, history: seq<Root>, b: int): Root
    requires 1 <= b <= |history| + 1
  {
    if b == |history| + 1 then head else history[b - 1]
  }

  // ------------------------------------------------------------------
  // The indexes agree with what they index

  /** `index` is the inverse of the array `created`. */
  ghost predicate CreatedIndexed(created: seq<Hash>, index: map<Hash, int>) {
    && (forall i :: 0 <= i < |created| ==> created[i] in index && index[created[i]] == i)
    && (forall h :: h in index ==> h in created)
    && |index| == |created|
  }

  /** The history holds the root of every block before the head's, in order;
      each root commits to exactly the roots before it; `rootBlocks` numbers
      exactly these roots and the head's. */
  ghost predicate RootsIndexed(head: Root, history: seq<Root>, rootBlocks: map<Root, int>) {
    && head.block == |history| + 1
    && (forall b :: 1 <= b <= head.block ==>
          var r := RootAt(head, history, b);
          r.block == b && r.history == history[..b - 1] && r in rootBlocks && rootBlocks[r] == b)
    && (forall r :: r in rootBlocks ==> 1 <= rootBlocks[r] <= head.block && RootAt(head, history, rootBlocks[r]) == r)
    && |rootBlocks| == |history| + 1
  }

  /** There is one derived state for each block from 1 to the head. */
  ghost predicate DerivedIndexed(head: Root, history: seq<Root>, derived: map<int, StateHead>) {
    && head.block == |history| + 1
    && (forall b :: b in derived <==> 1 <= b <= head.block)
    && (forall b :: b in derived ==>
          var r := RootAt(head, history, b);
          derived[b] == StateHead(r, b, |r.created|, |r.nullifiers|, b))
  }

  /** Jobs are numbered from 1, one per txFinal, and each has a status. */
  ghost predicate JobsIndexed(x: Inbox) {
    && (forall n :: n in x.jobs <==> 1 <= n <= |x.jobs|)
    && (forall n :: n in x.jobs ==> x.jobs[n].txFinal in x.jobIds && x.jobIds[x.jobs[n].txFinal] == n)
    && (forall tx :: tx in x.jobIds ==> x.jobIds[tx] in x.jobs && x.jobs[x.jobIds[tx]].txFinal == tx)
    && x.statuses.Keys == x.jobIds.Keys
  }

  /** The head commits to the containers as they are. */
  ghost predicate HeadCommits(c: Chain) {
    c.head.created == c.created && c.head.nullifiers == c.nullifiers && c.head.history == c.history
  }

  ghost predicate ChainConsistent(c: Chain) {
    && HeadCommits(c)
    && c.nullifiers == c.nullifierHashes
    && CreatedIndexed(c.created, c.createdIndex)
    && RootsIndexed(c.head, c.history, c.rootBlocks)
    && DerivedIndexed(c.head, c.history, c.derived)
  }

  /** Consistent but for the derived state of the head, which is still missing. */
  ghost predicate Underived(c: Chain) {
    && HeadCommits(c)
    && c.nullifiers == c.nullifierHashes
    && CreatedIndexed(c.created, c.createdIndex)
    && RootsIndexed(c.head, c.history, c.rootBlocks)
    && (forall b :: b in c.derived <==> 1 <= b < c.head.block)
    && (forall b :: b in c.derived ==>
          var r := RootAt(c.head, c.history, b);
          c.derived[b] == StateHead(r, b, |r.created|, |r.nullifiers|, b))
  }

  ghost predicate Consistent(s: State) {
    ChainConsistent(s.chain) && JobsIndexed(s.inbox)
  }

  // ------------------------------------------------------------------
  // Specification of the operations

  function GenesisChain(now: int): Chain {
    var head := Root(1, now, [], {}, []);
    Chain(head, [], map[], {}, {}, [], map[head := 1], map[1 := StateHead(head, 1, 0, 0, 1)])
  }

  function Genesis(now: int): State {
    State(GenesisChain(now), Inbox(map[], map[], map[]))
  }

  /** `index` with the elements of `xs` added, each at the next position. */
  function IndexWith(index: map<Hash, int>, xs: seq<Hash>): map<Hash, int> {
    if xs == [] then index
    else
      var n := |xs| - 1;
      var before := IndexWith(index, xs[..n]);
      before[xs[n] := |before|]
  }

  function Max(a: int, b: int): int { if a < b then b else a }

  /** The derived states with the head's added. */
  function HeadRecorded(c: Chain): map<int, StateHead> {
    c.derived[c.head.block :=
      StateHead(c.head, c.head.block, |c.createdIndex|, |c.nullifierHashes|, |c.rootBlocks|)]
  }

  /** The chain after the block applying `p`. */
  function Applied(c: Chain, p: Payload, now: int): Chain {
    var created := c.created + p.created;
    var nullifiers := c.nullifiers + Elements(p.nullifiers);
    var history := c.history + [c.head];
    var head := Root(c.head.block + 1, Max(now, c.head.timestamp + 1), created, nullifiers, history);
    var next := Chain(head, created, IndexWith(c.createdIndex, p.created),
                      nullifiers, c.nullifierHashes + Elements(p.nullifiers),
                      history, c.rootBlocks[head := head.block], c.derived);
    next.(derived := HeadRecorded(next))
  }

  /** The inbox with a new job for `tx`. */
  function Filed(x: Inbox, tx: Hash, root: Root, block: int, error: Option<Reason>): Inbox {
    var id := |x.jobs| + 1;
    Inbox(x.statuses[tx := TxStatus(block, error)], x.jobs[id := Job(tx, root, block)], x.jobIds[tx := id])
  }

  /** The state after the relayer receives `p`. */
  function Submitted(s: State, p: Payload, now: int): State {
    if p.txFinal in s.inbox.jobIds then s
    else
      var error := Rejection(ViewOf(s.chain), p);
      var chain := if error.None? then Applied(s.chain, p, now) else s.chain;
      State(chain, Filed(s.inbox, p.txFinal, p.root, chain.head.block, error))
  }

  // ------------------------------------------------------------------
  // What a request changes, field by field

  /** `d` is `c` with one more block: the payload's objects at the end of the
      array, its nullifiers spent, the former head in the history, and a later
      timestamp, which is the present time unless the clock is behind. */
  ghost predicate IsNextBlock(c: Chain, p: Payload, now: int, d: Chain) {
    && d.head.block == c.head.block + 1 && d.head.timestamp > c.head.timestamp && d.head.timestamp >= now
    && (d.head.timestamp == now || d.head.timestamp == c.head.timestamp + 1)
    && d.created == c.created + p.created && d.nullifiers == c.nullifiers + Elements(p.nullifiers)
    && d.history == c.history + [c.head]
    && d.head.created == d.created && d.head.nullifiers == d.nullifiers && d.head.history == d.history
    && (forall r :: r in d.rootBlocks <==> r in c.rootBlocks || r == d.head)
    && (forall r :: r in c.rootBlocks && r != d.head ==> d.rootBlocks[r] == c.rootBlocks[r])
    && d.rootBlocks[d.head] == d.head.block
  }

  /** The payload, not received before, got the job `id`: its status is free of
      error exactly if the rules accept it, and then it was applied in a block of
      its own; otherwise the chain is as it was. */
  ghost predicate IsAnswered(s: State, p: Payload, now: int, t: State, id: nat) {
    && (if Acceptable(ViewOf(s.chain), p) then IsNextBlock(s.chain, p, now, t.chain) else t.chain == s.chain)
    && var error := Rejection(ViewOf(s.chain), p);
       && (error.None? <==> Acceptable(ViewOf(s.chain), p)) && id == |s.inbox.jobs| + 1
       && IsFiled(s.inbox, p.txFinal, p.root, t.chain.head.block, error, t.inbox)
  }

  /** `y` is `x` with a job and a status for `tx`, and nothing else changed. */
  ghost predicate IsFiled(x: Inbox, tx: Hash, root: Root, block: int, error: Option<Reason>, y: Inbox) {
    var id := |x.jobs| + 1;
    && OnlyAt(x.statuses, y.statuses, tx) && OnlyAt(x.jobs, y.jobs, id) && OnlyAt(x.jobIds, y.jobIds, tx)
    && y.statuses[tx].block == block && y.statuses[tx].error == error && y.jobIds[tx] == id
    && y.jobs[id].txFinal == tx && y.jobs[id].root == root && y.jobs[id].block == block
  }

  /** `n` has the key, and differs from `m` there only. */
  ghost predicate OnlyAt<K(!new), V>(m: map<K, V>, n: map<K, V>, key: K) {
    && key in n
    && (forall k :: k != key ==> (k in m <==> k in n))
    && (forall k :: k != key && k in m && k in n ==> m[k] == n[k])
  }

  lemma SubmittedIsAnswered(s: State, p: Payload, now: int)
    requires p.txFinal !in s.inbox.jobIds
    ensures IsAnswered(s, p, now, Submitted(s, p, now), |s.inbox.jobs| + 1)
  {
    hide Acceptable, Rejection, ViewOf, Applied, IsNextBlock;
    AcceptedIff(ViewOf(s.chain), p);
    AppliedIsNext(s.chain, p, now);
    var error := Rejection(ViewOf(s.chain), p);
    FiledIs(s.inbox, p.txFinal, p.root, Submitted(s, p, now).chain.head.block, error);
    hide Filed, IsFiled;
  }

  lemma SubmittedId(s: State, p: Payload, now: int)
    requires p.txFinal !in s.inbox.jobIds
    ensures p.txFinal in Submitted(s, p, now).inbox.jobIds
    ensures Submitted(s, p, now).inbox.jobIds[p.txFinal] == |s.inbox.jobs| + 1
  {
    hide Applied, Rejection;
  }

  lemma FiledBody(x: Inbox, tx: Hash, root: Root, block: int, error: Option<Reason>)
    ensures var id := |x.jobs| + 1;
      Filed(x, tx, root, block, error) ==
        Inbox(x.statuses[tx := TxStatus(block, error)], x.jobs[id := Job(tx, root, block)], x.jobIds[tx := id])
  {
  }

  lemma FiledIs(x: Inbox, tx: Hash, root: Root, block: int, error: Option<Reason>)
    ensures IsFiled(x, tx, root, block, error, Filed(x, tx, root, block, error))
  {
  }

  lemma AppliedIsNext(c: Chain, p: Payload, now: int)
    ensures IsNextBlock(c, p, now, Applied(c, p, now))
  {
    hide IndexWith;
  }

  // ------------------------------------------------------------------
  // Every operation keeps the indexes consistent

  lemma AppendIndexed(created: seq<Hash>, index: map<Hash, int>, h: Hash)
    requires CreatedIndexed(created, index) && h !in index
    ensures CreatedIndexed(created + [h], index[h := |created|])
  {
  }

  lemma {:induction false} IndexWithKeys(index: map<Hash, int>, xs: seq<Hash>, h: Hash)
    ensures h in IndexWith(index, xs) <==> h in index || h in xs
  {
    if xs != [] {
      var n := |xs| - 1;
      IndexWithKeys(index, xs[..n], h);
      assert xs == xs[..n] + [xs[n]];
    }
  }

  /** The loop of `AppendCreated` one element at a time. */
  lemma {:induction false} IndexWithCreated(created: seq<Hash>, index: map<Hash, int>, xs: seq<Hash>)
    requires CreatedIndexed(created, index)
    requires NoDuplicates(xs)
    requires forall h :: h in xs ==> h !in index
    ensures CreatedIndexed(created + xs, IndexWith(index, xs))
  {
    if xs == [] {
      assert created + xs == created;
    } else {
      var n := |xs| - 1;
      var before, h := xs[..n], xs[n];
      IndexWithCreated(created, index, before);
      IndexWithKeys(index, before, h);
      AppendIndexed(created + before, IndexWith(index, before), h);
      assert created + xs == (created + before) + [h];
    }
  }

  lemma RootsAppended(head: Root, history: seq<Root>, rootBlocks: map<Root, int>, next: Root)
    requires RootsIndexed(head, history, rootBlocks)
    requires next.block == head.block + 1 && next.history == history + [head]
    ensures RootsIndexed(next, history + [head], rootBlocks[next := next.block])
    ensures forall r :: r in rootBlocks ==> r != next
  {
    var after, blocks := history + [head], rootBlocks[next := next.block];
    forall r | r in rootBlocks ensures r != next && RootAt(next, after, rootBlocks[r]) == r {
      assert RootAt(head, history, rootBlocks[r]).block == rootBlocks[r];
    }
    forall b | 1 <= b <= next.block
      ensures var r := RootAt(next, after, b);
              r.block == b && r.history == after[..b - 1] && r in blocks && blocks[r] == b
    {
      if b < next.block {
        assert RootAt(next, after, b) == RootAt(head, history, b);
        assert after[..b - 1] == history[..b - 1];
      } else {
        assert after[..b - 1] == after;
      }
    }
  }

  lemma DerivedAppended(head: Root, history: seq<Root>, derived: map<int, StateHead>, next: Root)
    requires DerivedIndexed(head, history, derived)
    requires next.block == head.block + 1
    ensures DerivedIndexed(next, history + [head], derived[next.block :=
              StateHead(next, next.block, |next.created|, |next.nullifiers|, next.block)])
  {
  }

  lemma CreatedFresh(c: Chain, p: Payload)
    requires Rejection(ViewOf(c), p).None?
    ensures NoDuplicates(p.created)
    ensures forall h :: h in p.created ==> h !in c.createdIndex
  {
    AcceptedIff(ViewOf(c), p);
    assert forall h :: h in p.created ==> h in Elements(p.created);
  }

  lemma AppliedConsistent(c: Chain, p: Payload, now: int)
    requires ChainConsistent(c) && Rejection(ViewOf(c), p).None?
    ensures ChainConsistent(Applied(c, p, now))
  {
    var t := Applied(c, p, now);
    assert CreatedIndexed(t.created, t.createdIndex) by {
      CreatedFresh(c, p);
      IndexWithCreated(c.created, c.createdIndex, p.created);
    }
    assert RootsIndexed(t.head, t.history, t.rootBlocks) by {
      RootsAppended(c.head, c.history, c.rootBlocks, t.head);
    }
    assert DerivedIndexed(t.head, t.history, t.derived) by {
      DerivedAppended(c.head, c.history, c.derived, t.head);
      assert |t.createdIndex| == |t.head.created| && |t.rootBlocks| == t.head.block;
    }
  }

  lemma FiledIndexed(x: Inbox, tx: Hash, root: Root, block: int, error: Option<Reason>)
    requires JobsIndexed(x) && tx !in x.jobIds
    ensures JobsIndexed(Filed(x, tx, root, block, error))
  {
    var id := |x.jobs| + 1;
    var y := Filed(x, tx, root, block, error);
    assert id !in x.jobs;
    assert |y.jobs| == id;
    forall n ensures n in y.jobs <==> 1 <= n <= id {
      assert n in y.jobs <==> n in x.jobs || n == id;
    }
  }

  lemma SubmittedConsistent(s: State, p: Payload, now: int)
    requires Consistent(s)
    ensures Consistent(Submitted(s, p, now))
  {
    if p.txFinal !in s.inbox.jobIds {
      var error := Rejection(ViewOf(s.chain), p);
      if error.None? { AppliedConsistent(s.chain, p, now); }
      FiledIndexed(s.inbox, p.txFinal, p.root, Submitted(s, p, now).chain.head.block, error);
    }
  }

  // ------------------------------------------------------------------
  // Whole runs

  /** One relayer request: a payload and the time it arrives. */
  datatype Request = Request(payload: Payload, now: int)

  function Run(s: State, requests: seq<Request>): State {
    if requests == [] then s
    else
      var last := requests[|requests| - 1];
      Submitted(Run(s, requests[..|requests| - 1]), last.payload, last.now)
  }

  /** The payloads a run applied, in order. */
  function AppliedLog(s: State, requests: seq<Request>): seq<Payload> {
    if requests == [] then []
    else
      var before := requests[..|requests| - 1];
      var last := requests[|requests| - 1].payload;
      var t := Run(s, before);
      Logged(t, AppliedLog(s, before), last)
  }

  function AllCreated(log: seq<Payload>): seq<Hash> {
    if log == [] then [] else AllCreated(log[..|log| - 1]) + log[|log| - 1].created
  }

  function AllNullified(log: seq<Payload>): set<Hash> {
    if log == [] then {} else AllNullified(log[..|log| - 1]) + Elements(log[|log| - 1].nullifiers)
  }

  lemma GenesisConsistent(now: int)
    ensures Consistent(Genesis(now))
  {
    var c := GenesisChain(now);
    assert RootsIndexed(c.head, c.history, c.rootBlocks);
    assert DerivedIndexed(c.head, c.history, c.derived);
  }

  /** In every reachable state all indexes agree with what they index. */
  lemma {:induction false} RunConsistent(now: int, requests: seq<Request>)
    ensures Consistent(Run(Genesis(now), requests))
  {
    if requests == [] {
      GenesisConsistent(now);
    } else {
      RunConsistent(now, requests[..|requests| - 1]);
      var last := requests[|requests| - 1];
      SubmittedConsistent(Run(Genesis(now), requests[..|requests| - 1]), last.payload, last.now);
    }
  }

  lemma {:induction false} AllCreatedCovers(log: seq<Payload>, i: nat)
    requires i < |log|
    ensures Elements(log[i].created) <= Elements(AllCreated(log))
    ensures Elements(log[i].nullifiers) <= AllNullified(log)
  {
    if i < |log| - 1 {
      AllCreatedCovers(log[..|log| - 1], i);
    }
  }

  /** Conservation: the created array is exactly the created lists of the
      applied payloads end to end, the nullifier set their union, and the head
      one block further for each. */
  lemma {:induction false} RunConserves(now: int, requests: seq<Request>)
    ensures var s, log := Run(Genesis(now), requests), AppliedLog(Genesis(now), requests);
            && s.chain.created == AllCreated(log) && s.chain.nullifiers == AllNullified(log)
            && s.chain.head.block == 1 + |log|
  {
    if requests != [] {
      hide Submitted, Rejection, ViewOf, AllCreated, AllNullified, Genesis;
      var before, last := requests[..|requests| - 1], requests[|requests| - 1];
      RunConserves(now, before);
      SubmittedConserves(Run(Genesis(now), before), AppliedLog(Genesis(now), before), last.payload, last.now);
    }
  }

  /** The log after one more request. */
  function Logged(s: State, log: seq<Payload>, p: Payload): seq<Payload> {
    log + (if p.txFinal !in s.inbox.jobIds && Rejection(ViewOf(s.chain), p).None? then [p] else [])
  }

  lemma SubmittedConserves(s: State, log: seq<Payload>, p: Payload, now: int)
    requires s.chain.created == AllCreated(log) && s.chain.nullifiers == AllNullified(log)
    requires s.chain.head.block == 1 + |log|
    ensures var t, more := Submitted(s, p, now), Logged(s, log, p);
      && t.chain.created == AllCreated(more) && t.chain.nullifiers == AllNullified(more)
      && t.chain.head.block == 1 + |more|
  {
    hide Rejection, ViewOf, IndexWith, HeadRecorded, Filed, Elements;
    var more := log + [p];
    assert more[..|more| - 1] == log;
    assert log + [] == log;
  }

  /** No double spend and no double creation, over every run: two applied
      payloads share no created object, no nullifier and no txFinal. */
  lemma {:induction false} AppliedDisjoint(now: int, requests: seq<Request>, i: nat, j: nat)
    requires i < j < |AppliedLog(Genesis(now), requests)|
    ensures var log := AppliedLog(Genesis(now), requests);
            && Elements(log[i].created) !! Elements(log[j].created)
            && Elements(log[i].nullifiers) !! Elements(log[j].nullifiers)
            && log[i].txFinal != log[j].txFinal
  {
    var before := requests[..|requests| - 1];
    if j < |AppliedLog(Genesis(now), before)| {
      AppliedDisjoint(now, before, i, j);
    } else {
      EarlierIsKnown(now, before, i);
      AcceptedIff(ViewOf(Run(Genesis(now), before).chain), requests[|requests| - 1].payload);
    }
  }

  /** What an applied payload created, spent and was called stays known. */
  lemma EarlierIsKnown(now: int, requests: seq<Request>, i: nat)
    requires i < |AppliedLog(Genesis(now), requests)|
    ensures var s, p := Run(Genesis(now), requests), AppliedLog(Genesis(now), requests)[i];
            Elements(p.created) <= s.chain.createdIndex.Keys && Elements(p.nullifiers) <= s.chain.nullifierHashes
            && p.txFinal in s.inbox.jobIds
  {
    RunConserves(now, requests);
    RunConsistent(now, requests);
    AllCreatedCovers(AppliedLog(Genesis(now), requests), i);
    AppliedWellFormed(now, requests, i);
  }

  lemma {:induction false} AppliedWellFormed(now: int, requests: seq<Request>, i: nat)
    requires i < |AppliedLog(Genesis(now), requests)|
    ensures var log := AppliedLog(Genesis(now), requests);
            NoDuplicates(log[i].created) && NoDuplicates(log[i].nullifiers)
            && log[i].txFinal in Run(Genesis(now), requests).inbox.jobIds
  {
    var before := requests[..|requests| - 1];
    if i < |AppliedLog(Genesis(now), before)| {
      AppliedWellFormed(now, before, i);
    } else {
      AcceptedIff(ViewOf(Run(Genesis(now), before).chain), requests[|requests| - 1].payload);
    }
  }

  /** Once a txFinal has been received, no later request with it changes anything. */
  lemma {:induction false} ResubmissionIsIdempotent(
    s: State, p: Payload, now: int, later: seq<Request>, q: Payload, afterwards: int)
    requires q.txFinal == p.txFinal
    ensures var t := Run(Submitted(s, p, now), later);
            && Submitted(t, q, afterwards) == t
            && t.inbox.jobIds[p.txFinal] == Submitted(s, p, now).inbox.jobIds[p.txFinal]
  {
    JobIdsGrow(Submitted(s, p, now), later, p.txFinal);
  }

  lemma {:induction false} JobIdsGrow(s: State, later: seq<Request>, tx: Hash)
    requires tx in s.inbox.jobIds
    ensures tx in Run(s, later).inbox.jobIds && Run(s, later).inbox.jobIds[tx] == s.inbox.jobIds[tx]
    ensures tx in s.inbox.statuses ==>
      tx in Run(s, later).inbox.statuses && Run(s, later).inbox.statuses[tx] == s.inbox.statuses[tx]
  {
    if later != [] {
      JobIdsGrow(s, later[..|later| - 1], tx);
    }
  }

  /** Job ids and txFinals correspond one to one in every reachable state. */
  lemma JobsOneToOne(now: int, requests: seq<Request>)
    ensures var x := Run(Genesis(now), requests).inbox;
            && (forall a, b :: a in x.jobIds && b in x.jobIds && x.jobIds[a] == x.jobIds[b] ==> a == b)
            && (forall n :: 1 <= n <= |x.jobs| ==>
                  n in x.jobs && x.jobs[n].txFinal in x.jobIds && x.jobIds[x.jobs[n].txFinal] == n)
            && |x.jobs| == |x.jobIds|
  {
    RunConsistent(now, requests);
    var x := Run(Genesis(now), requests).inbox;
    assert forall a :: a in x.jobIds ==> x.jobs[x.jobIds[a]].txFinal == a;
    SameSize(x);
  }

  lemma SameSize(x: Inbox)
    requires JobsIndexed(x)
    ensures |x.jobs| == |x.jobIds|
  {
    var image := set n | n in x.jobs.Keys :: x.jobs[n].txFinal;
    assert image == x.jobIds.Keys by {
      forall tx | tx in x.jobIds ensures tx in image {
        assert x.jobIds[tx] in x.jobs;
      }
    }
    InjectiveImageSize(x.jobs, x.jobs.Keys);
    assert image == set n | n in x.jobs.Keys :: x.jobs[n].txFinal;
  }

  lemma {:induction false} InjectiveImageSize(jobs: map<nat, Job>, ns: set<nat>)
    requires ns <= jobs.Keys
    requires forall a, b :: a in ns && b in ns && jobs[a].txFinal == jobs[b].txFinal ==> a == b
    ensures |set n | n in ns :: jobs[n].txFinal| == |ns|
  {
    if ns != {} {
      var a :| a in ns;
      InjectiveImageSize(jobs, ns - {a});
      var rest := set n | n in ns - {a} :: jobs[n].txFinal;
      assert (set n | n in ns :: jobs[n].txFinal) == rest + {jobs[a].txFinal};
      assert jobs[a].txFinal !in rest;
    }
  }

  /** The first request of a run with the txFinal. */
  ghost predicate IsFirst(requests: seq<Request>, tx: Hash, k: int) {
    && 0 <= k < |requests| && requests[k].payload.txFinal == tx
    && forall j :: 0 <= j < k ==> requests[j].payload.txFinal != tx
  }

  /** Over every run exactly the txFinals received have a status, and it is the
      verdict on the first payload received with it, in the state it met. */
  lemma {:induction false} StatusIsFirstVerdict(now: int, requests: seq<Request>, tx: Hash)
    ensures var x := Run(Genesis(now), requests).inbox;
      && (tx in x.statuses <==> exists k :: IsFirst(requests, tx, k))
      && (tx in x.jobIds <==> tx in x.statuses)
      && forall k :: IsFirst(requests, tx, k) ==>
           x.statuses[tx].error == Rejection(ViewOf(Run(Genesis(now), requests[..k]).chain), requests[k].payload)
  {
    if requests != [] {
      var n := |requests| - 1;
      var before, last := requests[..n], requests[n];
      StatusIsFirstVerdict(now, before, tx);
      hide Rejection, Genesis, Applied;
      forall k | 0 <= k < n ensures before[..k] == requests[..k] && before[k] == requests[k] {}
      if k :| IsFirst(before, tx, k) {
        assert IsFirst(requests, tx, k);
        assert forall j :: IsFirst(requests, tx, j) ==> IsFirst(before, tx, j);
      } else if last.payload.txFinal == tx {
        NoneBefore(before, tx);
        assert IsFirst(requests, tx, n);
      } else {
        assert forall k :: IsFirst(requests, tx, k) ==> IsFirst(before, tx, k);
      }
    }
  }

  lemma {:induction false} NoneBefore(requests: seq<Request>, tx: Hash)
    requires forall k :: !IsFirst(requests, tx, k)
    ensures forall j :: 0 <= j < |requests| ==> requests[j].payload.txFinal != tx
  {
    if requests != [] {
      var n := |requests| - 1;
      forall k ensures !IsFirst(requests[..n], tx, k) {
        if IsFirst(requests[..n], tx, k) { assert IsFirst(requests, tx, k); }
      }
      NoneBefore(requests[..n], tx);
      assert !IsFirst(requests, tx, n);
    }
  }

  /** Over every run a txFinal's status is free of error exactly if a payload with
      it was applied. */
  lemma {:induction false} StatusIffApplied(now: int, requests: seq<Request>, tx: Hash)
    requires tx in Run(Genesis(now), requests).inbox.statuses
    ensures Run(Genesis(now), requests).inbox.statuses[tx].error.None? <==>
      exists p :: p in AppliedLog(Genesis(now), requests) && p.txFinal == tx
  {
    var n := |requests| - 1;
    if requests != [] {
      var before, last := requests[..n], requests[n].payload;
      var s := Run(Genesis(now), before);
      StatusIsFirstVerdict(now, before, tx);
      StatusIsFirstVerdict(now, before, last.txFinal);
      hide Rejection, Genesis, Applied;
      if tx in s.inbox.statuses {
        StatusIffApplied(now, before, tx);
      } else {
        AppliedAreReceived(now, before, tx);
      }
    }
  }

  lemma {:induction false} AppliedAreReceived(now: int, requests: seq<Request>, tx: Hash)
    ensures forall p :: p in AppliedLog(Genesis(now), requests) && p.txFinal == tx ==>
      tx in Run(Genesis(now), requests).inbox.statuses
  {
    if requests != [] {
      hide Rejection, Genesis, Applied;
      AppliedAreReceived(now, requests[..|requests| - 1], tx);
    }
  }

  lemma AppliedExtends(c: Chain, p: Payload, now: int)
    requires ChainConsistent(c)
    ensures Extends(ViewOf(c), ViewOf(Applied(c, p, now)))
  {
    forall h | h in c.createdIndex ensures h in IndexWith(c.createdIndex, p.created) {
      IndexWithKeys(c.createdIndex, p.created, h);
    }
    RootsAppended(c.head, c.history, c.rootBlocks, Applied(c, p, now).head);
  }

  lemma SubmittedExtends(s: State, p: Payload, now: int)
    requires ChainConsistent(s.chain)
    ensures Extends(ViewOf(s.chain), ViewOf(Submitted(s, p, now).chain))
  {
    AppliedExtends(s.chain, p, now);
  }

  /** The chain only grows along a run. */
  lemma {:induction false} RunExtends(s: State, later: seq<Request>)
    requires Consistent(s)
    ensures Consistent(Run(s, later)) && Extends(ViewOf(s.chain), ViewOf(Run(s, later).chain))
  {
    if later != [] {
      var before := later[..|later| - 1];
      var last := later[|later| - 1];
      RunExtends(s, before);
      SubmittedConsistent(Run(s, before), last.payload, last.now);
      SubmittedExtends(Run(s, before), last.payload, last.now);
      ExtendsTransitive(ViewOf(s.chain), ViewOf(Run(s, before).chain), ViewOf(Run(s, later).chain));
    }
  }

  /** Rejection is final: a payload grounded on a known root, once rejected,
      is rejected after any further requests. */
  lemma RejectedForever(s: State, p: Payload, later: seq<Request>)
    requires Consistent(s) && p.root in s.chain.rootBlocks
    requires Rejection(ViewOf(s.chain), p).Some?
    ensures Rejection(ViewOf(Run(s, later).chain), p).Some?
  {
    RunExtends(s, later);
    RejectionIsFinal(ViewOf(s.chain), ViewOf(Run(s, later).chain), p);
  }

  // ------------------------------------------------------------------
  // The mutable state

  /** A payload that does not parse; an input the chain has not created yet. */
  datatype DonError = NotParsed | NotSynchronized

  /** The header a proof is grounded on and the array position of each input. */
  datatype Witness = Witness(root: Root, indices: map<Hash, int>)

  class MockDon {
    var chain: Chain
    var inbox: Inbox

    ghost function Value(): State
      reads this
    {
      State(chain, inbox)
    }

    ghost predicate Valid()
      reads this
    {
      Consistent(Value())
    }

    constructor (now: int)
      ensures Valid() && Value() == Genesis(now)
    {
      GenesisConsistent(now);
      var head := Root(1, now, [], {}, []);
      chain := Chain(head, [], map[], {}, {}, [], map[head := 1], map[]);
      inbox := Inbox(map[], map[], map[]);
      new;
      RecordHead();
    }

    method RecordHead()
      modifies this`chain
      ensures chain == old(chain).(derived := HeadRecorded(old(chain)))
      ensures old(Underived(chain)) ==> ChainConsistent(chain)
    {
      var block := chain.head.block;
      chain := chain.(derived := chain.derived[block :=
        StateHead(chain.head, block, |chain.createdIndex|, |chain.nullifierHashes|, |chain.rootBlocks|)]);
    }

    /** Why `payload` would be rejected in the next block, if it would. */
    method Reject(payload: Payload) returns (r: Option<Reason>)
      ensures r == Rejection(ViewOf(chain), payload)
    {
      if payload.root !in chain.rootBlocks { return Some(UnknownRoot); }
      var rootBlock := chain.rootBlocks[payload.root];
      if GroundingAgedOut(chain.head.block + 1, rootBlock) {
        return Some(TooOld(chain.head.block + 1 - rootBlock, rootBlock));
      }
      var clash := FindClash(payload.created, chain.createdIndex.Keys);
      if clash.Some? {
        return Some(if clash.value.Repeated? then DuplicateCreated else CreationCollision);
      }
      clash := FindClash(payload.nullifiers, chain.nullifierHashes);
      if clash.Some? {
        return Some(if clash.value.Repeated? then DuplicateNullifierInPayload else NullifierSpent);
      }
      r := None;
    }

    /** Appends each object at the next array position. */
    method AppendCreated(xs: seq<Hash>)
      modifies this`chain
      ensures chain == old(chain).(created := old(chain).created + xs,
                                   createdIndex := IndexWith(old(chain).createdIndex, xs))
    {
      var i := 0;
      assert chain.created == chain.created + xs[..0];
      while i < |xs|
        invariant 0 <= i <= |xs|
        invariant chain == old(chain).(created := old(chain).created + xs[..i],
                                       createdIndex := IndexWith(old(chain).createdIndex, xs[..i]))
      {
        assert xs[..i + 1][..i] == xs[..i];
        assert old(chain).created + xs[..i] + [xs[i]] == old(chain).created + xs[..i + 1];
        var index := |chain.createdIndex|;
        chain := chain.(created := chain.created + [xs[i]],
                        createdIndex := chain.createdIndex[xs[i] := index]);
        i := i + 1;
      }
      assert xs[..i] == xs;
    }

    method SpendNullifiers(xs: seq<Hash>)
      modifies this`chain
      ensures chain == old(chain).(nullifiers := old(chain).nullifiers + Elements(xs),
                                   nullifierHashes := old(chain).nullifierHashes + Elements(xs))
    {
      var i := 0;
      assert Elements(xs[..0]) == {};
      while i < |xs|
        invariant 0 <= i <= |xs|
        invariant chain == old(chain).(nullifiers := old(chain).nullifiers + Elements(xs[..i]),
                                       nullifierHashes := old(chain).nullifierHashes + Elements(xs[..i]))
      {
        assert Elements(xs[..i + 1]) == Elements(xs[..i]) + {xs[i]};
        chain := chain.(nullifiers := chain.nullifiers + {xs[i]},
                        nullifierHashes := chain.nullifierHashes + {xs[i]});
        i := i + 1;
      }
      assert xs[..i] == xs;
    }

    /** Appends `payload`'s objects, spends its nullifiers and makes the next block. */
    method Apply(payload: Payload, now: int)
      modifies this`chain
      ensures chain == Applied(old(chain), payload, now)
      ensures old(ChainConsistent(chain) && Rejection(ViewOf(chain), payload).None?) ==> ChainConsistent(chain)
    {
      hide ChainConsistent, Underived, Rejection, IndexWith;
      if ChainConsistent(chain) && Rejection(ViewOf(chain), payload).None? {
        AppliedConsistent(chain, payload, now);
      }
      AppendCreated(payload.created);
      SpendNullifiers(payload.nullifiers);
      var history := chain.history + [chain.head];
      var head := Root(chain.head.block + 1, Max(now, chain.head.timestamp + 1),
                       chain.created, chain.nullifiers, history);
      chain := chain.(history := history, head := head, rootBlocks := chain.rootBlocks[head := head.block]);
      RecordHead();
    }

    /** Files a job for a payload not received before, applying it if accepted. */
    method Process(payload: Payload, now: int) returns (id: nat)
      requires payload.txFinal !in inbox.jobIds
      modifies this
      ensures Value() == Submitted(old(Value()), payload, now)
      ensures payload.txFinal in inbox.jobIds && inbox.jobIds[payload.txFinal] == id
      ensures IsAnswered(old(Value()), payload, now, Value(), id)
    {
      hide ChainConsistent, Rejection, Applied, IsAnswered, ViewOf, Filed;
      SubmittedIsAnswered(Value(), payload, now);
      SubmittedId(Value(), payload, now);
      ghost var s := Value();
      var error := Reject(payload);
      if error.None? {
        Apply(payload, now);
      }
      id := |inbox.jobs| + 1;
      inbox := Inbox(inbox.statuses[payload.txFinal := TxStatus(chain.head.block, error)],
                     inbox.jobs[id := Job(payload.txFinal, payload.root, chain.head.block)],
                     inbox.jobIds[payload.txFinal := id]);
      FiledBody(s.inbox, payload.txFinal, payload.root, chain.head.block, error);
    }

    /** The relayer's entry point; `None` is a payload that does not parse.
        Returns the job id. */
    method Submit(received: Option<Payload>, now: int) returns (r: Result<nat, DonError>)
      requires Valid()
      modifies this
      ensures Valid()
      ensures received.None? ==> r.Err? && Value() == old(Value())
      ensures received.Some? ==> Value() == Submitted(old(Value()), received.value, now)
      ensures received.Some? ==> received.value.txFinal in inbox.jobIds && r == Ok(inbox.jobIds[received.value.txFinal])
      ensures received.Some? && received.value.txFinal in old(inbox.jobIds) ==> Value() == old(Value())
      ensures received.Some? && received.value.txFinal !in old(inbox.jobIds) ==>
        IsAnswered(old(Value()), received.value, now, Value(), r.value)
    {
      if received.None? { return Err(NotParsed); }
      var payload := received.value;
      SubmittedConsistent(Value(), payload, now);
      if payload.txFinal in inbox.jobIds {
        return Ok(inbox.jobIds[payload.txFinal]);
      }
      var id := Process(payload, now);
      r := Ok(id);
    }

    /** Proofs that every requested object is in the head's created array, or
        an error when one is not there. */
    method GroundingWitness(commitments: seq<Hash>) returns (r: Result<Witness, DonError>)
      requires Valid()
      ensures r.Ok? <==> forall h :: h in commitments ==> h in chain.created
      ensures r.Ok? ==> r.value.root == chain.head
      ensures r.Ok? ==> r.value.root in chain.rootBlocks && chain.rootBlocks[r.value.root] == r.value.root.block
      ensures r.Ok? ==> forall h :: h in commitments ==>
        && h in r.value.indices
        && 0 <= r.value.indices[h] < |r.value.root.created|
        && r.value.root.created[r.value.indices[h]] == h
    {
      var head, created, createdIndex := chain.head, chain.created, chain.createdIndex;
      assert RootAt(head, chain.history, head.block) == head;
      assert forall h :: h in created <==> h in createdIndex;
      var i := 0;
      var indices: map<Hash, int> := map[];
      while i < |commitments|
        invariant 0 <= i <= |commitments|
        invariant forall h :: h in commitments[..i] ==> h in createdIndex
        invariant forall h :: h in commitments[..i] ==> h in indices && indices[h] == createdIndex[h]
      {
        if commitments[i] !in createdIndex {
          assert commitments[i] in commitments;
          return Err(NotSynchronized);
        }
        assert commitments[..i + 1] == commitments[..i] + [commitments[i]];
        indices := indices[commitments[i] := createdIndex[commitments[i]]];
        i := i + 1;
      }
      assert commitments[..i] == commitments;
      r := Ok(Witness(head, indices));
    }
  }

  /** The loop behind both list rules: a growing set of elements seen so far. */
  method FindClash(xs: seq<Hash>, known: set<Hash>) returns (r: Option<Clash>)
    ensures r == FirstClash(xs, known, 0)
    ensures r.None? <==> NoDuplicates(xs) && Elements(xs) !! known
  {
    NoClashIff(xs, known, 0);
    var seen: set<Hash> := {};
    var i := 0;
    while i < |xs|
      invariant 0 <= i <= |xs|
      invariant forall h :: h in seen <==> h in xs[..i]
      invariant FirstClash(xs, known, 0) == FirstClash(xs, known, i)
    {
      if xs[i] in seen { return Some(Repeated); }
      if xs[i] in known { return Some(Known); }
      assert xs[..i + 1] == xs[..i] + [xs[i]];
      seen := seen + {xs[i]};
      i := i + 1;
    }
    r := None;
  }
}
