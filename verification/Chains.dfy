/** The chain of the transaction lifecycle and the in-memory network follow the
    same rules: the lifecycle's blocks do to what the rules look at exactly what
    the network does when it applies a payload. */
module Chains {
  import opened Wrappers
  import opened ChainRules
  import L = Lifecycle
  import opened Ledger

  /** The lifecycle's chain with a block for each payload the network applied. */
  function Followed(now: int, requests: seq<Request>): L.Chain {
    if requests == [] then L.Chain(ViewOf(GenesisChain(now)), map[])
    else
      var before, last := requests[..|requests| - 1], requests[|requests| - 1];
      var s := Run(Genesis(now), before);
      if last.payload.txFinal !in s.inbox.jobIds && Rejection(ViewOf(s.chain), last.payload).None? then
        L.NextBlock(Followed(now, before), [last.payload], Applied(s.chain, last.payload, last.now).head)
      else Followed(now, before)
  }

  lemma BlockAgrees(c: Chain, verdicts: map<Hash, L.Verdict>, p: Payload, now: int)
    requires ChainConsistent(c) && Rejection(ViewOf(c), p).None?
    ensures L.NextBlock(L.Chain(ViewOf(c), verdicts), [p], Applied(c, p, now).head) ==
      L.Chain(ViewOf(Applied(c, p, now)), verdicts[p.txFinal := L.Applied])
  {
    hide Rejection, ChainConsistent;
    var b, d := L.Chain(ViewOf(c), verdicts), Applied(c, p, now);
    assert [p][1..] == [];
    assert L.AllIncluded(b, [p]) == L.AllIncluded(L.Included(b, p), []) == L.Included(b, p);
    forall h ensures h in d.createdIndex <==> h in c.createdIndex || h in Elements(p.created) {
      IndexWithKeys(c.createdIndex, p.created, h);
    }
    assert d.createdIndex.Keys == c.createdIndex.Keys + Elements(p.created);
  }

  ghost predicate IsLogged(log: seq<Payload>, tx: Hash) {
    exists p :: p in log && p.txFinal == tx
  }

  lemma LoggedOneMore(log: seq<Payload>, p: Payload)
    ensures forall tx :: IsLogged(log + [p], tx) <==> IsLogged(log, tx) || tx == p.txFinal
  {
    forall tx ensures IsLogged(log + [p], tx) <==> IsLogged(log, tx) || tx == p.txFinal {
      if tx == p.txFinal { assert p in log + [p]; }
      if q :| q in log && q.txFinal == tx { assert q in log + [p]; }
    }
  }

  /** Over every run both have the same head, roots, objects and nullifiers, and
      the lifecycle's chain counts exactly the payloads applied as applied. */
  lemma {:induction false} ChainsAgree(now: int, requests: seq<Request>)
    ensures Followed(now, requests).view == ViewOf(Run(Genesis(now), requests).chain)
    ensures forall tx :: L.IsApplied(Followed(now, requests), tx) <==> IsLogged(AppliedLog(Genesis(now), requests), tx)
  {
    hide Rejection, ViewOf, Applied, L.NextBlock, ChainConsistent;
    if requests != [] {
      var before, last := requests[..|requests| - 1], requests[|requests| - 1];
      var s := Run(Genesis(now), before);
      ChainsAgree(now, before);
      RunConsistent(now, before);
      if last.payload.txFinal !in s.inbox.jobIds && Rejection(ViewOf(s.chain), last.payload).None? {
        BlockAgrees(s.chain, Followed(now, before).verdicts, last.payload, last.now);
        LoggedOneMore(AppliedLog(Genesis(now), before), last.payload);
        hide IsLogged;
      }
    }
  }
}
