/** Stake per subject over whole accepted chains. */
module StakeBalance {
  import opened Payload
  import opened Transactions
  import opened Blocks
  import opened Pools
  import opened PoolTheory
  import opened Ledger
  import opened LedgerTheory
  import opened Unspent
  import opened Conservation

  /** What the balance query of one kind and one subject adds up. */
  function AtPool(p: Pool): Outflow -> int {
    o => ToDest(o, Place(p))
  }

  /** New stake on `p` by the first `k` transactions of block `m`. */
  ghost function NewStakeIn(chain: seq<Block>, m: nat, k: nat, p: Pool): int
    requires m < |chain| && k <= |chain[m].txns|
  {
    if k == 0 then 0
    else
      var t := chain[m].txns[k - 1];
      NewStakeIn(chain, m, k - 1, p) + NewStake(RouteAll(ConsumedAt(chain, m, k - 1)), t.outflows, p)
  }

  ghost function RescindedIn(chain: seq<Block>, m: nat, k: nat, p: Pool): int
    requires m < |chain| && k <= |chain[m].txns|
  {
    if k == 0 then 0 else RescindedIn(chain, m, k - 1, p) + Rescinded(chain[m].txns[k - 1].outflows, p)
  }

  /** New stake, stake placed by coinbases, and rescinds, over the first `n` blocks. */
  ghost function StakeHistory(chain: seq<Block>, n: nat, p: Pool): int
    requires n <= |chain| && forall m :: 0 <= m < n ==> chain[m].txns != []
  {
    if n == 0 then 0
    else
      var regular := |chain[n - 1].txns| - 1;
      StakeHistory(chain, n - 1, p) + NewStakeIn(chain, n - 1, regular, p) - RescindedIn(chain, n - 1, regular, p)
      + Placed(Coinbase(chain[n - 1]).outflows, p)
  }

  lemma PoolWeights(os: seq<Outflow>, outs: seq<Outflow>, p: Pool)
    requires Spendable(os) && Drains(RouteAll(os), outs)
    ensures OutValue(outs, AtPool(p)) - OutValue(os, AtPool(p)) == NewStake(RouteAll(os), outs, p) - Rescinded(outs, p)
  {
    hide DestOf, RouteAll, Spendable, ToDest;
    PoolWeight(outs, p);
    ConsumedPoolWeight(os, p);
  }

  lemma {:induction false} PoolWeight(outs: seq<Outflow>, p: Pool)
    ensures OutValue(outs, AtPool(p)) == Placed(outs, p)
  {
    hide DestOf;
    if outs != [] {
      PoolWeight(outs[..|outs| - 1], p);
    }
  }

  lemma {:induction false} ConsumedPoolWeight(os: seq<Outflow>, p: Pool)
    requires Spendable(os)
    ensures OutValue(os, AtPool(p)) == In(RouteAll(os), p)
  {
    hide DestOf, RouteOf, RouteAll, ValidOutflow;
    if os != [] {
      ConsumedPoolWeight(os[..|os| - 1], p);
      RouteAllSnoc(os);
      DestOfSpendable(os[|os| - 1]);
    }
  }

  lemma {:induction false} RegularStake(R: Rules, chain: seq<Block>, m: nat, k: nat, p: Pool)
    requires ValidChain(R, chain) && CollisionFree(R, Preimages(chain)) && m < |chain| && k < |chain[m].txns|
    ensures Net(AllTxns(chain), chain[m].txns[..k], AtPool(p))
      == NewStakeIn(chain, m, k, p) - RescindedIn(chain, m, k, p)
  {
    hide ValidChain, CollisionFree, Preimages, AllTxns, Drains, RouteAll, OutValue, RefValue, Spendable,
      ConsumedAt, ViewAt, NewStake, Rescinded, CheckTxn, AtPool, ValidFlows;
    if k > 0 {
      assert chain[m].txns[..k][..k - 1] == chain[m].txns[..k - 1];
      RegularStake(R, chain, m, k - 1, p);
      ConsumedInChain(R, chain, m, k - 1, AtPool(p));
      PoolWeights(ConsumedAt(chain, m, k - 1), chain[m].txns[k - 1].outflows, p);
    }
  }

  lemma {:induction false} HistoryNet(R: Rules, chain: seq<Block>, n: nat, p: Pool)
    requires ValidChain(R, chain) && CollisionFree(R, Preimages(chain)) && n <= |chain|
    ensures forall m :: 0 <= m < n ==> chain[m].txns != []
    ensures Net(AllTxns(chain), AllTxns(chain[..n]), AtPool(p)) == StakeHistory(chain, n, p)
  {
    hide ValidChain, CollisionFree, Preimages, OutValue, RefValue, NewStakeIn, RescindedIn, AtPool,
      ValidFlows, Placed, Sent, ViewAt, CheckTxns, MintedAt, DestOf, Refs, Find;
    if n > 0 {
      hide AllTxns, Net;
      HistoryNet(R, chain, n - 1, p);
      CoinbasePays(R, chain, n - 1);
      RegularStake(R, chain, n - 1, |chain[n - 1].txns| - 1, p);
      SplitBlock(chain, n - 1, AtPool(p));
      PoolWeight(Coinbase(chain[n - 1]).outflows, p);
      assert Regular(chain[n - 1]) == chain[n - 1].txns[..|chain[n - 1].txns| - 1];
    }
  }

  /** A subject's stake balance is its new stake and what coinbases placed, less what was rescinded;
      and no transaction ever contributes negative new stake. */
  lemma StakeBalances(R: Rules, chain: seq<Block>, p: Pool)
    requires ValidChain(R, chain) && CollisionFree(R, Preimages(chain))
    ensures forall m :: 0 <= m < |chain| ==> chain[m].txns != []
    ensures UnspentValue(AllTxns(chain), AtPool(p)) == StakeHistory(chain, |chain|, p)
    ensures forall m, k :: 0 <= m < |chain| && 0 <= k < |chain[m].txns| - 1 ==>
      NewStake(RouteAll(ConsumedAt(chain, m, k)), chain[m].txns[k].outflows, p) >= 0
  {
    hide ValidChain, CollisionFree, Preimages, AllTxns, UnspentValue, Net, StakeHistory, NewStake,
      RouteAll, ConsumedAt, AtPool, Drains, CheckTxn;
    ChainUnspent(R, chain, AtPool(p));
    HistoryNet(R, chain, |chain|, p);
    assert chain[..|chain|] == chain;
    forall m, k | 0 <= m < |chain| && 0 <= k < |chain[m].txns| - 1
      ensures NewStake(RouteAll(ConsumedAt(chain, m, k)), chain[m].txns[k].outflows, p) >= 0
    {
      ConsumedInChain(R, chain, m, k, Amount);
      RoutePositive(ConsumedAt(chain, m, k), chain[m].txns[k].outflows);
      PoolTheorem(RouteAll(ConsumedAt(chain, m, k)), chain[m].txns[k].outflows);
    }
  }

  /** Rescinded value is terminal: all of it that was ever created is still there. */
  lemma RescindsAreFinal(R: Rules, chain: seq<Block>)
    requires ValidChain(R, chain) && CollisionFree(R, Preimages(chain))
    ensures UnspentValue(AllTxns(chain), RescindedAmount) == OutTotal(AllTxns(chain), RescindedAmount)
  {
    hide ValidChain, CollisionFree, Preimages, AllTxns, UnspentValue, Net, Refs, OutTotal, DestOf, Source,
      Find, CheckInflow, ValidOutflow, OwnerOf;
    var all := AllTxns(chain);
    ChainUnspent(R, chain, RescindedAmount);
    NetSplits(all, all, RescindedAmount);
    forall i | i in Refs(all)
      ensures Worth(all, RescindedAmount, i) == 0
    {
      var m, k := RefIsInflow(chain, i);
      WhoSpends(R, chain, m, k, i);
      OutflowOfChain(R, chain, i);
      DestOfSpendable(Source(all, i).value);
    }
    WorthlessRefs(all, RescindedAmount, Refs(all));
  }

  lemma {:induction false} WorthlessRefs(txns: seq<Txn>, w: Outflow -> int, refs: seq<Inflow>)
    requires forall i :: i in refs ==> Worth(txns, w, i) == 0
    ensures RefValue(txns, w, refs) == 0
  {
    hide Worth;
    if refs != [] {
      WorthlessRefs(txns, w, refs[..|refs| - 1]);
    }
  }
}
