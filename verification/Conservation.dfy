/** Conservation and the supply bound over whole accepted chains. */
module Conservation {
  import opened Prelude
  import opened Payload
  import opened Transactions
  import opened Order
  import opened Blocks
  import opened Sums
  import opened Pools
  import opened PoolTheory
  import opened Ledger
  import opened LedgerTheory
  import opened Unspent

  // ---- weights ---------------------------------------------------------------------------------

  function ToDest(o: Outflow, d: Dest): int {
    if DestOf(o) == d then o.amount else 0
  }

  /** Value an address holds. */
  function Held(o: Outflow): int {
    ToDest(o, Pay)
  }

  /** Value staked on some subject. */
  function Staked(o: Outflow): int {
    if DestOf(o).Place? then o.amount else 0
  }

  function RescindedAmount(o: Outflow): int {
    if DestOf(o).Rescind? then o.amount else 0
  }

  function Amount(o: Outflow): int {
    o.amount
  }

  // ---- resolved inflows ------------------------------------------------------------------------

  function ViewAt(chain: seq<Block>, m: nat): View
    requires m < |chain|
  {
    View(chain[..m], chain[m].txns)
  }

  /** What transaction `k` of block `m` consumed when its block was accepted. */
  function ConsumedAt(chain: seq<Block>, m: nat, k: nat): seq<Outflow>
    requires m < |chain| && k < |chain[m].txns|
  {
    var t := chain[m].txns[k];
    var os := Consume(ViewAt(chain, m), t, t.inflows, true);
    if os.Ok? then os.value else []
  }

  lemma {:induction false} PrefixTxns(chain: seq<Block>, m: nat, t: Txn)
    requires m <= |chain| && t in AllTxns(chain[..m])
    ensures t in AllTxns(chain)
  {
    if m < |chain| {
      var init := chain[..|chain| - 1];
      assert init[..m] == chain[..m];
      PrefixTxns(init, m, t);
    } else {
      assert chain[..m] == chain;
    }
  }

  /** What a block saw while it was unpersisted is what the finished chain says. */
  lemma LookupIsFind(chain: seq<Block>, m: nat, txid: string)
    requires DistinctTxids(AllTxns(chain)) && m < |chain| && Lookup(ViewAt(chain, m), txid).Some?
    ensures Find(AllTxns(chain), txid) == Lookup(ViewAt(chain, m), txid)
  {
    hide DistinctTxids, AllTxns, Find;
    if Find(chain[m].txns, txid).Some? {
      forall t | t in chain[m].txns
        ensures t in AllTxns(chain)
      {
        BlockInChain(chain, m, t);
      }
      FindInPart(AllTxns(chain), chain[m].txns, txid);
    } else {
      forall t | t in AllTxns(chain[..m])
        ensures t in AllTxns(chain)
      {
        PrefixTxns(chain, m, t);
      }
      FindInPart(AllTxns(chain), AllTxns(chain[..m]), txid);
    }
  }

  /** Every inflow of an accepted chain names exactly one outflow of that chain: created there, not a
      rescind, consumed by nobody else, and owned by the consumer, under whose address the consuming
      transaction is signed. */
  lemma WhoSpends(R: Rules, chain: seq<Block>, m: nat, k: nat, i: Inflow)
    requires ValidChain(R, chain) && CollisionFree(R, Preimages(chain))
    requires m < |chain| && k < |chain[m].txns| && i in chain[m].txns[k].inflows
    ensures Source(AllTxns(chain), i).Some? && Source(AllTxns(chain), i).value.rescind == None
    ensures OwnerOf(Source(AllTxns(chain), i).value, Find(AllTxns(chain), i.outflowTxid).value)
      == chain[m].txns[k].address
    ensures R.signed(OwnerOf(Source(AllTxns(chain), i).value, Find(AllTxns(chain), i.outflowTxid).value),
                     SigningData(chain[m].txns[k]), chain[m].txns[k].signature)
    ensures multiset(Refs(AllTxns(chain)))[i] == 1
    ensures CheckInflow(ViewAt(chain, m), chain[m].txns[k], i, true) == Ok(Source(AllTxns(chain), i).value)
  {
    hide ValidChain, ValidNext, CollisionFree, Preimages, AllTxns, Refs, Find, DistinctTxids, OwnerOf, Lookup,
      SigningData;
    ValidAt(R, chain, m);
    BlockInChain(chain, m, chain[m].txns[k]);
    SignedByAddress(R, chain, chain[m].txns[k]);
    AcceptedInflow(R, chain[..m], chain[m], k, i);
    TxidsUnique(R, chain);
    LookupIsFind(chain, m, i.outflowTxid);
    NoDoubleSpend(R, chain);
    InflowIsRef(chain, m, k, i);
  }

  lemma InflowIsRef(chain: seq<Block>, m: nat, k: nat, i: Inflow)
    requires m < |chain| && k < |chain[m].txns| && i in chain[m].txns[k].inflows
    ensures multiset(Refs(AllTxns(chain)))[i] >= 1
  {
    hide AllTxns, Refs;
    var all, t := AllTxns(chain), chain[m].txns[k];
    BlockInChain(chain, m, t);
    var p :| 0 <= p < |all| && all[p] == t;
    RefsHold(all, p);
    assert i in multiset(t.inflows);
  }

  lemma RefIsInflow(chain: seq<Block>, i: Inflow) returns (m: nat, k: nat)
    requires i in Refs(AllTxns(chain))
    ensures m < |chain| && k < |chain[m].txns| && i in chain[m].txns[k].inflows
  {
    hide AllTxns, Refs;
    var p := RefsMember(AllTxns(chain), i);
    m, k := TxnInBlock(chain, AllTxns(chain)[p]);
  }

  lemma ChainUnspent(R: Rules, chain: seq<Block>, w: Outflow -> int)
    requires ValidChain(R, chain) && CollisionFree(R, Preimages(chain))
    ensures UnspentValue(AllTxns(chain), w) == Net(AllTxns(chain), AllTxns(chain), w)
  {
    hide ValidChain, CollisionFree, Preimages, AllTxns, Refs, Find, DistinctTxids, OwnerOf, Lookup,
      UnspentValue, Net, Source, CheckInflow;
    TxidsUnique(R, chain);
    NoDoubleSpend(R, chain);
    forall i | i in Refs(AllTxns(chain))
      ensures Source(AllTxns(chain), i).Some?
    {
      var m, k := RefIsInflow(chain, i);
      WhoSpends(R, chain, m, k, i);
    }
    UnspentIsNet(AllTxns(chain), w);
  }

  // ---- one transaction -------------------------------------------------------------------------

  /** Consumed outflows as validation leaves them: well-formed and never a rescind. */
  predicate Spendable(os: seq<Outflow>) {
    forall k :: 0 <= k < |os| ==> ValidOutflow(os[k]) && os[k].rescind == None
  }

  lemma DestOfSpendable(o: Outflow)
    requires ValidOutflow(o) && o.rescind == None
    ensures DestOf(o) == (match RouteOf(o) case General => Pay case Staked(p) => Place(p))
  {
    hide IsAddress;
  }

  lemma DestOfValid(o: Outflow)
    requires ValidOutflow(o)
    ensures DestOf(o) != Malformed && o.amount >= 1
    ensures DestOf(o) == Pay <==> o.address.Some?
    ensures forall s :: DestOf(o) == Place(Pool(Opposition, s)) <==> o.opposition == Some(s)
    ensures forall s :: DestOf(o) == Place(Pool(Support, s)) <==> o.support == Some(s)
  {
    hide IsAddress;
  }

  lemma RouteAllSnoc(os: seq<Outflow>)
    requires os != []
    ensures RouteAll(os)[..|os| - 1] == RouteAll(os[..|os| - 1])
    ensures RouteAll(os)[|os| - 1] == Routed(os[|os| - 1].amount, RouteOf(os[|os| - 1]))
  {
    hide RouteOf;
  }

  /** The routed totals are the weights of the consumed outflows. */
  lemma {:induction false} ConsumedWeights(os: seq<Outflow>)
    requires Spendable(os)
    ensures OutValue(os, Held) == GeneralIn(RouteAll(os))
    ensures OutValue(os, Staked) == TotalIn(RouteAll(os)) - GeneralIn(RouteAll(os))
    ensures OutValue(os, RescindedAmount) == 0
    ensures OutValue(os, Amount) == TotalIn(RouteAll(os))
    ensures forall p :: OutValue(os, o => ToDest(o, Place(p))) == In(RouteAll(os), p)
  {
    hide DestOf, RouteOf, RouteAll, ValidOutflow;
    if os != [] {
      var init, o := os[..|os| - 1], os[|os| - 1];
      ConsumedWeights(init);
      RouteAllSnoc(os);
      DestOfSpendable(o);
      var ins := RouteAll(os);
      match RouteOf(o)
      case General =>
      case Staked(q) =>
    }
  }

  lemma {:induction false} CreatedWeights(outs: seq<Outflow>)
    requires WellFormed(outs)
    ensures OutValue(outs, Held) == Sent(outs, Pay)
    ensures OutValue(outs, Staked) == TotalOut(outs) - Sent(outs, Pay) - OutValue(outs, RescindedAmount)
    ensures OutValue(outs, Amount) == TotalOut(outs)
    ensures forall p :: OutValue(outs, o => ToDest(o, Place(p))) == Placed(outs, p)
  {
    hide DestOf;
    if outs != [] {
      var init := outs[..|outs| - 1];
      CreatedWeights(init);
      forall p
        ensures OutValue(outs, o => ToDest(o, Place(p))) == Placed(outs, p)
      {
        var w := (o: Outflow) => ToDest(o, Place(p));
        assert OutValue(outs, w) == OutValue(init, w) + w(outs[|outs| - 1]);
      }
    }
  }

  lemma {:induction false} RescindSplits(outs: seq<Outflow>, ps: set<Pool>)
    requires Mentions(ps, [], outs)
    ensures OutValue(outs, RescindedAmount) == Sum(ps, p => Rescinded(outs, p))
  {
    var f := (p: Pool) => Rescinded(outs, p);
    if outs == [] {
      SumZero(ps, f);
    } else {
      hide DestOf, Rescinded;
      var init, o := outs[..|outs| - 1], outs[|outs| - 1];
      assert outs == init + [o];
      RescindSplits(init, ps);
      FlowsSnoc([], init, o);
      var g := (p: Pool) => Rescinded(init, p);
      match DestOf(o)
      case Rescind(q) => SumChange(ps, g, f, q);
      case _ => SumAgree(ps, f, g);
    }
  }

  lemma RoutePositive(os: seq<Outflow>, outs: seq<Outflow>)
    requires Spendable(os) && ValidFlows([], outs)
    ensures Positive(RouteAll(os), outs)
  {
    hide RouteOf, IsAddress, ValidDestinations;
  }

  /** One accepted transaction: nothing is lost, and twice what it mints is paid for by value that
      left addresses or was rescinded. */
  lemma TxnBalance(os: seq<Outflow>, outs: seq<Outflow>)
    requires Spendable(os) && ValidFlows([], outs) && Drains(RouteAll(os), outs)
    ensures OutValue(outs, Amount) == OutValue(os, Amount)
    ensures 2 * (OutValue(outs, Held) - OutValue(os, Held)) + OutValue(outs, Staked) - OutValue(os, Staked)
            + 2 * MetricsOf(RouteAll(os), outs).Total() <= 0
  {
    hide DestOf, RouteOf, RouteAll, ValidFlows, Spendable, Level, Drawn, MetricsOf, AllPools, Sent, In,
      GeneralIn, TotalIn, TotalOut, Mentions, OutValue, NewStake, Rescinded;
    var ins := RouteAll(os);
    RoutePositive(os, outs);
    PoolTheorem(ins, outs);
    MintBound(ins, outs);
    ConsumedWeights(os);
    CreatedWeights(outs);
    AllPoolsMention(ins, outs);
    MentionsParts(AllPools(ins, outs), ins, outs);
    RescindSplits(outs, AllPools(ins, outs));
  }

  // ---- transactions of one block ---------------------------------------------------------------

  lemma {:induction false} RefsResolved(txns: seq<Txn>, ins: seq<Inflow>, os: seq<Outflow>, w: Outflow -> int)
    requires |ins| == |os| && forall k :: 0 <= k < |ins| ==> Source(txns, ins[k]) == Some(os[k])
    ensures RefValue(txns, w, ins) == OutValue(os, w)
  {
    hide Source;
    if ins != [] {
      var n := |ins| - 1;
      RefsResolved(txns, ins[..n], os[..n], w);
    }
  }

  lemma OutflowOfChain(R: Rules, chain: seq<Block>, i: Inflow)
    requires ValidChain(R, chain) && Source(AllTxns(chain), i).Some?
    ensures ValidOutflow(Source(AllTxns(chain), i).value)
  {
    hide ValidChain, ValidNext, AllTxns, Find, ValidOutflow, ValidRegular, ValidCoinbase;
    var t := Find(AllTxns(chain), i.outflowTxid).value;
    FindAnswers(AllTxns(chain), i.outflowTxid);
    var m, k := TxnInBlock(chain, t);
    ValidAt(R, chain, m);
    AcceptedIsValid(R, chain[..m], chain[m], k);
    ValidTxnOutflow(R, t, i.outflowIdx);
  }

  lemma ValidTxnOutflow(R: Rules, t: Txn, k: nat)
    requires ValidTxn(R, t) && k < |t.outflows|
    ensures ValidOutflow(t.outflows[k]) && ValidFlows([], t.outflows)
  {
    hide ValidOutflow, ValidInflow, IsAddress, DataCsv, SigningData;
  }

  /** What a regular transaction consumed, in terms of the finished chain. */
  lemma ConsumedInChain(R: Rules, chain: seq<Block>, m: nat, k: nat, w: Outflow -> int)
    requires ValidChain(R, chain) && CollisionFree(R, Preimages(chain)) && m < |chain| && k < |chain[m].txns| - 1
    ensures var t, os := chain[m].txns[k], ConsumedAt(chain, m, k);
      && Spendable(os) && Drains(RouteAll(os), t.outflows) && ValidFlows([], t.outflows)
      && CheckTxn(ViewAt(chain, m), t, true) == Ok(MetricsOf(RouteAll(os), t.outflows))
      && RefValue(AllTxns(chain), w, t.inflows) == OutValue(os, w)
  {
    hide ValidChain, ValidNext, CollisionFree, Preimages, AllTxns, Refs, Find, Drains, MetricsOf, RouteAll,
      CheckInflow, OutValue, RefValue, ValidOutflow, ValidRegular, ValidTxn, Source, OwnerOf;
    var t, v := chain[m].txns[k], ViewAt(chain, m);
    ValidAt(R, chain, m);
    AcceptedTxn(R, chain[..m], chain[m], k);
    AcceptedIsValid(R, chain[..m], chain[m], k);
    ValidTxnOutflow(R, t, 0);
    var os := Consume(v, t, t.inflows, true).value;
    forall j | 0 <= j < |t.inflows|
      ensures Source(AllTxns(chain), t.inflows[j]) == Some(os[j]) && ValidOutflow(os[j]) && os[j].rescind == None
    {
      ConsumeAt(v, t, t.inflows, true, j);
      WhoSpends(R, chain, m, k, t.inflows[j]);
      OutflowOfChain(R, chain, t.inflows[j]);
    }
    RefsResolved(AllTxns(chain), t.inflows, os, w);
  }

  lemma {:induction false} RegularNet(R: Rules, chain: seq<Block>, m: nat, k: nat)
    requires ValidChain(R, chain) && CollisionFree(R, Preimages(chain)) && m < |chain| && k < |chain[m].txns|
    requires CheckTxns(ViewAt(chain, m), chain[m].txns[..k]).Ok?
    ensures var all, part := AllTxns(chain), chain[m].txns[..k];
      && Net(all, part, Amount) == 0
      && 2 * Net(all, part, Held) + Net(all, part, Staked)
         + 2 * CheckTxns(ViewAt(chain, m), part).value.Total() <= 0
  {
    hide ValidChain, ValidNext, CollisionFree, Preimages, AllTxns, Refs, Find, Drains, MetricsOf, RouteAll,
      CheckTxn, OutValue, RefValue, ValidOutflow, Spendable, ConsumedAt, ViewAt;
    if k > 0 {
      var part, t := chain[m].txns[..k], chain[m].txns[k - 1];
      assert part[..k - 1] == chain[m].txns[..k - 1];
      RegularNet(R, chain, m, k - 1);
      ConsumedInChain(R, chain, m, k - 1, Amount);
      ConsumedInChain(R, chain, m, k - 1, Held);
      ConsumedInChain(R, chain, m, k - 1, Staked);
      TxnBalance(ConsumedAt(chain, m, k - 1), t.outflows);
    }
  }

  // ---- coinbases -------------------------------------------------------------------------------

  ghost function MintedAt(chain: seq<Block>, m: nat): int
    requires m < |chain|
  {
    var r := CheckTxns(ViewAt(chain, m), Regular(chain[m]));
    if r.Ok? then r.value.Total() else 0
  }

  /** All metrics of a chain. */
  ghost function Minted(chain: seq<Block>, n: nat): int
    requires n <= |chain|
  {
    if n == 0 then 0 else Minted(chain, n - 1) + MintedAt(chain, n - 1)
  }

  function SumOf(ns: seq<int>): int {
    if ns == [] then 0 else SumOf(ns[..|ns| - 1]) + ns[|ns| - 1]
  }

  lemma {:induction false} SumOfAppend(a: seq<int>, b: seq<int>)
    ensures SumOf(a + b) == SumOf(a) + SumOf(b)
  {
    if b == [] {
      assert a + b == a;
    } else {
      SumOfAppend(a, b[..|b| - 1]);
      assert (a + b)[..|a + b| - 1] == a + b[..|b| - 1];
    }
  }

  /** Leaving out the zeros loses nothing. */
  lemma NonZeroSum(m: Metrics)
    ensures SumOf(NonZeroAmounts(m)) == m.Total()
  {
    var a, b, c, d := NonZero(m.schadenfreude), NonZero(m.grace), NonZero(m.mudita), NonZero(m.regret);
    SumOfAppend(a, b);
    SumOfAppend(a + b, c);
    SumOfAppend(a + b + c, d);
    SumOfOne(m.schadenfreude);
    SumOfOne(m.grace);
    SumOfOne(m.mudita);
    SumOfOne(m.regret);
  }

  lemma SumOfOne(n: int)
    ensures SumOf(NonZero(n)) == n
  {
  }

  lemma {:induction false} AmountsSum(outs: seq<Outflow>)
    ensures SumOf(Amounts(outs)) == OutValue(outs, Amount)
  {
    if outs != [] {
      var n := |outs| - 1;
      AmountsSum(outs[..n]);
      assert Amounts(outs)[..n] == Amounts(outs[..n]);
    }
  }

  lemma {:induction false} OutValueCons(outs: seq<Outflow>, w: Outflow -> int)
    requires outs != []
    ensures OutValue(outs, w) == w(outs[0]) + OutValue(outs[1..], w)
  {
    if |outs| > 1 {
      var n := |outs| - 1;
      OutValueCons(outs[..n], w);
      assert outs[..n][1..] == outs[1..][..n - 1];
    } else {
      assert outs[..0] == [] && outs[1..] == [];
    }
  }

  /** A coinbase pays the reward and the metrics, to the grain. */
  lemma CoinbasePays(R: Rules, chain: seq<Block>, m: nat)
    requires ValidChain(R, chain) && m < |chain|
    ensures CheckTxns(ViewAt(chain, m), Regular(chain[m])).Ok?
    ensures chain[m].txns != [] && Coinbase(chain[m]).inflows == [] && ValidFlows([], Coinbase(chain[m]).outflows)
    ensures OutValue(Coinbase(chain[m]).outflows, Amount) == REWARD + MintedAt(chain, m)
  {
    hide ValidChain, ValidHeader, InOrder, Header, Leaves, ValidRegular, ValidCoinbase, CheckLink,
      CheckTxns, NonZeroAmounts, Amounts, OutValue, Metrics.Total;
    ValidAt(R, chain, m);
    var b := chain[m];
    AcceptedCoinbase(R, chain[..m], b);
    CoinbaseSpendsNothing(R, Coinbase(b));
    ValidTxnOutflow(R, Coinbase(b), 0);
    var metrics := CheckTxns(ViewAt(chain, m), Regular(b)).value;
    var outs := Coinbase(b).outflows;
    OutValueCons(outs, Amount);
    AmountsSum(outs[1..]);
    NonZeroSum(metrics);
  }

  lemma {:induction false} WeightBound(outs: seq<Outflow>)
    requires ValidFlows([], outs)
    ensures 2 * OutValue(outs, Held) + OutValue(outs, Staked) <= 2 * OutValue(outs, Amount)
    ensures OutValue(outs, Held) >= 0 && OutValue(outs, Staked) >= 0
  {
    hide DestOf, IsAddress, ValidDestinations;
    if outs != [] {
      WeightBound(outs[..|outs| - 1]);
    }
  }

  // ---- chains ----------------------------------------------------------------------------------

  lemma SplitBlock(chain: seq<Block>, m: nat, w: Outflow -> int)
    requires m < |chain| && chain[m].txns != [] && Coinbase(chain[m]).inflows == []
    ensures Net(AllTxns(chain), AllTxns(chain[..m + 1]), w) ==
      Net(AllTxns(chain), AllTxns(chain[..m]), w) + Net(AllTxns(chain), Regular(chain[m]), w)
        + OutValue(Coinbase(chain[m]).outflows, w)
  {
    hide OutValue, Worth, Net, AllTxns;
    var all, b := AllTxns(chain), chain[m];
    assert chain[..m + 1] == chain[..m] + [b];
    AllTxnsSnoc(chain[..m], b);
    NetAppend(all, AllTxns(chain[..m]), b.txns, w);
    NetOfBlock(all, b, w);
  }

  lemma NetOfBlock(all: seq<Txn>, b: Block, w: Outflow -> int)
    requires b.txns != [] && Coinbase(b).inflows == []
    ensures Net(all, b.txns, w) == Net(all, Regular(b), w) + OutValue(Coinbase(b).outflows, w)
  {
    hide OutValue, Worth;
  }

  lemma {:induction false} ChainNet(R: Rules, chain: seq<Block>, n: nat)
    requires ValidChain(R, chain) && CollisionFree(R, Preimages(chain)) && n <= |chain|
    ensures var all, part := AllTxns(chain), AllTxns(chain[..n]);
      && Net(all, part, Amount) == REWARD * n + Minted(chain, n)
      && 2 * Net(all, part, Held) + Net(all, part, Staked) <= 2 * REWARD * n
  {
    hide ValidChain, ValidNext, CollisionFree, Preimages, Refs, Find, CheckTxns, OutValue, RefValue,
      ViewAt, Metrics.Total, ValidFlows;
    if n > 0 {
      hide AllTxns, Net;
      var m := n - 1;
      ChainNet(R, chain, m);
      CoinbasePays(R, chain, m);
      RegularNet(R, chain, m, |chain[m].txns| - 1);
      SplitBlock(chain, m, Amount);
      SplitBlock(chain, m, Held);
      SplitBlock(chain, m, Staked);
      WeightBound(Coinbase(chain[m]).outflows);
    }
  }

  /** Unspent value split by where it sits. */
  lemma UnspentSplits(R: Rules, chain: seq<Block>)
    requires ValidChain(R, chain) && CollisionFree(R, Preimages(chain))
    ensures var all := AllTxns(chain);
      UnspentValue(all, Amount) == UnspentValue(all, Held) + UnspentValue(all, Staked)
        + UnspentValue(all, RescindedAmount)
  {
    hide ValidChain, CollisionFree, Preimages, AllTxns, Refs, Find, DestOf, Source, ValidOutflow, Created;
    var all := AllTxns(chain);
    var s := UnspentOf(all);
    var h, k, r, a := i => Worth(all, Held, i), i => Worth(all, Staked, i), i => Worth(all, RescindedAmount, i),
      i => Worth(all, Amount, i);
    var hk := i => Worth(all, Held, i) + Worth(all, Staked, i);
    TxidsUnique(R, chain);
    forall i | i in s
      ensures a(i) == hk(i) + r(i)
    {
      CreatedAnswers(all, i);
      OutflowOfChain(R, chain, i);
      DestOfValid(Source(all, i).value);
    }
    SumOfSums(s, hk, r, a);
    SumOfSums(s, h, k, hk);
  }

  /** Conservation: whatever is unspent - held, staked or rescinded for good - is exactly what the
      coinbases paid out, which is the rewards and the metrics. */
  lemma ValueIsConserved(R: Rules, chain: seq<Block>)
    requires ValidChain(R, chain) && CollisionFree(R, Preimages(chain))
    ensures var all := AllTxns(chain);
      UnspentValue(all, Held) + UnspentValue(all, Staked) + UnspentValue(all, RescindedAmount)
      == REWARD * |chain| + Minted(chain, |chain|)
  {
    hide ValidChain, CollisionFree, Preimages, AllTxns, UnspentValue, Minted, Net;
    UnspentSplits(R, chain);
    ChainUnspent(R, chain, Amount);
    ChainNet(R, chain, |chain|);
    assert chain[..|chain|] == chain;
  }

  /** The hard supply bound. */
  lemma SupplyBound(R: Rules, chain: seq<Block>)
    requires ValidChain(R, chain) && CollisionFree(R, Preimages(chain))
    ensures 2 * UnspentValue(AllTxns(chain), Held) + UnspentValue(AllTxns(chain), Staked) <= 2 * REWARD * |chain|
  {
    hide ValidChain, CollisionFree, Preimages, AllTxns, UnspentValue, Minted, Net;
    ChainUnspent(R, chain, Held);
    ChainUnspent(R, chain, Staked);
    ChainNet(R, chain, |chain|);
    assert chain[..|chain|] == chain;
  }
}
