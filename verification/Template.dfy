/** A template assembled by incremental checks, judged as a whole block on the same parent. */
module Template {
  import opened Prelude
  import opened Text
  import opened Payload
  import opened Transactions
  import opened Order
  import opened Blocks
  import opened Pools
  import opened Ledger
  import opened LedgerTheory
  import opened Unspent
  import opened Conservation
  import opened Assembly

  predicate NoRepeats(ins: seq<Inflow>) {
    forall j, k :: 0 <= j < k < |ins| ==> ins[j] != ins[k]
  }

  // ---- what the incremental checks say ---------------------------------------------------------

  lemma {:induction false} AssembledAt(R: Rules, chain: seq<Block>, txns: seq<Txn>, metrics: Metrics, k: nat)
    requires Assembled(R, chain, txns, metrics) && k < |txns|
    ensures CheckTxn(View(chain, txns[..k]), txns[k], false).Ok?
    ensures MayAppend(R, txns[..k], txns[k]) && Fresh(chain, txns[k])
  {
    hide CheckTxn, MayAppend, Fresh;
    var n := |txns| - 1;
    if k < n {
      var before :| Assembled(R, chain, txns[..n], before);
      AssembledAt(R, chain, txns[..n], before, k);
      assert txns[..n][..k] == txns[..k];
    }
  }

  lemma AssembledInOrder(R: Rules, chain: seq<Block>, txns: seq<Txn>, metrics: Metrics)
    requires Assembled(R, chain, txns, metrics)
    ensures InOrder(txns) && CanonicalOrder(txns) == txns
    ensures forall k :: 0 <= k < |txns| ==> ValidRegular(R, txns[k]) && !IsCoinbase(txns[k])
  {
    hide Assembled, TxnLess, ValidRegular, Fresh, CheckTxn, Sorted;
    forall k | 0 <= k < |txns|
      ensures ValidRegular(R, txns[k]) && !IsCoinbase(txns[k])
      ensures k > 0 ==> !TxnLess(txns[k], txns[k - 1])
    {
      AssembledAt(R, chain, txns, metrics, k);
      RegularSpends(R, txns[k]);
      assert k > 0 ==> txns[..k][k - 1] == txns[k - 1];
    }
    InOrderSorted(txns);
    CanonicalFixpoint(txns);
  }

  /** An inflow the pool check lets through is used neither below nor on the chain. */
  lemma UnusedSoFar(R: Rules, chain: seq<Block>, txns: seq<Txn>, metrics: Metrics, k: nat, i: Inflow)
    requires Assembled(R, chain, txns, metrics) && k < |txns| && i in txns[k].inflows
    ensures CheckInflow(View(chain, txns[..k]), txns[k], i, false).Ok?
    ensures i !in Refs(txns[..k]) && i !in Refs(AllTxns(chain))
  {
    hide Assembled, Lookup, OwnerOf, AllTxns, Refs, Drains, MetricsOf, RouteAll, MayAppend, Fresh;
    AssembledAt(R, chain, txns, metrics, k);
    var ins := txns[k].inflows;
    var j :| 0 <= j < |ins| && ins[j] == i;
    ConsumeAt(View(chain, txns[..k]), txns[k], ins, false, j);
    assert Uses(View(chain, txns[..k]), i) == 0;
  }

  /** So in the whole block it is used as often as its own transaction repeats it. */
  lemma {:induction false} UsesInBlock(R: Rules, chain: seq<Block>, txns: seq<Txn>, metrics: Metrics, k: nat,
                                       i: Inflow, n: nat)
    requires Assembled(R, chain, txns, metrics) && k < n <= |txns| && i in txns[k].inflows
    ensures multiset(Refs(txns[..n]))[i] == multiset(txns[k].inflows)[i]
  {
    hide Assembled, CheckInflow, Refs;
    Snoc(txns, n - 1);
    RefsSnoc(txns[..n - 1], txns[n - 1]);
    if k == n - 1 {
      UnusedSoFar(R, chain, txns, metrics, k, i);
    } else {
      UsesInBlock(R, chain, txns, metrics, k, i, n - 1);
      assert multiset(txns[k].inflows)[i] > 0;
      assert i in Refs(txns[..n - 1]);
      if i in txns[n - 1].inflows {
        UnusedSoFar(R, chain, txns, metrics, n - 1, i);
      }
    }
  }

  // ---- the finished block ----------------------------------------------------------------------

  /** All transactions of the chain and of the block on top of it. */
  function Everything(chain: seq<Block>, txns: seq<Txn>, coinbase: Txn): seq<Txn> {
    AllTxns(chain) + (txns + [coinbase])
  }

  function FullView(chain: seq<Block>, txns: seq<Txn>, coinbase: Txn): View {
    View(chain, txns + [coinbase])
  }

  lemma LookupInPart(chain: seq<Block>, all: seq<Txn>, part: seq<Txn>, txid: string)
    requires DistinctTxids(all) && (forall t :: t in AllTxns(chain) ==> t in all)
      && (forall t :: t in part ==> t in all)
    requires Lookup(View(chain, part), txid).Some?
    ensures Find(all, txid) == Lookup(View(chain, part), txid)
  {
    hide DistinctTxids, AllTxns, Find;
    if Find(part, txid).Some? {
      FindInPart(all, part, txid);
    } else {
      FindInPart(all, AllTxns(chain), txid);
    }
  }

  lemma {:induction false} FindSome(txns: seq<Txn>, t: Txn)
    requires t in txns
    ensures Find(txns, t.txid).Some?
  {
    FindAnswers(txns, t.txid);
  }

  lemma SameLookup(chain: seq<Block>, txns: seq<Txn>, coinbase: Txn, k: nat, txid: string)
    requires DistinctTxids(Everything(chain, txns, coinbase)) && k <= |txns|
    requires Lookup(View(chain, txns[..k]), txid).Some?
    ensures Lookup(FullView(chain, txns, coinbase), txid) == Lookup(View(chain, txns[..k]), txid)
  {
    hide DistinctTxids, AllTxns, Find;
    var all := Everything(chain, txns, coinbase);
    LookupInPart(chain, all, txns[..k], txid);
    var t := Lookup(View(chain, txns[..k]), txid).value;
    FindAnswers(txns[..k], txid);
    FindAnswers(AllTxns(chain), txid);
    if t in txns[..k] {
      FindSome(txns + [coinbase], t);
    } else {
      FindSome(AllTxns(chain), t);
    }
    LookupInPart(chain, all, txns + [coinbase], txid);
  }

  /** The whole-block check of one inflow: the pool check again, unless the transaction repeats it. */
  lemma WholeInflow(R: Rules, chain: seq<Block>, txns: seq<Txn>, metrics: Metrics, coinbase: Txn, k: nat, i: Inflow)
    requires Assembled(R, chain, txns, metrics) && DistinctTxids(Everything(chain, txns, coinbase))
      && coinbase.inflows == []
    requires k < |txns| && i in txns[k].inflows
    ensures var r := CheckInflow(FullView(chain, txns, coinbase), txns[k], i, true);
      r == if multiset(txns[k].inflows)[i] <= 1 then CheckInflow(View(chain, txns[..k]), txns[k], i, false)
        else Err(Spent)
  {
    hide Assembled, DistinctTxids, AllTxns, Refs, Find, OwnerOf, Lookup;
    UnusedSoFar(R, chain, txns, metrics, k, i);
    UsesInBlock(R, chain, txns, metrics, k, i, |txns|);
    assert txns[..|txns|] == txns;
    RefsSnoc(txns, coinbase);
    assert Refs(txns + [coinbase]) == Refs(txns);
    SameLookup(chain, txns, coinbase, k, i.outflowTxid);
  }

  lemma NoRepeatsCount(ins: seq<Inflow>, i: Inflow)
    requires NoRepeats(ins)
    ensures multiset(ins)[i] <= 1
  {
    if ins != [] {
      var n := |ins| - 1;
      assert ins == ins[..n] + [ins[n]];
      NoRepeatsCount(ins[..n], i);
      assert ins[n] !in ins[..n] by {
        forall j | 0 <= j < n
          ensures ins[..n][j] != ins[n]
        {
          assert ins[j] != ins[n];
        }
      }
    }
  }

  lemma RepeatCount(ins: seq<Inflow>, j: nat, k: nat)
    requires j < k < |ins| && ins[j] == ins[k]
    ensures multiset(ins)[ins[k]] >= 2
  {
    assert ins == ins[..k] + ins[k..];
    assert ins[j] in ins[..k] && ins[k] in ins[k..];
    assert multiset(ins) == multiset(ins[..k]) + multiset(ins[k..]);
  }

  lemma {:induction false} WholeConsume(R: Rules, chain: seq<Block>, txns: seq<Txn>, metrics: Metrics,
                                        coinbase: Txn, k: nat, j: nat)
    requires Assembled(R, chain, txns, metrics) && DistinctTxids(Everything(chain, txns, coinbase))
      && coinbase.inflows == []
    requires k < |txns| && j <= |txns[k].inflows| && NoRepeats(txns[k].inflows)
    ensures var t := txns[k];
      Consume(FullView(chain, txns, coinbase), t, t.inflows[..j], true)
        == Consume(View(chain, txns[..k]), t, t.inflows[..j], false)
  {
    hide Assembled, DistinctTxids, CheckInflow, FullView, Everything, NoRepeats;
    if j > 0 {
      var ins := txns[k].inflows;
      WholeConsume(R, chain, txns, metrics, coinbase, k, j - 1);
      NoRepeatsCount(ins, ins[j - 1]);
      WholeInflow(R, chain, txns, metrics, coinbase, k, ins[j - 1]);
      Snoc(ins, j - 1);
    }
  }

  lemma WholeTxn(R: Rules, chain: seq<Block>, txns: seq<Txn>, metrics: Metrics, coinbase: Txn, k: nat)
    requires Assembled(R, chain, txns, metrics) && DistinctTxids(Everything(chain, txns, coinbase))
      && coinbase.inflows == []
    requires k < |txns|
    ensures var r := CheckTxn(FullView(chain, txns, coinbase), txns[k], true);
      if NoRepeats(txns[k].inflows) then r == CheckTxn(View(chain, txns[..k]), txns[k], false) else r.Err?
  {
    hide Assembled, DistinctTxids, CheckInflow, FullView, Everything, Drains, MetricsOf, RouteAll;
    var t, v := txns[k], FullView(chain, txns, coinbase);
    if NoRepeats(t.inflows) {
      WholeConsume(R, chain, txns, metrics, coinbase, k, |t.inflows|);
      assert t.inflows[..|t.inflows|] == t.inflows;
    } else {
      var i, j :| 0 <= i < j < |t.inflows| && t.inflows[i] == t.inflows[j];
      RepeatCount(t.inflows, i, j);
      WholeInflow(R, chain, txns, metrics, coinbase, k, t.inflows[j]);
      if Consume(v, t, t.inflows, true).Ok? {
        ConsumeAt(v, t, t.inflows, true, j);
      }
    }
  }

  ghost predicate AllDistinctInflows(txns: seq<Txn>) {
    forall k :: 0 <= k < |txns| ==> NoRepeats(txns[k].inflows)
  }

  lemma {:induction false} WholeTxns(R: Rules, chain: seq<Block>, txns: seq<Txn>, metrics: Metrics, coinbase: Txn,
                                     n: nat, part: Metrics)
    requires Assembled(R, chain, txns, metrics) && DistinctTxids(Everything(chain, txns, coinbase))
      && coinbase.inflows == []
    requires n <= |txns| && Assembled(R, chain, txns[..n], part)
    ensures var r := CheckTxns(FullView(chain, txns, coinbase), txns[..n]);
      if AllDistinctInflows(txns[..n]) then r == Ok(part) else r.Err?
  {
    hide DistinctTxids, CheckTxn, FullView, Everything, NoRepeats, MayAppend, Fresh;
    if n > 0 {
      Snoc(txns, n - 1);
      var before :| Assembled(R, chain, txns[..n - 1], before) &&
                    part == before.Plus(CheckTxn(View(chain, txns[..n - 1]), txns[n - 1], false).value);
      WholeTxns(R, chain, txns, metrics, coinbase, n - 1, before);
      WholeTxn(R, chain, txns, metrics, coinbase, n - 1);
      DistinctSnoc(txns, n);
    }
  }

  lemma DistinctSnoc(txns: seq<Txn>, n: nat)
    requires 0 < n <= |txns|
    ensures AllDistinctInflows(txns[..n]) <==> AllDistinctInflows(txns[..n - 1]) && NoRepeats(txns[n - 1].inflows)
  {
    hide NoRepeats;
    var a, b := txns[..n], txns[..n - 1];
    assert forall k :: 0 <= k < n - 1 ==> a[k] == b[k];
    assert a[n - 1] == txns[n - 1];
    if AllDistinctInflows(a) {
      forall k | 0 <= k < |b|
        ensures NoRepeats(b[k].inflows)
      {
        assert NoRepeats(a[k].inflows);
      }
    }
  }

  // ---- distinct txids --------------------------------------------------------------------------

  lemma ChainTxnValid(R: Rules, chain: seq<Block>, t: Txn) returns (m: nat)
    requires ValidChain(R, chain) && t in AllTxns(chain)
    ensures m < |chain| && t in chain[m].txns && ValidTxn(R, t)
      && (t.prevHash.Some? ==> t.prevHash == Some(chain[m].prevHash))
  {
    hide ValidChain, ValidNext, AllTxns, ValidTxn;
    var k;
    m, k := TxnInBlock(chain, t);
    ValidAt(R, chain, m);
    AcceptedIsValid(R, chain[..m], chain[m], k);
  }

  lemma CoinbaseIsNew(R: Rules, chain: seq<Block>, texts: set<string>, coinbase: Txn, t: Txn)
    requires ValidChain(R, chain) && CollisionFree(R, texts) && Preimages(chain) <= texts && DataCsv(coinbase) in texts
    requires ValidTxn(R, coinbase) && coinbase.prevHash == Some(TipHash(R, chain)) && t in AllTxns(chain)
    ensures t.txid != coinbase.txid
  {
    hide ValidChain, DataCsv, AllTxns, ValidTxn, Header, Shape;
    var m := ChainTxnValid(R, chain, t);
    assert DataCsv(t) in Contents(AllTxns(chain));
    if t.txid == coinbase.txid {
      SameTxidSameContent(R, texts, t, coinbase);
      ChainLinks(R, chain, m);
      var tip := |chain| - 1;
      assert CollisionFree(R, Preimages(chain));
      NotTheGenesisHash(R, chain, tip);
      if m > 0 {
        DistinctHashes(R, chain, m - 1, tip);
      }
    }
  }

  lemma EverythingDistinct(R: Rules, chain: seq<Block>, txns: seq<Txn>, metrics: Metrics, coinbase: Txn,
                           texts: set<string>)
    requires ValidChain(R, chain) && Assembled(R, chain, txns, metrics) && DistinctTxids(txns)
    requires CollisionFree(R, texts) && Preimages(chain) <= texts && Contents(txns) <= texts
      && DataCsv(coinbase) in texts
    requires ValidTxn(R, coinbase) && coinbase.prevHash == Some(TipHash(R, chain))
    ensures DistinctTxids(Everything(chain, txns, coinbase))
  {
    hide ValidChain, Assembled, DistinctTxids, DataCsv, AllTxns, ValidTxn, Header, CollisionFree,
      Preimages, CheckTxn;
    assert CollisionFree(R, Preimages(chain)) by { CollisionFreePart(R, texts, Preimages(chain)); }
    TxidsUnique(R, chain);
    forall t | t in txns
      ensures t.txid != coinbase.txid && forall u :: u in AllTxns(chain) ==> u.txid != t.txid
    {
      var k :| 0 <= k < |txns| && txns[k] == t;
      AssembledAt(R, chain, txns, metrics, k);
      RegularSpends(R, t);
      FindAnswers(AllTxns(chain), t.txid);
      assert DataCsv(t) in Contents(txns);
      if t.txid == coinbase.txid {
        SameTxidSameContent(R, texts, t, coinbase);
      }
    }
    OneDistinct(coinbase);
    AppendDistinct(txns, [coinbase]);
    forall t, u | t in AllTxns(chain) && u in txns + [coinbase]
      ensures t.txid != u.txid
    {
      CoinbaseIsNew(R, chain, texts, coinbase, t);
    }
    AppendDistinct(AllTxns(chain), txns + [coinbase]);
  }

  // ---- the sealed block ------------------------------------------------------------------------

  lemma CheckedNonNegative(v: View, t: Txn, inBlock: bool)
    requires ValidFlows([], t.outflows) && CheckTxn(v, t, inBlock).Ok?
    ensures NonNegative(CheckTxn(v, t, inBlock).value)
  {
    hide Consume, Drains, MetricsOf, RouteAll, ValidDestinations, IsAddress;
    MetricsNonNegative(RouteAll(Consume(v, t, t.inflows, inBlock).value), t.outflows);
  }

  lemma {:induction false} AssembledNonNegative(R: Rules, chain: seq<Block>, txns: seq<Txn>, metrics: Metrics)
    requires Assembled(R, chain, txns, metrics)
    ensures NonNegative(metrics)
  {
    hide CheckTxn, ValidRegular, Fresh;
    if txns != [] {
      var init, t := txns[..|txns| - 1], txns[|txns| - 1];
      var m := CheckTxn(View(chain, init), t, false);
      var before :| Assembled(R, chain, init, before) && metrics == before.Plus(m.value);
      AssembledNonNegative(R, chain, init, before);
      RegularSpends(R, t);
      ValidTxnOutflow(R, t, 0);
      CheckedNonNegative(View(chain, init), t, false);
    }
  }

  lemma MaxTargetShape()
    ensures IsMillHash(MAX_TARGET)
  {
  }

  lemma TargetShape(R: Rules, chain: seq<Block>)
    requires ValidChain(R, chain) && DigestShapes(R)
    ensures IsMillHash(TargetAfter(R, chain)) && IsMillHash(TipHash(R, chain))
  {
    hide ValidChain, IsMillHash, Header, Leaves, InOrder, ValidRegular, ValidCoinbase, Retargeted;
    MaxTargetShape();
    if chain != [] {
      ChainLinks(R, chain, |chain| - 1);
    }
  }

  ghost predicate AllTimely(R: Rules, at: int, txns: seq<Txn>) {
    forall k :: 0 <= k < |txns| ==> Timely(R, at, txns[k])
  }

  lemma SealedShape(R: Rules, chain: seq<Block>, txns: seq<Txn>, metrics: Metrics, coinbase: Txn,
                    timestamp: string, pow: nat)
    requires ValidChain(R, chain) && Assembled(R, chain, txns, metrics) && |txns| <= MAX_TRANSACTIONS - 1
    requires DigestShapes(R) && ValidTimestamp(R, timestamp) && ValidCoinbase(R, coinbase)
    requires var b := SealBlock(R, chain, txns, coinbase, timestamp, pow); R.meets(b.hash, b.target)
    ensures var b := SealBlock(R, chain, txns, coinbase, timestamp, pow);
      && b.txns == txns + [coinbase] && b.prevHash == TipHash(R, chain) && b.idx == |chain|
      && (Shape(R, b) <==> AllTimely(R, R.instant(timestamp).value, txns))
  {
    hide ValidChain, Assembled, IsMillHash, ValidRegular, ValidCoinbase, TargetAfter, TipHash, InOrder,
      CanonicalOrder, Timely, Leaves, UnprovenHeader;
    var b := SealBlock(R, chain, txns, coinbase, timestamp, pow);
    var at := R.instant(timestamp).value;
    AssembledInOrder(R, chain, txns, metrics);
    TargetShape(R, chain);
    assert Regular(b) == txns && Coinbase(b) == coinbase;
    assert forall k :: 0 <= k < |txns| ==> b.txns[k] == txns[k];
    HeaderIgnoresHash(b, "");
    if Shape(R, b) {
      forall k | 0 <= k < |txns|
        ensures Timely(R, at, txns[k])
      {
        assert Timely(R, at, b.txns[k]);
      }
    }
  }

  lemma HeaderIgnoresHash(b: Block, hash: string)
    ensures Header(b.(hash := hash)) == Header(b)
  {
    hide Join;
  }

  lemma SealedLink(R: Rules, chain: seq<Block>, txns: seq<Txn>, coinbase: Txn, timestamp: string, pow: nat)
    ensures var b := SealBlock(R, chain, txns, coinbase, timestamp, pow);
      CheckLink(R, chain, b) == None <==> (chain == [] || !Before(R, b, chain[|chain| - 1]))
  {
    hide CanonicalOrder, Header, TargetAfter, Leaves;
  }

  lemma SealedMoney(R: Rules, chain: seq<Block>, txns: seq<Txn>, metrics: Metrics, b: Block)
    requires Assembled(R, chain, txns, metrics) && b.txns != [] && Regular(b) == txns
    requires var cb := Coinbase(b);
      && cb.inflows == [] && cb.outflows != [] && cb.prevHash == Some(b.prevHash)
      && cb.outflows[0].amount == REWARD && Amounts(cb.outflows[1..]) == NonZeroAmounts(metrics)
      && DistinctTxids(Everything(chain, txns, cb))
    ensures CheckMoney(View(chain, b.txns), b) == None <==> AllDistinctInflows(txns)
  {
    hide Assembled, DistinctTxids, Everything, CheckTxns, NonZeroAmounts, Amounts, NoRepeats;
    assert txns[..|txns|] == txns;
    assert b.txns == txns + [Coinbase(b)];
    WholeTxns(R, chain, txns, metrics, Coinbase(b), |txns|, metrics);
  }

  /** A solved template is accepted on its parent exactly when no transaction names an inflow twice,
      every transaction is timely for the seal, and the clock has not run behind the tip or ahead of
      the judge. Inflows, balances, order, size, target and coinbase never fail. */
  lemma TemplateSound(R: Rules, sign: string -> string, chain: seq<Block>, txns: seq<Txn>, metrics: Metrics,
                      stamp: string, coinbaseStamp: string, address: string, pow: nat, now: int, texts: set<string>)
    requires ValidChain(R, chain) && Assembled(R, chain, txns, metrics) && DistinctTxids(txns)
      && |txns| <= MAX_TRANSACTIONS - 1
    requires DigestShapes(R) && Signs(R, sign, address) && ValidTimestamp(R, stamp) && ValidTimestamp(R, coinbaseStamp)
    requires CollisionFree(R, texts) && Preimages(chain) <= texts && Contents(txns) <= texts
    requires var cb := MakeCoinbase(R, sign, coinbaseStamp, address, metrics, TipHash(R, chain));
      var b := SealBlock(R, chain, txns, cb, stamp, pow);
      DataCsv(cb) in texts && R.meets(b.hash, b.target)
    ensures var cb := MakeCoinbase(R, sign, coinbaseStamp, address, metrics, TipHash(R, chain));
      var b := SealBlock(R, chain, txns, cb, stamp, pow);
      var at := R.instant(stamp).value;
      var genesis := if chain == [] then None else Some(chain[0].hash);
      Judge(R, now, genesis, chain, View(chain, b.txns), b) == None <==>
        && AllDistinctInflows(txns) && AllTimely(R, at, txns)
        && at <= now && (chain == [] || !Before(R, b, chain[|chain| - 1]))
  {
    hide ValidChain, Assembled, DistinctTxids, DigestShapes, Signs, CollisionFree, Preimages, Contents,
      DataCsv, SealBlock, Shape, CheckLink, CheckMoney, Everything, ValidCoinbase, NonZeroAmounts, Amounts,
      TipHash, NoRepeats, Timely, Before, AllTimely, AllDistinctInflows, ValidTxn, SealTxn,
      CoinbaseOutflows, ValidFlows;
    var cb := MakeCoinbase(R, sign, coinbaseStamp, address, metrics, TipHash(R, chain));
    var b := SealBlock(R, chain, txns, cb, stamp, pow);
    AssembledNonNegative(R, chain, txns, metrics);
    TargetShape(R, chain);
    CoinbaseIsValid(R, sign, coinbaseStamp, address, metrics, TipHash(R, chain));
    CoinbaseSpendsNothing(R, cb);
    CoinbaseContent(R, sign, coinbaseStamp, address, metrics, TipHash(R, chain));
    EverythingDistinct(R, chain, txns, metrics, cb, texts);
    SealedShape(R, chain, txns, metrics, cb, stamp, pow);
    SealedLink(R, chain, txns, cb, stamp, pow);
    assert Regular(b) == txns && Coinbase(b) == cb;
    SealedMoney(R, chain, txns, metrics, b);
    SealedStamp(R, chain, txns, cb, stamp, pow);
    GenesisOnce(chain, b);
  }

  lemma SealedStamp(R: Rules, chain: seq<Block>, txns: seq<Txn>, coinbase: Txn, timestamp: string, pow: nat)
    ensures SealBlock(R, chain, txns, coinbase, timestamp, pow).timestamp == timestamp
  {
  }

  lemma GenesisOnce(chain: seq<Block>, b: Block)
    requires b.idx == |chain|
    ensures b.idx == 0 <==> chain == []
  {
  }

  lemma CoinbaseContent(R: Rules, sign: string -> string, timestamp: string, address: string, m: Metrics,
                        prevHash: string)
    requires Signs(R, sign, address) && NonNegative(m)
    ensures var cb := MakeCoinbase(R, sign, timestamp, address, m, prevHash);
      && cb.prevHash == Some(prevHash) && cb.outflows != []
      && cb.outflows[0].amount == REWARD && Amounts(cb.outflows[1..]) == NonZeroAmounts(m)
  {
    hide DataCsv, SigningData, CoinbaseOutflows, Amounts, NonZeroAmounts, IsAddress, ValidFlows;
    CoinbaseOutflowsValid(m, address);
  }

  // ---- why distinct inflows are needed ---------------------------------------------------------

  /** The pool check does not see a transaction's own repeats: one that names an unspent outflow of
      `a` grains twice and pays out `2 * a` passes it, and spoils the block it is put in. */
  lemma RepeatedInflowPassesThePool(chain: seq<Block>, t: Txn, i: Inflow, o: Outflow, pay: Outflow, a: int)
    requires t.inflows == [i, i] && t.outflows == [pay] && DestOf(pay) == Pay && pay.amount == 2 * a
    requires Source(AllTxns(chain), i) == Some(o) && RouteOf(o) == General && o.rescind == None && o.amount == a
    requires OwnerOf(o, Find(AllTxns(chain), i.outflowTxid).value) == t.address && i !in Refs(AllTxns(chain))
    ensures CheckTxn(View(chain, []), t, false).Ok?
    ensures CheckTxn(View(chain, [t]), t, true).Err?
  {
    hide AllTxns, DestOf, RouteOf, OwnerOf, Drains, MetricsOf;
    var v := View(chain, []);
    FindNothing(i.outflowTxid);
    NoRefs();
    assert CheckInflow(v, t, i, false) == Ok(o);
    ConsumeTwice(v, t, i, o);
    var ins := RouteAll([o, o]);
    assert ins == [Routed(a, General), Routed(a, General)];
    TwoToOne(ins, pay, a);
    RepeatCount(t.inflows, 0, 1);
    RefsSnoc([], t);
    assert Refs([t]) == t.inflows by { assert [] + [t] == [t]; }
    if CheckTxn(View(chain, [t]), t, true).Ok? {
      ConsumeAt(View(chain, [t]), t, t.inflows, true, 1);
    }
  }

  lemma ConsumeSnoc(v: View, t: Txn, ins: seq<Inflow>, i: Inflow, inBlock: bool)
    requires Consume(v, t, ins, inBlock).Ok? && CheckInflow(v, t, i, inBlock).Ok?
    ensures Consume(v, t, ins + [i], inBlock)
      == Ok(Consume(v, t, ins, inBlock).value + [CheckInflow(v, t, i, inBlock).value])
  {
    hide CheckInflow;
    assert (ins + [i])[..|ins|] == ins;
  }

  lemma ConsumeTwice(v: View, t: Txn, i: Inflow, o: Outflow)
    requires CheckInflow(v, t, i, false) == Ok(o)
    ensures Consume(v, t, [i, i], false) == Ok([o, o])
  {
    hide CheckInflow;
    var one, two := [i], [i, i];
    ConsumeSnoc(v, t, [], i, false);
    assert [] + [i] == one && one + [i] == two;
    ConsumeSnoc(v, t, one, i, false);
    var none: seq<Outflow> := [];
    assert none + [o] == [o] && [o] + [o] == [o, o];
  }

  lemma TwoToOne(ins: seq<Routed>, pay: Outflow, a: int)
    requires ins == [Routed(a, General), Routed(a, General)] && DestOf(pay) == Pay && pay.amount == 2 * a
    ensures Drains(ins, [pay])
  {
    hide DestOf;
    assert ins[..1] == [Routed(a, General)];
    NoFlows(ins);
    FlowsSnoc(ins, [], pay);
    assert [] + [pay] == [pay];
    assert GeneralIn(ins) == GeneralIn(ins[..1]) + a == 2 * a;
    assert OwnLevel(ins, [], pay) == 0 && Drawn(ins, [pay]) == 2 * a;
    forall p
      ensures In(ins, p) == 0 && Level(In(ins, p), [pay], p) == 0
    {
      assert In(ins, p) == In(ins[..1], p) == 0;
    }
  }
}
