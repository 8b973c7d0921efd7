/** What holds along every accepted chain: outpoints are spent once, txids never repeat. */
module LedgerTheory {
  import opened Prelude
  import opened Payload
  import opened Transactions
  import opened Order
  import opened Blocks
  import opened Pools
  import opened Ledger

  // ---- lists of transactions -------------------------------------------------------------------

  lemma {:induction false} RefsAppend(a: seq<Txn>, b: seq<Txn>)
    ensures Refs(a + b) == Refs(a) + Refs(b)
  {
    if b == [] {
      assert a + b == a;
    } else {
      var init := b[..|b| - 1];
      assert (a + b)[..|a + b| - 1] == a + init;
      RefsAppend(a, init);
    }
  }

  lemma {:induction false} RefsMember(txns: seq<Txn>, i: Inflow) returns (k: nat)
    requires i in Refs(txns)
    ensures k < |txns| && i in txns[k].inflows
  {
    var n := |txns| - 1;
    if i in txns[n].inflows {
      k := n;
    } else {
      k := RefsMember(txns[..n], i);
    }
  }

  lemma {:induction false} RefsHold(txns: seq<Txn>, k: nat)
    requires k < |txns|
    ensures multiset(txns[k].inflows) <= multiset(Refs(txns))
  {
    var n := |txns| - 1;
    if k < n {
      RefsHold(txns[..n], k);
    }
  }

  /** An inflow that two transactions share is counted twice. */
  lemma RefsTwice(txns: seq<Txn>, j: nat, k: nat, i: Inflow)
    requires j < k < |txns| && i in txns[j].inflows && i in txns[k].inflows
    ensures multiset(Refs(txns))[i] >= 2
  {
    RefsAppend(txns[..k], txns[k..]);
    assert txns == txns[..k] + txns[k..];
    RefsHold(txns[..k], j);
    RefsHold(txns[k..], 0);
    assert i in multiset(txns[..k][j].inflows) && i in multiset(txns[k..][0].inflows);
  }

  lemma AllTxnsSnoc(chain: seq<Block>, b: Block)
    ensures AllTxns(chain + [b]) == AllTxns(chain) + b.txns
  {
    assert (chain + [b])[..|chain|] == chain;
  }

  lemma {:induction false} TxnInBlock(chain: seq<Block>, t: Txn) returns (m: nat, k: nat)
    requires t in AllTxns(chain)
    ensures m < |chain| && k < |chain[m].txns| && chain[m].txns[k] == t
  {
    var n := |chain| - 1;
    if t in chain[n].txns {
      m := n;
      k :| 0 <= k < |chain[n].txns| && chain[n].txns[k] == t;
    } else {
      m, k := TxnInBlock(chain[..n], t);
    }
  }

  lemma {:induction false} BlockInChain(chain: seq<Block>, m: nat, t: Txn)
    requires m < |chain| && t in chain[m].txns
    ensures t in AllTxns(chain)
  {
    var n := |chain| - 1;
    if m < n {
      BlockInChain(chain[..n], m, t);
    }
  }

  // ---- prefixes of accepted chains -------------------------------------------------------------

  lemma {:induction false} ValidAt(R: Rules, chain: seq<Block>, m: nat)
    requires ValidChain(R, chain) && m < |chain|
    ensures ValidChain(R, chain[..m]) && ValidNext(R, chain[..m], chain[m])
  {
    hide ValidNext;
    var n := |chain| - 1;
    if m < n {
      ValidAt(R, chain[..n], m);
      assert chain[..n][..m] == chain[..m];
    }
  }

  /** Position is block idx, and each block names the one before it. */
  lemma ChainLinks(R: Rules, chain: seq<Block>, m: nat)
    requires ValidChain(R, chain) && m < |chain|
    ensures chain[m].idx == m && Shape(R, chain[m])
    ensures chain[m].prevHash == (if m == 0 then R.hash(GENESIS) else chain[m - 1].hash)
  {
    hide ValidChain, Shape, CheckMoney, TargetAfter;
    ValidAt(R, chain, m);
    assert m > 0 ==> chain[..m][|chain[..m]| - 1] == chain[m - 1];
  }

  // ---- what acceptance says about each inflow --------------------------------------------------

  lemma {:induction false} ConsumeAt(v: View, t: Txn, ins: seq<Inflow>, inBlock: bool, k: nat)
    requires Consume(v, t, ins, inBlock).Ok? && k < |ins|
    ensures CheckInflow(v, t, ins[k], inBlock) == Ok(Consume(v, t, ins, inBlock).value[k])
  {
    hide CheckInflow;
    if k < |ins| - 1 {
      ConsumeAt(v, t, ins[..|ins| - 1], inBlock, k);
    }
  }

  lemma {:induction false} CheckTxnsAt(v: View, txns: seq<Txn>, k: nat)
    requires CheckTxns(v, txns).Ok? && k < |txns|
    ensures CheckTxn(v, txns[k], true).Ok?
  {
    hide CheckTxn;
    if k < |txns| - 1 {
      CheckTxnsAt(v, txns[..|txns| - 1], k);
    }
  }

  /** The regular transactions of an accepted block. */
  lemma AcceptedTxn(R: Rules, chain: seq<Block>, b: Block, k: nat)
    requires ValidNext(R, chain, b) && k < |b.txns| - 1
    ensures CheckTxn(View(chain, b.txns), b.txns[k], true).Ok? && ValidRegular(R, b.txns[k])
  {
    hide CheckTxn, CheckLink, CheckCoinbase, ValidHeader, InOrder, Header, Leaves, ValidRegular,
      ValidCoinbase;
    CheckTxnsAt(View(chain, b.txns), Regular(b), k);
  }

  lemma AcceptedCoinbase(R: Rules, chain: seq<Block>, b: Block)
    requires ValidNext(R, chain, b)
    ensures b.txns != [] && ValidCoinbase(R, Coinbase(b)) && Coinbase(b).prevHash == Some(b.prevHash)
  {
    hide CheckTxn, CheckTxns, CheckLink, ValidHeader, InOrder, Header, Leaves, ValidRegular, ValidCoinbase,
      NonZeroAmounts;
  }

  lemma AcceptedInflow(R: Rules, chain: seq<Block>, b: Block, k: nat, i: Inflow)
    requires ValidNext(R, chain, b) && k < |b.txns| && i in b.txns[k].inflows
    ensures k < |b.txns| - 1 && CheckInflow(View(chain, b.txns), b.txns[k], i, true).Ok?
  {
    hide CheckInflow, ValidNext, Drains, MetricsOf, RouteAll;
    AcceptedCoinbase(R, chain, b);
    CoinbaseSpendsNothing(R, Coinbase(b));
    assert k < |b.txns| - 1;
    AcceptedTxn(R, chain, b, k);
    var ins := b.txns[k].inflows;
    var j :| 0 <= j < |ins| && ins[j] == i;
    ConsumeAt(View(chain, b.txns), b.txns[k], ins, true, j);
  }

  lemma CoinbaseSpendsNothing(R: Rules, t: Txn)
    requires ValidCoinbase(R, t)
    ensures t.inflows == [] && t.outflows != [] && IsCoinbase(t) && ValidTxn(R, t)
  {
    hide ValidShape;
  }

  lemma RegularSpends(R: Rules, t: Txn)
    requires ValidRegular(R, t)
    ensures t.inflows != [] && t.outflows != [] && !IsCoinbase(t) && ValidTxn(R, t)
  {
    hide ValidShape;
  }

  /** Every transaction of an accepted chain is signed by the address it spends for, over its content,
      and goes by the digest of that content. */
  lemma SignedByAddress(R: Rules, chain: seq<Block>, t: Txn)
    requires ValidChain(R, chain) && t in AllTxns(chain)
    ensures R.signed(t.address, SigningData(t), t.signature) && t.txid == R.hash(DataCsv(t))
  {
    hide ValidChain, ValidNext, AllTxns, DataCsv, SigningData, ValidFlows, IsAddress;
    var m, k := TxnInBlock(chain, t);
    ValidAt(R, chain, m);
    AcceptedIsValid(R, chain[..m], chain[m], k);
  }

  // ---- no double spend -------------------------------------------------------------------------

  ghost predicate SpentOnce(txns: seq<Txn>) {
    forall i :: multiset(Refs(txns))[i] <= 1
  }

  lemma BlockSpendsOnce(R: Rules, chain: seq<Block>, b: Block, i: Inflow)
    requires ValidNext(R, chain, b) && i in Refs(b.txns)
    ensures multiset(Refs(b.txns))[i] == 1 && i !in Refs(AllTxns(chain))
  {
    hide ValidNext, AllTxns, Refs, OwnerOf, Lookup;
    var k := RefsMember(b.txns, i);
    AcceptedInflow(R, chain, b, k, i);
    assert multiset(Refs(b.txns))[i] > 0;
  }

  /** Along every accepted chain no outpoint is consumed twice. */
  lemma {:induction false} NoDoubleSpend(R: Rules, chain: seq<Block>)
    requires ValidChain(R, chain)
    ensures SpentOnce(AllTxns(chain))
  {
    hide ValidNext, Refs;
    if chain == [] {
      assert Refs([]) == [] by { NoRefs(); }
    } else {
      var init, b := chain[..|chain| - 1], chain[|chain| - 1];
      NoDoubleSpend(R, init);
      RefsAppend(AllTxns(init), b.txns);
      forall i
        ensures multiset(Refs(AllTxns(chain)))[i] <= 1
      {
        if i in Refs(b.txns) {
          BlockSpendsOnce(R, init, b, i);
        }
      }
    }
  }

  lemma NoRefs()
    ensures Refs([]) == []
  {
  }

  // ---- txids never repeat ----------------------------------------------------------------------

  function Headers(chain: seq<Block>): set<string> {
    set b | b in chain :: Header(b)
  }

  function Contents(txns: seq<Txn>): set<string> {
    set t | t in txns :: DataCsv(t)
  }

  /** Everything the digest was applied to along a chain. */
  function Preimages(chain: seq<Block>): set<string> {
    Headers(chain) + Contents(AllTxns(chain)) + {GENESIS}
  }

  ghost predicate CollisionFree(R: Rules, texts: set<string>) {
    forall x, y :: x in texts && y in texts && R.hash(x) == R.hash(y) ==> x == y
  }

  lemma CollisionFreePart(R: Rules, texts: set<string>, part: set<string>)
    requires CollisionFree(R, texts) && part <= texts
    ensures CollisionFree(R, part)
  {
  }

  lemma DistinctHashes(R: Rules, chain: seq<Block>, i: nat, j: nat)
    requires ValidChain(R, chain) && CollisionFree(R, Preimages(chain)) && i < j < |chain|
    ensures chain[i].hash != chain[j].hash
  {
    hide Header, DataCsv, AllTxns, ValidChain, ValidHeader, InOrder, Leaves, ValidRegular, ValidCoinbase;
    ChainLinks(R, chain, i);
    ChainLinks(R, chain, j);
    assert Header(chain[i]) in Preimages(chain) && Header(chain[j]) in Preimages(chain);
    if Header(chain[i]) == Header(chain[j]) {
      HeaderInjective(R, chain[i], chain[j]);
    }
  }

  lemma NotTheGenesisHash(R: Rules, chain: seq<Block>, i: nat)
    requires ValidChain(R, chain) && CollisionFree(R, Preimages(chain)) && i < |chain|
    ensures chain[i].hash != R.hash(GENESIS)
  {
    hide Header, DataCsv, AllTxns, ValidChain, ValidHeader, InOrder, Leaves, ValidRegular, ValidCoinbase;
    ChainLinks(R, chain, i);
    assert Header(chain[i]) in Preimages(chain) && GENESIS in Preimages(chain);
    HeaderHasComma(chain[i]);
    assert ',' !in GENESIS;
  }

  /** Every block of a chain names a different previous block. */
  lemma DistinctPrev(R: Rules, chain: seq<Block>, i: nat, j: nat)
    requires ValidChain(R, chain) && CollisionFree(R, Preimages(chain)) && i < j < |chain|
    ensures chain[i].prevHash != chain[j].prevHash
  {
    hide ValidChain, CollisionFree, Preimages, Shape;
    ChainLinks(R, chain, i);
    ChainLinks(R, chain, j);
    NotTheGenesisHash(R, chain, j - 1);
    if i > 0 {
      DistinctHashes(R, chain, i - 1, j - 1);
    }
  }

  lemma AcceptedIsValid(R: Rules, chain: seq<Block>, b: Block, k: nat)
    requires ValidNext(R, chain, b) && k < |b.txns|
    ensures ValidTxn(R, b.txns[k])
    ensures k < |b.txns| - 1 ==> b.txns[k].inflows != [] && b.txns[k].prevHash == None
    ensures k == |b.txns| - 1 ==> b.txns[k].inflows == [] && b.txns[k].prevHash == Some(b.prevHash)
    ensures b.txns[k].outflows != []
  {
    hide ValidNext, ValidRegular, ValidCoinbase, ValidTxn;
    AcceptedCoinbase(R, chain, b);
    CoinbaseSpendsNothing(R, Coinbase(b));
    if k < |b.txns| - 1 {
      AcceptedTxn(R, chain, b, k);
      RegularSpends(R, b.txns[k]);
    }
  }

  lemma SameTxidSameContent(R: Rules, texts: set<string>, t: Txn, u: Txn)
    requires ValidTxn(R, t) && ValidTxn(R, u) && t.txid == u.txid
    requires CollisionFree(R, texts) && DataCsv(t) in texts && DataCsv(u) in texts
    ensures SameContent(t, u)
  {
    hide DataCsv, ValidFlows, IsAddress, SigningData;
    DataCsvInjective(R, t, u);
  }

  /** Positions `(m, k)` and `(n, l)` that hold the same txid lie in one block, and hold a coinbase
      both or the same inflows. */
  lemma SameTxidSamePlace(R: Rules, chain: seq<Block>, m: nat, k: nat, n: nat, l: nat)
    requires ValidChain(R, chain) && CollisionFree(R, Preimages(chain))
    requires m < |chain| && k < |chain[m].txns| && n < |chain| && l < |chain[n].txns|
    requires chain[m].txns[k].txid == chain[n].txns[l].txid
    ensures m == n && (k < |chain[m].txns| - 1 ==> chain[n].txns[l].inflows == chain[m].txns[k].inflows != [])
    ensures k == |chain[m].txns| - 1 ==> l == k
  {
    hide ValidChain, ValidNext, CollisionFree, Header, DataCsv, ValidTxn, Refs;
    var t, u := chain[m].txns[k], chain[n].txns[l];
    ValidAt(R, chain, m);
    ValidAt(R, chain, n);
    AcceptedIsValid(R, chain[..m], chain[m], k);
    AcceptedIsValid(R, chain[..n], chain[n], l);
    BlockInChain(chain, m, t);
    BlockInChain(chain, n, u);
    assert DataCsv(t) in Preimages(chain) && DataCsv(u) in Preimages(chain);
    SameTxidSameContent(R, Preimages(chain), t, u);
    if t.prevHash.Some? {
      if m < n {
        DistinctPrev(R, chain, m, n);
      } else if n < m {
        DistinctPrev(R, chain, n, m);
      }
    } else {
      SharedInflow(R, chain, m, k, n, l, t.inflows[0]);
    }
  }

  /** An inflow is not shared between blocks. */
  lemma SharedInflow(R: Rules, chain: seq<Block>, m: nat, k: nat, n: nat, l: nat, i: Inflow)
    requires ValidChain(R, chain)
    requires m < |chain| && k < |chain[m].txns| && n < |chain| && l < |chain[n].txns|
    requires i in chain[m].txns[k].inflows && i in chain[n].txns[l].inflows
    ensures m == n
  {
    hide ValidChain, ValidNext, Refs;
    if m < n {
      SharedEarlier(R, chain, m, k, n, l, i);
    } else if n < m {
      SharedEarlier(R, chain, n, l, m, k, i);
    }
  }

  lemma SharedEarlier(R: Rules, chain: seq<Block>, m: nat, k: nat, n: nat, l: nat, i: Inflow)
    requires ValidChain(R, chain)
    requires m < n < |chain| && k < |chain[m].txns| && l < |chain[n].txns| && i in chain[m].txns[k].inflows
    ensures i !in chain[n].txns[l].inflows
  {
    hide ValidChain, ValidNext, Refs;
    ValidAt(R, chain, n);
    var before := AllTxns(chain[..n]);
    var t := chain[m].txns[k];
    assert chain[..n][m] == chain[m];
    BlockInChain(chain[..n], m, t);
    var p :| 0 <= p < |before| && before[p] == t;
    RefsHold(before, p);
    assert i in multiset(t.inflows) && i in Refs(before);
    RefsHold(chain[n].txns, l);
    assert i in chain[n].txns[l].inflows ==> i in multiset(chain[n].txns[l].inflows);
    if i in Refs(chain[n].txns) {
      BlockSpendsOnce(R, chain[..n], chain[n], i);
    }
  }

  lemma BlockDistinct(R: Rules, chain: seq<Block>, n: nat)
    requires ValidChain(R, chain) && CollisionFree(R, Preimages(chain)) && n < |chain|
    ensures DistinctTxids(chain[n].txns)
  {
    hide ValidChain, ValidNext, CollisionFree, Preimages, Refs, AllTxns;
    var txns := chain[n].txns;
    forall k, l | 0 <= k < l < |txns|
      ensures txns[k].txid != txns[l].txid
    {
      if txns[k].txid == txns[l].txid {
        SameTxidSamePlace(R, chain, n, k, n, l);
        var i := txns[k].inflows[0];
        RefsTwice(txns, k, l, i);
        ValidAt(R, chain, n);
        assert i in Refs(txns);
        BlockSpendsOnce(R, chain[..n], chain[n], i);
        assert false;
      }
    }
  }

  lemma AppendDistinct(a: seq<Txn>, b: seq<Txn>)
    requires DistinctTxids(a) && DistinctTxids(b)
    requires forall t, u :: t in a && u in b ==> t.txid != u.txid
    ensures DistinctTxids(a + b)
  {
    var both := a + b;
    forall i, j | 0 <= i < j < |both|
      ensures both[i].txid != both[j].txid
    {
      if j < |a| {
        assert both[i] == a[i] && both[j] == a[j];
      } else if i < |a| {
        assert both[i] == a[i] && both[j] == b[j - |a|];
      } else {
        assert both[i] == b[i - |a|] && both[j] == b[j - |a|];
      }
    }
  }

  lemma {:induction false} TxidsUpTo(R: Rules, chain: seq<Block>, n: nat)
    requires ValidChain(R, chain) && CollisionFree(R, Preimages(chain)) && n <= |chain|
    ensures DistinctTxids(AllTxns(chain[..n]))
  {
    hide ValidChain, CollisionFree, Preimages, DistinctTxids;
    if n == 0 {
      assert DistinctTxids([]) by { NothingDistinct(); }
    } else {
      TxidsUpTo(R, chain, n - 1);
      BlockDistinct(R, chain, n - 1);
      var before := AllTxns(chain[..n - 1]);
      forall t, u | t in before && u in chain[n - 1].txns
        ensures t.txid != u.txid
      {
        var m, k := TxnInBlock(chain[..n - 1], t);
        var l :| 0 <= l < |chain[n - 1].txns| && chain[n - 1].txns[l] == u;
        assert chain[..n - 1][m] == chain[m];
        if t.txid == u.txid {
          SameTxidSamePlace(R, chain, m, k, n - 1, l);
        }
      }
      AppendDistinct(before, chain[n - 1].txns);
      assert chain[..n][..n - 1] == chain[..n - 1];
    }
  }

  lemma NothingDistinct()
    ensures DistinctTxids([])
  {
  }

  /** Txids are unique along every accepted chain: a replayed transaction is stopped by its inflows,
      a coinbase by the previous hash it binds. */
  lemma TxidsUnique(R: Rules, chain: seq<Block>)
    requires ValidChain(R, chain) && CollisionFree(R, Preimages(chain))
    ensures DistinctTxids(AllTxns(chain))
  {
    hide ValidChain, CollisionFree, Preimages, DistinctTxids, AllTxns;
    TxidsUpTo(R, chain, |chain|);
    assert chain[..|chain|] == chain;
  }

  // ---- time and difficulty ---------------------------------------------------------------------

  lemma ChainTime(R: Rules, chain: seq<Block>, m: nat)
    requires ValidChain(R, chain) && m < |chain|
    ensures R.instant(chain[m].timestamp).Some?
    ensures m > 0 ==> !Before(R, chain[m], chain[m - 1])
  {
    hide ValidChain, CheckMoney, TargetAfter, Header, Leaves, InOrder, ValidRegular, ValidCoinbase;
    ValidAt(R, chain, m);
    assert m > 0 ==> chain[..m][m - 1] == chain[m - 1];
  }

  /** Block timestamps never decrease along an accepted chain. */
  lemma {:induction false} TimeNeverRunsBack(R: Rules, chain: seq<Block>, m: nat, n: nat)
    requires ValidChain(R, chain) && m <= n < |chain|
    ensures R.instant(chain[m].timestamp).Some? && R.instant(chain[n].timestamp).Some?
    ensures R.instant(chain[m].timestamp).value <= R.instant(chain[n].timestamp).value
  {
    hide ValidChain;
    ChainTime(R, chain, n);
    if m < n {
      ChainTime(R, chain, n - 1);
      TimeNeverRunsBack(R, chain, m, n - 1);
    }
  }

  /** No block of an accepted chain has a target easier than the floor. */
  lemma {:induction false} DifficultyFloor(R: Rules, chain: seq<Block>, m: nat)
    requires ValidChain(R, chain) && m < |chain| && !R.meets(MAX_TARGET, MAX_TARGET)
    ensures !R.meets(MAX_TARGET, chain[m].target) && R.meets(chain[m].hash, chain[m].target)
  {
    hide ValidChain, CheckMoney, Header, Leaves, InOrder, ValidRegular, ValidCoinbase, ValidHeader, Before;
    ValidAt(R, chain, m);
    if m > 0 {
      DifficultyFloor(R, chain, m - 1);
      assert chain[..m][m - 1] == chain[m - 1];
    }
  }
}
