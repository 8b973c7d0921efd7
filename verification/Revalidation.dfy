/** An accepted chain validates again, at any later time and from the persisted rows. */
module Revalidation {
  import opened Prelude
  import opened Payload
  import opened Transactions
  import opened Order
  import opened Blocks
  import opened Pools
  import opened Ledger
  import opened LedgerTheory
  import opened Unspent
  import opened Conservation

  // ---- targets ---------------------------------------------------------------------------------

  /** The block `i` places below the tip. */
  function ByReverseIndex(chain: seq<Block>, i: int): Option<Block>
    requires chain != []
  {
    var index := chain[|chain| - 1].idx - i;
    if 0 <= index < |chain| then Some(chain[index]) else None
  }

  /** The target demanded at height `index` by a chain that may be longer than that. */
  function BlockTarget(R: Rules, chain: seq<Block>, index: int): string {
    if chain == [] || index == 0 then MAX_TARGET
    else
      var i := chain[|chain| - 1].idx - index;
      var prev := ByReverseIndex(chain, i + 1);
      if prev.None? then MAX_TARGET
      else if index % TARGET_INTERVAL != 0 then prev.value.target
      else
        var start := ByReverseIndex(chain, i + TARGET_INTERVAL);
        if start.None? || R.instant(prev.value.timestamp).None? || R.instant(start.value.timestamp).None?
          then prev.value.target
        else Retargeted(R, prev.value.target,
          R.instant(prev.value.timestamp).value - R.instant(start.value.timestamp).value)
  }

  /** Growing the chain never changes the target a height had to meet. */
  lemma TargetIsStable(R: Rules, chain: seq<Block>, m: nat)
    requires ValidChain(R, chain) && m <= |chain|
    ensures BlockTarget(R, chain, m) == TargetAfter(R, chain[..m])
  {
    hide ValidChain, Retargeted, Shape;
    if chain != [] && m > 0 {
      ChainLinks(R, chain, |chain| - 1);
      assert chain[..m][m - 1] == chain[m - 1];
      if m % TARGET_INTERVAL == 0 {
        assert m >= TARGET_INTERVAL;
        assert chain[..m][m - TARGET_INTERVAL] == chain[m - TARGET_INTERVAL];
      }
    }
  }

  // ---- money -----------------------------------------------------------------------------------

  /** The block once it is persisted: it is looked up through its own row. */
  function PersistedView(chain: seq<Block>, m: nat): View
    requires m < |chain|
  {
    View(chain[..m + 1], [])
  }

  lemma PersistedInflow(R: Rules, chain: seq<Block>, m: nat, k: nat, i: Inflow)
    requires ValidChain(R, chain) && CollisionFree(R, Preimages(chain))
    requires m < |chain| && k < |chain[m].txns| && i in chain[m].txns[k].inflows
    ensures CheckInflow(PersistedView(chain, m), chain[m].txns[k], i, true)
         == CheckInflow(ViewAt(chain, m), chain[m].txns[k], i, true)
  {
    hide ValidChain, ValidNext, CollisionFree, Preimages, AllTxns, Find, DistinctTxids, OwnerOf;
    ValidAt(R, chain, m);
    AcceptedInflow(R, chain[..m], chain[m], k, i);
    TxidsUpTo(R, chain, m + 1);
    var short := chain[..m + 1];
    assert short[..m] == chain[..m] && short[m] == chain[m];
    LookupIsFind(short, m, i.outflowTxid);
    NoRefs();
    FindNothing(i.outflowTxid);
  }

  lemma {:induction false} PersistedConsume(R: Rules, chain: seq<Block>, m: nat, k: nat, j: nat)
    requires ValidChain(R, chain) && CollisionFree(R, Preimages(chain))
    requires m < |chain| && k < |chain[m].txns| && j <= |chain[m].txns[k].inflows|
    ensures var t := chain[m].txns[k];
      Consume(PersistedView(chain, m), t, t.inflows[..j], true) == Consume(ViewAt(chain, m), t, t.inflows[..j], true)
  {
    hide ValidChain, CollisionFree, Preimages, CheckInflow, PersistedView, ViewAt;
    if j > 0 {
      var ins := chain[m].txns[k].inflows;
      PersistedConsume(R, chain, m, k, j - 1);
      PersistedInflow(R, chain, m, k, ins[j - 1]);
      assert ins[..j][..j - 1] == ins[..j - 1];
    }
  }

  lemma {:induction false} PersistedTxns(R: Rules, chain: seq<Block>, m: nat, k: nat)
    requires ValidChain(R, chain) && CollisionFree(R, Preimages(chain)) && m < |chain| && k <= |chain[m].txns|
    ensures CheckTxns(PersistedView(chain, m), chain[m].txns[..k]) == CheckTxns(ViewAt(chain, m), chain[m].txns[..k])
  {
    hide ValidChain, CollisionFree, Preimages, Consume, PersistedView, ViewAt, Drains, MetricsOf, RouteAll;
    if k > 0 {
      var txns := chain[m].txns;
      PersistedTxns(R, chain, m, k - 1);
      PersistedConsume(R, chain, m, k - 1, |txns[k - 1].inflows|);
      assert txns[k - 1].inflows[..|txns[k - 1].inflows|] == txns[k - 1].inflows;
      assert txns[..k][..k - 1] == txns[..k - 1];
    }
  }

  lemma PersistedMoney(R: Rules, chain: seq<Block>, m: nat)
    requires ValidChain(R, chain) && CollisionFree(R, Preimages(chain)) && m < |chain|
    ensures chain[m].txns != [] && Coinbase(chain[m]).outflows != []
    ensures CheckMoney(PersistedView(chain, m), chain[m]) == CheckMoney(ViewAt(chain, m), chain[m])
  {
    hide ValidChain, CollisionFree, Preimages, CheckTxns, PersistedView, ViewAt, ValidNext, ValidTxn,
      CheckCoinbase;
    ValidAt(R, chain, m);
    AcceptedCoinbase(R, chain[..m], chain[m]);
    AcceptedIsValid(R, chain[..m], chain[m], |chain[m].txns| - 1);
    PersistedTxns(R, chain, m, |chain[m].txns| - 1);
  }

  /** Every block of an accepted chain passes validation again when it is looked up in the finished
      chain, at any clock that has reached its timestamp. */
  lemma AcceptedRevalidates(R: Rules, chain: seq<Block>, m: nat, now: int)
    requires ValidChain(R, chain) && CollisionFree(R, Preimages(chain)) && m < |chain|
    requires R.instant(chain[m].timestamp).Some? ==> R.instant(chain[m].timestamp).value <= now
    ensures Judge(R, now, Some(chain[0].hash), chain[..m], PersistedView(chain, m), chain[m]) == None
    ensures chain[m].target == BlockTarget(R, chain, chain[m].idx)
  {
    hide ValidChain, CollisionFree, Preimages, CheckMoney, PersistedView, Shape, TargetAfter, BlockTarget;
    ValidAt(R, chain, m);
    ChainLinks(R, chain, m);
    PersistedMoney(R, chain, m);
    TargetIsStable(R, chain, m);
    ShapeTimestamp(R, chain[m]);
  }

  /** Its transactions may come back from the tables in any order. */
  lemma AcceptedReloads(R: Rules, chain: seq<Block>, m: nat, rows: seq<Txn>)
    requires ValidChain(R, chain) && CollisionFree(R, Preimages(chain)) && m < |chain|
    requires multiset(rows) == multiset(chain[m].txns)
    ensures CanonicalOrder(rows) == chain[m].txns && Leaves(rows) == Txids(chain[m].txns)
    ensures forall k :: 0 <= k < |chain[m].txns| ==> (IsCoinbase(chain[m].txns[k]) <==> k == |chain[m].txns| - 1)
  {
    hide ValidChain, CollisionFree, Preimages, Shape, DistinctTxids, CanonicalOrder;
    ChainLinks(R, chain, m);
    BlockDistinct(R, chain, m);
    ReloadPreserves(R, chain[m], rows);
    ShapeIsCanonical(R, chain[m]);
  }

  // ---- what a reload changes -------------------------------------------------------------------

  function Reformatted(R: Rules, format: int -> string, s: string): string {
    if R.instant(s).Some? then format(R.instant(s).value) else s
  }

  function ReloadTxn(R: Rules, format: int -> string, t: Txn): Txn {
    t.(timestamp := Reformatted(R, format, t.timestamp))
  }

  function ReloadTxns(R: Rules, format: int -> string, txns: seq<Txn>): (r: seq<Txn>)
    ensures |r| == |txns|
  {
    seq(|txns|, k requires 0 <= k < |txns| => ReloadTxn(R, format, txns[k]))
  }

  /** A block read back from its rows: timestamps come back in the canonical format. */
  function Reload(R: Rules, format: int -> string, b: Block): Block {
    b.(timestamp := Reformatted(R, format, b.timestamp), txns := CanonicalOrder(ReloadTxns(R, format, b.txns)))
  }

  predicate CanonicalTimes(R: Rules, format: int -> string, b: Block) {
    && Reformatted(R, format, b.timestamp) == b.timestamp
    && forall t :: t in b.txns ==> Reformatted(R, format, t.timestamp) == t.timestamp
  }

  /** The texts hashed for a block before and after the reload. */
  function ReloadTexts(R: Rules, format: int -> string, b: Block): set<string> {
    {Header(b), Header(Reload(R, format, b))} + Contents(b.txns) + Contents(Reload(R, format, b).txns)
  }

  lemma ReloadedMember(R: Rules, format: int -> string, b: Block, t: Txn)
    requires t in b.txns
    ensures ReloadTxn(R, format, t) in Reload(R, format, b).txns
  {
    hide CanonicalOrder, ReloadTxn, Sorted;
    var rows := ReloadTxns(R, format, b.txns);
    var k :| 0 <= k < |b.txns| && b.txns[k] == t;
    assert rows[k] == ReloadTxn(R, format, t);
    CanonicalSorted(rows);
    assert rows[k] in multiset(rows);
    assert rows[k] in multiset(CanonicalOrder(rows));
  }

  lemma ShapeMember(R: Rules, b: Block, t: Txn)
    requires Shape(R, b) && t in b.txns
    ensures ValidTxn(R, t) && t.txid == R.hash(DataCsv(t))
  {
    hide Header, Leaves, InOrder, ValidHeader, DataCsv, SigningData, ValidFlows, IsAddress;
    var k :| 0 <= k < |b.txns| && b.txns[k] == t;
  }

  lemma ReloadIsIdentity(R: Rules, format: int -> string, b: Block)
    requires Shape(R, b) && CanonicalTimes(R, format, b)
    ensures Reload(R, format, b) == b
  {
    hide Shape, CanonicalOrder;
    assert ReloadTxns(R, format, b.txns) == b.txns by {
      forall k | 0 <= k < |b.txns|
        ensures ReloadTxn(R, format, b.txns[k]) == b.txns[k]
      {
        assert b.txns[k] in b.txns;
      }
    }
    ShapeIsCanonical(R, b);
  }

  lemma ReloadKeepsBlockTime(R: Rules, format: int -> string, b: Block)
    requires Shape(R, b) && Shape(R, Reload(R, format, b)) && CollisionFree(R, ReloadTexts(R, format, b))
    ensures Reformatted(R, format, b.timestamp) == b.timestamp
  {
    hide Header, Leaves, InOrder, ValidRegular, ValidCoinbase, CanonicalOrder, ReloadTxns, Contents,
      ValidHeader;
    HeaderInjective(R, b, Reload(R, format, b));
  }

  lemma ReloadKeepsTxnTime(R: Rules, format: int -> string, b: Block, t: Txn)
    requires Shape(R, b) && Shape(R, Reload(R, format, b)) && CollisionFree(R, ReloadTexts(R, format, b)) && t in b.txns
    ensures Reformatted(R, format, t.timestamp) == t.timestamp
  {
    hide Shape, Header, CanonicalOrder, ReloadTxns, Reload, DataCsv, ValidTxn, Reformatted;
    var u := ReloadTxn(R, format, t);
    ReloadedMember(R, format, b, t);
    ShapeMember(R, b, t);
    ShapeMember(R, Reload(R, format, b), u);
    DataCsvInjective(R, t, u);
  }

  /** A persisted block still validates exactly when all its timestamps were written canonically:
      the parser accepts other spellings, the reload does not give them back. */
  lemma ReloadValidIffCanonical(R: Rules, format: int -> string, b: Block)
    requires Shape(R, b) && CollisionFree(R, ReloadTexts(R, format, b))
    ensures Shape(R, Reload(R, format, b)) <==> CanonicalTimes(R, format, b)
  {
    hide Shape, Reload, ReloadTexts, Reformatted, CollisionFree;
    if CanonicalTimes(R, format, b) {
      ReloadIsIdentity(R, format, b);
    } else if Shape(R, Reload(R, format, b)) {
      ReloadKeepsBlockTime(R, format, b);
      forall t | t in b.txns
        ensures Reformatted(R, format, t.timestamp) == t.timestamp
      {
        ReloadKeepsTxnTime(R, format, b, t);
      }
    }
  }

  /** One such spelling: an accepted block without zero padding is refused after its reload. */
  lemma UnpaddedTimestampIsLost(R: Rules, format: int -> string, b: Block, at: int)
    requires Shape(R, b) && CollisionFree(R, ReloadTexts(R, format, b))
    requires b.timestamp == "2026-1-2T3:04:05Z" && R.instant(b.timestamp) == Some(at)
      && format(at) == "2026-01-02T03:04:05Z"
    ensures !Shape(R, Reload(R, format, b))
  {
    hide Shape, Reload, ReloadTexts, CollisionFree;
    ReloadValidIffCanonical(R, format, b);
    assert b.timestamp[5] == '1' && format(at)[5] == '0';
  }

  // ---- validating what was persisted -----------------------------------------------------------

  /** A block of an accepted chain, read back from its rows, passes full validation again exactly when
      its timestamps were written canonically. */
  lemma ReloadedRevalidates(R: Rules, format: int -> string, chain: seq<Block>, m: nat, now: int)
    requires ValidChain(R, chain) && CollisionFree(R, Preimages(chain)) && m < |chain|
    requires CollisionFree(R, ReloadTexts(R, format, chain[m])) && NotAfter(R, now, chain[m])
    ensures Judge(R, now, Some(chain[0].hash), chain[..m], PersistedView(chain, m), Reload(R, format, chain[m])) == None
            <==> CanonicalTimes(R, format, chain[m])
  {
    hide ValidChain, CollisionFree, Preimages, CheckMoney, PersistedView, Shape, Reload, ReloadTexts,
      CanonicalTimes, CheckLink;
    ChainLinks(R, chain, m);
    ReloadValidIffCanonical(R, format, chain[m]);
    if CanonicalTimes(R, format, chain[m]) {
      ReloadIsIdentity(R, format, chain[m]);
      AcceptedRevalidates(R, chain, m, now);
    }
  }

  /** The chain as its rows give it back. */
  function ReloadChain(R: Rules, format: int -> string, chain: seq<Block>): (r: seq<Block>)
    ensures |r| == |chain|
  {
    seq(|chain|, k requires 0 <= k < |chain| => Reload(R, format, chain[k]))
  }

  /** `validate()`: every block is judged on the blocks below it and looked up through its own row. */
  ghost predicate Revalidates(R: Rules, now: int, chain: seq<Block>) {
    forall m :: 0 <= m < |chain| ==>
      Judge(R, now, Some(chain[0].hash), chain[..m], PersistedView(chain, m), chain[m]) == None
  }

  lemma RefusedShape(R: Rules, now: int, chain: seq<Block>, m: nat)
    requires Revalidates(R, now, chain) && m < |chain|
    ensures Shape(R, chain[m])
  {
    hide Shape, CheckMoney, CheckLink, PersistedView;
    assert Judge(R, now, Some(chain[0].hash), chain[..m], PersistedView(chain, m), chain[m]) == None;
  }

  /** The whole chain, every block of it read back from its rows, validates at any later clock if and
      only if all its timestamps were written canonically. */
  lemma ChainRevalidates(R: Rules, format: int -> string, chain: seq<Block>, now: int)
    requires ValidChain(R, chain) && CollisionFree(R, Preimages(chain))
    requires forall m :: 0 <= m < |chain| ==>
      CollisionFree(R, ReloadTexts(R, format, chain[m])) && NotAfter(R, now, chain[m])
    ensures Revalidates(R, now, ReloadChain(R, format, chain)) <==>
      forall m :: 0 <= m < |chain| ==> CanonicalTimes(R, format, chain[m])
  {
    hide ValidChain, CollisionFree, Preimages, CheckMoney, PersistedView, Shape, Reload, ReloadTexts,
      CanonicalTimes, CheckLink, NotAfter, Judge;
    var back := ReloadChain(R, format, chain);
    if forall m :: 0 <= m < |chain| ==> CanonicalTimes(R, format, chain[m]) {
      forall m | 0 <= m < |chain|
        ensures back[m] == chain[m]
      {
        ChainLinks(R, chain, m);
        ReloadIsIdentity(R, format, chain[m]);
      }
      assert back == chain;
      forall m | 0 <= m < |chain|
        ensures Judge(R, now, Some(chain[0].hash), chain[..m], PersistedView(chain, m), chain[m]) == None
      {
        LaterClock(R, now, chain[m]);
        AcceptedRevalidates(R, chain, m, now);
      }
    }
    if Revalidates(R, now, back) {
      forall m | 0 <= m < |chain|
        ensures CanonicalTimes(R, format, chain[m])
      {
        ChainLinks(R, chain, m);
        RefusedShape(R, now, back, m);
        ReloadValidIffCanonical(R, format, chain[m]);
      }
    }
  }

  lemma LaterClock(R: Rules, now: int, b: Block)
    requires NotAfter(R, now, b)
    ensures R.instant(b.timestamp).Some? ==> R.instant(b.timestamp).value <= now
  {
  }
}
