/** Assembling a block from pending transactions, checked one by one against the growing block. */
module Assembly {
  import opened Prelude
  import opened Text
  import opened Payload
  import opened Transactions
  import opened Order
  import opened Blocks
  import opened Sums
  import opened Pools
  import opened PoolTheory
  import opened Ledger
  import opened LedgerTheory

  // ---- assembly --------------------------------------------------------------------------------

  /** The block under construction, and the transactions evicted from the pool. */
  datatype Draft = Draft(txns: seq<Txn>, discarded: seq<Txn>, metrics: Metrics)

  const EMPTY_DRAFT := Draft([], [], NO_METRICS)

  /** `add_txn` on an unsealed block: the transaction's own rules and its place in the order. */
  predicate MayAppend(R: Rules, txns: seq<Txn>, t: Txn) {
    ValidRegular(R, t) && (txns == [] || !TxnLess(t, txns[|txns| - 1]))
  }

  predicate Fresh(chain: seq<Block>, t: Txn) {
    Find(AllTxns(chain), t.txid) == None
  }

  predicate Alive(R: Rules, clock: int, t: Txn) {
    R.instant(t.timestamp).Some? && R.instant(t.timestamp).value >= clock - TXN_TIMEOUT
  }

  /** One pending transaction is skipped, appended or discarded. */
  ghost function Consider(R: Rules, clock: int, chain: seq<Block>, d: Draft, t: Txn): Draft {
    if |d.txns| >= MAX_TRANSACTIONS - 1 || !Alive(R, clock, t) || !Fresh(chain, t) then d
    else
      var m := CheckTxn(View(chain, d.txns), t, false);
      if m.Ok? && MayAppend(R, d.txns, t) then Draft(d.txns + [t], d.discarded, d.metrics.Plus(m.value))
      else Draft(d.txns, d.discarded + [t], d.metrics)
  }

  ghost function Assemble(R: Rules, clock: int, chain: seq<Block>, pool: seq<Txn>): Draft {
    if pool == [] then EMPTY_DRAFT
    else Consider(R, clock, chain, Assemble(R, clock, chain, pool[..|pool| - 1]), pool[|pool| - 1])
  }

  /** Once the block is full the rest of the pool is not looked at. */
  lemma {:induction false} FullStaysFull(R: Rules, clock: int, chain: seq<Block>, pool: seq<Txn>, k: nat)
    requires k <= |pool| && |Assemble(R, clock, chain, pool[..k]).txns| >= MAX_TRANSACTIONS - 1
    ensures Assemble(R, clock, chain, pool) == Assemble(R, clock, chain, pool[..k])
  {
    hide CheckTxn, MayAppend, Fresh, Alive;
    if k == |pool| {
      assert pool[..k] == pool;
    } else {
      var init := pool[..|pool| - 1];
      assert init[..k] == pool[..k];
      FullStaysFull(R, clock, chain, init, k);
    }
  }

  /** What the incremental checks establish about the chosen transactions. */
  ghost predicate Assembled(R: Rules, chain: seq<Block>, txns: seq<Txn>, metrics: Metrics) {
    if txns == [] then metrics == NO_METRICS
    else
      var init, t := txns[..|txns| - 1], txns[|txns| - 1];
      var m := CheckTxn(View(chain, init), t, false);
      && MayAppend(R, init, t) && Fresh(chain, t) && m.Ok?
      && exists before :: Assembled(R, chain, init, before) && metrics == before.Plus(m.value)
  }

  lemma {:induction false} AssembleAssembles(R: Rules, clock: int, chain: seq<Block>, pool: seq<Txn>)
    ensures var d := Assemble(R, clock, chain, pool);
      Assembled(R, chain, d.txns, d.metrics) && |d.txns| <= MAX_TRANSACTIONS - 1
  {
    hide CheckTxn, MayAppend, Fresh, Alive;
    if pool != [] {
      AssembleAssembles(R, clock, chain, pool[..|pool| - 1]);
      var d := Assemble(R, clock, chain, pool[..|pool| - 1]);
      var t := pool[|pool| - 1];
      assert (d.txns + [t])[..|d.txns|] == d.txns;
    }
  }

  /** Why an entry has no place in a block that holds `txns` on top of `chain`. */
  ghost predicate Unfit(R: Rules, chain: seq<Block>, txns: seq<Txn>, t: Txn) {
    || CheckTxn(View(chain, txns), t, false).Err? || !ValidRegular(R, t)
    || (txns != [] && TxnLess(t, txns[|txns| - 1]))
  }

  /** Every entry taken had a place after those taken before it, is not mined yet and at most four hours old. */
  lemma {:induction false} TakenForCause(R: Rules, clock: int, chain: seq<Block>, pool: seq<Txn>, k: nat)
    requires k < |Assemble(R, clock, chain, pool).txns|
    ensures var d := Assemble(R, clock, chain, pool);
      var t := d.txns[k];
      && t in pool && R.instant(t.timestamp).Some? && clock - R.instant(t.timestamp).value <= 4 * 60 * 60
      && Find(AllTxns(chain), t.txid).None? && !Unfit(R, chain, d.txns[..k], t)
  {
    hide CheckTxn, Assemble, ValidRegular, TxnLess;
    EmptyPool(R, clock, chain, pool);
    var init, last := pool[..|pool| - 1], pool[|pool| - 1];
    AssembleSnoc(R, clock, chain, pool);
    var before := Assemble(R, clock, chain, init).txns;
    assert pool == init + [last];
    if k < |before| {
      TakenForCause(R, clock, chain, init, k);
      assert (before + [last])[..k] == before[..k];
    } else {
      assert (before + [last])[..k] == before;
    }
  }

  /** Every entry evicted is one that could have been taken, and had no place after some of those taken. */
  lemma {:induction false} DiscardedForCause(R: Rules, clock: int, chain: seq<Block>, pool: seq<Txn>, t: Txn)
    requires t in Assemble(R, clock, chain, pool).discarded
    ensures var d := Assemble(R, clock, chain, pool);
      && t in pool && R.instant(t.timestamp).Some? && clock - R.instant(t.timestamp).value <= 4 * 60 * 60
      && Find(AllTxns(chain), t.txid).None?
      && exists n: nat :: n <= |d.txns| && Unfit(R, chain, d.txns[..n], t)
  {
    hide CheckTxn, Assemble, ValidRegular, TxnLess;
    EmptyPool(R, clock, chain, pool);
    var init, last := pool[..|pool| - 1], pool[|pool| - 1];
    AssembleSnoc(R, clock, chain, pool);
    var before, d := Assemble(R, clock, chain, init), Assemble(R, clock, chain, pool);
    assert pool == init + [last];
    if t in before.discarded {
      DiscardedForCause(R, clock, chain, init, t);
      var n: nat :| n <= |before.txns| && Unfit(R, chain, before.txns[..n], t);
      assert d.txns[..n] == before.txns[..n];
    } else {
      assert d.txns[..|d.txns|] == before.txns;
    }
  }

  lemma EmptyPool(R: Rules, clock: int, chain: seq<Block>, pool: seq<Txn>)
    ensures pool == [] ==> Assemble(R, clock, chain, pool) == EMPTY_DRAFT
  {
  }

  /** Distinct pool entries give distinct transactions, and none is both taken and evicted. */
  lemma {:induction false} AssembleSelects(R: Rules, clock: int, chain: seq<Block>, pool: seq<Txn>)
    requires DistinctTxids(pool)
    ensures var d := Assemble(R, clock, chain, pool);
      && DistinctTxids(d.txns) && (forall t :: t in d.txns + d.discarded ==> t in pool)
      && forall t, u :: t in d.txns && u in d.discarded ==> t.txid != u.txid
  {
    hide CheckTxn, MayAppend, Fresh, Alive;
    if pool != [] {
      var init, t := pool[..|pool| - 1], pool[|pool| - 1];
      hide Assemble, DistinctTxids;
      DistinctPrefix(pool, |init|);
      AssembleSelects(R, clock, chain, init);
      var d := Assemble(R, clock, chain, init);
      AssembleSnoc(R, clock, chain, pool);
      assert forall u :: u in init ==> u in pool;
      forall u | u in d.txns + d.discarded
        ensures u.txid != t.txid
      {
        LastTxidIsNew(pool, u);
      }
      assert forall u :: u in d.txns ==> u in d.txns + d.discarded;
      assert forall u :: u in d.discarded ==> u in d.txns + d.discarded;
      OneDistinct(t);
      AppendDistinct(d.txns, [t]);
    }
  }

  /** Every live, unmined pool entry is in the block or among the discarded, unless the block is full. */
  lemma {:induction false} NothingIsLost(R: Rules, clock: int, chain: seq<Block>, pool: seq<Txn>, t: Txn)
    requires t in pool && Find(AllTxns(chain), t.txid).None?
    requires R.instant(t.timestamp).Some? && clock - R.instant(t.timestamp).value <= 4 * 60 * 60
    ensures var d := Assemble(R, clock, chain, pool);
      t in d.txns || t in d.discarded || |d.txns| == MAX_TRANSACTIONS - 1
  {
    hide CheckTxn, MayAppend, Assemble;
    var init, last := pool[..|pool| - 1], pool[|pool| - 1];
    AssembleAssembles(R, clock, chain, init);
    AssembleSnoc(R, clock, chain, pool);
    var d := Assemble(R, clock, chain, init);
    assert pool == init + [last];
    if t != last {
      NothingIsLost(R, clock, chain, init, t);
    }
    assert forall u :: u in d.txns ==> u in d.txns + [last];
    assert forall u :: u in d.discarded ==> u in d.discarded + [last];
    assert (d.txns + [last])[|d.txns|] == last && (d.discarded + [last])[|d.discarded|] == last;
  }

  lemma AssembleSnoc(R: Rules, clock: int, chain: seq<Block>, pool: seq<Txn>)
    requires pool != []
    ensures var init, t := pool[..|pool| - 1], pool[|pool| - 1];
      Assemble(R, clock, chain, pool) == Consider(R, clock, chain, Assemble(R, clock, chain, init), t)
  {
    hide Consider;
  }

  lemma LastTxidIsNew(pool: seq<Txn>, u: Txn)
    requires pool != [] && DistinctTxids(pool) && u in pool[..|pool| - 1]
    ensures u.txid != pool[|pool| - 1].txid
  {
    var k :| 0 <= k < |pool| - 1 && pool[..|pool| - 1][k] == u;
    assert pool[k] == u;
  }

  lemma OneDistinct(t: Txn)
    ensures DistinctTxids([t])
  {
  }

  // ---- sealing ---------------------------------------------------------------------------------

  function Pays(amount: int, address: string): Outflow {
    Outflow(amount, Some(address), None, None, None, None)
  }

  function PaysIfAny(amount: int, address: string): seq<Outflow> {
    if amount != 0 then [Pays(amount, address)] else []
  }

  function CoinbaseOutflows(m: Metrics, address: string): seq<Outflow> {
    PaysIfAny(REWARD, address) + PaysIfAny(m.schadenfreude, address) + PaysIfAny(m.grace, address)
    + PaysIfAny(m.mudita, address) + PaysIfAny(m.regret, address)
  }

  /** Sealing fixes the txid, signing covers content and txid. */
  function SealTxn(R: Rules, sign: string -> string, t: Txn): Txn {
    var unsigned := t.(txid := R.hash(DataCsv(t)));
    unsigned.(signature := sign(SigningData(unsigned)))
  }

  function MakeCoinbase(R: Rules, sign: string -> string, timestamp: string, address: string, m: Metrics,
                        prevHash: string): Txn
  {
    SealTxn(R, sign, Txn(timestamp, "", address, "", [], CoinbaseOutflows(m, address), Some(prevHash)))
  }

  function TipHash(R: Rules, chain: seq<Block>): string {
    if chain == [] then R.hash(GENESIS) else chain[|chain| - 1].hash
  }

  /** Link, sort, append the coinbase, stamp, and solve with `pow`. */
  function SealBlock(R: Rules, chain: seq<Block>, txns: seq<Txn>, coinbase: Txn, timestamp: string, pow: nat): Block {
    var all := CanonicalOrder(txns) + [coinbase];
    var b := Block(|chain|, timestamp, "", TipHash(R, chain), TargetAfter(R, chain), pow, R.merkle(Leaves(all)), all);
    b.(hash := R.hash(Header(b)))
  }

  /** Digests and targets are 64 characters of the expected alphabet. */
  ghost predicate DigestShapes(R: Rules) {
    && (forall x :: IsMillHash(R.hash(x)))
    && (forall leaves :: IsMillHash(R.merkle(leaves)))
    && (forall target, seconds :: IsMillHash(Retargeted(R, target, seconds)))
  }

  ghost predicate Signs(R: Rules, sign: string -> string, address: string) {
    IsAddress(address) && forall data :: R.signed(address, data, sign(data))
  }

  predicate NonNegative(m: Metrics) {
    m.schadenfreude >= 0 && m.grace >= 0 && m.mudita >= 0 && m.regret >= 0
  }

  lemma PaysValid(amount: int, address: string)
    requires amount >= 0 && IsAddress(address)
    ensures ValidFlows([], PaysIfAny(amount, address)) && |PaysIfAny(amount, address)| <= 1
    ensures Amounts(PaysIfAny(amount, address)) == NonZero(amount)
  {
    hide IsAddress;
  }

  lemma ValidFlowsAppend(a: seq<Outflow>, b: seq<Outflow>)
    requires ValidFlows([], a) && ValidFlows([], b)
    ensures ValidFlows([], a + b) && Amounts(a + b) == Amounts(a) + Amounts(b)
  {
    hide ValidOutflow;
  }

  lemma CoinbaseOutflowsValid(m: Metrics, address: string)
    requires NonNegative(m) && IsAddress(address)
    ensures var outs := CoinbaseOutflows(m, address);
      && ValidFlows([], outs) && 1 <= |outs| <= MAX_COINBASE_OUTFLOWS
      && outs[0].amount == REWARD && Amounts(outs[1..]) == NonZeroAmounts(m)
  {
    hide IsAddress, PaysIfAny, ValidFlows, Amounts;
    var a, b, c, d := PaysIfAny(m.schadenfreude, address), PaysIfAny(m.grace, address),
      PaysIfAny(m.mudita, address), PaysIfAny(m.regret, address);
    var r := PaysIfAny(REWARD, address);
    PaysValid(REWARD, address);
    PaysValid(m.schadenfreude, address);
    PaysValid(m.grace, address);
    PaysValid(m.mudita, address);
    PaysValid(m.regret, address);
    ValidFlowsAppend(r, a);
    ValidFlowsAppend(r + a, b);
    ValidFlowsAppend(r + a + b, c);
    ValidFlowsAppend(r + a + b + c, d);
    RewardFirst(address);
    assert r + a + b + c + d == r + (a + b + c + d);
    ValidFlowsAppend(a, b);
    ValidFlowsAppend(a + b, c);
    ValidFlowsAppend(a + b + c, d);
    assert CoinbaseOutflows(m, address)[1..] == a + b + c + d;
  }

  lemma RewardFirst(address: string)
    ensures PaysIfAny(REWARD, address) == [Pays(REWARD, address)]
  {
  }

  lemma SealedContent(R: Rules, sign: string -> string, t: Txn)
    ensures var s := SealTxn(R, sign, t);
      SameContent(s, t) && s.txid == R.hash(DataCsv(s)) && s.signature == sign(SigningData(s))
  {
    hide Join;
  }

  lemma CoinbaseIsValid(R: Rules, sign: string -> string, timestamp: string, address: string, m: Metrics,
                        prevHash: string)
    requires DigestShapes(R) && Signs(R, sign, address) && NonNegative(m)
    requires ValidTimestamp(R, timestamp) && IsMillHash(prevHash)
    ensures ValidCoinbase(R, MakeCoinbase(R, sign, timestamp, address, m, prevHash))
  {
    hide IsAddress, CoinbaseOutflows, DataCsv, SigningData, ValidOutflow, SealTxn, IsMillHash;
    CoinbaseOutflowsValid(m, address);
    var t := Txn(timestamp, "", address, "", [], CoinbaseOutflows(m, address), Some(prevHash));
    SealedContent(R, sign, t);
    assert ValidFlows([], t.outflows);
  }

  lemma HalfSumNonNegative(ps: set<Pool>, f: Pool -> int)
    requires forall p :: p in ps ==> f(p) >= 0
    ensures Sum(ps, f) >= 0
  {
    SumZero(ps, p => 0);
    SumBound(ps, p => 0, f);
  }

  lemma MetricsNonNegative(ins: seq<Routed>, outs: seq<Outflow>)
    requires Positive([], outs)
    ensures NonNegative(MetricsOf(ins, outs))
  {
    hide NewStake, Rescinded, AllPools, Placed;
    forall p
      ensures Rescinded(outs, p) >= 0
    {
      ClaimedNonNegative(outs, p);
    }
    var f, g := (p: Pool) => Max0(NewStake(ins, outs, p)) / 2, (p: Pool) => Rescinded(outs, p) / 2;
    var ps := AllPools(ins, outs);
    HalfSumNonNegative(OfKind(ps, Opposition), f);
    HalfSumNonNegative(OfKind(ps, Support), f);
    HalfSumNonNegative(OfKind(ps, Opposition), g);
    HalfSumNonNegative(OfKind(ps, Support), g);
  }
}
