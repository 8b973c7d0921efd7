/** What a block may spend, mint and pay, judged against the chain it extends. */
module Ledger {
  import opened Prelude
  import opened Payload
  import opened Transactions
  import opened Blocks
  import opened Pools

  const REWARD: int := 500
  const TARGET_INTERVAL: int := 24
  const MAX_TARGET: string := "00000" + seq(59, _ => 'F')
  const GENESIS: string := "GENESIS"

  datatype LedgerError = MissingInflowOutflow | InvalidInflowOutflow | AddressMismatch | Spent | Imbalanced

  datatype BlockError =
    | InvalidBlock | FutureBlock | DuplicateGenesis | InvalidPreviousHash | OutOfOrder | InvalidIndex | InvalidTarget
    | InvalidTxn(cause: LedgerError) | InvalidCoinbase | MismatchedCoinbase | InvalidReward
    | Unstorable // raised when a valid block is written, never by validation

  // ---- the transactions of a chain -------------------------------------------------------------

  /** All transactions of a chain, genesis first. */
  function AllTxns(chain: seq<Block>): seq<Txn> {
    if chain == [] then [] else AllTxns(chain[..|chain| - 1]) + chain[|chain| - 1].txns
  }

  /** Every outpoint the transactions consume. */
  function Refs(txns: seq<Txn>): seq<Inflow> {
    if txns == [] then [] else Refs(txns[..|txns| - 1]) + txns[|txns| - 1].inflows
  }

  function Find(txns: seq<Txn>, txid: string): Option<Txn> {
    if txns == [] then None
    else if txns[0].txid == txid then Some(txns[0])
    else Find(txns[1..], txid)
  }

  /** Persisted ancestors, and the transactions of the one block above them that is not persisted. */
  datatype View = View(chain: seq<Block>, pending: seq<Txn>)

  /** The unpersisted block is searched first, later transactions and the coinbase included. */
  function Lookup(v: View, txid: string): Option<Txn> {
    var here := Find(v.pending, txid);
    if here.Some? then here else Find(AllTxns(v.chain), txid)
  }

  /** Uses are counted in the unpersisted block, but on the persisted chain only found or not. */
  function Uses(v: View, i: Inflow): nat {
    multiset(Refs(v.pending))[i] + (if i in Refs(AllTxns(v.chain)) then 1 else 0)
  }

  // ---- one transaction -------------------------------------------------------------------------

  function OwnerOf(o: Outflow, source: Txn): string {
    if Truthy(o.address) then o.address.value else source.address
  }

  function CheckInflow(v: View, t: Txn, i: Inflow, inBlock: bool): Result<Outflow, LedgerError> {
    var source := Lookup(v, i.outflowTxid);
    if source.None? || !(0 <= i.outflowIdx < |source.value.outflows|) then Err(MissingInflowOutflow)
    else
      var o := source.value.outflows[i.outflowIdx];
      if o.rescind.Some? then Err(InvalidInflowOutflow)
      else if OwnerOf(o, source.value) != t.address then Err(AddressMismatch)
      else if Uses(v, i) > 1 || (Uses(v, i) > 0 && !inBlock) then Err(Spent)
      else Ok(o)
  }

  /** The consumed outflows, or the first error among the inflows. */
  function Consume(v: View, t: Txn, ins: seq<Inflow>, inBlock: bool): (r: Result<seq<Outflow>, LedgerError>)
    ensures r.Ok? ==> |r.value| == |ins|
  {
    if ins == [] then Ok([])
    else
      var init := Consume(v, t, ins[..|ins| - 1], inBlock);
      if init.Err? then init
      else
        var last := CheckInflow(v, t, ins[|ins| - 1], inBlock);
        if last.Err? then Err(last.error) else Ok(init.value + [last.value])
  }

  function RouteAll(os: seq<Outflow>): (r: seq<Routed>)
    ensures |r| == |os|
  {
    seq(|os|, k requires 0 <= k < |os| => Routed(os[k].amount, RouteOf(os[k])))
  }

  ghost function CheckTxn(v: View, t: Txn, inBlock: bool): Result<Metrics, LedgerError> {
    var consumed := Consume(v, t, t.inflows, inBlock);
    if consumed.Err? then Err(consumed.error)
    else if Drains(RouteAll(consumed.value), t.outflows) then Ok(MetricsOf(RouteAll(consumed.value), t.outflows))
    else Err(Imbalanced)
  }

  // ---- one block -------------------------------------------------------------------------------

  /** The metrics of all regular transactions, or the first error. */
  ghost function CheckTxns(v: View, txns: seq<Txn>): Result<Metrics, LedgerError> {
    if txns == [] then Ok(NO_METRICS)
    else
      var init := CheckTxns(v, txns[..|txns| - 1]);
      if init.Err? then init
      else
        var last := CheckTxn(v, txns[|txns| - 1], true);
        if last.Err? then last else Ok(init.value.Plus(last.value))
  }

  function NonZero(n: int): seq<int> {
    if n != 0 then [n] else []
  }

  function NonZeroAmounts(m: Metrics): seq<int> {
    NonZero(m.schadenfreude) + NonZero(m.grace) + NonZero(m.mudita) + NonZero(m.regret)
  }

  function Amounts(outs: seq<Outflow>): (r: seq<int>)
    ensures |r| == |outs|
  {
    seq(|outs|, k requires 0 <= k < |outs| => outs[k].amount)
  }

  /** Amounts are fixed to the grain; destinations are the miller's own business. */
  function CheckCoinbase(b: Block, m: Metrics): Option<BlockError>
    requires b.txns != [] && Coinbase(b).outflows != []
  {
    var cb := Coinbase(b);
    if NonZeroAmounts(m) != Amounts(cb.outflows[1..]) then Some(InvalidCoinbase)
    else if cb.prevHash != Some(b.prevHash) then Some(MismatchedCoinbase)
    else if cb.outflows[0].amount != REWARD then Some(InvalidReward)
    else None
  }

  /** The tip's target, or the retargeted one at every interval boundary. */
  function TargetAfter(R: Rules, chain: seq<Block>): string {
    if chain == [] then MAX_TARGET
    else
      var prev := chain[|chain| - 1];
      if |chain| % TARGET_INTERVAL != 0 then prev.target
      else
        var start := chain[|chain| - TARGET_INTERVAL];
        if R.instant(prev.timestamp).None? || R.instant(start.timestamp).None? then prev.target
        else Retargeted(R, prev.target, R.instant(prev.timestamp).value - R.instant(start.timestamp).value)
  }

  function Retargeted(R: Rules, target: string, seconds: int): string {
    var t := R.retarget(target, seconds);
    if R.meets(MAX_TARGET, t) then MAX_TARGET else t
  }

  predicate Genesis(R: Rules, b: Block) {
    b.prevHash == R.hash(GENESIS)
  }

  /** How `b` must continue `chain`, the persisted path that ends in the block it names as previous. */
  function CheckLink(R: Rules, chain: seq<Block>, b: Block): Option<BlockError> {
    if chain == [] && !Genesis(R, b) then Some(InvalidPreviousHash)
    else if chain != [] && Before(R, b, chain[|chain| - 1]) then Some(OutOfOrder)
    else if b.idx != |chain| then Some(InvalidIndex)
    else if b.target != TargetAfter(R, chain) then Some(InvalidTarget)
    else None
  }

  predicate Before(R: Rules, a: Block, b: Block) {
    R.instant(a.timestamp).Some? && R.instant(b.timestamp).Some? &&
    R.instant(a.timestamp).value < R.instant(b.timestamp).value
  }

  ghost function CheckMoney(v: View, b: Block): Option<BlockError>
    requires b.txns != [] && Coinbase(b).outflows != []
  {
    var m := CheckTxns(v, Regular(b));
    if m.Err? then Some(InvalidTxn(m.error)) else CheckCoinbase(b, m.value)
  }

  /** The verdict on a block: `None` accepts it. `view` is where its inflows are looked up. */
  ghost function Judge(R: Rules, now: int, genesis: Option<string>, chain: seq<Block>, view: View,
                       b: Block): Option<BlockError>
  {
    if !Shape(R, b) then Some(InvalidBlock)
    else if R.instant(b.timestamp).value > now then Some(FutureBlock)
    else if Genesis(R, b) && b.idx == 0 && genesis.Some? && genesis.value != b.hash then Some(DuplicateGenesis)
    else if CheckLink(R, chain, b).Some? then CheckLink(R, chain, b)
    else CheckMoney(view, b)
  }

  // ---- accepted chains -------------------------------------------------------------------------

  /** `b` is a valid next block of `chain`, leaving the clock aside. */
  ghost predicate ValidNext(R: Rules, chain: seq<Block>, b: Block) {
    && Shape(R, b)
    && b.prevHash == (if chain == [] then R.hash(GENESIS) else chain[|chain| - 1].hash)
    && CheckLink(R, chain, b) == None
    && CheckMoney(View(chain, b.txns), b) == None
  }

  ghost predicate ValidChain(R: Rules, chain: seq<Block>) {
    chain == [] || (ValidChain(R, chain[..|chain| - 1]) && ValidNext(R, chain[..|chain| - 1], chain[|chain| - 1]))
  }

  // ---- prefixes --------------------------------------------------------------------------------

  lemma RefsSnoc(txns: seq<Txn>, t: Txn)
    ensures Refs(txns + [t]) == Refs(txns) + t.inflows
  {
    assert (txns + [t])[..|txns|] == txns;
  }

  /** Once a prefix fails, the whole list fails with the same error. */
  lemma {:induction false} ConsumeFails(v: View, t: Txn, ins: seq<Inflow>, k: nat, inBlock: bool)
    requires k <= |ins| && Consume(v, t, ins[..k], inBlock).Err?
    ensures Consume(v, t, ins, inBlock) == Consume(v, t, ins[..k], inBlock)
  {
    hide CheckInflow;
    if k == |ins| {
      assert ins[..k] == ins;
    } else {
      var init := ins[..|ins| - 1];
      assert init[..k] == ins[..k];
      ConsumeFails(v, t, init, k, inBlock);
    }
  }

  lemma {:induction false} CheckTxnsFails(v: View, txns: seq<Txn>, k: nat)
    requires k <= |txns| && CheckTxns(v, txns[..k]).Err?
    ensures CheckTxns(v, txns) == CheckTxns(v, txns[..k])
  {
    hide CheckTxn;
    if k == |txns| {
      assert txns[..k] == txns;
    } else {
      var init := txns[..|txns| - 1];
      assert init[..k] == txns[..k];
      CheckTxnsFails(v, init, k);
    }
  }
}
