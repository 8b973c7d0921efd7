/** The transaction builders: what they assemble from unspent outflows passes the ledger's checks. */
module Builders {
  import opened Prelude
  import opened Payload
  import opened Transactions
  import opened Order
  import opened Blocks
  import opened Sums
  import opened Pools
  import opened PoolTheory
  import opened Ledger
  import opened LedgerTheory
  import opened Unspent
  import opened Conservation
  import opened Assembly
  import opened Template
  import opened StakeBalance
  import Text

  /** One row of a candidate query: an outpoint and the outflow it names. */
  datatype Coin = Coin(ref: Inflow, outflow: Outflow)

  datatype FundsError = InsufficientFunds | PendingFunds

  function CoinTotal(coins: seq<Coin>): int {
    if coins == [] then 0 else CoinTotal(coins[..|coins| - 1]) + coins[|coins| - 1].outflow.amount
  }

  function RefsOf(coins: seq<Coin>): (r: seq<Inflow>)
    ensures |r| == |coins|
  {
    seq(|coins|, k requires 0 <= k < |coins| => coins[k].ref)
  }

  function OutflowsOf(coins: seq<Coin>): (r: seq<Outflow>)
    ensures |r| == |coins|
  {
    seq(|coins|, k requires 0 <= k < |coins| => coins[k].outflow)
  }

  /** What both candidate queries return: unspent outflows of the chain, none of them a rescind. */
  ghost predicate UnspentCoins(all: seq<Txn>, coins: seq<Coin>) {
    forall c :: c in coins ==>
      c.ref in UnspentOf(all) && Source(all, c.ref) == Some(c.outflow) && ValidOutflow(c.outflow)
        && c.outflow.rescind == None
  }

  /** `unspent_outflows`: held by the address. */
  ghost predicate HeldCoins(all: seq<Txn>, address: string, coins: seq<Coin>) {
    UnspentCoins(all, coins) && forall c :: c in coins ==> c.outflow.address == Some(address)
  }

  function StakedOn(p: Pool, o: Outflow): bool {
    match p.kind
    case Opposition => o.opposition == Some(p.subject)
    case Support => o.support == Some(p.subject)
  }

  /** `unrescinded_outflows` restricted to an address: staked on the subject by its transactions. */
  ghost predicate StakedCoins(all: seq<Txn>, address: string, p: Pool, coins: seq<Coin>) {
    UnspentCoins(all, coins) && forall c :: c in coins ==>
      StakedOn(p, c.outflow) && Find(all, c.ref.outflowTxid).Some?
        && Find(all, c.ref.outflowTxid).value.address == address
  }

  predicate DistinctRefs(coins: seq<Coin>) {
    forall j, k :: 0 <= j < k < |coins| ==> coins[j].ref != coins[k].ref
  }

  // ---- the candidate queries -------------------------------------------------------------------

  /** `unspent_outflows`: unspent, addressed to the address, not consumed by a pending transaction. */
  function HeldQuery(all: seq<Txn>, address: string, pending: set<Inflow>): set<Inflow> {
    set i | i in UnspentOf(all) && i !in pending && Source(all, i).Some?
      && Source(all, i).value.address == Some(address)
  }

  /** `unrescinded_outflows` for an address: unspent stake on the subject, placed by its transactions. */
  function StakedQuery(all: seq<Txn>, address: string, p: Pool, pending: set<Inflow>): set<Inflow> {
    set i | i in UnspentOf(all) && i !in pending && Source(all, i).Some? && StakedOn(p, Source(all, i).value)
      && Find(all, i.outflowTxid).value.address == address
  }

  /** The rows of a query, in any order, once each. */
  ghost predicate Rows(all: seq<Txn>, query: set<Inflow>, coins: seq<Coin>) {
    && DistinctRefs(coins)
    && (forall c :: c in coins ==> c.ref in query && Source(all, c.ref) == Some(c.outflow))
    && (forall i :: i in query ==> exists c :: c in coins && c.ref == i)
  }

  lemma QueriedOutflow(R: Rules, chain: seq<Block>, i: Inflow)
    requires ValidChain(R, chain) && Source(AllTxns(chain), i).Some?
    ensures var o := Source(AllTxns(chain), i).value;
      ValidOutflow(o) && (o.rescind.Some? ==> o.address.None? && o.opposition.None? && o.support.None?)
  {
    hide ValidChain, AllTxns, Find, IsAddress;
    OutflowOfChain(R, chain, i);
  }

  /** On an accepted chain the rows of the two queries are coins the builders may spend. */
  lemma QueriedCoins(R: Rules, chain: seq<Block>, address: string, p: Pool, pending: set<Inflow>, coins: seq<Coin>)
    requires ValidChain(R, chain)
    ensures Rows(AllTxns(chain), HeldQuery(AllTxns(chain), address, pending), coins) ==>
      DistinctRefs(coins) && HeldCoins(AllTxns(chain), address, coins)
    ensures Rows(AllTxns(chain), StakedQuery(AllTxns(chain), address, p, pending), coins) ==>
      DistinctRefs(coins) && StakedCoins(AllTxns(chain), address, p, coins)
  {
    hide ValidChain, AllTxns, UnspentOf, ValidOutflow, DistinctRefs, Find;
    var all := AllTxns(chain);
    forall c: Coin | Source(all, c.ref).Some?
      ensures ValidOutflow(Source(all, c.ref).value) && Find(all, c.ref.outflowTxid).Some?
      ensures Source(all, c.ref).value.address == Some(address) ==> Source(all, c.ref).value.rescind == None
      ensures StakedOn(p, Source(all, c.ref).value) ==> Source(all, c.ref).value.rescind == None
    {
      QueriedOutflow(R, chain, c.ref);
    }
  }

  /** `balance`: the confirmed unspent value of an address, whatever is pending. */
  ghost function Balance(all: seq<Txn>, address: string): int {
    UnspentValue(all, HeldBy(address))
  }

  function HeldBy(address: string): Outflow -> int {
    (o: Outflow) => if o.address == Some(address) then o.amount else 0
  }

  lemma {:induction false} RowsTotal(coins: seq<Coin>, f: Inflow -> int)
    requires DistinctRefs(coins) && forall c :: c in coins ==> f(c.ref) == c.outflow.amount
    ensures CoinTotal(coins) == Sum(set c | c in coins :: c.ref, f)
  {
    var refs := set c | c in coins :: c.ref;
    if coins == [] {
      SumZero(refs, f);
    } else {
      var n := |coins| - 1;
      var init, c := coins[..n], coins[n];
      RowsTotal(init, f);
      assert coins == init + [c];
      assert refs == (set d | d in init :: d.ref) + {c.ref};
      SumInsert(set d | d in init :: d.ref, f, c.ref);
    }
  }

  /** What the candidate query of an address offers is its balance less what pending transactions tie
      up: a shortfall that the balance would cover is owed to them. */
  lemma QueriedBalance(R: Rules, chain: seq<Block>, address: string, pending: set<Inflow>, coins: seq<Coin>)
    requires ValidChain(R, chain) && Rows(AllTxns(chain), HeldQuery(AllTxns(chain), address, pending), coins)
    ensures CoinTotal(coins) <= Balance(AllTxns(chain), address)
    ensures pending !! HeldQuery(AllTxns(chain), address, {}) <==> CoinTotal(coins) == Balance(AllTxns(chain), address)
  {
    hide ValidChain, AllTxns, UnspentOf, Find, CoinTotal, Source, ValidDestinations, IsAddress;
    var all := AllTxns(chain);
    var whole, free := HeldQuery(all, address, {}), HeldQuery(all, address, pending);
    var f := i => Unspent.Worth(all, HeldBy(address), i);
    RowsTotal(coins, f);
    assert (set c | c in coins :: c.ref) == free;
    SumSupport(UnspentOf(all), whole, f);
    SumDifference(whole, free, f);
    var tied := whole - free;
    forall i | i in tied
      ensures f(i) >= 1
    {
      QueriedOutflow(R, chain, i);
    }
    SumBound(tied, i => 0, f);
    SumZero(tied, i => 0);
    if tied == {} {
      assert pending !! whole;
    } else {
      var i :| i in tied;
      assert i in pending;
      SumRemove(tied, f, i);
      SumBound(tied - {i}, i => 0, f);
      SumZero(tied - {i}, i => 0);
    }
  }

  /** Stake on `p` that a transaction of the address placed and nothing has consumed, weighed. */
  ghost function PlacedBy(all: seq<Txn>, address: string, p: Pool, i: Inflow): int {
    if Find(all, i.outflowTxid).Some? && Find(all, i.outflowTxid).value.address == address
    then Unspent.Worth(all, AtPool(p), i) else 0
  }

  /** On a valid outflow the query's column test is the destination of the balance check. */
  lemma StakedIsPlaced(p: Pool, o: Outflow)
    requires ValidOutflow(o)
    ensures AtPool(p)(o) == if StakedOn(p, o) then o.amount else 0
  {
    hide IsAddress;
  }

  /** What the stake query of an address offers on one subject is all unspent stake it placed there, less
      what pending transactions tie up. */
  lemma QueriedStake(R: Rules, chain: seq<Block>, address: string, p: Pool, pending: set<Inflow>, coins: seq<Coin>)
    requires ValidChain(R, chain) && Rows(AllTxns(chain), StakedQuery(AllTxns(chain), address, p, pending), coins)
    ensures var all := AllTxns(chain);
      var whole := Sum(UnspentOf(all), i => PlacedBy(all, address, p, i));
      var tied := exists i :: i in UnspentOf(all) && i in pending && PlacedBy(all, address, p, i) != 0;
      CoinTotal(coins) <= whole && (CoinTotal(coins) == whole <==> !tied)
  {
    hide ValidChain, AllTxns, UnspentOf, Find, CoinTotal, Source, ValidOutflow, StakedOn, AtPool;
    var all := AllTxns(chain);
    var f := i => PlacedBy(all, address, p, i);
    var free := StakedQuery(all, address, p, pending);
    forall i | i in UnspentOf(all)
      ensures f(i) >= 0 && (i !in pending ==> (i in free <==> f(i) > 0))
      ensures i in free ==> f(i) == Source(all, i).value.amount
    {
      StakeWorth(R, chain, address, p, i);
    }
    RowsTotal(coins, f);
    assert (set c | c in coins :: c.ref) == free;
    assert free <= UnspentOf(all);
    SumDifference(UnspentOf(all), free, f);
    NonNegativeSum(UnspentOf(all) - free, f);
    assert forall i :: i in UnspentOf(all) - free ==> i in UnspentOf(all);
    if forall i :: i in UnspentOf(all) && i in pending ==> f(i) == 0 {
      SumZero(UnspentOf(all) - free, f);
    }
  }

  lemma StakeWorth(R: Rules, chain: seq<Block>, address: string, p: Pool, i: Inflow)
    requires ValidChain(R, chain) && i in UnspentOf(AllTxns(chain))
    ensures var all := AllTxns(chain);
      var offered := Source(all, i).Some? && StakedOn(p, Source(all, i).value)
        && Find(all, i.outflowTxid).value.address == address;
      && PlacedBy(all, address, p, i) == (if offered then Source(all, i).value.amount else 0)
      && (offered ==> Source(all, i).value.amount >= 1)
  {
    hide ValidChain, AllTxns, UnspentOf, Find, StakedOn, AtPool, IsAddress, ValidDestinations;
    var all := AllTxns(chain);
    if Source(all, i).Some? {
      QueriedOutflow(R, chain, i);
      StakedIsPlaced(p, Source(all, i).value);
    }
  }

  /** A sum of amounts that are never negative is zero only if all of them are. */
  lemma {:induction false} NonNegativeSum(s: set<Inflow>, f: Inflow -> int)
    requires forall i :: i in s ==> f(i) >= 0
    ensures Sum(s, f) >= 0 && (Sum(s, f) == 0 ==> forall i :: i in s ==> f(i) == 0)
    decreases |s|
  {
    if s != {} {
      var i :| i in s;
      SumRemove(s, f, i);
      NonNegativeSum(s - {i}, f);
    }
  }

  lemma WorthOfNone()
    ensures CoinTotal([]) == 0
  {
  }

  lemma WorthSnoc(coins: seq<Coin>, c: Coin)
    ensures CoinTotal(coins + [c]) == CoinTotal(coins) + c.outflow.amount && (coins + [c])[..|coins|] == coins
  {
  }

  /** Draw candidates until the limit is reached: the shortest sufficient prefix, or everything. */
  method Gather(candidates: seq<Coin>, limit: int) returns (picked: seq<Coin>, balance: int)
    requires limit >= 1
    ensures picked <= candidates && balance == CoinTotal(picked)
    ensures balance < limit ==> picked == candidates
    ensures balance >= limit ==> picked != [] && CoinTotal(picked[..|picked| - 1]) < limit
  {
    hide CoinTotal;
    picked := [];
    balance := 0;
    assert CoinTotal([]) == 0 by { WorthOfNone(); }
    for k := 0 to |candidates|
      invariant picked == candidates[..k] && balance == CoinTotal(picked) && balance < limit
    {
      Snoc(candidates, k);
      WorthSnoc(picked, candidates[k]);
      picked := picked + [candidates[k]];
      balance := balance + candidates[k].outflow.amount;
      if balance >= limit {
        return;
      }
    }
    assert candidates[..|candidates|] == candidates;
  }

  // ---- the ledger's view of a built transaction ------------------------------------------------

  /** The coin may be spent by `address` under the pool check. */
  ghost predicate MaySpend(all: seq<Txn>, address: string, c: Coin) {
    && Find(all, c.ref.outflowTxid).Some? && Source(all, c.ref) == Some(c.outflow) && c.outflow.rescind == None
    && OwnerOf(c.outflow, Find(all, c.ref.outflowTxid).value) == address && c.ref !in Refs(all)
  }

  lemma SpendableChecked(chain: seq<Block>, t: Txn, c: Coin)
    requires MaySpend(AllTxns(chain), t.address, c)
    ensures CheckInflow(View(chain, []), t, c.ref, false) == Ok(c.outflow)
  {
    hide AllTxns, Find, Refs, OwnerOf;
    var v := View(chain, []);
    FindNothing(c.ref.outflowTxid);
    NoRefs();
    assert Lookup(v, c.ref.outflowTxid) == Find(AllTxns(chain), c.ref.outflowTxid);
    assert Uses(v, c.ref) == 0;
  }

  lemma {:induction false} SpendableConsumed(chain: seq<Block>, t: Txn, coins: seq<Coin>)
    requires forall c :: c in coins ==> MaySpend(AllTxns(chain), t.address, c)
    ensures Consume(View(chain, []), t, RefsOf(coins), false) == Ok(OutflowsOf(coins))
  {
    hide AllTxns, MaySpend, CheckInflow;
    if coins != [] {
      var n := |coins| - 1;
      var init, c := coins[..n], coins[n];
      SpendableConsumed(chain, t, init);
      assert c in coins;
      SpendableChecked(chain, t, c);
      assert RefsOf(coins)[..n] == RefsOf(init);
      assert OutflowsOf(coins) == OutflowsOf(init) + [c.outflow];
    } else {
      assert RefsOf(coins) == [] && OutflowsOf(coins) == [];
    }
  }

  lemma AddressIsNotEmpty(s: string)
    requires IsAddress(s)
    ensures s != ""
  {
    AddressText(s);
  }

  lemma HeldSpendable(all: seq<Txn>, address: string, c: Coin)
    requires HeldCoins(all, address, [c])
    ensures MaySpend(all, address, c) && RouteOf(c.outflow) == General && c.outflow.amount >= 1
  {
    hide IsAddress, Find, Refs, Created;
    assert c in [c];
    AddressIsNotEmpty(address);
  }

  lemma StakedSpendable(all: seq<Txn>, address: string, p: Pool, c: Coin)
    requires StakedCoins(all, address, p, [c])
    ensures MaySpend(all, address, c) && RouteOf(c.outflow) == Pools.Staked(p) && c.outflow.amount >= 1
  {
    hide IsAddress, Find, Refs, Created;
    assert c in [c];
  }

  /** All consumed value goes one way. */
  lemma {:induction false} UniformTotals(ins: seq<Routed>, r: Route)
    requires forall k :: 0 <= k < |ins| ==> ins[k].route == r
    ensures GeneralIn(ins) == if r == General then TotalIn(ins) else 0
    ensures forall p :: In(ins, p) == if r == Pools.Staked(p) then TotalIn(ins) else 0
  {
    if ins != [] {
      UniformTotals(ins[..|ins| - 1], r);
    }
  }

  lemma {:induction false} RoutedWorth(coins: seq<Coin>)
    ensures TotalIn(RouteAll(OutflowsOf(coins))) == CoinTotal(coins)
  {
    hide RouteOf;
    if coins != [] {
      var n := |coins| - 1;
      RoutedWorth(coins[..n]);
      assert RouteAll(OutflowsOf(coins))[..n] == RouteAll(OutflowsOf(coins[..n]));
    }
  }

  /** The verdict on a built transaction comes down to its routed inflows and its outflows. */
  lemma BuiltVerdict(chain: seq<Block>, t: Txn, coins: seq<Coin>, r: Route)
    requires t.inflows == RefsOf(coins)
    requires forall c :: c in coins ==>
      MaySpend(AllTxns(chain), t.address, c) && RouteOf(c.outflow) == r && c.outflow.amount >= 1
    ensures var ins := RouteAll(OutflowsOf(coins));
      && (Drains(ins, t.outflows) ==> CheckTxn(View(chain, []), t, false) == Ok(MetricsOf(ins, t.outflows)))
      && TotalIn(ins) == CoinTotal(coins) && Positive(ins, [])
      && GeneralIn(ins) == (if r == General then CoinTotal(coins) else 0)
      && forall p :: In(ins, p) == if r == Pools.Staked(p) then CoinTotal(coins) else 0
  {
    hide AllTxns, MaySpend, Drains, MetricsOf, RouteOf, CoinTotal;
    SpendableConsumed(chain, t, coins);
    RoutedWorth(coins);
    var ins := RouteAll(OutflowsOf(coins));
    forall k | 0 <= k < |ins|
      ensures ins[k].route == r && ins[k].amount >= 1
    {
      assert coins[k] in coins;
    }
    UniformTotals(ins, r);
  }

  lemma NoPools(ins: seq<Routed>, outs: seq<Outflow>)
    requires forall p :: NewStake(ins, outs, p) == 0 && Rescinded(outs, p) == 0
    ensures MetricsOf(ins, outs) == NO_METRICS
  {
    hide NewStake, Rescinded, AllPools;
    var f, g := (p: Pool) => Max0(NewStake(ins, outs, p)) / 2, (p: Pool) => Rescinded(outs, p) / 2;
    var ps := AllPools(ins, outs);
    SumZero(OfKind(ps, Opposition), f);
    SumZero(OfKind(ps, Support), f);
    SumZero(OfKind(ps, Opposition), g);
    SumZero(OfKind(ps, Support), g);
  }

  lemma OnePool(ps: set<Pool>, kind: StakeKind, f: Pool -> int, p: Pool)
    requires p in ps && forall q :: q in ps && q != p ==> f(q) == 0
    ensures Sum(OfKind(ps, kind), f) == if kind == p.kind then f(p) else 0
  {
    var s := OfKind(ps, kind);
    if kind == p.kind {
      SumRemove(s, f, p);
      SumZero(s - {p}, f);
    } else {
      SumZero(s, f);
    }
  }

  // ---- outflow lists ---------------------------------------------------------------------------

  function PlaceOn(amount: int, p: Pool): Outflow {
    match p.kind
    case Opposition => Outflow(amount, None, Some(p.subject), None, None, None)
    case Support => Outflow(amount, None, None, None, Some(p.subject), None)
  }

  function RescindFrom(amount: int, p: Pool): Outflow {
    Outflow(amount, None, None, Some(p.subject), None, Some(p.kind))
  }

  lemma Destinations(amount: int, p: Pool, address: string)
    requires p.subject != ""
    ensures DestOf(PlaceOn(amount, p)) == Place(p) && PlaceOn(amount, p).amount == amount
    ensures DestOf(RescindFrom(amount, p)) == Rescind(p) && RescindFrom(amount, p).amount == amount
    ensures DestOf(Pays(amount, address)) == Pay && Pays(amount, address).amount == amount
  {
  }

  /** Change, if there is any. */
  function Change(change: int, o: Outflow): seq<Outflow> {
    if change != 0 then [o] else []
  }

  /** Totals of one outflow followed by optional change. */
  lemma OneAndChange(o: Outflow, change: int, c: Outflow)
    requires c.amount == change
    ensures var outs := [o] + Change(change, c);
      && TotalOut(outs) == o.amount + change
      && (forall d ::
        Sent(outs, d) == (if DestOf(o) == d then o.amount else 0) + (if DestOf(c) == d then change else 0))
  {
    hide DestOf;
    FlowsSnoc([], [], o);
    assert [] + [o] == [o];
    assert [o][..0] == [];
    assert TotalOut([o]) == o.amount;
    if change != 0 {
      FlowsSnoc([], [o], c);
      assert ([o] + [c])[..1] == [o];
    } else {
      assert [o] + [] == [o];
    }
  }

  // ---- transfer --------------------------------------------------------------------------------

  /** An unsigned transaction, sealed. */
  function Unsigned(R: Rules, timestamp: string, address: string, ins: seq<Inflow>, outs: seq<Outflow>): Txn {
    var t := Txn(timestamp, "", address, "", ins, outs, None);
    t.(txid := R.hash(DataCsv(t)))
  }

  lemma UnsignedParts(R: Rules, timestamp: string, address: string, ins: seq<Inflow>, outs: seq<Outflow>)
    ensures var t := Unsigned(R, timestamp, address, ins, outs);
      && t.timestamp == timestamp && t.address == address && t.prevHash == None
      && t.inflows == ins && t.outflows == outs && t.txid == R.hash(DataCsv(t))
  {
  }

  function Shortfall(confirmed: int, amount: int): FundsError {
    if confirmed >= amount then PendingFunds else InsufficientFunds
  }

  predicate AllPay(outs: seq<Outflow>) {
    forall k :: 0 <= k < |outs| ==> DestOf(outs[k]) == Pay && outs[k].amount >= 1
  }

  lemma {:induction false} AllPayTotals(outs: seq<Outflow>)
    requires AllPay(outs)
    ensures WellFormed(outs) && Positive([], outs) && forall p :: Placed(outs, p) == 0 && Rescinded(outs, p) == 0
  {
    hide DestOf;
    if outs != [] {
      var n := |outs| - 1;
      AllPayTotals(outs[..n]);
      assert outs == outs[..n] + [outs[n]];
      FlowsSnoc([], outs[..n], outs[n]);
    }
  }

  /** Held coins paid on to addresses: accepted, and nothing is minted. */
  lemma TransferAccepted(chain: seq<Block>, t: Txn, coins: seq<Coin>, address: string)
    requires HeldCoins(AllTxns(chain), address, coins) && t.address == address && t.inflows == RefsOf(coins)
    requires AllPay(t.outflows) && TotalOut(t.outflows) == CoinTotal(coins)
    ensures AcceptedWith(chain, t, NO_METRICS)
  {
    hide AllTxns, Refs, Find, Created, DestOf, Source, CoinTotal, RouteOf, CheckTxn, Drains, In, Placed,
      Rescinded, IsAddress, ValidOutflow, AllPay, MaySpend, Sent, TotalOut, TotalIn, GeneralIn;
    forall c | c in coins
      ensures MaySpend(AllTxns(chain), address, c) && RouteOf(c.outflow) == General && c.outflow.amount >= 1
    {
      HeldSpendable(AllTxns(chain), address, c);
    }
    BuiltVerdict(chain, t, coins, General);
    var ins := RouteAll(OutflowsOf(coins));
    AllPayTotals(t.outflows);
    DrainsIffBalanced(ins, t.outflows);
    forall p
      ensures Covered(In(ins, p), t.outflows, p)
    {
      NeverRescinds(t.outflows, In(ins, p), p);
    }
    NoPools(ins, t.outflows);
  }

  lemma PrefixRefs(coins: seq<Coin>, n: nat)
    requires DistinctRefs(coins) && n <= |coins|
    ensures NoRepeats(RefsOf(coins[..n]))
  {
  }

  /** A sealed, unsigned regular transaction. */
  predicate Sealed(R: Rules, timestamp: string, address: string, t: Txn) {
    t.timestamp == timestamp && t.address == address && t.prevHash == None && t.txid == R.hash(DataCsv(t))
  }

  /** The same, naming no inflow twice. */
  predicate Built(R: Rules, timestamp: string, address: string, t: Txn) {
    Sealed(R, timestamp, address, t) && NoRepeats(t.inflows)
  }

  lemma NeverRescinds(outs: seq<Outflow>, start: int, p: Pool)
    requires AllPay(outs)
    ensures Covered(start, outs, p)
  {
    hide DestOf;
  }

  /** The pool check on this chain accepts the transaction with these metrics. */
  ghost predicate AcceptedWith(chain: seq<Block>, t: Txn, m: Metrics) {
    CheckTxn(View(chain, []), t, false) == Ok(m)
  }

  /** The inflows are the shortest prefix of the candidates that reaches the limit. */
  predicate ShortestPrefix(candidates: seq<Coin>, limit: int, inflows: seq<Inflow>) {
    var n := |inflows|;
    && 0 < n <= |candidates| && inflows == RefsOf(candidates[..n])
    && CoinTotal(candidates[..n]) >= limit && CoinTotal(candidates[..n - 1]) < limit
  }

  lemma {:induction false} TotalGrows(coins: seq<Coin>, k: nat, n: nat)
    requires k <= n <= |coins| && forall c :: c in coins ==> c.outflow.amount >= 1
    ensures CoinTotal(coins[..k]) <= CoinTotal(coins[..n])
  {
    if k < n {
      TotalGrows(coins, k, n - 1);
      assert coins[..n][..n - 1] == coins[..n - 1];
    }
  }

  /** There is only one shortest prefix. */
  lemma OnePrefix(candidates: seq<Coin>, limit: int, ins: seq<Inflow>, other: seq<Inflow>)
    requires ShortestPrefix(candidates, limit, ins) && ShortestPrefix(candidates, limit, other)
    requires forall c :: c in candidates ==> c.outflow.amount >= 1
    ensures ins == other
  {
    hide CoinTotal, RefsOf;
    if |ins| < |other| {
      TotalGrows(candidates, |ins|, |other| - 1);
    } else if |other| < |ins| {
      TotalGrows(candidates, |other|, |ins| - 1);
    }
  }

  method CreateTransfer(R: Rules, ghost chain: seq<Block>, timestamp: string, address: string, candidates: seq<Coin>,
                        confirmed: int, amount: int, dest: string) returns (r: Result<Txn, FundsError>)
    requires amount >= 1 && HeldCoins(AllTxns(chain), address, candidates) && DistinctRefs(candidates)
    requires confirmed == Balance(AllTxns(chain), address)
    ensures r.Err? <==> CoinTotal(candidates) < amount
    ensures r.Err? ==> (r.error.PendingFunds? <==> Balance(AllTxns(chain), address) >= amount)
    ensures r.Ok? ==> AcceptedWith(chain, r.value, NO_METRICS) && ShortestPrefix(candidates, amount, r.value.inflows)
    ensures r.Ok? ==> r.value.outflows != [] && r.value.outflows[0] == Pays(amount, dest)
    ensures r.Ok? ==> forall k :: 0 < k < |r.value.outflows| ==> r.value.outflows[k].address == Some(address)
    ensures r.Ok? ==> Built(R, timestamp, address, r.value)
    ensures r.Ok? && IsAddress(dest) ==> ValidFlows([], r.value.outflows)
  {
    hide AllTxns, HeldCoins, CheckTxn, DataCsv, CoinTotal, RefsOf, Unsigned, DistinctRefs, NoRepeats,
      IsAddress;
    var picked, balance := Gather(candidates, amount);
    PickedAre(candidates, picked, |picked|);
    if balance < amount {
      return Err(Shortfall(confirmed, amount));
    }
    var outs := [Pays(amount, dest)] + Change(balance - amount, Pays(balance - amount, address));
    var t := Unsigned(R, timestamp, address, RefsOf(picked), outs);
    UnsignedParts(R, timestamp, address, RefsOf(picked), outs);
    OneAndChange(Pays(amount, dest), balance - amount, Pays(balance - amount, address));
    HeldPrefix(AllTxns(chain), address, candidates, |picked|);
    HeldEnough(AllTxns(chain), address, candidates, |picked|);
    TransferAccepted(chain, t, picked, address);
    PrefixRefs(candidates, |picked|);
    HeldAddress(AllTxns(chain), address, picked);
    return Ok(t);
  }

  lemma PickedAre(candidates: seq<Coin>, picked: seq<Coin>, n: nat)
    requires picked <= candidates && n == |picked|
    ensures picked == candidates[..n] && (n > 0 ==> picked[..n - 1] == candidates[..n - 1])
  {
  }

  /** An address that holds a coin is well formed. */
  lemma HeldAddress(all: seq<Txn>, address: string, coins: seq<Coin>)
    requires HeldCoins(all, address, coins) && coins != []
    ensures IsAddress(address)
  {
    hide IsAddress, UnspentOf, Source;
    assert coins[0] in coins;
  }

  lemma HeldPrefix(all: seq<Txn>, address: string, coins: seq<Coin>, n: nat)
    requires HeldCoins(all, address, coins) && n <= |coins|
    ensures HeldCoins(all, address, coins[..n])
  {
    hide ValidOutflow, Source, UnspentOf;
  }

  /** A prefix that suffices means the whole suffices. */
  lemma {:induction false} HeldEnough(all: seq<Txn>, address: string, coins: seq<Coin>, n: nat)
    requires HeldCoins(all, address, coins) && n <= |coins|
    ensures CoinTotal(coins[..n]) <= CoinTotal(coins)
  {
    hide Source, UnspentOf, IsAddress, ValidDestinations;
    if n == |coins| {
      assert coins[..n] == coins;
    } else {
      var m := |coins| - 1;
      HeldPrefix(all, address, coins, m);
      HeldEnough(all, address, coins[..m], n);
      assert coins[..m][..n] == coins[..n];
      assert coins[m] in coins;
    }
  }

  // ---- split -----------------------------------------------------------------------------------

  function Chips(denomination: int, count: nat, address: string): (r: seq<Outflow>)
    ensures |r| == count
  {
    seq(count, _ => Pays(denomination, address))
  }

  lemma {:induction false} ChipsTotal(denomination: int, count: nat, address: string, change: int)
    ensures TotalOut(Chips(denomination, count, address) + Change(change, Pays(change, address)))
      == count * denomination + change
    decreases count, change != 0
  {
    var chips, rest := Chips(denomination, count, address), Change(change, Pays(change, address));
    if change != 0 {
      ChipsTotal(denomination, count, address, 0);
      assert chips + Change(0, Pays(0, address)) == chips;
      assert (chips + rest)[..count] == chips;
    } else {
      assert chips + rest == chips;
      if count > 0 {
        ChipsTotal(denomination, count - 1, address, 0);
        var fewer := Chips(denomination, count - 1, address);
        assert fewer + Change(0, Pays(0, address)) == fewer;
        assert chips[..count - 1] == fewer;
        CountTimes(denomination, count);
      }
    }
  }

  lemma CountTimes(denomination: int, count: nat)
    requires count > 0
    ensures (count - 1) * denomination + denomination == count * denomination
  {
  }

  lemma ChipsPay(denomination: int, count: nat, address: string, change: int)
    requires denomination >= 1 && change >= 0
    ensures AllPay(Chips(denomination, count, address) + Change(change, Pays(change, address)))
  {
    var outs := Chips(denomination, count, address) + Change(change, Pays(change, address));
    forall k | 0 <= k < |outs|
      ensures DestOf(outs[k]) == Pay && outs[k].amount >= 1
    {
      assert outs[k] == Pays(denomination, address) || (change != 0 && outs[k] == Pays(change, address));
    }
  }

  lemma TotalPositive(denomination: int, count: nat)
    requires denomination >= 1 && count >= 1
    ensures denomination * count >= 1
  {
  }

  method CreateSplit(R: Rules, ghost chain: seq<Block>, timestamp: string, address: string, candidates: seq<Coin>,
                     confirmed: int, denomination: int, count: nat) returns (r: Result<Txn, FundsError>)
    requires denomination >= 1 && count >= 1 && HeldCoins(AllTxns(chain), address, candidates)
      && DistinctRefs(candidates)
    requires confirmed == Balance(AllTxns(chain), address)
    ensures r.Err? <==> CoinTotal(candidates) < denomination * count
    ensures r.Err? ==> (r.error.PendingFunds? <==> Balance(AllTxns(chain), address) >= denomination * count)
    ensures r.Ok? ==>
      AcceptedWith(chain, r.value, NO_METRICS) && ShortestPrefix(candidates, denomination * count, r.value.inflows)
    ensures r.Ok? ==> |r.value.outflows| <= count + 1 && Chips(denomination, count, address) <= r.value.outflows
    ensures r.Ok? ==> forall k :: 0 <= k < |r.value.outflows| ==> r.value.outflows[k].address == Some(address)
    ensures r.Ok? ==> Built(R, timestamp, address, r.value)
    ensures r.Ok? ==> ValidFlows([], r.value.outflows)
  {
    hide AllTxns, HeldCoins, CheckTxn, DataCsv, CoinTotal, RefsOf, Unsigned, AcceptedWith, DistinctRefs,
      NoRepeats, IsAddress, UnspentValue, TotalOut, DestOf;
    var total := denomination * count;
    TotalPositive(denomination, count);
    var picked, balance := Gather(candidates, total);
    PickedAre(candidates, picked, |picked|);
    if balance < total {
      return Err(Shortfall(confirmed, total));
    }
    var outs := Chips(denomination, count, address) + Change(balance - total, Pays(balance - total, address));
    var t := Unsigned(R, timestamp, address, RefsOf(picked), outs);
    UnsignedParts(R, timestamp, address, RefsOf(picked), outs);
    ChipsTotal(denomination, count, address, balance - total);
    ChipsPay(denomination, count, address, balance - total);
    HeldPrefix(AllTxns(chain), address, candidates, |picked|);
    HeldEnough(AllTxns(chain), address, candidates, |picked|);
    TransferAccepted(chain, t, picked, address);
    PrefixRefs(candidates, |picked|);
    HeldAddress(AllTxns(chain), address, picked);
    return Ok(t);
  }

  // ---- stake -----------------------------------------------------------------------------------

  /** Half of the new stake, in the metric of its kind. */
  function StakeMetrics(amount: int, kind: StakeKind): Metrics {
    match kind
    case Opposition => Metrics(amount / 2, 0, 0, 0)
    case Support => Metrics(0, 0, amount / 2, 0)
  }

  function RescindMetrics(amount: int, kind: StakeKind): Metrics {
    match kind
    case Opposition => Metrics(0, amount / 2, 0, 0)
    case Support => Metrics(0, 0, 0, amount / 2)
  }

  /** Metrics when one subject sees new stake `n` and rescinds `m`. */
  lemma OneSubject(ins: seq<Routed>, outs: seq<Outflow>, p: Pool, n: int, m: int)
    requires p in AllPools(ins, outs) && n >= 0
    requires forall q ::
      NewStake(ins, outs, q) == (if q == p then n else 0) && Rescinded(outs, q) == (if q == p then m else 0)
    ensures MetricsOf(ins, outs) == StakeMetrics(n, p.kind).Plus(RescindMetrics(m, p.kind))
  {
    hide NewStake, Rescinded, AllPools;
    var f, g := (q: Pool) => Max0(NewStake(ins, outs, q)) / 2, (q: Pool) => Rescinded(outs, q) / 2;
    var ps := AllPools(ins, outs);
    OnePool(ps, Opposition, f, p);
    OnePool(ps, Support, f, p);
    OnePool(ps, Opposition, g, p);
    OnePool(ps, Support, g, p);
  }

  lemma StakeAccepted(chain: seq<Block>, t: Txn, coins: seq<Coin>, address: string, p: Pool, amount: int)
    requires HeldCoins(AllTxns(chain), address, coins) && t.address == address && t.inflows == RefsOf(coins)
    requires amount >= 1 && CoinTotal(coins) >= amount && p.subject != ""
    requires t.outflows == [PlaceOn(amount, p)]
      + Change(CoinTotal(coins) - amount, Pays(CoinTotal(coins) - amount, address))
    ensures AcceptedWith(chain, t, StakeMetrics(amount, p.kind))
  {
    hide AllTxns, Refs, Find, Created, DestOf, Source, CoinTotal, RouteOf, CheckTxn, Drains, In, Sent,
      TotalOut, TotalIn, GeneralIn, IsAddress, ValidOutflow, MaySpend, PlaceOn, Pays, MetricsOf, AllPools;
    forall c | c in coins
      ensures MaySpend(AllTxns(chain), address, c) && RouteOf(c.outflow) == General && c.outflow.amount >= 1
    {
      HeldSpendable(AllTxns(chain), address, c);
    }
    BuiltVerdict(chain, t, coins, General);
    var ins, change := RouteAll(OutflowsOf(coins)), CoinTotal(coins) - amount;
    Destinations(amount, p, address);
    Destinations(change, p, address);
    OneAndChange(PlaceOn(amount, p), change, Pays(change, address));
    StakeShape(t.outflows, PlaceOn(amount, p), change, Pays(change, address), p);
    DrainsIffBalanced(ins, t.outflows);
    InPlaced(ins, t.outflows, p);
    OneSubject(ins, t.outflows, p, amount, 0);
  }

  lemma StakeShape(outs: seq<Outflow>, place: Outflow, change: int, pay: Outflow, p: Pool)
    requires outs == [place] + Change(change, pay) && DestOf(place) == Place(p) && DestOf(pay) == Pay
    requires place.amount >= 1 && change >= 0 && pay.amount == change
    ensures WellFormed(outs) && Positive([], outs) && place in outs && forall start, q :: Covered(start, outs, q)
  {
    hide DestOf;
    assert outs[0] == place;
  }

  lemma InPlaced(ins: seq<Routed>, outs: seq<Outflow>, p: Pool)
    requires exists o :: o in outs && DestOf(o) == Place(p)
    ensures p in AllPools(ins, outs)
  {
    hide DestOf;
  }

  /** An outflow the caller hands in to be spent, with the amount the caller says it has. */
  datatype Claim = Claim(ref: Inflow, amount: int)

  function ClaimTotal(given: seq<Claim>): int {
    if given == [] then 0 else ClaimTotal(given[..|given| - 1]) + given[|given| - 1].amount
  }

  function ClaimRefs(given: seq<Claim>): (r: seq<Inflow>)
    ensures |r| == |given|
  {
    seq(|given|, k requires 0 <= k < |given| => given[k].ref)
  }

  /** The coins behind the claims. */
  predicate Backs(coins: seq<Coin>, given: seq<Claim>) {
    && |coins| == |given|
    && forall k :: 0 <= k < |given| ==> coins[k].ref == given[k].ref && coins[k].outflow.amount == given[k].amount
  }

  /** What the caller says is so, and the address holds it. */
  ghost predicate Truthful(all: seq<Txn>, address: string, given: seq<Claim>) {
    exists coins :: Backs(coins, given) && HeldCoins(all, address, coins)
  }

  lemma NoClaims(all: seq<Txn>, address: string)
    ensures Truthful(all, address, [])
  {
    var none: seq<Coin> := [];
    assert Backs(none, []) && HeldCoins(all, address, none);
  }

  lemma {:induction false} BackedTotal(coins: seq<Coin>, given: seq<Claim>)
    requires Backs(coins, given)
    ensures CoinTotal(coins) == ClaimTotal(given) && RefsOf(coins) == ClaimRefs(given)
  {
    if given != [] {
      var n := |given| - 1;
      BackedTotal(coins[..n], given[..n]);
    }
  }

  lemma {:induction false} TotalAppend(a: seq<Coin>, b: seq<Coin>)
    ensures CoinTotal(a + b) == CoinTotal(a) + CoinTotal(b) && RefsOf(a + b) == RefsOf(a) + RefsOf(b)
  {
    if b == [] {
      assert a + b == a;
    } else {
      var n := |b| - 1;
      TotalAppend(a, b[..n]);
      assert (a + b)[..|a| + n] == a + b[..n];
    }
  }

  /** The claims first, then, if they fall short, the shortest sufficient prefix of the candidates. */
  predicate ClaimsThenPrefix(given: seq<Claim>, candidates: seq<Coin>, limit: int, inflows: seq<Inflow>) {
    var n := |inflows| - |given|;
    && 0 <= n <= |candidates| && inflows == ClaimRefs(given) + RefsOf(candidates[..n])
    && if ClaimTotal(given) >= limit then n == 0
       else n > 0 && CoinTotal(candidates[..n]) >= limit - ClaimTotal(given) > CoinTotal(candidates[..n - 1])
  }

  lemma JoinedRefs(given: seq<Claim>, candidates: seq<Coin>, n: nat)
    requires DistinctRefs(candidates) && n <= |candidates| && NoRepeats(ClaimRefs(given))
    requires forall c :: c in candidates ==> c.ref !in ClaimRefs(given)
    ensures NoRepeats(ClaimRefs(given) + RefsOf(candidates[..n]))
  {
    var a, b := ClaimRefs(given), RefsOf(candidates[..n]);
    forall j, k | 0 <= j < k < |a + b|
      ensures (a + b)[j] != (a + b)[k]
    {
      if k >= |a| {
        assert candidates[k - |a|] in candidates;
      }
    }
  }

  lemma {:induction false} HeldTotal(all: seq<Txn>, address: string, coins: seq<Coin>)
    requires HeldCoins(all, address, coins)
    ensures CoinTotal(coins) >= 0
  {
    HeldEnough(all, address, coins, 0);
    assert coins[..0] == [];
  }

  lemma HeldTogether(all: seq<Txn>, address: string, a: seq<Coin>, b: seq<Coin>)
    requires HeldCoins(all, address, a) && HeldCoins(all, address, b)
    ensures HeldCoins(all, address, a + b)
  {
    hide ValidOutflow, Source, UnspentOf;
  }

  /** Truthful claims make the stake acceptable. */
  lemma ClaimsAccepted(chain: seq<Block>, t: Txn, given: seq<Claim>, picked: seq<Coin>, address: string, p: Pool,
                       amount: int)
    requires HeldCoins(AllTxns(chain), address, picked) && Truthful(AllTxns(chain), address, given)
    requires t.address == address && t.inflows == ClaimRefs(given) + RefsOf(picked)
    requires amount >= 1 && p.subject != "" && ClaimTotal(given) + CoinTotal(picked) >= amount
    requires var change := ClaimTotal(given) + CoinTotal(picked) - amount;
      t.outflows == [PlaceOn(amount, p)] + Change(change, Pays(change, address))
    ensures AcceptedWith(chain, t, StakeMetrics(amount, p.kind)) && IsAddress(address)
  {
    hide AllTxns, HeldCoins, CoinTotal, ClaimTotal, RefsOf, AcceptedWith, IsAddress, PlaceOn;
    var backing :| Backs(backing, given) && HeldCoins(AllTxns(chain), address, backing);
    var coins := backing + picked;
    BackedTotal(backing, given);
    TotalAppend(backing, picked);
    HeldTogether(AllTxns(chain), address, backing, picked);
    StakeAccepted(chain, t, coins, address, p, amount);
    assert coins != [] by { WorthOfNone(); }
    HeldAddress(AllTxns(chain), address, coins);
  }

  /** `create_opposition` and `create_support`. */
  /** There is only one way to complete the claims. */
  lemma OneDraw(given: seq<Claim>, candidates: seq<Coin>, limit: int, ins: seq<Inflow>, other: seq<Inflow>)
    requires ClaimsThenPrefix(given, candidates, limit, ins) && ClaimsThenPrefix(given, candidates, limit, other)
    requires forall c :: c in candidates ==> c.outflow.amount >= 1
    ensures ins == other
  {
    hide CoinTotal, ClaimTotal, RefsOf;
    var n, m := |ins| - |given|, |other| - |given|;
    if n < m {
      TotalGrows(candidates, n, m - 1);
    } else if m < n {
      TotalGrows(candidates, m, n - 1);
    }
  }

  method CreateStake(R: Rules, ghost chain: seq<Block>, timestamp: string, address: string, given: seq<Claim>,
                     candidates: seq<Coin>, confirmed: int, amount: int, p: Pool)
    returns (r: Result<Txn, FundsError>)
    requires amount >= 1 && p.subject != "" && HeldCoins(AllTxns(chain), address, candidates)
      && DistinctRefs(candidates)
    requires confirmed == Balance(AllTxns(chain), address)
    ensures r.Err? <==> ClaimTotal(given) + CoinTotal(candidates) < amount
    ensures r.Err? ==> (r.error.PendingFunds? <==> Balance(AllTxns(chain), address) >= amount)
    ensures r.Ok? ==> ClaimsThenPrefix(given, candidates, amount, r.value.inflows)
    ensures r.Ok? ==> r.value.outflows != [] && r.value.outflows[0] == PlaceOn(amount, p)
    ensures r.Ok? ==> forall k :: 0 < k < |r.value.outflows| ==> r.value.outflows[k].address == Some(address)
    ensures r.Ok? ==>
      TotalOut(r.value.outflows) == ClaimTotal(given) + CoinTotal(candidates[..|r.value.inflows| - |given|])
    ensures r.Ok? ==> Sealed(R, timestamp, address, r.value)
    ensures r.Ok? && Truthful(AllTxns(chain), address, given) ==>
      AcceptedWith(chain, r.value, StakeMetrics(amount, p.kind))
    ensures r.Ok? && Truthful(AllTxns(chain), address, given) && IsSubject(p.subject) ==>
      ValidFlows([], r.value.outflows)
    ensures r.Ok? && NoRepeats(ClaimRefs(given)) && (forall c :: c in candidates ==> c.ref !in ClaimRefs(given)) ==>
      NoRepeats(r.value.inflows)
  {
    hide AllTxns, HeldCoins, CheckTxn, DataCsv, CoinTotal, ClaimTotal, RefsOf, ClaimRefs, Unsigned,
      AcceptedWith, DistinctRefs, NoRepeats, IsAddress, Truthful, UnspentValue;
    var claimed := ClaimTotal(given);
    var picked, balance := [], claimed;
    WorthOfNone();
    if claimed < amount {
      var more;
      picked, more := Gather(candidates, amount - claimed);
      balance := claimed + more;
    }
    PickedAre(candidates, picked, |picked|);
    HeldTotal(AllTxns(chain), address, candidates);
    if balance < amount {
      return Err(Shortfall(confirmed, amount));
    }
    var outs := [PlaceOn(amount, p)] + Change(balance - amount, Pays(balance - amount, address));
    var t := Unsigned(R, timestamp, address, ClaimRefs(given) + RefsOf(picked), outs);
    UnsignedParts(R, timestamp, address, ClaimRefs(given) + RefsOf(picked), outs);
    Destinations(amount, p, address);
    OneAndChange(PlaceOn(amount, p), balance - amount, Pays(balance - amount, address));
    HeldPrefix(AllTxns(chain), address, candidates, |picked|);
    HeldEnough(AllTxns(chain), address, candidates, |picked|);
    if Truthful(AllTxns(chain), address, given) {
      ClaimsAccepted(chain, t, given, picked, address, p, amount);
    }
    if NoRepeats(ClaimRefs(given)) && (forall c :: c in candidates ==> c.ref !in ClaimRefs(given)) {
      JoinedRefs(given, candidates, |picked|);
    }
    return Ok(t);
  }

  /** The candidate query knows nothing of the claims. An outpoint that is claimed and offered as well is
      drawn twice when the claim alone falls short; the pool check accepts what is built, no block does. */
  lemma DoubledClaim(chain: seq<Block>, t: Txn, address: string, c: Coin, amount: int, p: Pool)
    requires HeldCoins(AllTxns(chain), address, [c]) && t.address == address
    requires c.outflow.amount < amount <= 2 * c.outflow.amount && p.subject != ""
    requires ClaimsThenPrefix([Claim(c.ref, c.outflow.amount)], [c], amount, t.inflows)
    requires var change := 2 * c.outflow.amount - amount;
      t.outflows == [PlaceOn(amount, p)] + Change(change, Pays(change, address))
    ensures t.inflows == [c.ref, c.ref] && AcceptedWith(chain, t, StakeMetrics(amount, p.kind))
    ensures forall txns :: t in txns ==> CheckTxn(View(chain, txns), t, true).Err?
  {
    hide AllTxns, HeldCoins, AcceptedWith, PlaceOn, Pays, IsAddress, CheckTxn;
    var claims := [Claim(c.ref, c.outflow.amount)];
    OneClaim(c);
    assert [c][..1] == [c];
    assert Backs([c], claims);
    ClaimsAccepted(chain, t, claims, [c], address, p, amount);
    forall txns | t in txns
      ensures CheckTxn(View(chain, txns), t, true).Err?
    {
      RepeatIsSpent(chain, txns, t, c.ref);
    }
  }

  lemma OneClaim(c: Coin)
    ensures CoinTotal([c]) == ClaimTotal([Claim(c.ref, c.outflow.amount)]) == c.outflow.amount
  {
    assert [c][..0] == [] && [Claim(c.ref, c.outflow.amount)][..0] == [];
  }

  /** A transaction that names an inflow twice is refused by every block that holds it. */
  lemma RepeatIsSpent(chain: seq<Block>, txns: seq<Txn>, t: Txn, i: Inflow)
    requires t in txns && t.inflows == [i, i]
    ensures CheckTxn(View(chain, txns), t, true).Err?
  {
    hide AllTxns, OwnerOf, Drains, MetricsOf, Lookup;
    var k :| 0 <= k < |txns| && txns[k] == t;
    RefsHold(txns, k);
    RepeatCount(t.inflows, 0, 1);
    if CheckTxn(View(chain, txns), t, true).Ok? {
      ConsumeAt(View(chain, txns), t, t.inflows, true, 1);
    }
  }

  // ---- rescind ---------------------------------------------------------------------------------

  lemma RescindShape(outs: seq<Outflow>, rescind: Outflow, change: int, place: Outflow, p: Pool)
    requires outs == [rescind] + Change(change, place) && DestOf(rescind) == Rescind(p) && DestOf(place) == Place(p)
    requires rescind.amount >= 1 && change >= 0 && place.amount == change
    ensures WellFormed(outs) && Positive([], outs) && rescind in outs
    ensures forall q, start :: start == (if q == p then rescind.amount + change else 0) ==> Covered(start, outs, q)
  {
    hide DestOf, Placed, Rescinded;
    assert outs[0] == rescind;
    FlowsSnoc([], [], rescind);
    NoFlows([]);
    assert [] + [rescind] == [rescind] == outs[..1];
    assert Claimed(outs[..1], p) == rescind.amount;
  }

  lemma RescindAccepted(chain: seq<Block>, t: Txn, coins: seq<Coin>, address: string, p: Pool, amount: int)
    requires StakedCoins(AllTxns(chain), address, p, coins) && t.address == address && t.inflows == RefsOf(coins)
    requires amount >= 1 && CoinTotal(coins) >= amount && p.subject != ""
    requires t.outflows == [RescindFrom(amount, p)]
      + Change(CoinTotal(coins) - amount, PlaceOn(CoinTotal(coins) - amount, p))
    ensures AcceptedWith(chain, t, RescindMetrics(amount, p.kind))
  {
    hide AllTxns, Refs, Find, Created, DestOf, Source, CoinTotal, RouteOf, CheckTxn, Drains, In, Sent,
      TotalOut, TotalIn, GeneralIn, IsAddress, ValidOutflow, MaySpend, PlaceOn, RescindFrom, MetricsOf,
      AllPools, Covered, StakedOn;
    forall c | c in coins
      ensures MaySpend(AllTxns(chain), address, c) && RouteOf(c.outflow) == Pools.Staked(p) && c.outflow.amount >= 1
    {
      StakedSpendable(AllTxns(chain), address, p, c);
    }
    BuiltVerdict(chain, t, coins, Pools.Staked(p));
    var ins, change := RouteAll(OutflowsOf(coins)), CoinTotal(coins) - amount;
    Destinations(amount, p, address);
    Destinations(change, p, address);
    OneAndChange(RescindFrom(amount, p), change, PlaceOn(change, p));
    RescindShape(t.outflows, RescindFrom(amount, p), change, PlaceOn(change, p), p);
    forall q
      ensures Covered(In(ins, q), t.outflows, q)
    {
      assert In(ins, q) == if q == p then amount + change else 0;
    }
    DrainsIffBalanced(ins, t.outflows);
    InRescinded(ins, t.outflows, p);
    OneSubject(ins, t.outflows, p, 0, amount);
  }

  lemma InRescinded(ins: seq<Routed>, outs: seq<Outflow>, p: Pool)
    requires exists o :: o in outs && DestOf(o) == Rescind(p)
    ensures p in AllPools(ins, outs)
  {
    hide DestOf;
  }

  method CreateRescind(R: Rules, ghost chain: seq<Block>, timestamp: string, address: string, candidates: seq<Coin>,
                       amount: int, p: Pool) returns (r: Result<Txn, FundsError>)
    requires amount >= 1 && p.subject != "" && StakedCoins(AllTxns(chain), address, p, candidates)
      && DistinctRefs(candidates)
    ensures r.Err? <==> CoinTotal(candidates) < amount
    ensures r.Err? ==> r.error.InsufficientFunds?
    ensures r.Ok? ==>
      AcceptedWith(chain, r.value, RescindMetrics(amount, p.kind))
      && ShortestPrefix(candidates, amount, r.value.inflows)
    ensures r.Ok? ==> r.value.outflows != [] && r.value.outflows[0] == RescindFrom(amount, p)
    ensures r.Ok? ==> forall k :: 0 < k < |r.value.outflows| ==> StakedOn(p, r.value.outflows[k])
    ensures r.Ok? ==> Built(R, timestamp, address, r.value)
    ensures r.Ok? && IsSubject(p.subject) ==> ValidFlows([], r.value.outflows)
  {
    hide AllTxns, StakedCoins, CheckTxn, DataCsv, CoinTotal, RefsOf, Unsigned, AcceptedWith, DistinctRefs,
      NoRepeats;
    var picked, balance := Gather(candidates, amount);
    PickedAre(candidates, picked, |picked|);
    if balance < amount {
      return Err(InsufficientFunds);
    }
    var outs := [RescindFrom(amount, p)] + Change(balance - amount, PlaceOn(balance - amount, p));
    var t := Unsigned(R, timestamp, address, RefsOf(picked), outs);
    UnsignedParts(R, timestamp, address, RefsOf(picked), outs);
    StakedPrefix(AllTxns(chain), address, p, candidates, |picked|);
    StakedEnough(AllTxns(chain), address, p, candidates, |picked|);
    RescindAccepted(chain, t, picked, address, p, amount);
    PrefixRefs(candidates, |picked|);
    return Ok(t);
  }

  lemma StakedPrefix(all: seq<Txn>, address: string, p: Pool, coins: seq<Coin>, n: nat)
    requires StakedCoins(all, address, p, coins) && n <= |coins|
    ensures StakedCoins(all, address, p, coins[..n])
  {
    hide ValidOutflow, Source, UnspentOf, Find;
  }

  lemma {:induction false} StakedEnough(all: seq<Txn>, address: string, p: Pool, coins: seq<Coin>, n: nat)
    requires StakedCoins(all, address, p, coins) && n <= |coins|
    ensures CoinTotal(coins[..n]) <= CoinTotal(coins)
  {
    hide Source, UnspentOf, IsAddress, ValidDestinations, Find;
    if n == |coins| {
      assert coins[..n] == coins;
    } else {
      var m := |coins| - 1;
      StakedPrefix(all, address, p, coins, m);
      StakedEnough(all, address, p, coins[..m], n);
      assert coins[..m][..n] == coins[..n];
      assert coins[m] in coins;
    }
  }

  // ---- a built transaction in a block ----------------------------------------------------------

  function Signed(sign: string -> string, t: Txn): Txn {
    t.(signature := sign(SigningData(t)))
  }

  /** Once signed, what a builder returns obeys the shape rules of regular transactions, if it stays
      within the flow limits. */
  lemma SignedIsRegular(R: Rules, chain: seq<Block>, sign: string -> string, timestamp: string, t: Txn,
                        coins: seq<Coin>)
    requires ValidChain(R, chain) && DigestShapes(R) && Signs(R, sign, t.address) && ValidTimestamp(R, timestamp)
    requires Sealed(R, timestamp, t.address, t) && t.inflows == RefsOf(coins)
    requires UnspentCoins(AllTxns(chain), coins) && ValidFlows([], t.outflows)
    requires 1 <= |t.inflows| <= MAX_FLOWS && 1 <= |t.outflows| <= MAX_FLOWS
    ensures ValidRegular(R, Signed(sign, t))
  {
    hide ValidChain, AllTxns, UnspentOf, Find, IsAddress, ValidOutflow, IsMillHash, NoRepeats, DataCsv,
      SigningData, CoinTotal;
    forall k | 0 <= k < |t.inflows|
      ensures ValidInflow(t.inflows[k])
    {
      assert coins[k] in coins && coins[k].ref == t.inflows[k];
      SourceTxid(R, chain, t.inflows[k]);
    }
    SignatureOutside(sign, t);
  }

  lemma SignatureOutside(sign: string -> string, t: Txn)
    ensures DataCsv(Signed(sign, t)) == DataCsv(t) && SigningData(Signed(sign, t)) == SigningData(t)
  {
    hide Text.Join;
  }

  lemma SourceTxid(R: Rules, chain: seq<Block>, i: Inflow)
    requires ValidChain(R, chain) && Source(AllTxns(chain), i).Some?
    ensures ValidInflow(i)
  {
    hide ValidChain, ValidNext, AllTxns, Find, ValidFlows, IsAddress, DataCsv, SigningData, IsMillHash;
    var source := Find(AllTxns(chain), i.outflowTxid).value;
    FindAnswers(AllTxns(chain), i.outflowTxid);
    var m, k := TxnInBlock(chain, source);
    ValidAt(R, chain, m);
    AcceptedIsValid(R, chain[..m], chain[m], k);
  }

  /** Position `k` of the block's transactions holds `t`, signed or not, and no other one shares its
      inflows. */
  ghost predicate SoleSpender(chain: seq<Block>, txns: seq<Txn>, k: nat, t: Txn) {
    && k < |txns| && txns[k].address == t.address && txns[k].inflows == t.inflows && txns[k].outflows == t.outflows
    && DistinctTxids(AllTxns(chain) + txns)
    && forall l, i :: 0 <= l < |txns| && l != k && i in t.inflows ==> i !in txns[l].inflows
  }

  lemma {:induction false} CountedOnce(txns: seq<Txn>, k: nat, i: Inflow)
    requires k < |txns| && forall l :: 0 <= l < |txns| && l != k ==> i !in txns[l].inflows
    ensures multiset(Refs(txns))[i] == multiset(txns[k].inflows)[i]
  {
    hide Refs;
    var n := |txns| - 1;
    assert txns == txns[..n] + [txns[n]];
    RefsSnoc(txns[..n], txns[n]);
    if k < n {
      CountedOnce(txns[..n], k, i);
    } else {
      NotInRefs(txns[..n], i);
    }
  }

  lemma {:induction false} NotInRefs(txns: seq<Txn>, i: Inflow)
    requires forall l :: 0 <= l < |txns| ==> i !in txns[l].inflows
    ensures i !in Refs(txns)
  {
    if |txns| > 0 {
      var n := |txns| - 1;
      assert txns == txns[..n] + [txns[n]];
      RefsSnoc(txns[..n], txns[n]);
      NotInRefs(txns[..n], i);
    }
  }

  lemma EntersInflow(chain: seq<Block>, txns: seq<Txn>, k: nat, t: Txn, i: Inflow)
    requires SoleSpender(chain, txns, k, t) && NoRepeats(t.inflows) && i in t.inflows
    requires CheckInflow(View(chain, []), t, i, false).Ok?
    ensures CheckInflow(View(chain, txns), txns[k], i, true) == CheckInflow(View(chain, []), t, i, false)
  {
    hide AllTxns, Find, Refs, OwnerOf, NoRepeats, DistinctTxids, Lookup;
    var all := AllTxns(chain) + txns;
    NoRefs();
    CountedOnce(txns, k, i);
    NoRepeatsCount(t.inflows, i);
    assert Uses(View(chain, []), i) == 0;
    assert Uses(View(chain, txns), i) <= 1;
    KnownBelow(chain, txns, i.outflowTxid);
    LookupInPart(chain, all, [], i.outflowTxid);
    LookupInPart(chain, all, txns, i.outflowTxid);
  }

  lemma KnownBelow(chain: seq<Block>, txns: seq<Txn>, txid: string)
    requires Lookup(View(chain, []), txid).Some?
    ensures Lookup(View(chain, txns), txid).Some?
  {
    hide AllTxns;
    FindNothing(txid);
  }

  lemma {:induction false} EntersConsume(chain: seq<Block>, txns: seq<Txn>, k: nat, t: Txn, j: nat)
    requires SoleSpender(chain, txns, k, t) && NoRepeats(t.inflows) && j <= |t.inflows|
    requires Consume(View(chain, []), t, t.inflows[..j], false).Ok?
    ensures Consume(View(chain, txns), txns[k], t.inflows[..j], true)
      == Consume(View(chain, []), t, t.inflows[..j], false)
  {
    hide CheckInflow, SoleSpender, NoRepeats;
    if j > 0 {
      Snoc(t.inflows, j - 1);
      EntersConsume(chain, txns, k, t, j - 1);
      EntersInflow(chain, txns, k, t, t.inflows[j - 1]);
    }
  }

  /** What the pool check accepts, a block holding it accepts with the same metrics, as long as nothing
      else in the block spends the same outflows. */
  lemma BuiltEntersBlock(chain: seq<Block>, txns: seq<Txn>, k: nat, t: Txn, m: Metrics)
    requires AcceptedWith(chain, t, m) && NoRepeats(t.inflows) && SoleSpender(chain, txns, k, t)
    ensures CheckTxn(View(chain, txns), txns[k], true) == Ok(m)
  {
    hide CheckInflow, Drains, MetricsOf, RouteAll, NoRepeats, DistinctTxids, AllTxns;
    assert t.inflows[..|t.inflows|] == t.inflows;
    EntersConsume(chain, txns, k, t, |t.inflows|);
  }
}
