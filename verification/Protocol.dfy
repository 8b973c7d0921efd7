/** The protocol written out: what a transaction, a block and the next block of a chain must be. The
    validators check it step by step, with early returns and lookups in two places; here it is stated
    in one piece, with every limit and constant, and proved to be what they accept. */
module Protocol {
  import opened Prelude
  import opened Payload
  import opened Transactions
  import opened Order
  import opened Blocks
  import opened Pools
  import opened PoolTheory
  import opened Ledger
  import opened LedgerTheory
  import opened Unspent
  import opened Conservation

  /** The easiest target there is: five zeros, then fifty-nine times the highest digit. */
  const FLOOR: string := "00000" + seq(59, _ => 'F')

  // ---- transactions ----------------------------------------------------------------------------

  predicate Dated(R: Rules, s: string) {
    ',' !in s && R.instant(s).Some?
  }

  function Instant(R: Rules, s: string): int {
    if R.instant(s).Some? then R.instant(s).value else 0
  }

  /** Named by the digest of its content, and signed by its address over content and name. */
  predicate Authentic(R: Rules, t: Txn) {
    && R.signed(t.address, SigningData(t), t.signature)
    && t.txid == R.hash(DataCsv(t)) && IsMillHash(t.txid)
    && IsAddress(t.address) && Dated(R, t.timestamp)
  }

  /** A positive amount with one destination: an address, or a subject staked on or rescinded from. */
  predicate Plain(o: Outflow) {
    o.amount > 0 &&
    match o
    case Outflow(_, Some(a), None, None, None, None) => IsAddress(a)
    case Outflow(_, None, Some(s), None, None, None) => IsSubject(s)
    case Outflow(_, None, None, None, Some(s), None) => IsSubject(s)
    case Outflow(_, None, None, Some(s), None, Some(_)) => IsSubject(s)
    case _ => false
  }

  predicate Lists(t: Txn) {
    && (forall k :: 0 <= k < |t.inflows| ==> IsMillHash(t.inflows[k].outflowTxid) && 0 <= t.inflows[k].outflowIdx)
    && (forall k :: 0 <= k < |t.outflows| ==> Plain(t.outflows[k]))
  }

  predicate Ordinary(R: Rules, t: Txn) {
    && Authentic(R, t) && Lists(t) && t.prevHash.None?
    && 0 < |t.inflows| <= 50 && 0 < |t.outflows| <= 50
  }

  predicate Milled(R: Rules, t: Txn) {
    && Authentic(R, t) && Lists(t) && t.prevHash.Some? && IsMillHash(t.prevHash.value)
    && t.inflows == [] && 0 < |t.outflows| <= 5
  }

  lemma PlainIff(o: Outflow)
    ensures Plain(o) <==> ValidOutflow(o)
  {
    hide IsAddress, IsSubject;
  }

  lemma ListsIff(t: Txn)
    ensures Lists(t) <==> ValidFlows(t.inflows, t.outflows)
  {
    hide Plain, ValidOutflow, IsMillHash;
    forall k | 0 <= k < |t.outflows|
      ensures Plain(t.outflows[k]) <==> ValidOutflow(t.outflows[k])
    {
      PlainIff(t.outflows[k]);
    }
    forall k | 0 <= k < |t.inflows|
      ensures IsMillHash(t.inflows[k].outflowTxid) && 0 <= t.inflows[k].outflowIdx <==> ValidInflow(t.inflows[k])
    {
    }
  }

  /** The two validators accept exactly the ordinary and the milled transactions. */
  lemma TxnIff(R: Rules, t: Txn)
    ensures Ordinary(R, t) <==> ValidRegular(R, t)
    ensures Milled(R, t) <==> ValidCoinbase(R, t)
  {
    hide Lists, ValidFlows, IsMillHash, IsAddress, DataCsv, SigningData;
    ListsIff(t);
  }

  // ---- one block -------------------------------------------------------------------------------

  /** Earlier in time, or at the same time with the smaller txid. */
  predicate Precedes(t: Txn, u: Txn) {
    if t.timestamp == u.timestamp then !StringLess(u.txid, t.txid) else StringLess(t.timestamp, u.timestamp)
  }

  predicate Sealed(R: Rules, b: Block) {
    && b.idx >= 0 && b.proofOfWork >= 0 && Dated(R, b.timestamp)
    && IsMillHash(b.hash) && IsMillHash(b.prevHash) && IsMillHash(b.target) && IsMillHash(b.merkleRoot)
    && b.hash == R.hash(Header(b)) && R.meets(b.hash, b.target)
    && b.merkleRoot == R.merkle(Txids(b.txns))
  }

  /** At least the coinbase and at most a hundred transactions, the others in order before it, none of
      them newer than the block or more than four hours older. */
  predicate Filled(R: Rules, b: Block) {
    && 0 < |b.txns| <= 100
    && Milled(R, b.txns[|b.txns| - 1])
    && (forall k :: 0 <= k < |b.txns| - 1 ==> Ordinary(R, b.txns[k]))
    && (forall k :: 0 <= k < |b.txns| - 1 ==>
          0 <= Instant(R, b.timestamp) - Instant(R, b.txns[k].timestamp) <= 4 * 60 * 60)
    && (forall j, k :: 0 <= j < k < |b.txns| - 1 ==> Precedes(b.txns[j], b.txns[k]))
  }

  lemma PrecedesIff(t: Txn, u: Txn)
    ensures Precedes(t, u) <==> !TxnLess(u, t)
  {
    StringTotal(t.timestamp, u.timestamp);
    StringTotal(t.txid, u.txid);
  }

  lemma {:induction false} InOrderPairs(s: seq<Txn>, j: nat, k: nat)
    requires InOrder(s) && j < k < |s| && forall i :: 0 <= i < |s| ==> !IsCoinbase(s[i])
    ensures !TxnLess(s[k], s[j])
  {
    hide TxnLess;
    assert !TxnLess(s[k], s[k - 1]);
    if j < k - 1 {
      InOrderPairs(s, j, k - 1);
      assert !KeyLess(s[k], s[k - 1]) && !KeyLess(s[k - 1], s[j]);
      KeyTransitive(s[j], s[k - 1], s[k]);
    }
  }

  lemma OrderIff(s: seq<Txn>)
    requires forall i :: 0 <= i < |s| ==> !IsCoinbase(s[i])
    ensures InOrder(s) <==> forall j, k :: 0 <= j < k < |s| ==> Precedes(s[j], s[k])
  {
    hide TxnLess, Precedes;
    forall j, k | 0 <= j < k < |s|
      ensures Precedes(s[j], s[k]) <==> !TxnLess(s[k], s[j])
    {
      PrecedesIff(s[j], s[k]);
    }
    if InOrder(s) {
      forall j, k | 0 <= j < k < |s|
        ensures Precedes(s[j], s[k])
      {
        InOrderPairs(s, j, k);
      }
    }
  }

  lemma FilledOrder(R: Rules, b: Block)
    requires Filled(R, b)
    ensures InOrder(Regular(b)) && CanonicalOrder(b.txns) == b.txns
  {
    hide Authentic, Lists, Precedes, CanonicalOrder, InOrder;
    var reg := Regular(b);
    forall k | 0 <= k < |b.txns| - 1
      ensures !IsCoinbase(b.txns[k])
    {
      assert Ordinary(R, b.txns[k]);
    }
    OrderIff(reg);
    OrderedIsCanonical(b.txns);
  }

  /** A block passes its own validation exactly when it is sealed and filled. */
  lemma ShapeIff(R: Rules, b: Block)
    ensures Shape(R, b) <==> Sealed(R, b) && Filled(R, b)
  {
    hide Sealed, Filled, Shape;
    if Shape(R, b) {
      ShapeIsSealed(R, b);
      ShapeIsFilled(R, b);
    }
    if Sealed(R, b) && Filled(R, b) {
      FilledIsShape(R, b);
    }
  }

  lemma ShapeIsSealed(R: Rules, b: Block)
    requires Shape(R, b)
    ensures Sealed(R, b)
  {
    hide ValidRegular, ValidCoinbase, Header, InOrder, CanonicalOrder;
    ShapeIsCanonical(R, b);
  }

  lemma FilledIsShape(R: Rules, b: Block)
    requires Sealed(R, b) && Filled(R, b)
    ensures Shape(R, b)
  {
    hide Milled, Lists, Header, ValidRegular, ValidCoinbase, CanonicalOrder, InOrder, Precedes;
    forall k | 0 <= k < |b.txns| - 1
      ensures ValidRegular(R, b.txns[k]) && Timely(R, R.instant(b.timestamp).value, b.txns[k])
    {
      TxnIff(R, b.txns[k]);
      assert Ordinary(R, b.txns[k]);
    }
    TxnIff(R, Coinbase(b));
    FilledOrder(R, b);
  }

  lemma ShapeIsFilled(R: Rules, b: Block)
    requires Shape(R, b)
    ensures Filled(R, b)
  {
    hide Ordinary, Milled, ValidRegular, ValidCoinbase, Header, Leaves, InOrder, Precedes;
    forall k | 0 <= k < |b.txns| - 1
      ensures Ordinary(R, b.txns[k]) && R.instant(b.txns[k].timestamp).Some?
    {
      TxnIff(R, b.txns[k]);
      assert Timely(R, R.instant(b.timestamp).value, b.txns[k]);
    }
    TxnIff(R, Coinbase(b));
    ShapeIsCanonical(R, b);
    OrderIff(Regular(b));
  }

  // ---- the next block --------------------------------------------------------------------------

  /** The target of the block before, except that every twenty-fourth height sets a new one from the time
      the last twenty-four blocks took, never easier than the floor. */
  predicate Demanded(R: Rules, chain: seq<Block>, target: string) {
    if chain == [] then target == FLOOR
    else if |chain| % 24 != 0 then target == chain[|chain| - 1].target
    else
      var taken := Instant(R, chain[|chain| - 1].timestamp) - Instant(R, chain[|chain| - 24].timestamp);
      var wanted := R.retarget(chain[|chain| - 1].target, taken);
      target == if R.meets(FLOOR, wanted) then FLOOR else wanted
  }

  /** One higher than the tip, naming it, not stamped before it, with the target due at that height. */
  predicate Follows(R: Rules, chain: seq<Block>, b: Block) {
    && b.idx == |chain| && Demanded(R, chain, b.target)
    && if chain == [] then b.prevHash == R.hash("GENESIS")
       else
         b.prevHash == chain[|chain| - 1].hash
         && Instant(R, chain[|chain| - 1].timestamp) <= Instant(R, b.timestamp)
  }

  /** The transaction creates this outpoint, not as a rescind, for this address: the one it pays, or its
      own where it stakes. */
  predicate Provides(s: Txn, address: string, i: Inflow) {
    && s.txid == i.outflowTxid && 0 <= i.outflowIdx < |s.outflows|
    && var o := s.outflows[i.outflowIdx];
      o.rescind.None? && address == if o.address.Some? then o.address.value else s.address
  }

  /** Nothing else in `all` consumes the outpoint, and some transaction of `all` provides it. */
  ghost predicate Entitled(all: seq<Txn>, address: string, i: Inflow) {
    multiset(Refs(all))[i] == 1 && exists s :: s in all && Provides(s, address, i)
  }

  const NOTHING := Outflow(0, None, None, None, None, None)

  /** The outflows the inflows name. */
  function Resolved(all: seq<Txn>, ins: seq<Inflow>): (os: seq<Outflow>)
    ensures |os| == |ins|
  {
    seq(|ins|, k requires 0 <= k < |ins| => var o := Source(all, ins[k]); if o.Some? then o.value else NOTHING)
  }

  ghost function Minted(all: seq<Txn>, txns: seq<Txn>): Metrics {
    if txns == [] then NO_METRICS
    else
      var t := txns[|txns| - 1];
      Minted(all, txns[..|txns| - 1]).Plus(MetricsOf(RouteAll(Resolved(all, t.inflows)), t.outflows))
  }

  function Positives(s: seq<int>): seq<int> {
    if s == [] then [] else (if s[0] != 0 then [s[0]] else []) + Positives(s[1..])
  }

  /** The reward, then whatever was minted of each of the four metrics. */
  predicate PaysOut(outs: seq<Outflow>, m: Metrics) {
    var due := [500] + Positives([m.schadenfreude, m.grace, m.mudita, m.regret]);
    |outs| == |due| && forall k :: 0 <= k < |due| ==> outs[k].amount == due[k]
  }

  /** The next block of a chain: sealed, filled, following the tip; every inflow entitled among all
      transactions of the chain and the block, every transaction balanced, and a coinbase that binds the
      tip and pays out exactly the reward and what the block minted. */
  ghost predicate Lawful(R: Rules, chain: seq<Block>, b: Block) {
    && Sealed(R, b) && Filled(R, b) && Follows(R, chain, b)
    && var all, last := AllTxns(chain) + b.txns, |b.txns| - 1;
      && (forall k, i :: 0 <= k < last && i in b.txns[k].inflows ==> Entitled(all, b.txns[k].address, i))
      && (forall k :: 0 <= k < last ==>
            Balanced(RouteAll(Resolved(all, b.txns[k].inflows)), b.txns[k].outflows))
      && b.txns[last].prevHash == Some(b.prevHash)
      && PaysOut(b.txns[last].outflows, Minted(all, b.txns[..last]))
  }

  // ---- links -----------------------------------------------------------------------------------

  lemma LinkIff(R: Rules, chain: seq<Block>, b: Block)
    requires ValidChain(R, chain) && R.instant(b.timestamp).Some?
    ensures Follows(R, chain, b) <==>
      CheckLink(R, chain, b) == None && b.prevHash == (if chain == [] then R.hash(GENESIS) else chain[|chain| - 1].hash)
  {
    hide ValidChain;
    assert FLOOR == MAX_TARGET;
    if chain != [] {
      ChainTime(R, chain, |chain| - 1);
      if |chain| % 24 == 0 {
        ChainTime(R, chain, |chain| - 24);
      }
    }
  }

  /** What is wrong with a block's place, in the order it is looked at. */
  lemma LinkRefusals(R: Rules, chain: seq<Block>, b: Block)
    requires ValidChain(R, chain) && R.instant(b.timestamp).Some?
    ensures CheckLink(R, chain, b) ==
      if chain == [] && b.prevHash != R.hash("GENESIS") then Some(InvalidPreviousHash)
      else if chain != [] && Instant(R, b.timestamp) < Instant(R, chain[|chain| - 1].timestamp) then Some(OutOfOrder)
      else if b.idx != |chain| then Some(InvalidIndex)
      else if !Demanded(R, chain, b.target) then Some(InvalidTarget)
      else None
  {
    hide ValidChain;
    assert FLOOR == MAX_TARGET;
    if chain != [] {
      ChainTime(R, chain, |chain| - 1);
      if |chain| % 24 == 0 {
        ChainTime(R, chain, |chain| - 24);
      }
    }
  }

  /** Along an accepted chain every block has the target due at its height. */
  lemma TargetLaw(R: Rules, chain: seq<Block>, m: nat)
    requires ValidChain(R, chain) && m < |chain|
    ensures Demanded(R, chain[..m], chain[m].target)
  {
    hide ValidChain, Shape, CheckMoney, Demanded;
    ValidAt(R, chain, m);
    ChainTime(R, chain, m);
    LinkIff(R, chain[..m], chain[m]);
  }

  // ---- money -----------------------------------------------------------------------------------

  /** Every inflow of `t` passes the check in `v` with the outflow it names in `all`. */
  ghost predicate Cleared(v: View, all: seq<Txn>, t: Txn) {
    forall i :: i in t.inflows ==>
      && Source(all, i).Some? && CheckInflow(v, t, i, true) == Ok(Source(all, i).value)
      && ValidOutflow(Source(all, i).value) && Source(all, i).value.rescind == None
  }

  lemma {:induction false} ClearedConsume(v: View, all: seq<Txn>, t: Txn, n: nat)
    requires Cleared(v, all, t) && n <= |t.inflows|
    ensures Consume(v, t, t.inflows[..n], true) == Ok(Resolved(all, t.inflows[..n]))
  {
    hide CheckInflow, Source, ValidOutflow;
    if n > 0 {
      ClearedConsume(v, all, t, n - 1);
      Snoc(t.inflows, n - 1);
      assert t.inflows[n - 1] in t.inflows;
      assert Resolved(all, t.inflows[..n]) == Resolved(all, t.inflows[..n - 1]) + [Source(all, t.inflows[n - 1]).value];
    } else {
      assert Resolved(all, t.inflows[..0]) == [];
    }
  }

  lemma ClearedTxn(v: View, all: seq<Txn>, t: Txn)
    requires Cleared(v, all, t) && ValidFlows([], t.outflows)
    ensures var ins := RouteAll(Resolved(all, t.inflows));
      && (CheckTxn(v, t, true).Ok? <==> Balanced(ins, t.outflows))
      && (CheckTxn(v, t, true).Ok? ==> CheckTxn(v, t, true).value == MetricsOf(ins, t.outflows))
  {
    hide CheckInflow, Source, ValidOutflow, Balanced, Drains, MetricsOf, RouteAll;
    ClearedConsume(v, all, t, |t.inflows|);
    assert t.inflows[..|t.inflows|] == t.inflows;
    var os := Resolved(all, t.inflows);
    RoutePositive(os, t.outflows);
    DrainsIffBalanced(RouteAll(os), t.outflows);
  }

  lemma {:induction false} ClearedTxns(v: View, all: seq<Txn>, txns: seq<Txn>)
    requires forall k :: 0 <= k < |txns| ==> Cleared(v, all, txns[k]) && ValidFlows([], txns[k].outflows)
    ensures CheckTxns(v, txns).Ok? <==>
      forall k :: 0 <= k < |txns| ==> Balanced(RouteAll(Resolved(all, txns[k].inflows)), txns[k].outflows)
    ensures CheckTxns(v, txns).Ok? ==> CheckTxns(v, txns).value == Minted(all, txns)
  {
    hide CheckTxn, Cleared, ValidFlows, Balanced, MetricsOf, RouteAll;
    if txns != [] {
      var n := |txns| - 1;
      ClearedTxns(v, all, txns[..n]);
      ClearedTxn(v, all, txns[n]);
    }
  }

  lemma CoinbaseIff(b: Block, m: Metrics)
    requires b.txns != [] && Coinbase(b).outflows != []
    ensures CheckCoinbase(b, m) == None <==>
      Coinbase(b).prevHash == Some(b.prevHash) && PaysOut(Coinbase(b).outflows, m)
  {
    var outs := Coinbase(b).outflows;
    var rest := Positives([m.schadenfreude, m.grace, m.mudita, m.regret]);
    PositivesAre(m);
    assert Amounts(outs[1..]) == rest <==>
      |outs| == |rest| + 1 && forall k :: 0 < k < |outs| ==> outs[k].amount == rest[k - 1] by {
      if |outs| == |rest| + 1 && forall k :: 0 < k < |outs| ==> outs[k].amount == rest[k - 1] {
        assert forall k :: 0 <= k < |rest| ==> Amounts(outs[1..])[k] == outs[k + 1].amount == rest[k];
      }
      if Amounts(outs[1..]) == rest {
        assert forall k :: 0 < k < |outs| ==> outs[k].amount == Amounts(outs[1..])[k - 1];
      }
    }
  }

  lemma PositivesAre(m: Metrics)
    ensures Positives([m.schadenfreude, m.grace, m.mudita, m.regret]) == NonZeroAmounts(m)
  {
    var s := [m.schadenfreude, m.grace, m.mudita, m.regret];
    assert Positives([]) == [];
    assert [m.regret][1..] == [] && Positives([m.regret]) == NonZero(m.regret);
    assert [m.mudita, m.regret][1..] == [m.regret];
    assert Positives([m.mudita, m.regret]) == NonZero(m.mudita) + NonZero(m.regret);
    assert [m.grace, m.mudita, m.regret][1..] == [m.mudita, m.regret];
    assert Positives([m.grace, m.mudita, m.regret]) == NonZero(m.grace) + (NonZero(m.mudita) + NonZero(m.regret));
    assert s[1..] == [m.grace, m.mudita, m.regret];
  }

  // ---- the two directions ----------------------------------------------------------------------

  lemma AllAppend(chain: seq<Block>, b: Block)
    ensures AllTxns(chain + [b]) == AllTxns(chain) + b.txns
  {
    assert (chain + [b])[..|chain|] == chain;
  }

  lemma ValidAppend(R: Rules, chain: seq<Block>, b: Block)
    requires ValidChain(R, chain) && ValidNext(R, chain, b)
    ensures ValidChain(R, chain + [b])
  {
    hide ValidNext;
    assert (chain + [b])[..|chain|] == chain;
  }

  /** What an accepted block's inflows name. */
  lemma AcceptedCleared(R: Rules, chain: seq<Block>, b: Block, k: nat)
    requires ValidChain(R, chain) && ValidNext(R, chain, b) && CollisionFree(R, Preimages(chain + [b]))
    requires k < |b.txns| - 1
    ensures Cleared(View(chain, b.txns), AllTxns(chain + [b]), b.txns[k]) && ValidFlows([], b.txns[k].outflows)
    ensures forall i :: i in b.txns[k].inflows ==> Entitled(AllTxns(chain + [b]), b.txns[k].address, i)
  {
    hide ValidChain, ValidNext, CollisionFree, Preimages, AllTxns, Refs, Find, ValidOutflow, OwnerOf, CheckInflow,
      ValidTxn, Provides;
    var c, m := chain + [b], |chain|;
    ValidAppend(R, chain, b);
    assert c[..m] == chain && c[m] == b;
    AcceptedIsValid(R, chain, b, k);
    ValidTxnOutflow(R, b.txns[k], 0);
    forall i | i in b.txns[k].inflows
      ensures Source(AllTxns(c), i).Some? && ValidOutflow(Source(AllTxns(c), i).value)
      ensures Source(AllTxns(c), i).value.rescind == None
      ensures CheckInflow(View(chain, b.txns), b.txns[k], i, true) == Ok(Source(AllTxns(c), i).value)
      ensures Entitled(AllTxns(c), b.txns[k].address, i)
    {
      WhoSpends(R, c, m, k, i);
      OutflowOfChain(R, c, i);
      SourceProvides(AllTxns(c), b.txns[k].address, i);
    }
  }

  lemma SourceProvides(all: seq<Txn>, address: string, i: Inflow)
    requires Source(all, i).Some? && Source(all, i).value.rescind == None && ValidOutflow(Source(all, i).value)
    requires OwnerOf(Source(all, i).value, Find(all, i.outflowTxid).value) == address
    requires multiset(Refs(all))[i] == 1
    ensures Entitled(all, address, i)
  {
    hide Refs, Find, IsAddress;
    FindAnswers(all, i.outflowTxid);
    var s := Find(all, i.outflowTxid).value;
    if s.outflows[i.outflowIdx].address.Some? {
      AddressNotEmpty(s.outflows[i.outflowIdx].address.value);
    }
    assert Provides(s, address, i);
  }

  lemma AddressNotEmpty(s: string)
    requires IsAddress(s)
    ensures s != ""
  {
    AddressText(s);
  }

  lemma AcceptedIsLawful(R: Rules, chain: seq<Block>, b: Block)
    requires ValidChain(R, chain) && CollisionFree(R, Preimages(chain + [b])) && ValidNext(R, chain, b)
    ensures Lawful(R, chain, b)
  {
    hide ValidChain, CollisionFree, Preimages, Shape, Sealed, Filled, Follows, CheckLink, AllTxns, Entitled, Cleared,
      Balanced, RouteAll, Minted, PaysOut, CheckTxns, CheckCoinbase, ValidFlows, Resolved;
    ShapeIff(R, b);
    ShapeTimestamp(R, b);
    LinkIff(R, chain, b);
    AllAppend(chain, b);
    AcceptedCoinbase(R, chain, b);
    CoinbaseSpendsNothing(R, Coinbase(b));
    var v, all, reg := View(chain, b.txns), AllTxns(chain + [b]), Regular(b);
    forall k | 0 <= k < |reg|
      ensures Cleared(v, all, reg[k]) && ValidFlows([], reg[k].outflows)
      ensures forall i :: i in reg[k].inflows ==> Entitled(all, reg[k].address, i)
    {
      AcceptedCleared(R, chain, b, k);
    }
    ClearedTxns(v, all, reg);
    CoinbaseIff(b, CheckTxns(v, reg).value);
    forall k | 0 <= k < |b.txns| - 1
      ensures Balanced(RouteAll(Resolved(all, b.txns[k].inflows)), b.txns[k].outflows)
      ensures forall i :: i in b.txns[k].inflows ==> Entitled(all, b.txns[k].address, i)
    {
      assert reg[k] == b.txns[k];
    }
  }

  /** A block that is valid by itself and whose inflows are spent once, in view of the chain below. */
  ghost predicate Fits(R: Rules, chain: seq<Block>, b: Block) {
    && ValidChain(R, chain) && CollisionFree(R, Preimages(chain + [b])) && Shape(R, b) && Follows(R, chain, b)
    && Coinbase(b).prevHash == Some(b.prevHash)
    && forall k, i :: 0 <= k < |b.txns| - 1 && i in b.txns[k].inflows ==>
      multiset(Refs(AllTxns(chain) + b.txns))[i] == 1
  }

  lemma PreimagesGrow(R: Rules, chain: seq<Block>, b: Block)
    requires CollisionFree(R, Preimages(chain + [b]))
    ensures CollisionFree(R, Preimages(chain))
    ensures forall t :: t in AllTxns(chain) || t in b.txns ==> DataCsv(t) in Preimages(chain + [b])
  {
    hide AllTxns, DataCsv, Header, Preimages, CollisionFree;
    AllAppend(chain, b);
    ContentsGrow(AllTxns(chain), b.txns);
    HeadersGrow(chain, b);
    assert Preimages(chain) <= Preimages(chain + [b]) by { PreimagesAre(chain); PreimagesAre(chain + [b]); }
    CollisionFreePart(R, Preimages(chain + [b]), Preimages(chain));
    PreimagesAre(chain + [b]);
  }

  lemma PreimagesAre(chain: seq<Block>)
    ensures Preimages(chain) == Headers(chain) + Contents(AllTxns(chain)) + {GENESIS}
  {
  }

  lemma ContentsGrow(a: seq<Txn>, b: seq<Txn>)
    ensures Contents(a + b) == Contents(a) + Contents(b)
    ensures forall t :: t in a || t in b ==> DataCsv(t) in Contents(a + b)
  {
    hide DataCsv;
    var both := a + b;
    assert forall t :: t in both <==> t in a || t in b;
  }

  lemma HeadersGrow(chain: seq<Block>, b: Block)
    ensures Headers(chain) <= Headers(chain + [b])
  {
    hide Header;
    var both := chain + [b];
    assert forall c :: c in chain ==> c in both;
  }

  /** The transactions of a block that is valid by itself. */
  lemma ShapeTxns(R: Rules, b: Block, k: nat)
    requires Shape(R, b) && k < |b.txns|
    ensures ValidTxn(R, b.txns[k])
    ensures k < |b.txns| - 1 ==> b.txns[k].inflows != [] && b.txns[k].prevHash == None
    ensures k == |b.txns| - 1 ==> b.txns[k].inflows == [] && b.txns[k].prevHash.Some?
    ensures b.txns[k].outflows != []
  {
    hide ValidHeader, ValidRegular, ValidCoinbase, Header, Leaves, InOrder, Timely;
    if k < |b.txns| - 1 {
      RegularSpends(R, b.txns[k]);
    } else {
      CoinbaseSpendsNothing(R, Coinbase(b));
    }
  }

  /** No earlier block names the same previous block. */
  lemma NewPrev(R: Rules, chain: seq<Block>, b: Block, m: nat)
    requires ValidChain(R, chain) && CollisionFree(R, Preimages(chain)) && Follows(R, chain, b) && m < |chain|
    ensures chain[m].prevHash != b.prevHash
  {
    hide ValidChain, CollisionFree, Preimages, Shape, Demanded;
    ChainLinks(R, chain, m);
    NotTheGenesisHash(R, chain, |chain| - 1);
    if m > 0 {
      DistinctHashes(R, chain, m - 1, |chain| - 1);
    }
  }

  /** Transactions at two places of `all` never share an inflow that is spent once. */
  lemma NotShared(all: seq<Txn>, p: nat, q: nat, i: Inflow)
    requires p < q < |all| && i in all[q].inflows && multiset(Refs(all))[i] == 1
    ensures i !in all[p].inflows
  {
    hide Refs;
    if i in all[p].inflows {
      RefsTwice(all, p, q, i);
    }
  }

  lemma NewTxid(R: Rules, chain: seq<Block>, b: Block, t: Txn, k: nat)
    requires Fits(R, chain, b) && t in AllTxns(chain) && k < |b.txns|
    ensures t.txid != b.txns[k].txid
  {
    hide ValidChain, ValidNext, CollisionFree, Preimages, Shape, Follows, AllTxns, Refs, ValidTxn, DataCsv;
    PreimagesGrow(R, chain, b);
    var u := b.txns[k];
    ShapeTxns(R, b, k);
    var m, j := TxnInBlock(chain, t);
    ValidAt(R, chain, m);
    AcceptedIsValid(R, chain[..m], chain[m], j);
    NewPrev(R, chain, b, m);
    if k < |b.txns| - 1 {
      var before := AllTxns(chain);
      var p :| 0 <= p < |before| && before[p] == t;
      var all := before + b.txns;
      assert all[p] == t && all[|before| + k] == u;
      NotShared(all, p, |before| + k, u.inflows[0]);
    }
    if t.txid == u.txid {
      SameTxidSameContent(R, Preimages(chain + [b]), t, u);
    }
  }

  lemma OwnTxids(R: Rules, chain: seq<Block>, b: Block, j: nat, k: nat)
    requires Fits(R, chain, b) && j < k < |b.txns|
    ensures b.txns[j].txid != b.txns[k].txid
  {
    hide ValidChain, ValidNext, CollisionFree, Preimages, Shape, Follows, AllTxns, Refs, ValidTxn, DataCsv;
    PreimagesGrow(R, chain, b);
    var t, u := b.txns[j], b.txns[k];
    ShapeTxns(R, b, j);
    ShapeTxns(R, b, k);
    if k < |b.txns| - 1 {
      var before := AllTxns(chain);
      var all := before + b.txns;
      assert all[|before| + j] == t && all[|before| + k] == u;
      NotShared(all, |before| + j, |before| + k, u.inflows[0]);
    }
    if t.txid == u.txid {
      SameTxidSameContent(R, Preimages(chain + [b]), t, u);
    }
  }

  lemma FittingDistinct(R: Rules, chain: seq<Block>, b: Block)
    requires Fits(R, chain, b)
    ensures DistinctTxids(AllTxns(chain) + b.txns)
  {
    hide ValidChain, CollisionFree, Preimages, Shape, Follows, AllTxns, Refs, Fits;
    assert ValidChain(R, chain) && CollisionFree(R, Preimages(chain)) by { FittingChain(R, chain, b); }
    TxidsUnique(R, chain);
    forall j, k | 0 <= j < k < |b.txns|
      ensures b.txns[j].txid != b.txns[k].txid
    {
      OwnTxids(R, chain, b, j, k);
    }
    forall t, u | t in AllTxns(chain) && u in b.txns
      ensures t.txid != u.txid
    {
      var k :| 0 <= k < |b.txns| && b.txns[k] == u;
      NewTxid(R, chain, b, t, k);
    }
    AppendDistinct(AllTxns(chain), b.txns);
  }

  lemma FittingChain(R: Rules, chain: seq<Block>, b: Block)
    requires Fits(R, chain, b)
    ensures ValidChain(R, chain) && CollisionFree(R, Preimages(chain))
  {
    PreimagesGrow(R, chain, b);
  }

  /** An entitled inflow passes the check, with the outflow it names. */
  lemma EntitledPasses(chain: seq<Block>, txns: seq<Txn>, t: Txn, i: Inflow)
    requires DistinctTxids(AllTxns(chain) + txns) && Entitled(AllTxns(chain) + txns, t.address, i)
    requires forall s :: s in AllTxns(chain) + txns ==> ValidFlows([], s.outflows)
    ensures var all := AllTxns(chain) + txns;
      && Source(all, i).Some? && CheckInflow(View(chain, txns), t, i, true) == Ok(Source(all, i).value)
      && ValidOutflow(Source(all, i).value) && Source(all, i).value.rescind == None
  {
    hide AllTxns, Refs, Find, DistinctTxids, IsAddress, Lookup;
    var before := AllTxns(chain);
    var all := before + txns;
    var s :| s in all && Provides(s, t.address, i);
    FindDistinct(all, s);
    LookupIs(chain, txns, s);
    RefsAppend(before, txns);
    var o := s.outflows[i.outflowIdx];
    assert ValidOutflow(o);
    if o.address.Some? {
      AddressNotEmpty(o.address.value);
    }
  }

  lemma LookupIs(chain: seq<Block>, txns: seq<Txn>, s: Txn)
    requires DistinctTxids(AllTxns(chain) + txns) && s in AllTxns(chain) + txns
    ensures Lookup(View(chain, txns), s.txid) == Some(s)
  {
    hide AllTxns, Find, DistinctTxids;
    var all := AllTxns(chain) + txns;
    FindDistinct(all, s);
    assert forall t :: t in txns ==> t in all;
    assert forall t :: t in AllTxns(chain) ==> t in all;
    FindAnswers(txns, s.txid);
    FindAnswers(AllTxns(chain), s.txid);
    if Find(txns, s.txid).Some? {
      FindInPart(all, txns, s.txid);
    } else {
      FindInPart(all, AllTxns(chain), s.txid);
    }
  }

  lemma ValidOutflows(R: Rules, chain: seq<Block>, b: Block)
    requires ValidChain(R, chain) && Shape(R, b)
    ensures forall s :: s in AllTxns(chain) + b.txns ==> ValidFlows([], s.outflows)
  {
    hide ValidChain, ValidNext, Shape, AllTxns, ValidTxn, ValidOutflow;
    forall s | s in AllTxns(chain) + b.txns
      ensures ValidFlows([], s.outflows)
    {
      if s in AllTxns(chain) {
        var m, k := TxnInBlock(chain, s);
        ValidAt(R, chain, m);
        AcceptedIsValid(R, chain[..m], chain[m], k);
      } else {
        var k :| 0 <= k < |b.txns| && b.txns[k] == s;
        ShapeTxns(R, b, k);
      }
      ValidTxnOutflow(R, s, 0);
    }
  }

  lemma LawfulIsAccepted(R: Rules, chain: seq<Block>, b: Block)
    requires ValidChain(R, chain) && CollisionFree(R, Preimages(chain + [b])) && Lawful(R, chain, b)
    ensures ValidNext(R, chain, b)
  {
    hide ValidChain, CollisionFree, Preimages, Shape, Sealed, Follows, CheckLink, AllTxns, Balanced, RouteAll, Minted,
      PaysOut, CheckTxns, CheckCoinbase, ValidFlows, Resolved, DistinctTxids, Refs, Provides, Ordinary, Milled,
      ValidOutflow, Source, CheckInflow;
    ShapeIff(R, b);
    ShapeTimestamp(R, b);
    LinkIff(R, chain, b);
    var v, all, reg := View(chain, b.txns), AllTxns(chain) + b.txns, Regular(b);
    assert Fits(R, chain, b);
    FittingDistinct(R, chain, b);
    ValidOutflows(R, chain, b);
    forall k | 0 <= k < |reg|
      ensures Cleared(v, all, reg[k]) && ValidFlows([], reg[k].outflows)
    {
      assert reg[k] == b.txns[k] && b.txns[k] in all;
      forall i | i in reg[k].inflows
        ensures Source(all, i).Some? && CheckInflow(v, reg[k], i, true) == Ok(Source(all, i).value)
        ensures ValidOutflow(Source(all, i).value) && Source(all, i).value.rescind == None
      {
        EntitledPasses(chain, b.txns, b.txns[k], i);
      }
    }
    ClearedTxns(v, all, reg);
    ShapeTxns(R, b, |b.txns| - 1);
    CoinbaseIff(b, Minted(all, reg));
  }

  /** On top of an accepted chain the validators accept a block if and only if it is lawful. */
  lemma NextIff(R: Rules, chain: seq<Block>, b: Block)
    requires ValidChain(R, chain) && CollisionFree(R, Preimages(chain + [b]))
    ensures ValidNext(R, chain, b) <==> Lawful(R, chain, b)
  {
    hide ValidChain, CollisionFree, Preimages, ValidNext, Lawful;
    if ValidNext(R, chain, b) {
      AcceptedIsLawful(R, chain, b);
    }
    if Lawful(R, chain, b) {
      LawfulIsAccepted(R, chain, b);
    }
  }

  // ---- why money is refused --------------------------------------------------------------------

  /** `s` has the outflow the inflow names. */
  predicate Offers(s: Txn, i: Inflow) {
    s.txid == i.outflowTxid && 0 <= i.outflowIdx < |s.outflows|
  }

  /** The four refusals of an inflow: no such outflow, a rescind, somebody else's, used already. */
  lemma InflowRefusals(v: View, t: Txn, i: Inflow, inBlock: bool, s: Txn)
    requires DistinctTxids(AllTxns(v.chain) + v.pending) && s in AllTxns(v.chain) + v.pending && Offers(s, i)
    ensures var o, r := s.outflows[i.outflowIdx], CheckInflow(v, t, i, inBlock);
      if o.rescind.Some? then r == Err(InvalidInflowOutflow)
      else if !Truthy(o.address) && s.address != t.address then r == Err(AddressMismatch)
      else if Truthy(o.address) && o.address.value != t.address then r == Err(AddressMismatch)
      else
        var mined, waiting := i in Refs(AllTxns(v.chain)), multiset(Refs(v.pending))[i];
        var free := if inBlock then waiting <= 1 && !(mined && waiting == 1) else waiting == 0 && !mined;
        r == if free then Ok(o) else Err(Spent)
  {
    hide AllTxns, Refs, DistinctTxids;
    LookupIs(v.chain, v.pending, s);
  }

  lemma MissingInflow(v: View, t: Txn, i: Inflow, inBlock: bool)
    requires forall s :: s in AllTxns(v.chain) + v.pending ==> !Offers(s, i)
    ensures CheckInflow(v, t, i, inBlock) == Err(MissingInflowOutflow)
  {
    hide AllTxns, Refs;
    FindAnswers(v.pending, i.outflowTxid);
    FindAnswers(AllTxns(v.chain), i.outflowTxid);
    assert forall s :: s in v.pending || s in AllTxns(v.chain) ==> s in AllTxns(v.chain) + v.pending;
  }

  /** A transaction is refused for its first bad inflow; without one, for not being balanced. */
  lemma TxnRefusals(v: View, t: Txn, inBlock: bool, k: nat, os: seq<Outflow>)
    requires k <= |t.inflows| && |os| == k
    requires forall j :: 0 <= j < k ==> CheckInflow(v, t, t.inflows[j], inBlock) == Ok(os[j])
    ensures k < |t.inflows| && CheckInflow(v, t, t.inflows[k], inBlock).Err? ==>
      CheckTxn(v, t, inBlock) == Err(CheckInflow(v, t, t.inflows[k], inBlock).error)
    ensures k == |t.inflows| && Positive(RouteAll(os), t.outflows) ==>
      (CheckTxn(v, t, inBlock) == Err(Imbalanced) <==> !Balanced(RouteAll(os), t.outflows))
      && (CheckTxn(v, t, inBlock).Ok? <==> Balanced(RouteAll(os), t.outflows))
  {
    hide CheckInflow, Drains, Balanced, Positive, MetricsOf;
    ConsumedSoFar(v, t, inBlock, k, os);
    if k < |t.inflows| && CheckInflow(v, t, t.inflows[k], inBlock).Err? {
      assert t.inflows[..k + 1][..k] == t.inflows[..k];
      ConsumeFails(v, t, t.inflows, k + 1, inBlock);
    }
    if k == |t.inflows| && Positive(RouteAll(os), t.outflows) {
      assert t.inflows[..k] == t.inflows;
      DrainsIffBalanced(RouteAll(os), t.outflows);
    }
  }

  lemma {:induction false} ConsumedSoFar(v: View, t: Txn, inBlock: bool, k: nat, os: seq<Outflow>)
    requires k <= |t.inflows| && |os| == k
    requires forall j :: 0 <= j < k ==> CheckInflow(v, t, t.inflows[j], inBlock) == Ok(os[j])
    ensures Consume(v, t, t.inflows[..k], inBlock) == Ok(os)
  {
    hide CheckInflow;
    if k > 0 {
      ConsumedSoFar(v, t, inBlock, k - 1, os[..k - 1]);
      assert t.inflows[..k][..k - 1] == t.inflows[..k - 1];
      assert os == os[..k - 1] + [os[k - 1]];
    }
  }

  /** A block's money is refused for its first bad transaction; without one, for what its coinbase pays
      after the reward, for the parent it names, or for the reward. */
  lemma MoneyRefusals(v: View, b: Block, k: nat)
    requires b.txns != [] && Coinbase(b).outflows != [] && k < |b.txns| && CheckTxns(v, b.txns[..k]).Ok?
    ensures k < |b.txns| - 1 && CheckTxn(v, b.txns[k], true).Err? ==>
      CheckMoney(v, b) == Some(InvalidTxn(CheckTxn(v, b.txns[k], true).error))
    ensures k == |b.txns| - 1 ==>
      var m, cb := CheckTxns(v, b.txns[..k]).value, b.txns[k];
      CheckMoney(v, b) ==
        if Amounts(cb.outflows)[1..] != Positives([m.schadenfreude, m.grace, m.mudita, m.regret])
          then Some(InvalidCoinbase)
        else if cb.prevHash != Some(b.prevHash) then Some(MismatchedCoinbase)
        else if cb.outflows[0].amount != 500 then Some(InvalidReward)
        else None
  {
    hide CheckTxn, Positives;
    if k < |b.txns| - 1 {
      if CheckTxn(v, b.txns[k], true).Err? {
        var reg := Regular(b);
        assert reg[..k + 1][..k] == b.txns[..k] && reg[..k + 1][k] == b.txns[k];
        CheckTxnsFails(v, reg, k + 1);
      }
    } else {
      PositivesAre(CheckTxns(v, b.txns[..k]).value);
      var outs := Coinbase(b).outflows;
      assert Amounts(outs)[1..] == Amounts(outs[1..]);
    }
  }
}
