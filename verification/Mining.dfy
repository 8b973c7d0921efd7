/** The miller: a template on the node's longest chain out of the pending pool. */
module Mining {
  import opened Prelude
  import opened Payload
  import opened Transactions
  import opened Order
  import opened Blocks
  import opened Pools
  import opened Ledger
  import opened LedgerTheory
  import opened Unspent
  import opened Revalidation
  import opened Tree
  import opened Store
  import opened Assembly
  import opened Template
  import Db = ChainStore
  import Conservation
  import opened Protocol

  /** The persisted chain that ends in `tip`. */
  ghost function ChainTo(t: Table, tip: Option<Hash>): seq<Block>
    requires Rooted(t) && (tip.Some? ==> tip.value in t)
  {
    if tip.Some? then Path(t, tip.value) else []
  }

  predicate HasTxid(txns: seq<Txn>, txid: string) {
    exists t :: t in txns && t.txid == txid
  }

  /** The pool without the rows of the evicted transactions. */
  function Without(pool: seq<Txn>, evicted: seq<Txn>): seq<Txn> {
    if pool == [] then []
    else
      var init := Without(pool[..|pool| - 1], evicted);
      if HasTxid(evicted, pool[|pool| - 1].txid) then init else init + [pool[|pool| - 1]]
  }

  /** What is left of the pool: every entry whose txid was not evicted. */
  lemma {:induction false} WithoutAre(pool: seq<Txn>, evicted: seq<Txn>)
    ensures forall t :: t in Without(pool, evicted) <==> t in pool && forall u :: u in evicted ==> u.txid != t.txid
  {
    if pool != [] {
      var n := |pool| - 1;
      WithoutAre(pool[..n], evicted);
      assert pool == pool[..n] + [pool[n]];
    }
  }

  lemma {:induction false} WithoutOne(pool: seq<Txn>, evicted: seq<Txn>, t: Txn)
    ensures Without(Without(pool, evicted), [t]) == Without(pool, evicted + [t])
  {
    if pool != [] {
      var init, last := pool[..|pool| - 1], pool[|pool| - 1];
      WithoutOne(init, evicted, t);
      assert HasTxid(evicted + [t], last.txid) <==> HasTxid(evicted, last.txid) || HasTxid([t], last.txid) by {
        TxidOfSnoc(evicted, t, last.txid);
      }
      var kept := Without(init, evicted);
      assert (kept + [last])[..|kept|] == kept;
    }
  }

  lemma TxidOfSnoc(txns: seq<Txn>, t: Txn, txid: string)
    ensures HasTxid(txns + [t], txid) <==> HasTxid(txns, txid) || HasTxid([t], txid)
  {
    var both := txns + [t];
    assert forall u :: u in both <==> u in txns || u == t;
  }

  lemma {:induction false} WithoutNone(pool: seq<Txn>)
    ensures Without(pool, []) == pool
  {
    if pool != [] {
      WithoutNone(pool[..|pool| - 1]);
    }
  }

  /** The pool without its expired rows. */
  function Live(R: Rules, clock: int, pool: seq<Txn>): seq<Txn> {
    if pool == [] then []
    else
      var init, t := Live(R, clock, pool[..|pool| - 1]), pool[|pool| - 1];
      if Alive(R, clock, t) then init + [t] else init
  }

  lemma {:induction false} LiveAre(R: Rules, clock: int, pool: seq<Txn>)
    ensures forall t :: t in Live(R, clock, pool) <==>
      t in pool && R.instant(t.timestamp).Some? && clock - R.instant(t.timestamp).value <= 4 * 60 * 60
  {
    if pool != [] {
      var n := |pool| - 1;
      LiveAre(R, clock, pool[..n]);
      assert pool == pool[..n] + [pool[n]];
    }
  }

  /** Sweeping the pool before the draft is filled changes nothing about the draft. */
  lemma {:induction false} SweepKeepsDraft(R: Rules, swept: int, clock: int, chain: seq<Block>, pool: seq<Txn>)
    requires swept <= clock
    ensures Assemble(R, clock, chain, Live(R, swept, pool)) == Assemble(R, clock, chain, pool)
  {
    if pool != [] {
      hide CheckTxn, MayAppend, Fresh, Assemble;
      var init, t := pool[..|pool| - 1], pool[|pool| - 1];
      SweepKeepsDraft(R, swept, clock, chain, init);
      AssembleSnoc(R, clock, chain, pool);
      var live := Live(R, swept, init);
      if Alive(R, swept, t) {
        assert (live + [t])[..|live|] == live;
        AssembleSnoc(R, clock, chain, live + [t]);
      }
    }
  }

  /** What the miller signs and stamps with. */
  datatype Seal = Seal(sign: string -> string, address: string, coinbaseStamp: string, stamp: string, pow: nat)

  ghost function TemplateOf(R: Rules, chain: seq<Block>, d: Draft, seal: Seal): Block {
    var coinbase := MakeCoinbase(R, seal.sign, seal.coinbaseStamp, seal.address, d.metrics, TipHash(R, chain));
    SealBlock(R, chain, d.txns, coinbase, seal.stamp, seal.pow)
  }

  class Miller {
    const store: Db.ChainStore
    var pool: seq<Txn>

    constructor (store: Db.ChainStore)
      ensures this.store == store && pool == []
    {
      this.store := store;
      pool := [];
    }

    /** Not yet mined on the chain under the template. */
    method IsFresh(tip: Option<Hash>, t: Txn) returns (r: bool)
      requires store.Valid() && (tip.Some? ==> tip.value in store.blocks)
      ensures Rooted(store.blocks) && r == Fresh(ChainTo(store.blocks, tip), t)
    {
      hide Db.ChainStore.Valid, Rooted, Path, AllTxns;
      store.IsRooted();
      FindNothing(t.txid);
      if tip.None? {
        Db.NoChainTxns(t.txid);
        return true;
      }
      var found := store.GetTransaction(Db.Persisted(tip.value), t.txid);
      return found.None?;
    }

    method FillDraft(tip: Option<Hash>, clock: int) returns (d: Draft)
      requires store.Valid() && (tip.Some? ==> tip.value in store.blocks)
      ensures Rooted(store.blocks) && d == Assemble(store.R, clock, ChainTo(store.blocks, tip), pool)
    {
      hide Db.ChainStore.Valid, Rooted, Path, CheckTxn, MayAppend, Fresh, Alive, AllTxns;
      store.IsRooted();
      ghost var chain := ChainTo(store.blocks, tip);
      d := EMPTY_DRAFT;
      for k := 0 to |pool|
        invariant d == Assemble(store.R, clock, chain, pool[..k])
      {
        Snoc(pool, k);
        var t := pool[k];
        if |d.txns| >= MAX_TRANSACTIONS - 1 {
          FullStaysFull(store.R, clock, chain, pool, k);
          return;
        }
        if Alive(store.R, clock, t) {
          var isFresh := IsFresh(tip, t);
          if isFresh {
            var m := store.ValidateBlockTxn(Db.Above(tip, d.txns), t, false);
            if m.Ok? && MayAppend(store.R, d.txns, t) {
              d := Draft(d.txns + [t], d.discarded, d.metrics.Plus(m.value));
            } else {
              d := Draft(d.txns, d.discarded + [t], d.metrics);
            }
          }
        }
      }
      assert pool[..|pool|] == pool;
    }

    method Evict(discarded: seq<Txn>)
      modifies this`pool
      ensures pool == Without(old(pool), discarded)
    {
      hide HasTxid, Without;
      WithoutNone(pool);
      for k := 0 to |discarded|
        invariant pool == Without(old(pool), discarded[..k])
      {
        Snoc(discarded, k);
        WithoutOne(old(pool), discarded[..k], discarded[k]);
        pool := Without(pool, [discarded[k]]);
      }
      assert discarded[..|discarded|] == discarded;
    }

    method DiscardExpired(clock: int)
      modifies this`pool
      ensures pool == Live(store.R, clock, old(pool))
    {
      pool := Live(store.R, clock, pool);
    }

    /** Where the next block goes: on the winning row, at the height and target above it. */
    method LinkBlock() returns (tip: Option<Hash>, height: nat, prevHash: string, target: string)
      requires store.Valid()
      ensures Rooted(store.blocks) && (tip.None? <==> store.rows == map[])
      ensures tip.Some? ==>
        store.rows.Keys <= store.blocks.Keys && Wins(store.R, store.blocks, store.rows.Keys, tip.value)
      ensures tip.Some? ==> tip.value in store.blocks
      ensures var chain := ChainTo(store.blocks, tip);
        height == |chain| && prevHash == TipHash(store.R, chain) && target == TargetAfter(store.R, chain)
    {
      hide Db.ChainStore.Valid, Rooted, AllValid, Path, TargetAfter, BlockTarget, ValidChain, CollisionFree,
        Preimages, DistinctTxids, AllTxns, Wins;
      store.IsRooted();
      store.CacheIsSomePath();
      tip := store.Longest();
      WinnerStored(store.R, store.blocks, store.rows.Keys);
      ghost var chain := ChainTo(store.blocks, tip);
      if tip.Some? {
        store.PathFacts(tip.value);
        PathLast(store.blocks, tip.value);
      }
      assert ValidChain(store.R, chain) by { Db.NoBlocksValid(store.R); }
      TargetIsStable(store.R, chain, |chain|);
      assert chain[..|chain|] == chain;
      height := if tip.Some? then store.blocks[tip.value].idx + 1 else 0;
      prevHash := if tip.Some? then tip.value else store.R.hash(GENESIS);
      target := store.TargetAt(tip, height);
    }

    /** Link to the longest chain, sweep the pool and fill from it, evict what failed, seal. The clock is
        read for the sweep and again for the draft. */
    method CreateBlock(swept: int, clock: int, seal: Seal) returns (b: Block, ghost tip: Option<Hash>)
      requires store.Valid()
      modifies this`pool
      ensures store.Valid() && Rooted(store.blocks)
      ensures tip.None? <==> store.rows == map[]
      ensures tip.Some? ==>
        store.rows.Keys <= store.blocks.Keys && Wins(store.R, store.blocks, store.rows.Keys, tip.value)
      ensures var chain := ChainTo(store.blocks, tip); var live := Live(store.R, swept, old(pool));
        var d := Assemble(store.R, clock, chain, live);
        && b == TemplateOf(store.R, chain, d, seal) && pool == Without(live, d.discarded)
        && (swept <= clock ==> d == Assemble(store.R, clock, chain, old(pool)))
    {
      hide Db.ChainStore.Valid, Rooted, AllValid, Path, Assemble, TargetAfter, Without, CanonicalOrder,
        Header, Leaves, MakeCoinbase, Wins, Live, TipHash;
      var longest, height, prevHash, target := LinkBlock();
      tip := longest;
      ghost var chain := ChainTo(store.blocks, longest);
      DiscardExpired(swept);
      var d := FillDraft(longest, clock);
      if swept <= clock {
        SweepKeepsDraft(store.R, swept, clock, chain, old(pool));
      }
      Evict(d.discarded);
      var coinbase := MakeCoinbase(store.R, seal.sign, seal.coinbaseStamp, seal.address, d.metrics, prevHash);
      var txns := CanonicalOrder(d.txns) + [coinbase];
      b := Block(height, seal.stamp, "", prevHash, target, seal.pow, store.R.merkle(Leaves(txns)), txns);
      b := b.(hash := store.R.hash(Header(b)));
    }
  }

  predicate AllTo(outs: seq<Outflow>, address: string) {
    forall o :: o in outs ==> o == Outflow(o.amount, Some(address), None, None, None, None)
  }

  lemma PaidOne(n: int, address: string)
    ensures Amounts(PaysIfAny(n, address)) == NonZero(n) && AllTo(PaysIfAny(n, address), address)
  {
  }

  lemma PaidBoth(a: seq<Outflow>, b: seq<Outflow>, address: string)
    requires AllTo(a, address) && AllTo(b, address)
    ensures Amounts(a + b) == Amounts(a) + Amounts(b) && AllTo(a + b, address)
  {
  }

  lemma PaidOut(m: Metrics, address: string)
    ensures PaysOut(CoinbaseOutflows(m, address), m) && AllTo(CoinbaseOutflows(m, address), address)
  {
    hide PaysIfAny, Positives, AllTo, Amounts;
    var r, a, b, c, d := PaysIfAny(REWARD, address), PaysIfAny(m.schadenfreude, address),
      PaysIfAny(m.grace, address), PaysIfAny(m.mudita, address), PaysIfAny(m.regret, address);
    PaidOne(REWARD, address);
    PaidOne(m.schadenfreude, address);
    PaidOne(m.grace, address);
    PaidOne(m.mudita, address);
    PaidOne(m.regret, address);
    PaidBoth(r, a, address);
    PaidBoth(r + a, b, address);
    PaidBoth(r + a + b, c, address);
    PaidBoth(r + a + b + c, d, address);
    PositivesAre(m);
    assert Amounts(r + a + b + c + d) == [500] + NonZeroAmounts(m);
    PaysAmounts(CoinbaseOutflows(m, address), m);
  }

  lemma PaysAmounts(outs: seq<Outflow>, m: Metrics)
    requires Amounts(outs) == [500] + Positives([m.schadenfreude, m.grace, m.mudita, m.regret])
    ensures PaysOut(outs, m)
  {
    hide Positives;
    forall k | 0 <= k < |outs|
      ensures outs[k].amount == Amounts(outs)[k]
    {
    }
  }

  lemma SignatureApart(t: Txn, signature: string)
    ensures SigningData(t.(signature := signature)) == SigningData(t)
  {
  }

  /** A template holds the draft in canonical order and a coinbase of the miller's own, which pays the
      reward and then what the draft mints, all of it to the miller. */
  lemma SealedTemplate(R: Rules, chain: seq<Block>, d: Draft, seal: Seal)
    ensures var b := TemplateOf(R, chain, d, seal);
      && b.timestamp == seal.stamp && b.proofOfWork == seal.pow && b.idx == |chain|
      && b.txns != [] && b.txns[..|b.txns| - 1] == CanonicalOrder(d.txns)
      && var cb := b.txns[|b.txns| - 1];
        && cb.timestamp == seal.coinbaseStamp && cb.address == seal.address && cb.inflows == []
        && cb.prevHash == Some(b.prevHash) && cb.signature == seal.sign(SigningData(cb))
        && PaysOut(cb.outflows, d.metrics) && AllTo(cb.outflows, seal.address)
  {
    hide TargetAfter, DataCsv, Header, Leaves, CanonicalOrder, PaysOut, AllTo, CoinbaseOutflows, SigningData;
    var t := Txn(seal.coinbaseStamp, "", seal.address, "", [], CoinbaseOutflows(d.metrics, seal.address),
                 Some(TipHash(R, chain)));
    var named := t.(txid := R.hash(DataCsv(t)));
    SignatureApart(named, seal.sign(SigningData(named)));
    PaidOut(d.metrics, seal.address);
  }

  lemma WinnerStored(R: Rules, t: Table, hs: set<Hash>)
    ensures hs <= t.Keys ==> forall h :: Wins(R, t, hs, h) ==> h in t
  {
  }

  // ---- the block against the tables ------------------------------------------------------------

  lemma TemplateVerdict(R: Rules, now: int, t: Table, tip: Option<Hash>, b: Block)
    requires Rooted(t) && AllValid(R, t) && (if tip.Some? then tip.value in t else t == map[])
    requires var chain := ChainTo(t, tip); b.prevHash == TipHash(R, chain) && b.idx == |chain| && b.hash !in t
    ensures var chain := ChainTo(t, tip);
      var genesis := if chain == [] then None else Some(chain[0].hash);
      Verdict(R, now, t, b) == Judge(R, now, genesis, chain, View(chain, b.txns), b)
  {
    hide Rooted, Path, Shape, CheckMoney, CheckLink, ValidChain;
    if tip.Some? {
      PathLast(t, tip.value);
    }
  }

  /** A template solved on the longest chain: what the miller needs and what is assumed of the texts. */
  ghost predicate Solved(R: Rules, s: State, tip: Option<Hash>, d: Draft, seal: Seal, texts: set<string>)
    requires Rooted(s.blocks) && (if tip.Some? then tip.value in s.blocks else s.blocks == map[])
  {
    var chain := ChainTo(s.blocks, tip);
    var b := TemplateOf(R, chain, d, seal);
    && DigestShapes(R) && Signs(R, seal.sign, seal.address)
    && ValidTimestamp(R, seal.stamp) && ValidTimestamp(R, seal.coinbaseStamp)
    && R.meets(b.hash, b.target) && b.hash !in s.blocks
    && CollisionFree(R, texts) && Preimages(chain) <= texts && Contents(b.txns) <= texts
    && forall h :: h in s.blocks ==> Contents(s.blocks[h].txns) <= texts
  }

  /** The conditions of `TemplateSound`. */
  ghost predicate Sound(R: Rules, chain: seq<Block>, d: Draft, seal: Seal, now: int) {
    R.instant(seal.stamp).Some? &&
    var at := R.instant(seal.stamp).value;
    && AllDistinctInflows(d.txns) && AllTimely(R, at, d.txns)
    && at <= now && (chain == [] || !Before(R, TemplateOf(R, chain, d, seal), chain[|chain| - 1]))
  }

  /** A template from a pool of distinct transactions is valid for the node exactly when it is sound. */
  lemma MinedBlockValid(R: Rules, s: State, tip: Option<Hash>, pool: seq<Txn>, clock: int, seal: Seal, now: int,
                        texts: set<string>)
    requires Inv(R, s) && DistinctTxids(pool) && (if tip.Some? then tip.value in s.blocks else s.blocks == map[])
    requires Solved(R, s, tip, Assemble(R, clock, ChainTo(s.blocks, tip), pool), seal, texts)
    ensures Rooted(s.blocks)
    ensures var chain := ChainTo(s.blocks, tip);
      var d := Assemble(R, clock, chain, pool);
      Verdict(R, now, s.blocks, TemplateOf(R, chain, d, seal)) == None <==> Sound(R, chain, d, seal, now)
  {
    hide Rooted, AllValid, Path, ValidChain, CollisionFree, Preimages, Contents, DataCsv, SealBlock,
      DigestShapes, Signs, Judge, Verdict, Assembled, DistinctTxids, AllTimely, AllDistinctInflows,
      MakeCoinbase, Assemble, Canonical, ValidRows, TipHash, Before;
    var chain := ChainTo(s.blocks, tip);
    var d := Assemble(R, clock, chain, pool);
    var b := TemplateOf(R, chain, d, seal);
    var cb := MakeCoinbase(R, seal.sign, seal.coinbaseStamp, seal.address, d.metrics, TipHash(R, chain));
    AssembleAssembles(R, clock, chain, pool);
    AssembleSelects(R, clock, chain, pool);
    ChainValid(R, s, tip);
    SealedParts(R, chain, d.txns, d.metrics, cb, seal.stamp, seal.pow);
    SealedTexts(d.txns, cb, b);
    TemplateVerdict(R, now, s.blocks, tip, b);
    TemplateSound(R, seal.sign, chain, d.txns, d.metrics, seal.stamp, seal.coinbaseStamp, seal.address, seal.pow,
      now, texts);
  }

  /** Some template transaction spends another one, and no stored block carries either of them. */
  predicate SpendsWithin(t: Table, txns: seq<Txn>) {
    exists spender, source, i :: spender in txns && source in txns && i in spender.inflows
      && i.outflowTxid == source.txid
      && !Carried(t, spender.txid) && !Carried(t, source.txid)
  }

  lemma ChainCarried(t: Table, tip: Option<Hash>, txn: Txn)
    requires Rooted(t) && (tip.Some? ==> tip.value in t) && txn in AllTxns(ChainTo(t, tip))
    ensures Carried(t, txn.txid)
  {
    hide Path, Rooted, AllTxns;
    assert AllTxns([]) == [] by { NoTxns(); }
    var m, k := TxnInBlock(Path(t, tip.value), txn);
    PathAt(t, tip.value, m);
    assert Carries(t[Path(t, tip.value)[m].hash], txn.txid);
  }

  lemma NoTxns()
    ensures AllTxns([]) == []
  {
  }

  /** A source without a row is one of the template's own transactions. */
  lemma FreshSourceWithin(R: Rules, t: Table, tip: Option<Hash>, txns: seq<Txn>, metrics: Metrics, k: nat, i: Inflow)
    returns (source: Txn)
    requires Rooted(t) && (tip.Some? ==> tip.value in t) && Assembled(R, ChainTo(t, tip), txns, metrics)
    requires k < |txns| && i in txns[k].inflows && !Carried(t, i.outflowTxid)
    ensures source in txns && source.txid == i.outflowTxid
  {
    hide Rooted, Path, Assembled, AllTxns, Refs, Find, OwnerOf, Carried;
    var chain := ChainTo(t, tip);
    UnusedSoFar(R, chain, txns, metrics, k, i);
    FindAnswers(txns[..k], i.outflowTxid);
    FindAnswers(AllTxns(chain), i.outflowTxid);
    source := Lookup(View(chain, txns[..k]), i.outflowTxid).value;
    if source in AllTxns(chain) {
      ChainCarried(t, tip, source);
    }
  }

  lemma WithinIsFresh(R: Rules, t: Table, tip: Option<Hash>, txns: seq<Txn>, metrics: Metrics, coinbase: Txn, b: Block)
    requires Rooted(t) && (tip.Some? ==> tip.value in t) && Assembled(R, ChainTo(t, tip), txns, metrics)
    requires b.txns == txns + [coinbase] && coinbase.inflows == []
    ensures NoFreshSpend(t, b) <==> !SpendsWithin(t, txns)
  {
    hide Rooted, Path, Assembled, Carried;
    assert forall txn :: txn in txns ==> txn in b.txns;
    if !SpendsWithin(t, txns) {
      forall txn, i | txn in b.txns && i in txn.inflows && !Carried(t, txn.txid)
        ensures Carried(t, i.outflowTxid)
      {
        var k :| 0 <= k < |txns| && txns[k] == txn;
        if !Carried(t, i.outflowTxid) {
          var source := FreshSourceWithin(R, t, tip, txns, metrics, k, i);
        }
      }
    }
  }

  /** The node stores the solved template exactly when it is sound, its nonce fits its column, and no
      template transaction spends another while no stored block carries either. */
  lemma MinedBlockAccepted(R: Rules, s: State, tip: Option<Hash>, pool: seq<Txn>, clock: int, seal: Seal, now: int,
                           texts: set<string>)
    requires Inv(R, s) && DistinctTxids(pool) && (if tip.Some? then tip.value in s.blocks else s.blocks == map[])
    requires Solved(R, s, tip, Assemble(R, clock, ChainTo(s.blocks, tip), pool), seal, texts)
    ensures Rooted(s.blocks)
    ensures var chain := ChainTo(s.blocks, tip);
      var d := Assemble(R, clock, chain, pool);
      Outcome(R, now, s.blocks, TemplateOf(R, chain, d, seal)) == None <==>
        Sound(R, chain, d, seal, now) && seal.pow < BIG_INTEGER && !SpendsWithin(s.blocks, d.txns)
  {
    hide Rooted, AllValid, Path, ValidChain, CollisionFree, Preimages, Contents, SealBlock, DigestShapes,
      Signs, Verdict, Assembled, Sound, MakeCoinbase, Assemble, Canonical, ValidRows, TipHash, Storable,
      NoFreshSpend, SpendsWithin, DistinctTxids;
    var chain := ChainTo(s.blocks, tip);
    var d := Assemble(R, clock, chain, pool);
    var b := TemplateOf(R, chain, d, seal);
    var cb := MakeCoinbase(R, seal.sign, seal.coinbaseStamp, seal.address, d.metrics, TipHash(R, chain));
    MinedBlockValid(R, s, tip, pool, clock, seal, now, texts);
    AssembleAssembles(R, clock, chain, pool);
    ChainValid(R, s, tip);
    SealedParts(R, chain, d.txns, d.metrics, cb, seal.stamp, seal.pow);
    CoinbaseHasNoInflows(R, seal, d.metrics, TipHash(R, chain));
    WithinIsFresh(R, s.blocks, tip, d.txns, d.metrics, cb, b);
    if Verdict(R, now, s.blocks, b) == None {
      StorableIff(R, now, s.blocks, b, texts);
    }
  }

  lemma CoinbaseHasNoInflows(R: Rules, seal: Seal, m: Metrics, prevHash: string)
    ensures MakeCoinbase(R, seal.sign, seal.coinbaseStamp, seal.address, m, prevHash).inflows == []
  {
    hide DataCsv, SigningData, CoinbaseOutflows;
  }

  lemma ChainValid(R: Rules, s: State, tip: Option<Hash>)
    requires Inv(R, s) && (tip.Some? ==> tip.value in s.blocks)
    ensures Rooted(s.blocks) && AllValid(R, s.blocks) && ValidChain(R, ChainTo(s.blocks, tip))
  {
    hide Rooted, Path, Canonical, ValidRows, ValidNext;
  }

  lemma SealedParts(R: Rules, chain: seq<Block>, txns: seq<Txn>, metrics: Metrics, coinbase: Txn, stamp: string,
                    pow: nat)
    requires Assembled(R, chain, txns, metrics)
    ensures var b := SealBlock(R, chain, txns, coinbase, stamp, pow);
      b.txns == txns + [coinbase] && b.prevHash == TipHash(R, chain) && b.idx == |chain| && b.proofOfWork == pow
  {
    hide Assembled, CanonicalOrder, Leaves, Header, TargetAfter, TipHash;
    AssembledInOrder(R, chain, txns, metrics);
  }

  lemma SealedTexts(txns: seq<Txn>, coinbase: Txn, b: Block)
    requires b.txns == txns + [coinbase]
    ensures Contents(txns) <= Contents(b.txns) && DataCsv(coinbase) in Contents(b.txns)
  {
    hide DataCsv;
    assert b.txns[|txns|] == coinbase;
    assert forall t :: t in txns ==> t in b.txns;
  }

  // ---- a template that validates and cannot be stored ------------------------------------------

  /** `b` passes on to an address what the first outflow of `a` gave it, and both come from the pool. */
  ghost predicate Handover(R: Rules, clock: int, chain: seq<Block>, a: Txn, b: Txn, dest: string) {
    && Alive(R, clock, a) && Alive(R, clock, b) && Fresh(chain, a) && Fresh(chain, b) && a.txid != b.txid
    && MayAppend(R, [], a) && MayAppend(R, [a], b) && CheckTxn(View(chain, []), a, false).Ok?
    && a.outflows != [] && a.outflows[0].address == Some(b.address)
    && b.inflows == [Inflow(a.txid, 0)] && b.outflows == [Pays(a.outflows[0].amount, dest)]
  }

  /** Nothing refers to a transaction that is not on the chain yet. */
  lemma FreshIsUnspent(R: Rules, chain: seq<Block>, a: Txn, i: Inflow)
    requires ValidChain(R, chain) && CollisionFree(R, Preimages(chain))
    requires Fresh(chain, a) && CheckTxn(View(chain, []), a, false).Ok? && i.outflowTxid == a.txid
    ensures i !in Refs(AllTxns(chain)) && i !in a.inflows
  {
    hide ValidChain, CollisionFree, Preimages, AllTxns, Refs, Find, OwnerOf, Drains, MetricsOf, RouteAll,
      CheckInflow;
    if i in Refs(AllTxns(chain)) {
      var m, k := Conservation.RefIsInflow(chain, i);
      Conservation.WhoSpends(R, chain, m, k, i);
    }
    if i in a.inflows {
      var j :| 0 <= j < |a.inflows| && a.inflows[j] == i;
      ConsumeAt(View(chain, []), a, a.inflows, false, j);
      UnknownSource(chain, a, i);
    }
  }

  lemma UnknownSource(chain: seq<Block>, a: Txn, i: Inflow)
    requires Fresh(chain, a) && i.outflowTxid == a.txid
    ensures CheckInflow(View(chain, []), a, i, false).Err?
  {
    hide AllTxns, Refs, OwnerOf;
    FindNothing(a.txid);
  }

  lemma HandoverChecks(R: Rules, clock: int, chain: seq<Block>, a: Txn, b: Txn, dest: string)
    requires ValidChain(R, chain) && CollisionFree(R, Preimages(chain)) && Handover(R, clock, chain, a, b, dest)
    ensures CheckTxn(View(chain, [a]), b, false).Ok?
  {
    hide ValidChain, CollisionFree, Preimages, AllTxns, Drains, MetricsOf, TxnLess, Alive, IsAddress,
      DataCsv, SigningData;
    var v, i, o := View(chain, [a]), Inflow(a.txid, 0), a.outflows[0];
    FreshIsUnspent(R, chain, a, i);
    RefsSnoc([], a);
    NoRefs();
    assert [] + [a] == [a];
    assert ValidOutflow(o) && ValidOutflow(b.outflows[0]);
    Payload.AddressText(b.address);
    assert CheckInflow(v, b, i, false) == Ok(o);
    var none: seq<Inflow> := [];
    assert Consume(v, b, none, false) == Ok([]);
    ConsumeSnoc(v, b, none, i, false);
    assert none + [i] == b.inflows;
    assert Consume(v, b, b.inflows, false).value == [o];
    OneToOne(RouteAll([o]), b.outflows[0], o.amount);
  }

  lemma OneToOne(ins: seq<Routed>, pay: Outflow, amount: int)
    requires ins == [Routed(amount, General)] && DestOf(pay) == Pay && pay.amount == amount
    ensures Drains(ins, [pay])
  {
    hide DestOf;
    assert ins[..0] == [];
    NoFlows(ins);
    FlowsSnoc(ins, [], pay);
    assert [] + [pay] == [pay];
    assert GeneralIn(ins) == GeneralIn(ins[..0]) + amount == amount;
    assert OwnLevel(ins, [], pay) == 0 && Drawn(ins, [pay]) == amount;
    forall p
      ensures In(ins, p) == 0 && Level(In(ins, p), [pay], p) == 0
    {
      assert In(ins, p) == In(ins[..0], p) == 0;
    }
  }

  lemma IsDrafted(R: Rules, clock: int, chain: seq<Block>, d: Draft, t: Txn)
    requires |d.txns| < MAX_TRANSACTIONS - 1 && Alive(R, clock, t) && Fresh(chain, t)
    requires CheckTxn(View(chain, d.txns), t, false).Ok? && MayAppend(R, d.txns, t)
    ensures Consider(R, clock, chain, d, t).txns == d.txns + [t]
  {
    hide CheckTxn, MayAppend, Alive, Fresh;
  }

  lemma TwoDrafted(R: Rules, clock: int, chain: seq<Block>, a: Txn, b: Txn)
    requires Alive(R, clock, a) && Alive(R, clock, b) && Fresh(chain, a) && Fresh(chain, b)
    requires MayAppend(R, [], a) && CheckTxn(View(chain, []), a, false).Ok?
    requires MayAppend(R, [a], b) && CheckTxn(View(chain, [a]), b, false).Ok?
    ensures Assemble(R, clock, chain, [a, b]).txns == [a, b]
  {
    hide CheckTxn, MayAppend, Alive, Fresh, Consider;
    assert [a][..0] == [] && [a, b][..1] == [a];
    AssembleSnoc(R, clock, chain, [a]);
    IsDrafted(R, clock, chain, EMPTY_DRAFT, a);
    assert [] + [a] == [a] && [a] + [b] == [a, b];
    assert Assemble(R, clock, chain, [a]).txns == [a];
    AssembleSnoc(R, clock, chain, [a, b]);
    IsDrafted(R, clock, chain, Assemble(R, clock, chain, [a]), b);
  }

  lemma HandoverIsDrafted(R: Rules, clock: int, chain: seq<Block>, a: Txn, b: Txn, dest: string)
    requires ValidChain(R, chain) && CollisionFree(R, Preimages(chain)) && Handover(R, clock, chain, a, b, dest)
    ensures Assemble(R, clock, chain, [a, b]).txns == [a, b]
  {
    hide ValidChain, CollisionFree, Preimages, CheckTxn, MayAppend, Alive, Fresh, Pays, Assemble;
    HandoverChecks(R, clock, chain, a, b, dest);
    TwoDrafted(R, clock, chain, a, b);
  }

  /** The miller's own template of two pool transactions, the second spending the first: sound and
      valid, and yet the node cannot store it. */
  lemma InTemplateSpendIsRefused(R: Rules, s: State, tip: Option<Hash>, a: Txn, b: Txn, dest: string, clock: int,
                                 seal: Seal, now: int, texts: set<string>)
    requires Inv(R, s) && (if tip.Some? then tip.value in s.blocks else s.blocks == map[])
    requires Handover(R, clock, ChainTo(s.blocks, tip), a, b, dest)
    requires !Carried(s.blocks, a.txid) && !Carried(s.blocks, b.txid)
    requires Solved(R, s, tip, Assemble(R, clock, ChainTo(s.blocks, tip), [a, b]), seal, texts)
    requires Sound(R, ChainTo(s.blocks, tip), Assemble(R, clock, ChainTo(s.blocks, tip), [a, b]), seal, now)
    ensures Rooted(s.blocks)
    ensures var chain := ChainTo(s.blocks, tip);
      var template := TemplateOf(R, chain, Assemble(R, clock, chain, [a, b]), seal);
      && (exists coinbase :: template.txns == [a, b, coinbase])
      && Verdict(R, now, s.blocks, template) == None
      && Outcome(R, now, s.blocks, template) == Some(Unstorable)
  {
    hide AllValid, Path, ValidChain, CollisionFree, Preimages, Contents, SealBlock, DigestShapes, Signs,
      Verdict, Sound, MakeCoinbase, Assemble, Canonical, ValidRows, TipHash, Storable, Carried, Rooted,
      CheckTxn, MayAppend, Alive, Fresh, Assembled;
    var chain := ChainTo(s.blocks, tip);
    var d := Assemble(R, clock, chain, [a, b]);
    var cb := MakeCoinbase(R, seal.sign, seal.coinbaseStamp, seal.address, d.metrics, TipHash(R, chain));
    ChainValid(R, s, tip);
    CollisionFreePart(R, texts, Preimages(chain));
    HandoverIsDrafted(R, clock, chain, a, b, dest);
    MinedBlockValid(R, s, tip, [a, b], clock, seal, now, texts);
    MinedBlockAccepted(R, s, tip, [a, b], clock, seal, now, texts);
    assert Inflow(a.txid, 0) in b.inflows && a in d.txns && b in d.txns;
    assert SpendsWithin(s.blocks, d.txns);
    AssembleAssembles(R, clock, chain, [a, b]);
    SealedParts(R, chain, d.txns, d.metrics, cb, seal.stamp, seal.pow);
    assert [a, b] + [cb] == [a, b, cb];
  }
}
