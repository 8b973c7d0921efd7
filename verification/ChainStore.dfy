/** The node's tables updated in place: validation against them, fork choice, and the repair of the
    materialised longest chain. */
module ChainStore {
  import opened Prelude
  import opened Payload
  import opened Transactions
  import opened Order
  import opened Blocks
  import opened Pools
  import opened Ledger
  import opened LedgerTheory
  import opened Unspent
  import opened Revalidation
  import opened Tree
  import opened Store
  import opened ForkChoice
  import opened Ancestry

  /** Where lookups start: at a persisted block, or at a block under way above its parent. */
  datatype Start = Persisted(hash: Hash) | Above(parent: Option<Hash>, txns: seq<Txn>)

  ghost predicate StartsIn(t: Table, start: Start) {
    match start
    case Persisted(h) => h in t
    case Above(parent, _) => parent.Some? ==> parent.value in t
  }

  ghost function ViewFrom(t: Table, start: Start): View
    requires Rooted(t) && StartsIn(t, start)
  {
    match start
    case Persisted(h) => View(Path(t, h), [])
    case Above(parent, txns) => View(if parent.Some? then Path(t, parent.value) else [], txns)
  }

  function StartOf(t: Table, b: Block): Start {
    if b.hash in t then Persisted(b.hash) else Above(if b.prevHash in t then Some(b.prevHash) else None, b.txns)
  }

  /** The digest's inputs for one block. */
  function BlockTexts(b: Block): set<string> {
    {Header(b)} + Contents(b.txns)
  }

  /** The positions of the first `n` blocks of a path. */
  ghost function PrefixMap(t: Table, h: Hash, n: nat): map<Hash, nat>
    requires Rooted(t) && h in t
  {
    map g | g in t && 0 <= t[g].idx < n && OnPath(t, g, h) :: t[g].idx
  }

  lemma PrefixMapSnoc(t: Table, h: Hash, n: nat)
    requires Rooted(t) && h in t && n < |Path(t, h)|
    ensures var x := Path(t, h)[n].hash;
      && PrefixMap(t, h, n + 1) == PrefixMap(t, h, n)[x := n]
      && x !in PrefixMap(t, h, n) && forall y :: y in PrefixMap(t, h, n) ==> PrefixMap(t, h, n)[y] != n
  {
    hide Path, Rooted;
    PathAt(t, h, n);
    var x := Path(t, h)[n].hash;
    assert forall g :: g in PrefixMap(t, h, n + 1) <==> g in PrefixMap(t, h, n) || g == x;
  }

  lemma PrefixMapBounds(t: Table, h: Hash)
    requires Rooted(t) && h in t
    ensures PrefixMap(t, h, 0) == map[] && PrefixMap(t, h, |Path(t, h)|) == PathMap(t, h)
  {
    hide Rooted;
  }

  /** What is left of a cached path once it is cut above the common ancestor. */
  lemma TruncatedIsPrefix(t: Table, mat: map<Hash, nat>, h: Hash, divergent: seq<Hash>, cap: Option<nat>)
    requires Rooted(t) && h in t && SomePath(t, mat) && Splits(t, mat, h, divergent, cap) && cap.Some?
    ensures cap.value == |Path(t, h)| - 1 - |divergent|
    ensures (map x | x in mat && mat[x] <= cap.value :: mat[x]) == PrefixMap(t, h, cap.value + 1)
  {
    hide Path, Rooted;
    var path := Path(t, h);
    var k := |path| - 1 - |divergent|;
    var g :| g in t && mat == PathMap(t, g);
    PathAt(t, h, k);
    var c := path[k].hash;
    assert OnPath(t, c, g) && OnPath(t, c, h) && cap.value == k;
    CutAt(t, g, h, c);
  }

  lemma CutAt(t: Table, g: Hash, h: Hash, c: Hash)
    requires Rooted(t) && g in t && h in t && OnPath(t, c, g) && OnPath(t, c, h)
    ensures var mat := PathMap(t, g);
      (map x | x in mat && mat[x] <= t[c].idx :: mat[x]) == PrefixMap(t, h, t[c].idx + 1)
  {
    hide Path, Rooted, OnPath;
    var mat := PathMap(t, g);
    assert t[c].idx >= 0 by { OnPathBounds(t, c, g); }
    forall x | x in t
      ensures (x in mat && mat[x] <= t[c].idx) <==> x in PrefixMap(t, h, t[c].idx + 1)
    {
      CappedIsPrefix(t, g, h, c, x);
    }
  }

  lemma OnPathBounds(t: Table, c: Hash, g: Hash)
    requires Rooted(t) && g in t && OnPath(t, c, g)
    ensures c in t && 0 <= t[c].idx <= t[g].idx
  {
  }

  lemma PathTexts(R: Rules, t: Table, h: Hash, texts: set<string>)
    requires Rooted(t) && h in t && GENESIS in texts && forall g :: g in t ==> BlockTexts(t[g]) <= texts
    ensures Preimages(Path(t, h)) <= texts
  {
    hide Path, Rooted, Header, DataCsv, AllTxns;
    var path := Path(t, h);
    forall x | x in Headers(path)
      ensures x in texts
    {
      var b :| b in path && x == Header(b);
      var k :| 0 <= k < |path| && path[k] == b;
      PathAt(t, h, k);
      assert x in BlockTexts(b);
    }
    forall x | x in Contents(AllTxns(path))
      ensures x in texts
    {
      var txn :| txn in AllTxns(path) && x == DataCsv(txn);
      var m, k := TxnInBlock(path, txn);
      PathAt(t, h, m);
      assert x in Contents(path[m].txns);
      assert x in BlockTexts(path[m]);
    }
  }

  lemma PathIsValid(R: Rules, t: Table, h: Hash, texts: set<string>)
    requires Rooted(t) && AllValid(R, t) && h in t && GENESIS in texts && CollisionFree(R, texts)
    requires forall g :: g in t ==> BlockTexts(t[g]) <= texts
    ensures ValidChain(R, Path(t, h)) && CollisionFree(R, Preimages(Path(t, h))) && DistinctTxids(AllTxns(Path(t, h)))
  {
    hide Path, Rooted, ValidChain, BlockTexts, AllTxns, DistinctTxids, Preimages;
    PathTexts(R, t, h, texts);
    TxidsUnique(R, Path(t, h));
  }

  /** A stored block, handed in again at any clock that has reached its timestamp, is valid. */
  lemma StoredRevalidates(R: Rules, now: int, s: State, h: Hash, texts: set<string>)
    requires Inv(R, s) && h in s.blocks && GENESIS in texts && CollisionFree(R, texts) && NotAfter(R, now, s.blocks[h])
    requires forall g :: g in s.blocks ==> BlockTexts(s.blocks[g]) <= texts
    ensures Rooted(s.blocks)
    ensures Verdict(R, now, s.blocks, s.blocks[h]) == None && Outcome(R, now, s.blocks, s.blocks[h]) == None
  {
    hide Path, Rooted, AllValid, ValidRows, Canonical, ValidChain, CollisionFree, Preimages, DistinctTxids,
      AllTxns, BlockTexts, Shape, CheckMoney, CheckLink, TargetAfter;
    InvRooted(R, s);
    var t := s.blocks;
    var m := t[h].idx;
    PathLast(t, h);
    PathIsValid(R, t, h, texts);
    AcceptedRevalidates(R, Path(t, h), m, now);
    OwnPath(t, h);
    GenesisOfPath(t, h);
  }

  /** The parent's path and the row's own view, in terms of the block's path. */
  lemma OwnPath(t: Table, h: Hash)
    requires Rooted(t) && h in t
    ensures t[h].idx >= 0 && t[h].hash == h && Parent(t, t[h]) == Path(t, h)[..t[h].idx]
    ensures ViewOf(t, t[h]) == PersistedView(Path(t, h), t[h].idx)
  {
    assert Linked(t, h);
    assert Path(t, h)[..t[h].idx + 1] == Path(t, h);
    if t[h].idx > 0 {
      assert Path(t, h)[..t[h].idx] == Path(t, t[h].prevHash);
    }
  }

  lemma GenesisOfPath(t: Table, h: Hash)
    requires Rooted(t) && h in t
    ensures GenesisOf(t) == Some(Path(t, h)[0].hash)
  {
    hide Path;
    assert Linked(t, h);
    PathAt(t, h, 0);
    assert IsRoot(t, Path(t, h)[0].hash);
  }

  /** What the tables keep of any stored chain validates again, block by block from its rows, exactly
      when its timestamps were written canonically. */
  lemma StoredChainRevalidates(R: Rules, format: int -> string, now: int, s: State, h: Hash, texts: set<string>)
    requires Inv(R, s) && h in s.blocks && GENESIS in texts && CollisionFree(R, texts)
    requires forall g :: g in s.blocks ==>
      BlockTexts(s.blocks[g]) <= texts && ReloadTexts(R, format, s.blocks[g]) <= texts
    requires forall g :: g in s.blocks ==> NotAfter(R, now, s.blocks[g])
    ensures Rooted(s.blocks)
    ensures Revalidates(R, now, ReloadChain(R, format, Path(s.blocks, h))) <==>
      forall g :: OnPath(s.blocks, g, h) ==> CanonicalTimes(R, format, s.blocks[g])
  {
    hide Path, Rooted, AllValid, ValidRows, Canonical, ValidChain, CollisionFree, Preimages, DistinctTxids,
      AllTxns, BlockTexts, ReloadTexts, CanonicalTimes, Revalidates, NotAfter;
    InvRooted(R, s);
    var path := Path(s.blocks, h);
    PathIsValid(R, s.blocks, h, texts);
    forall m | 0 <= m < |path|
      ensures CollisionFree(R, ReloadTexts(R, format, path[m])) && NotAfter(R, now, path[m])
      ensures OnPath(s.blocks, path[m].hash, h) && s.blocks[path[m].hash] == path[m]
    {
      PathAt(s.blocks, h, m);
      CollisionFreePart(R, texts, ReloadTexts(R, format, path[m]));
    }
    ChainRevalidates(R, format, path, now);
    if forall m :: 0 <= m < |path| ==> CanonicalTimes(R, format, path[m]) {
      forall g | OnPath(s.blocks, g, h)
        ensures CanonicalTimes(R, format, s.blocks[g])
      {
        PathAt(s.blocks, h, s.blocks[g].idx);
      }
    }
  }

  class ChainStore {
    const R: Rules
    const pruneDepth: int
    /** Every text hashed in this world, for the assumption that the digest did not collide on them. */
    ghost const texts: set<string>

    var blocks: Table
    var rows: map<Hash, int>
    var mat: map<Hash, nat>

    ghost function Now(): State
      reads this
    {
      State(blocks, rows, mat)
    }

    ghost predicate TextsKnown()
      reads this
    {
      CollisionFree(R, texts) && GENESIS in texts && forall h :: h in blocks ==> BlockTexts(blocks[h]) <= texts
    }

    ghost predicate Valid()
      reads this
    {
      Inv(R, Now()) && TextsKnown()
    }

    constructor (R: Rules, pruneDepth: int, ghost texts: set<string>)
      requires CollisionFree(R, texts) && GENESIS in texts
      ensures Valid() && Now() == EMPTY
      ensures this.R == R && this.pruneDepth == pruneDepth && this.texts == texts
    {
      this.R := R;
      this.pruneDepth := pruneDepth;
      this.texts := texts;
      blocks, rows, mat := map[], map[], map[];
      new;
      EmptyInv(R, texts);
    }

    lemma CacheIsSomePath()
      requires Valid()
      ensures Rooted(blocks) && AllValid(R, blocks) && SomePath(blocks, mat) && ValidRows(Now())
    {
      hide AllValid, Rooted, PathMap, IsBest, CollisionFree;
      if blocks != map[] {
        var best :| Canonical(R, Now(), best);
      }
    }

    lemma IsRooted()
      requires Valid()
      ensures Rooted(blocks)
    {
      hide AllValid, Rooted, ValidRows, Canonical, CollisionFree, BlockTexts;
    }

    lemma PathFacts(h: Hash)
      requires Valid() && h in blocks
      ensures Rooted(blocks) && ValidChain(R, Path(blocks, h)) && CollisionFree(R, Preimages(Path(blocks, h)))
      ensures DistinctTxids(AllTxns(Path(blocks, h)))
    {
      hide Rooted, AllValid, Path, ValidChain, BlockTexts, AllTxns, DistinctTxids, Preimages, Canonical;
      PathIsValid(R, blocks, h, texts);
    }

    // ---- lookups -------------------------------------------------------------------------------

    method GetTransaction(start: Start, txid: string) returns (r: Option<Txn>)
      requires Valid() && StartsIn(blocks, start)
      ensures Rooted(blocks) && r == Lookup(ViewFrom(blocks, start), txid)
    {
      hide Valid, Rooted, SomePath, Path, AllTxns, DistinctTxids;
      CacheIsSomePath();
      var from: Option<Hash>;
      match start {
        case Persisted(h) =>
          FindNothing(txid);
          from := Some(h);
        case Above(parent, txns) =>
          for k := 0 to |txns|
            invariant Find(txns, txid) == Find(txns[k..], txid)
          {
            assert txns[k..][1..] == txns[k + 1..];
            if txns[k].txid == txid {
              return Some(txns[k]);
            }
          }
          from := parent;
      }
      if from.None? {
        assert Find(AllTxns([]), txid) == None by { NoChainTxns(txid); }
        return None;
      }
      PathFacts(from.value);
      var found := GetTransactionInChain(blocks, mat, from.value, txid);
      return found.value;
    }

    method GetInflowsCount(start: Start, i: Inflow) returns (n: nat)
      requires Valid() && StartsIn(blocks, start)
      ensures Rooted(blocks) && n == Uses(ViewFrom(blocks, start), i)
    {
      hide Valid, Rooted, SomePath, Path, AllTxns, Refs;
      CacheIsSomePath();
      n := 0;
      var from: Option<Hash>;
      NoRefs();
      match start {
        case Persisted(h) =>
          from := Some(h);
        case Above(parent, txns) =>
          for k := 0 to |txns|
            invariant n == multiset(Refs(txns[..k]))[i]
          {
            var ins := txns[k].inflows;
            for j := 0 to |ins|
              invariant n == multiset(Refs(txns[..k]))[i] + multiset(ins[..j])[i]
            {
              Snoc(ins, j);
              if ins[j] == i {
                n := n + 1;
              }
            }
            assert ins[..|ins|] == ins;
            Snoc(txns, k);
            RefsSnoc(txns[..k], txns[k]);
          }
          assert txns[..|txns|] == txns;
          from := parent;
      }
      if from.None? {
        assert Refs(AllTxns([])) == [] by { NoChainRefs(); }
        return;
      }
      var below := InflowsInChainCount(blocks, mat, from.value, i);
      n := n + below;
    }

    // ---- validation ----------------------------------------------------------------------------

    method ValidateTxnInflow(start: Start, t: Txn, i: Inflow, inBlock: bool) returns (r: Result<Outflow, LedgerError>)
      requires Valid() && StartsIn(blocks, start)
      ensures Rooted(blocks) && r == CheckInflow(ViewFrom(blocks, start), t, i, inBlock)
    {
      hide Valid, Rooted, Lookup, Uses, ViewFrom, OwnerOf, StartsIn;
      var source := GetTransaction(start, i.outflowTxid);
      if source.None? || !(0 <= i.outflowIdx < |source.value.outflows|) {
        return Err(MissingInflowOutflow);
      }
      var o := source.value.outflows[i.outflowIdx];
      if o.rescind.Some? {
        return Err(InvalidInflowOutflow);
      }
      if OwnerOf(o, source.value) != t.address {
        return Err(AddressMismatch);
      }
      var uses := GetInflowsCount(start, i);
      if uses > 1 || (uses > 0 && !inBlock) {
        return Err(Spent);
      }
      return Ok(o);
    }

    method ValidateBlockTxn(start: Start, t: Txn, inBlock: bool) returns (r: Result<Metrics, LedgerError>)
      requires Valid() && StartsIn(blocks, start)
      ensures Rooted(blocks) && r == CheckTxn(ViewFrom(blocks, start), t, inBlock)
    {
      hide Valid, Rooted, ViewFrom, StartsIn, CheckInflow, Drains, MetricsOf, RouteOf;
      IsRooted();
      ghost var v := ViewFrom(blocks, start);
      var consumed: seq<Outflow> := [];
      for k := 0 to |t.inflows|
        invariant Consume(v, t, t.inflows[..k], inBlock) == Ok(consumed)
      {
        Snoc(t.inflows, k);
        var o := ValidateTxnInflow(start, t, t.inflows[k], inBlock);
        if o.Err? {
          ConsumeFails(v, t, t.inflows, k + 1, inBlock);
          return Err(o.error);
        }
        consumed := consumed + [o.value];
      }
      assert t.inflows[..|t.inflows|] == t.inflows;
      var m := DrainPools(RouteAll(consumed), t.outflows);
      if m.None? {
        return Err(Imbalanced);
      }
      return Ok(m.value);
    }

    /** Transactions in order, then the coinbase against their metrics. */
    method ValidateMoney(start: Start, b: Block) returns (r: Option<BlockError>)
      requires Valid() && StartsIn(blocks, start)
      requires b.txns != [] && Coinbase(b).outflows != []
      ensures Rooted(blocks) && r == CheckMoney(ViewFrom(blocks, start), b)
    {
      hide Valid, Rooted, ViewFrom, StartsIn, CheckTxn;
      IsRooted();
      ghost var v := ViewFrom(blocks, start);
      var txns := Regular(b);
      var m := NO_METRICS;
      for k := 0 to |txns|
        invariant CheckTxns(v, txns[..k]) == Ok(m)
      {
        Snoc(txns, k);
        var one := ValidateBlockTxn(start, txns[k], true);
        if one.Err? {
          CheckTxnsFails(v, txns, k + 1);
          return Some(InvalidTxn(one.error));
        }
        m := m.Plus(one.value);
      }
      assert txns[..|txns|] == txns;
      return CheckCoinbase(b, m);
    }

    method GetGenesis() returns (r: Option<Hash>)
      requires Valid()
      ensures r == GenesisOf(blocks)
    {
      hide AllValid, Canonical, CollisionFree;
      if exists h :: h in blocks && IsRoot(blocks, h) {
        var h :| h in blocks && IsRoot(blocks, h);
        return Some(h);
      }
      return None;
    }

    /** The block `i` places below the parent, by an ancestry query. */
    method GetByReverseIndex(parent: Hash, i: int) returns (r: Option<Block>)
      requires Valid() && parent in blocks
      ensures Rooted(blocks) && r == ByReverseIndex(Path(blocks, parent), i)
    {
      hide Valid, Rooted, SomePath, Path, AllValid, ValidRows;
      CacheIsSomePath();
      PathLast(blocks, parent);
      var found := GetBlockAt(blocks, mat, parent, blocks[parent].idx - i);
      return found.value;
    }

    /** The target demanded at height `index` of the chain that ends in `parent`. */
    method TargetAt(parent: Option<Hash>, index: int) returns (r: string)
      requires Valid() && (parent.Some? ==> parent.value in blocks)
      ensures Rooted(blocks) && r == BlockTarget(R, if parent.Some? then Path(blocks, parent.value) else [], index)
    {
      hide Valid, Rooted, Path, ByReverseIndex, Retargeted;
      IsRooted();
      if parent.None? || index == 0 {
        return MAX_TARGET;
      }
      PathLast(blocks, parent.value);
      var i := blocks[parent.value].idx - index;
      var prev := GetByReverseIndex(parent.value, i + 1);
      if prev.None? {
        return MAX_TARGET;
      }
      if index % TARGET_INTERVAL != 0 {
        return prev.value.target;
      }
      var start := GetByReverseIndex(parent.value, i + TARGET_INTERVAL);
      if start.None? || R.instant(prev.value.timestamp).None? || R.instant(start.value.timestamp).None? {
        return prev.value.target;
      }
      return Retargeted(R, prev.value.target,
        R.instant(prev.value.timestamp).value - R.instant(start.value.timestamp).value);
    }

    /** How a block continues its parent. */
    method ValidateLink(b: Block) returns (e: Option<BlockError>)
      requires Valid() && b.idx >= 0
      ensures Rooted(blocks)
      ensures e == CheckLink(R, Parent(blocks, b), b)
    {
      hide Valid, Rooted, Path, BlockTarget, TargetAfter, Before, ValidChain, CollisionFree, Preimages,
        DistinctTxids, AllTxns;
      IsRooted();
      var parent := if b.prevHash in blocks then Some(b.prevHash) else None;
      ghost var chain := Parent(blocks, b);
      if parent.None? && !Genesis(R, b) {
        return Some(InvalidPreviousHash);
      }
      if parent.Some? {
        PathLast(blocks, b.prevHash);
        if Before(R, b, blocks[b.prevHash]) {
          return Some(OutOfOrder);
        }
      }
      var height := if parent.Some? then blocks[b.prevHash].idx + 1 else 0;
      if b.idx != height {
        return Some(InvalidIndex);
      }
      if parent.Some? {
        PathFacts(b.prevHash);
      }
      assert ValidChain(R, chain) by { NoBlocksValid(R); }
      TargetIsStable(R, chain, |chain|);
      assert chain[..|chain|] == chain;
      var target := TargetAt(parent, b.idx);
      if b.target != target {
        return Some(InvalidTarget);
      }
      return None;
    }

    method ValidateBlock(b: Block, now: int) returns (e: Option<BlockError>)
      requires Valid()
      ensures Rooted(blocks) && e == Verdict(R, now, blocks, b)
    {
      hide Valid, Rooted, Path, CheckLink, CheckMoney, Shape, ViewFrom;
      IsRooted();
      if !Shape(R, b) {
        return Some(InvalidBlock);
      }
      ShapeParts(R, b);
      if R.instant(b.timestamp).value > now {
        return Some(FutureBlock);
      }
      if Genesis(R, b) && b.idx == 0 {
        var existing := GetGenesis();
        if existing.Some? && existing.value != b.hash {
          return Some(DuplicateGenesis);
        }
      }
      e := ValidateLink(b);
      if e.Some? {
        return;
      }
      StartView(blocks, b);
      e := ValidateMoney(StartOf(blocks, b), b);
    }

    // ---- fork choice ---------------------------------------------------------------------------

    /** The greatest tip height among the rows. */
    method MaxTipIdx() returns (max: int)
      requires rows != map[]
      ensures (exists h :: h in rows && rows[h] == max) && forall h :: h in rows ==> rows[h] <= max
    {
      var rest := rows.Keys;
      var top :| top in rest;
      while rest != {}
        invariant rest <= rows.Keys && top in rows
        invariant forall h :: h in rows && h !in rest ==> rows[h] <= rows[top]
        decreases |rest|
      {
        var h :| h in rest;
        if rows[h] > rows[top] {
          top := h;
        }
        rest := rest - {h};
      }
      return rows[top];
    }

    /** Among the highest rows the earliest tip, ties to the smaller hash. */
    method Longest() returns (tip: Option<Hash>)
      requires Rooted(blocks) && ValidRows(Now())
      ensures tip.None? <==> rows == map[]
      ensures tip.Some? ==> Wins(R, blocks, rows.Keys, tip.value)
    {
      hide Rooted, Earlier, StringLess;
      if rows == map[] {
        return None;
      }
      var max := MaxTipIdx();
      var highest := set h | h in rows && rows[h] == max;
      ghost var top :| top in rows && rows[top] == max;
      assert top in highest;
      var first :| first in highest;
      var rest := highest;
      while rest != {}
        invariant rest <= highest && first in highest
        invariant forall h :: h in highest && h !in rest ==> h == first || Better(R, blocks[first], blocks[h])
        decreases |rest|
      {
        var h :| h in rest;
        if Earlier(R, blocks[h], blocks[first]) {
          forall g | g in highest && g !in rest
            ensures g == h || Better(R, blocks[h], blocks[g])
          {
            if g != first {
              BetterTransitive(R, blocks[h], blocks[first], blocks[g]);
            }
          }
          first := h;
        } else {
          OneOrder(R, blocks, first, h);
        }
        rest := rest - {h};
      }
      return Some(first);
    }

    /** The uncached definition: this row is the one the fork choice picks. */
    method IsLongest(tip: Hash) returns (r: bool)
      requires Rooted(blocks) && ValidRows(Now())
      ensures r <==> Wins(R, blocks, rows.Keys, tip)
    {
      hide Rooted, Better;
      var longest := Longest();
      r := longest == Some(tip);
      if Wins(R, blocks, rows.Keys, tip) {
        WinnerUnique(R, blocks, rows.Keys, tip, longest.value);
      }
    }

    // ---- the materialised longest chain --------------------------------------------------------

    /** Insert the walked blocks genesis-first above what is kept. No key and no position is taken. */
    method AppendWalked(tip: Hash, walked: seq<Hash>, start: nat)
      requires Rooted(blocks) && tip in blocks && start + |walked| == |Path(blocks, tip)|
      requires forall j :: 0 <= j < |walked| ==> walked[j] == Path(blocks, tip)[|Path(blocks, tip)| - 1 - j].hash
      requires mat == PrefixMap(blocks, tip, start)
      modifies this`mat
      ensures mat == PathMap(blocks, tip)
    {
      hide Rooted, Path, PrefixMap, PathMap;
      for j := 0 to |walked|
        invariant mat == PrefixMap(blocks, tip, start + j)
      {
        var x := walked[|walked| - 1 - j];
        PrefixMapSnoc(blocks, tip, start + j);
        assert x !in mat && forall y :: y in mat ==> mat[y] != start + j;
        mat := mat[x := start + j];
      }
      PrefixMapBounds(blocks, tip);
    }

    method RebuildLongestChainBlocks(tip: Hash)
      requires Rooted(blocks) && tip in blocks
      modifies this`mat
      ensures mat == PathMap(blocks, tip)
    {
      hide Rooted, Path, PrefixMap, PathMap;
      mat := map[];
      var walked, _ := WalkToCache(blocks, mat, tip);
      PrefixMapBounds(blocks, tip);
      AppendWalked(tip, walked, 0);
    }

    /** The smart-reorg walk, from whatever genesis-rooted path the table holds. A tip that is already
        in the table is taken to be in sync. */
    method SyncMaterialization(tip: Hash)
      requires Rooted(blocks) && tip in blocks && SomePath(blocks, mat)
      modifies this`mat
      ensures mat == if tip in old(mat) then old(mat) else PathMap(blocks, tip)
    {
      hide Rooted, Path, PrefixMap, PathMap, SomePath;
      if mat == map[] {
        RebuildLongestChainBlocks(tip);
        return;
      }
      var divergent, cap := WalkToCache(blocks, mat, tip);
      PathLast(blocks, tip);
      if divergent == [] {
        return;
      }
      assert divergent[0] == tip;
      if cap.None? {
        mat := map[];
        PrefixMapBounds(blocks, tip);
        AppendWalked(tip, divergent, 0);
        return;
      }
      TruncatedIsPrefix(blocks, mat, tip, divergent, cap);
      mat := map x | x in mat && mat[x] <= cap.value :: mat[x];
      AppendWalked(tip, divergent, cap.value + 1);
    }

    method PruneStaleForks(tip: Hash)
      requires tip in rows
      modifies this`rows
      ensures rows == Pruned(old(rows), tip, pruneDepth)
    {
      rows := map g | g in rows && !(g != tip && rows[g] < rows[tip] - pruneDepth) :: rows[g];
    }

    method SyncLongestChainBlocks(tip: Hash)
      requires Rooted(blocks) && ValidRows(Now()) && tip in rows && SomePath(blocks, mat)
      requires Wins(R, blocks, rows.Keys, tip) ==> IsBest(R, blocks, tip)
      modifies this`mat, this`rows
      ensures Now() == Synced(R, old(Now()), tip, pruneDepth)
    {
      hide Rooted, Path, PathMap, SomePath, Better, Pruned;
      var longest := IsLongest(tip);
      if !longest {
        return;
      }
      CachedBest(R, blocks, mat, tip);
      SyncMaterialization(tip);
      PruneStaleForks(tip);
    }

    /** Move a row to a new tip. */
    method SetBlockHash(row: Hash, tip: Hash)
      requires row in rows && tip in blocks
      modifies this`rows
      ensures rows == (old(rows) - {row})[tip := blocks[tip].idx]
    {
      rows := (rows - {row})[tip := blocks[tip].idx];
    }

    /** Find, move or make the row of `tip`, then bring the materialisation up to date. */
    method ToDb(row: Option<Hash>, prev: Hash, tip: Hash)
      requires Rooted(blocks) && ValidRows(Now()) && tip in blocks && SomePath(blocks, mat)
      requires row == if prev in rows then Some(prev) else None
      requires var e := State(blocks, Enrolled(rows, prev, tip, blocks[tip].idx), mat);
        Wins(R, blocks, e.rows.Keys, tip) ==> IsBest(R, blocks, tip)
      modifies this`mat, this`rows
      ensures var e := State(blocks, Enrolled(old(rows), prev, tip, blocks[tip].idx), old(mat));
        Now() == Synced(R, e, tip, pruneDepth)
    {
      hide Rooted, Path, PathMap, SomePath, Better, IsBest, Wins, Pruned;
      ghost var e := State(blocks, Enrolled(rows, prev, tip, blocks[tip].idx), mat);
      if tip !in rows {
        if row.Some? {
          SetBlockHash(row.value, tip);
        } else {
          rows := rows[tip := blocks[tip].idx];
          SyncLongestChainBlocks(tip);
          SyncedTwice(R, e, tip, pruneDepth);
        }
      }
      SyncLongestChainBlocks(tip);
    }

    // ---- adding a block ------------------------------------------------------------------------

    /** Build the rows of a block that is not stored. The rows its inflows refer to are looked up while
        its own transactions are not written yet, and may not be missing. */
    method WriteBlock(b: Block) returns (ok: bool)
      modifies this`blocks
      ensures ok == Storable(old(blocks), b)
      ensures blocks == if ok then Stored(old(blocks), b) else old(blocks)
    {
      hide Carried, HasOutflow;
      if b.hash in blocks {
        return true;
      }
      if b.proofOfWork >= BIG_INTEGER {
        return false;
      }
      for k := 0 to |b.txns|
        invariant forall j :: 0 <= j < k ==> Carried(blocks, b.txns[j].txid) || InflowsHaveRows(blocks, b.txns[j])
      {
        var txn := b.txns[k];
        if !Carried(blocks, txn.txid) {
          for j := 0 to |txn.inflows|
            invariant forall l :: 0 <= l < j ==> HasOutflow(blocks, txn.inflows[l])
          {
            if !HasOutflow(blocks, txn.inflows[j]) {
              assert txn in b.txns && txn.inflows[j] in txn.inflows;
              return false;
            }
          }
        }
      }
      blocks := blocks[b.hash := b];
      return true;
    }

    /** Validate, store, enrol, synchronise. A refused block leaves no trace, whether it is invalid or
        cannot be written. */
    method AddBlock(b: Block, now: int) returns (e: Option<BlockError>)
      requires Valid() && BlockTexts(b) <= texts
      modifies this
      ensures Valid() && Rooted(old(blocks))
      ensures e == Outcome(R, now, old(blocks), b)
      ensures e.Some? ==> Now() == old(Now())
      ensures e.None? ==> blocks == Stored(old(blocks), b)
      ensures e.None? ==> Rooted(Enrol(old(Now()), b).blocks) && ValidRows(Enrol(old(Now()), b))
      ensures e.None? ==> b.hash in Enrol(old(Now()), b).rows && Now() == Added(R, old(Now()), b, pruneDepth)
    {
      hide Rooted, AllValid, Path, PathMap, Verdict, SomePath, Synced, Wins, IsBest, CollisionFree,
        BlockTexts, Identified, Storable;
      IsRooted();
      e := ValidateBlock(b, now);
      if e.Some? {
        return;
      }
      ghost var before := Now();
      TextsIdentify(b);
      StepKeepsInv(R, now, Now(), b, pruneDepth);
      EnrolledReady(R, now, Now(), b);
      var row := if b.prevHash in rows then Some(b.prevHash) else None;
      var ok := WriteBlock(b);
      if !ok {
        assert Now() == before;
        return Some(Unstorable);
      }
      ToDb(row, b.prevHash, b.hash);
      SyncedBlocks(R, Enrol(old(Now()), b), b.hash, pruneDepth);
    }

    /** A new block is stored exactly when it is valid, its nonce fits its column and it spends nothing
        that is itself new; what validation says is reported first. */
    lemma StoredIff(b: Block, now: int)
      requires Valid() && BlockTexts(b) <= texts && b.hash !in blocks
      ensures Rooted(blocks)
      ensures Outcome(R, now, blocks, b) == None <==>
        Verdict(R, now, blocks, b) == None && b.proofOfWork < BIG_INTEGER && NoFreshSpend(blocks, b)
      ensures Verdict(R, now, blocks, b).Some? ==> Outcome(R, now, blocks, b) == Verdict(R, now, blocks, b)
    {
      hide Rooted, AllValid, ValidRows, Canonical, Verdict, Storable, NoFreshSpend, CollisionFree, Header,
        Contents;
      if Verdict(R, now, blocks, b) == None {
        StorableIff(R, now, blocks, b, texts);
      }
    }

    lemma TextsIdentify(b: Block)
      requires Valid() && BlockTexts(b) <= texts
      ensures Identified(R, blocks, b)
    {
      hide Rooted, AllValid, ValidRows, Canonical, Header, Contents, CollisionFree;
      IsRooted();
      StoredHeadersKnown(R, blocks, texts);
      KnownIsIdentified(R, texts, blocks, b);
    }
  }

  lemma StoredHeadersKnown(R: Rules, t: Table, texts: set<string>)
    requires Rooted(t) && AllValid(R, t) && forall h :: h in t ==> BlockTexts(t[h]) <= texts
    ensures HeadersKnown(R, texts, t)
  {
    hide Rooted, ValidChain, Path, Header, Contents, Shape, ValidHeader;
    forall h | h in t
      ensures Header(t[h]) in texts && R.hash(Header(t[h])) == h && ValidHeader(R, t[h])
    {
      assert Header(t[h]) in BlockTexts(t[h]);
      PathLast(t, h);
      ChainLinks(R, Path(t, h), t[h].idx);
      HashOfShape(R, t[h]);
    }
  }

  lemma OneOrder(R: Rules, t: Table, g: Hash, h: Hash)
    requires Rooted(t) && g in t && h in t && t[g].idx == t[h].idx && !Earlier(R, t[h], t[g])
    ensures g == h || Better(R, t[g], t[h])
  {
    hide Earlier;
    assert Linked(t, g) && Linked(t, h);
    BetterTotal(R, t[g], t[h]);
  }

  /** A best block that is in the cache already is the cached path's own tip. */
  lemma CachedBest(R: Rules, t: Table, mat: map<Hash, nat>, tip: Hash)
    requires Rooted(t) && SomePath(t, mat) && IsBest(R, t, tip)
    ensures tip in mat ==> mat == PathMap(t, tip)
  {
    hide Rooted, Path, Earlier;
    if tip in mat {
      var g :| g in t && mat == PathMap(t, g);
      PathLast(t, g);
      assert g == tip || Better(R, t[tip], t[g]);
      assert OnPath(t, tip, g);
    }
  }

  lemma SyncedTwice(R: Rules, e: State, tip: Hash, depth: int)
    requires Rooted(e.blocks) && ValidRows(e) && tip in e.rows
    ensures var u := Synced(R, e, tip, depth);
      ValidRows(u) && tip in u.rows && Synced(R, u, tip, depth) == u
    ensures var u := Synced(R, e, tip, depth);
      (SomePath(e.blocks, e.mat) ==> SomePath(u.blocks, u.mat))
        && (Wins(R, u.blocks, u.rows.Keys, tip) ==> Wins(R, e.blocks, e.rows.Keys, tip))
  {
    hide Rooted, PathMap, Better;
  }

  /** After the enrolment the new row wins only if its block is the best of all. */
  lemma EnrolledReady(R: Rules, now: int, s: State, b: Block)
    requires Inv(R, s) && Verdict(R, now, s.blocks, b) == None && Identified(R, s.blocks, b)
    ensures var e := Enrol(s, b);
      && Rooted(e.blocks) && ValidRows(e) && b.hash in e.rows && SomePath(e.blocks, e.mat)
      && (Wins(R, e.blocks, e.rows.Keys, b.hash) ==> IsBest(R, e.blocks, b.hash))
  {
    hide Rooted, AllValid, Path, Verdict, Identified, Better;
    EnrolledRows(R, now, s, b);
    var e := Enrol(s, b);
    if s.blocks == map[] {
      OnlyBlock(R, e.blocks, b.hash);
    } else {
      var best :| Canonical(R, s, best);
      EnrolKeepsBest(R, now, s, b, best);
      PathMapGrows(s.blocks, e.blocks, best);
      if !IsBest(R, e.blocks, b.hash) {
        BestAmongRows(R, e.blocks, e.rows.Keys, best, b.hash);
      }
    }
  }

  /** The branch for two chains without a common ancestor is never taken: one genesis, one tree. */
  lemma NoOverlapUnreachable(t: Table, mat: map<Hash, nat>, h: Hash, divergent: seq<Hash>, cap: Option<nat>)
    requires Rooted(t) && h in t && SomePath(t, mat) && mat != map[] && Splits(t, mat, h, divergent, cap)
    ensures cap.Some?
  {
    hide Rooted, Path;
    PathLast(t, h);
    var root := Path(t, h)[0].hash;
    assert cap.None? ==> divergent[|divergent| - 1] == root && root !in mat;
    var g :| g in t && mat == PathMap(t, g);
    PathLast(t, g);
    SameGenesis(t, g, h);
    PathAt(t, g, 0);
    assert OnPath(t, root, g);
  }

  lemma ShapeParts(R: Rules, b: Block)
    requires Shape(R, b)
    ensures b.idx >= 0 && b.txns != [] && Coinbase(b).outflows != [] && R.instant(b.timestamp).Some?
  {
    hide Header, Leaves, InOrder, ValidRegular;
  }

  lemma StartView(t: Table, b: Block)
    requires Rooted(t)
    ensures StartsIn(t, StartOf(t, b)) && ViewFrom(t, StartOf(t, b)) == ViewOf(t, b)
  {
    hide Rooted, Path;
  }

  lemma NoBlocksValid(R: Rules)
    ensures ValidChain(R, [])
  {
    hide ValidNext;
  }

  lemma NoChainTxns(txid: string)
    ensures Find(AllTxns([]), txid) == None
  {
  }

  lemma NoChainRefs()
    ensures Refs(AllTxns([])) == []
  {
  }
}
