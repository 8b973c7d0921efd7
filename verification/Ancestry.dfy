/** Ancestry queries: a short walk off the materialised chain plus a capped prefix of it, in place of
    the walk along every parent link. */
module Ancestry {
  import opened Prelude
  import opened Payload
  import opened Transactions
  import opened Order
  import opened Blocks
  import opened Ledger
  import opened LedgerTheory
  import opened Unspent
  import opened Tree

  datatype QueryError = MultipleResultsFound

  /** The materialisation is a path from genesis, possibly a stale one, or still empty. */
  ghost predicate SomePath(t: Table, mat: map<Hash, nat>)
    requires Rooted(t)
  {
    mat == map[] || exists g :: g in t && mat == PathMap(t, g)
  }

  // ---- the walk --------------------------------------------------------------------------------

  /** `divergent` is the part of the path above the materialisation, nearest first; `cap` is the
      position of the first block found in it. */
  ghost predicate Splits(t: Table, mat: map<Hash, nat>, h: Hash, divergent: seq<Hash>, cap: Option<nat>)
    requires Rooted(t) && h in t
  {
    var path := Path(t, h);
    && |divergent| <= |path|
    && (forall j :: 0 <= j < |divergent| ==> divergent[j] == path[|path| - 1 - j].hash && divergent[j] !in mat)
    && (cap.None? ==> |divergent| == |path|)
    && (cap.Some? ==> |divergent| < |path| && path[|path| - 1 - |divergent|].hash in mat
                      && cap.value == mat[path[|path| - 1 - |divergent|].hash])
  }

  method WalkToCache(t: Table, mat: map<Hash, nat>, h: Hash) returns (divergent: seq<Hash>, cap: Option<nat>)
    requires Rooted(t) && h in t
    ensures Splits(t, mat, h, divergent, cap)
  {
    hide Path;
    divergent := [];
    var current := Some(h);
    ghost var path := Path(t, h);
    PathLast(t, h);
    while current.Some?
      invariant |divergent| <= |path|
      invariant forall j :: 0 <= j < |divergent| ==> divergent[j] == path[|path| - 1 - j].hash && divergent[j] !in mat
      invariant current.None? ==> |divergent| == |path|
      invariant current.Some? ==> |divergent| < |path| && current.value == path[|path| - 1 - |divergent|].hash
      decreases |path| - |divergent|, current.Some?
    {
      var c := current.value;
      if c in mat {
        return divergent, Some(mat[c]);
      }
      PathAt(t, h, |path| - 1 - |divergent|);
      StepDown(t, h, |path| - 1 - |divergent|);
      divergent := divergent + [c];
      current := Prev(t, c);
    }
    return divergent, None;
  }

  /** One step along `prev` is one step down the path. */
  lemma StepDown(t: Table, h: Hash, k: nat)
    requires Rooted(t) && h in t && k <= t[h].idx
    ensures var c := Path(t, h)[k].hash;
      c in t && Prev(t, c) == (if k == 0 then None else Some(Path(t, h)[k - 1].hash))
  {
    PathAt(t, h, k);
    var c := Path(t, h)[k].hash;
    assert Linked(t, c);
    if k > 0 {
      PathLast(t, t[c].prevHash);
      assert Path(t, c)[k - 1] == Path(t, h)[k - 1];
      assert Path(t, c)[k - 1] == Path(t, t[c].prevHash)[k - 1];
    }
  }

  function Ids(divergent: seq<Hash>): set<Hash> {
    set x | x in divergent
  }

  function Capped(mat: map<Hash, nat>, cap: Option<nat>): set<Hash> {
    if cap.None? then {} else set x | x in mat && mat[x] <= cap.value
  }

  lemma SharedPrefix(t: Table, g: Hash, h: Hash, c: Hash)
    requires Rooted(t) && g in t && h in t && OnPath(t, c, g) && OnPath(t, c, h)
    ensures Path(t, g)[..t[c].idx + 1] == Path(t, h)[..t[c].idx + 1]
  {
    hide Path, Rooted;
    PathAt(t, g, t[c].idx);
    PathAt(t, h, t[c].idx);
  }

  lemma CappedIsPrefix(t: Table, g: Hash, h: Hash, c: Hash, x: Hash)
    requires Rooted(t) && g in t && h in t && OnPath(t, c, g) && OnPath(t, c, h)
    ensures x in Capped(PathMap(t, g), Some(t[c].idx)) <==> OnPath(t, x, h) && t[x].idx <= t[c].idx
  {
    hide Path, Rooted;
    SharedPrefix(t, g, h, c);
    if x in t && 0 <= t[x].idx <= t[c].idx {
      assert Path(t, g)[..t[c].idx + 1][t[x].idx] == Path(t, g)[t[x].idx];
      assert Path(t, h)[..t[c].idx + 1][t[x].idx] == Path(t, h)[t[x].idx];
    }
  }

  lemma DivergentIsSuffix(t: Table, mat: map<Hash, nat>, h: Hash, divergent: seq<Hash>, cap: Option<nat>, x: Hash)
    requires Rooted(t) && h in t && Splits(t, mat, h, divergent, cap)
    ensures x in Ids(divergent) <==> OnPath(t, x, h) && t[x].idx >= |Path(t, h)| - |divergent|
  {
    hide Path, Rooted;
    var path := Path(t, h);
    if x in Ids(divergent) {
      var j :| 0 <= j < |divergent| && divergent[j] == x;
      PathAt(t, h, |path| - 1 - j);
    }
    if OnPath(t, x, h) && t[x].idx >= |path| - |divergent| {
      assert divergent[|path| - 1 - t[x].idx] == x;
    }
  }

  /** The two id sets are exactly the block and its ancestors, with nothing counted twice - however
      stale the materialised path is. */
  lemma FastPathIsAncestry(t: Table, mat: map<Hash, nat>, h: Hash, divergent: seq<Hash>, cap: Option<nat>)
    requires Rooted(t) && h in t && SomePath(t, mat) && Splits(t, mat, h, divergent, cap)
    ensures forall x :: x in Ids(divergent) + Capped(mat, cap) <==> OnPath(t, x, h)
    ensures Ids(divergent) !! Capped(mat, cap)
  {
    hide Path, Rooted, Capped;
    NothingCapped(mat);
    forall x
      ensures x in Ids(divergent) + Capped(mat, cap) <==> OnPath(t, x, h)
    {
      DivergentIsSuffix(t, mat, h, divergent, cap, x);
      if cap.Some? {
        var path := Path(t, h);
        var c := path[|path| - 1 - |divergent|].hash;
        var g :| g in t && mat == PathMap(t, g);
        PathAt(t, h, |path| - 1 - |divergent|);
        CappedIsPrefix(t, g, h, c, x);
      }
    }
    CappedInMat(mat, cap);
  }

  lemma NothingCapped(mat: map<Hash, nat>)
    ensures Capped(mat, None) == {}
  {
  }

  lemma CappedInMat(mat: map<Hash, nat>, cap: Option<nat>)
    ensures Capped(mat, cap) <= mat.Keys
  {
  }

  // ---- queries ---------------------------------------------------------------------------------

  method ScalarOneOrNone<T(==)>(s: set<T>) returns (r: Result<Option<T>, QueryError>)
    ensures r.Err? <==> |s| > 1
    ensures r.Ok? ==> if s == {} then r.value == None else r.value.Some? && s == {r.value.value}
  {
    if |s| > 1 {
      return Err(MultipleResultsFound);
    }
    if s == {} {
      return Ok(None);
    }
    var x :| x in s;
    assert |s - {x}| == 0;
    return Ok(Some(x));
  }

  lemma AtMostOne<T>(s: set<T>)
    requires forall x, y :: x in s && y in s ==> x == y
    ensures |s| <= 1
  {
    if x :| x in s {
      assert s == {x};
    }
  }

  /** Join of blocks and their transactions. */
  function TxnHits(t: Table, hs: set<Hash>, txid: string): set<(Hash, nat)> {
    set h, k | h in hs && h in t && 0 <= k < |t[h].txns| && t[h].txns[k].txid == txid :: (h, k)
  }

  lemma CrossDistinct(a: seq<Txn>, b: seq<Txn>, t: Txn, l: nat)
    requires DistinctTxids(a + b) && t in a && l < |b|
    ensures t.txid != b[l].txid
  {
    var p :| 0 <= p < |a| && a[p] == t;
    assert (a + b)[p] == t && (a + b)[|a| + l] == b[l];
  }

  lemma {:induction false} PlacesDistinct(chain: seq<Block>, m: nat, k: nat, n: nat, l: nat)
    requires DistinctTxids(AllTxns(chain))
    requires m < |chain| && k < |chain[m].txns| && n < |chain| && l < |chain[n].txns|
    requires chain[m].txns[k].txid == chain[n].txns[l].txid
    ensures m == n && k == l
  {
    var init, last := chain[..|chain| - 1], chain[|chain| - 1].txns;
    var a, all := AllTxns(init), AllTxns(chain);
    assert all == a + last;
    if m < |init| && n < |init| {
      DistinctPrefix(all, |a|);
      PlacesDistinct(init, m, k, n, l);
    } else if m < |init| {
      BlockInChain(init, m, chain[m].txns[k]);
      CrossDistinct(a, last, chain[m].txns[k], l);
    } else if n < |init| {
      BlockInChain(init, n, chain[n].txns[l]);
      CrossDistinct(a, last, chain[n].txns[l], k);
    } else {
      assert all[|a| + k].txid == all[|a| + l].txid;
    }
  }

  /** On a chain with distinct txids any set of its blocks has at most one hit, and it is the one. */
  lemma HitsOnPath(t: Table, h: Hash, hs: set<Hash>, txid: string)
    requires Rooted(t) && h in t && DistinctTxids(AllTxns(Path(t, h)))
    requires forall x :: x in hs ==> OnPath(t, x, h)
    ensures |TxnHits(t, hs, txid)| <= 1
    ensures forall e :: e in TxnHits(t, hs, txid) ==> Find(AllTxns(Path(t, h)), txid) == Some(t[e.0].txns[e.1])
  {
    hide Rooted, Path, AllTxns, DistinctTxids;
    var path := Path(t, h);
    var hits := TxnHits(t, hs, txid);
    forall e | e in hits
      ensures Find(AllTxns(path), txid) == Some(t[e.0].txns[e.1])
    {
      PathAt(t, h, t[e.0].idx);
      BlockInChain(path, t[e.0].idx, t[e.0].txns[e.1]);
      FindDistinct(AllTxns(path), t[e.0].txns[e.1]);
    }
    forall e, f | e in hits && f in hits
      ensures e == f
    {
      PathAt(t, h, t[e.0].idx);
      PathAt(t, h, t[f.0].idx);
      PlacesDistinct(path, t[e.0].idx, e.1, t[f.0].idx, f.1);
    }
    AtMostOne(hits);
  }

  lemma HitExists(t: Table, h: Hash, hs: set<Hash>, txid: string)
    requires Rooted(t) && h in t && (forall x :: OnPath(t, x, h) ==> x in hs)
    requires Find(AllTxns(Path(t, h)), txid).Some?
    ensures TxnHits(t, hs, txid) != {}
  {
    hide Rooted, Path, AllTxns, Find;
    var path := Path(t, h);
    FindAnswers(AllTxns(path), txid);
    var m, k := TxnInBlock(path, Find(AllTxns(path), txid).value);
    PathAt(t, h, m);
    assert (path[m].hash, k) in TxnHits(t, hs, txid);
  }

  /** The transaction with this txid in the block or its ancestors: what walking `prev` would find.
      With unique txids the query never sees more than one row. */
  method GetTransactionInChain(t: Table, mat: map<Hash, nat>, h: Hash, txid: string)
    returns (r: Result<Option<Txn>, QueryError>)
    requires Rooted(t) && h in t && SomePath(t, mat)
    ensures DistinctTxids(AllTxns(Path(t, h))) ==> r == Ok(Find(AllTxns(Path(t, h)), txid))
  {
    hide Rooted, Path, AllTxns, Find, DistinctTxids, SomePath;
    var divergent, cap := WalkToCache(t, mat, h);
    FastPathIsAncestry(t, mat, h, divergent, cap);
    ghost var distinct := DistinctTxids(AllTxns(Path(t, h)));
    ghost var all := Ids(divergent) + Capped(mat, cap);
    if distinct {
      HitsOnPath(t, h, Ids(divergent), txid);
      HitsOnPath(t, h, Capped(mat, cap), txid);
      if Find(AllTxns(Path(t, h)), txid).Some? {
        HitExists(t, h, all, txid);
        HitsUnion(t, Ids(divergent), Capped(mat, cap), txid);
      }
    }
    var above := ScalarOneOrNone(TxnHits(t, Ids(divergent), txid));
    if above.Err? {
      return Err(above.error);
    }
    if above.value.Some? {
      var (x, k) := above.value.value;
      assert (x, k) in TxnHits(t, Ids(divergent), txid);
      return Ok(Some(t[x].txns[k]));
    }
    var below := ScalarOneOrNone(TxnHits(t, Capped(mat, cap), txid));
    if below.Err? {
      return Err(below.error);
    }
    if below.value.Some? {
      var (x, k) := below.value.value;
      assert (x, k) in TxnHits(t, Capped(mat, cap), txid);
      return Ok(Some(t[x].txns[k]));
    }
    return Ok(None);
  }

  lemma HitsUnion(t: Table, a: set<Hash>, b: set<Hash>, txid: string)
    ensures TxnHits(t, a + b, txid) == TxnHits(t, a, txid) + TxnHits(t, b, txid)
  {
  }

  /** A block filter: by hash, by height, or both. */
  predicate Matches(t: Table, x: Hash, hash: Option<Hash>, idx: Option<int>)
    requires x in t
  {
    (hash.Some? ==> x == hash.value) && (idx.Some? ==> t[x].idx == idx.value)
  }

  function BlockHits(t: Table, hs: set<Hash>, hash: Option<Hash>, idx: Option<int>): set<Hash> {
    set x | x in hs && x in t && Matches(t, x, hash, idx)
  }

  lemma OneMatch(t: Table, h: Hash, hs: set<Hash>, hash: Option<Hash>, idx: Option<int>)
    requires Rooted(t) && h in t && (hash.Some? || idx.Some?)
    requires forall x :: x in hs ==> OnPath(t, x, h)
    ensures |BlockHits(t, hs, hash, idx)| <= 1
  {
    hide Rooted, Path;
    var hits := BlockHits(t, hs, hash, idx);
    forall x, y | x in hits && y in hits
      ensures x == y
    {
      assert OnPath(t, x, h) && OnPath(t, y, h);
    }
    AtMostOne(hits);
  }

  /** The block of the ancestry with this hash or height. */
  method GetBlockInChain(t: Table, mat: map<Hash, nat>, h: Hash, hash: Option<Hash>, idx: Option<int>)
    returns (r: Result<Option<Block>, QueryError>)
    requires Rooted(t) && h in t && SomePath(t, mat)
    ensures (hash.Some? || idx.Some?) ==> r.Ok?
    ensures r.Ok? && r.value.Some? ==> exists x :: OnPath(t, x, h) && Matches(t, x, hash, idx) && r.value.value == t[x]
    ensures r.Ok? && r.value.None? ==> forall x :: OnPath(t, x, h) ==> !Matches(t, x, hash, idx)
  {
    hide Rooted, Path, SomePath, Matches;
    var divergent, cap := WalkToCache(t, mat, h);
    FastPathIsAncestry(t, mat, h, divergent, cap);
    if hash.Some? || idx.Some? {
      OneMatch(t, h, Ids(divergent), hash, idx);
      OneMatch(t, h, Capped(mat, cap), hash, idx);
    }
    var above := ScalarOneOrNone(BlockHits(t, Ids(divergent), hash, idx));
    if above.Err? {
      return Err(above.error);
    }
    if above.value.Some? {
      assert above.value.value in BlockHits(t, Ids(divergent), hash, idx);
      return Ok(Some(t[above.value.value]));
    }
    var below := ScalarOneOrNone(BlockHits(t, Capped(mat, cap), hash, idx));
    if below.Err? {
      return Err(below.error);
    }
    if below.value.Some? {
      assert below.value.value in BlockHits(t, Capped(mat, cap), hash, idx);
      return Ok(Some(t[below.value.value]));
    }
    forall x | OnPath(t, x, h)
      ensures !Matches(t, x, hash, idx)
    {
      assert x !in BlockHits(t, Ids(divergent), hash, idx) && x !in BlockHits(t, Capped(mat, cap), hash, idx);
    }
    return Ok(None);
  }

  /** By height it is the block at that position of the path. */
  method GetBlockAt(t: Table, mat: map<Hash, nat>, h: Hash, idx: int) returns (r: Result<Option<Block>, QueryError>)
    requires Rooted(t) && h in t && SomePath(t, mat)
    ensures r == Ok(if 0 <= idx < |Path(t, h)| then Some(Path(t, h)[idx]) else None)
  {
    hide Rooted, Path, SomePath;
    r := GetBlockInChain(t, mat, h, None, Some(idx));
    if 0 <= idx < |Path(t, h)| {
      PathAt(t, h, idx);
      assert OnPath(t, Path(t, h)[idx].hash, h);
    }
  }

  predicate Spends(b: Block, i: Inflow) {
    exists t :: t in b.txns && i in t.inflows
  }

  lemma SpendsIff(t: Table, h: Hash, i: Inflow)
    requires Rooted(t) && h in t
    ensures i in Refs(AllTxns(Path(t, h))) <==> exists x :: OnPath(t, x, h) && Spends(t[x], i)
  {
    hide Rooted, Path, AllTxns, Refs;
    var path := Path(t, h);
    if i in Refs(AllTxns(path)) {
      var p := RefsMember(AllTxns(path), i);
      var m, k := TxnInBlock(path, AllTxns(path)[p]);
      PathAt(t, h, m);
      assert OnPath(t, path[m].hash, h) && Spends(t[path[m].hash], i);
    }
    if x :| OnPath(t, x, h) && Spends(t[x], i) {
      PathAt(t, h, t[x].idx);
      var txn :| txn in t[x].txns && i in txn.inflows;
      BlockInChain(path, t[x].idx, txn);
      var p :| 0 <= p < |AllTxns(path)| && AllTxns(path)[p] == txn;
      RefsHold(AllTxns(path), p);
      assert i in multiset(txn.inflows);
    }
  }

  /** Only ever 0 or 1: whether the block or an ancestor consumes the outpoint. */
  method InflowsInChainCount(t: Table, mat: map<Hash, nat>, h: Hash, i: Inflow) returns (n: nat)
    requires Rooted(t) && h in t && SomePath(t, mat)
    ensures n == if i in Refs(AllTxns(Path(t, h))) then 1 else 0
  {
    hide Rooted, Path, SomePath, AllTxns, Refs, Spends, OnPath;
    var divergent, cap := WalkToCache(t, mat, h);
    FastPathIsAncestry(t, mat, h, divergent, cap);
    SpendsIff(t, h, i);
    var above, below := Ids(divergent), Capped(mat, cap);
    if exists x :: x in above && x in t && Spends(t[x], i) {
      return 1;
    }
    if exists x :: x in below && x in t && Spends(t[x], i) {
      return 1;
    }
    assert forall x :: OnPath(t, x, h) ==> x in t by { OnPathStored(t, h); }
    return 0;
  }

  lemma OnPathStored(t: Table, h: Hash)
    requires Rooted(t) && h in t
    ensures forall x :: OnPath(t, x, h) ==> x in t
  {
  }

  // ---- provenance ------------------------------------------------------------------------------

  /** Where a txid is: on the canonical chain, only on abandoned blocks, or in no stored block. */
  datatype Provenance =
    | OnChain(block: Hash, height: int, confirmations: int)
    | Orphaned(block: Hash)
    | NotMined

  lemma CarriedIffFound(t: Table, h: Hash, txid: string)
    requires Rooted(t) && h in t
    ensures Find(AllTxns(Path(t, h)), txid).Some? <==> exists x :: OnPath(t, x, h) && Carries(t[x], txid)
  {
    hide Rooted, Path, AllTxns, Find;
    var path := Path(t, h);
    FindAnswers(AllTxns(path), txid);
    if Find(AllTxns(path), txid).Some? {
      var m, k := TxnInBlock(path, Find(AllTxns(path), txid).value);
      PathAt(t, h, m);
      assert OnPath(t, path[m].hash, h) && Carries(t[path[m].hash], txid);
    }
    if x :| OnPath(t, x, h) && Carries(t[x], txid) {
      PathAt(t, h, t[x].idx);
      var txn :| txn in t[x].txns && txn.txid == txid;
      BlockInChain(path, t[x].idx, txn);
    }
  }

  /** Asked of the canonical tip, the height is the height of the one block that carries the
      transaction and the confirmations are its true depth, itself included. */
  method TransactionProvenance(t: Table, mat: map<Hash, nat>, tip: Hash, txid: string)
    returns (r: Result<Provenance, QueryError>)
    requires Rooted(t) && tip in t && mat == PathMap(t, tip)
    ensures DistinctTxids(AllTxns(Path(t, tip))) ==> r.Ok?
    ensures DistinctTxids(AllTxns(Path(t, tip))) ==> match r.value
      case OnChain(x, height, confirmations) =>
        0 <= height < |Path(t, tip)| && Path(t, tip)[height].hash == x && Carries(Path(t, tip)[height], txid)
        && confirmations == |Path(t, tip)| - height
      case Orphaned(x) => x in t && Carries(t[x], txid) && forall y :: OnPath(t, y, tip) ==> !Carries(t[y], txid)
      case NotMined => forall y :: y in t ==> !Carries(t[y], txid)
  {
    hide Rooted, Path, AllTxns, Find, DistinctTxids, Carries;
    assert SomePath(t, mat);
    var found := GetTransactionInChain(t, mat, tip, txid);
    if found.Err? {
      return Err(found.error);
    }
    CarriedIffFound(t, tip, txid);
    if found.value.Some? && exists x :: x in mat && x in t && Carries(t[x], txid) {
      var x :| x in mat && x in t && Carries(t[x], txid);
      PathAt(t, tip, t[x].idx);
      var height := t[x].idx;
      return Ok(OnChain(x, height, t[tip].idx - height + 1));
    }
    if exists x :: x in t && Carries(t[x], txid) {
      var x :| x in t && Carries(t[x], txid);
      return Ok(Orphaned(x));
    }
    return Ok(NotMined);
  }
}
