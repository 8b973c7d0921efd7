/** A node's tables as one value, the step that adds a block, and what every step keeps. */
module Store {
  import opened Prelude
  import opened Payload
  import opened Transactions
  import opened Blocks
  import opened Ledger
  import opened LedgerTheory
  import opened Unspent
  import opened Tree

  /** The block table, the chain rows with their tip heights, and the materialised longest chain. */
  datatype State = State(blocks: Table, rows: map<Hash, int>, mat: map<Hash, nat>)

  /** One past the largest value of a 64-bit column. */
  const BIG_INTEGER: int := 0x8000_0000_0000_0000

  const EMPTY := State(map[], map[], map[])

  ghost predicate ValidRows(s: State) {
    s.rows.Keys <= s.blocks.Keys && forall h :: h in s.rows ==> s.rows[h] == s.blocks[h].idx
  }

  /** The cache is exactly the path of the best block of the whole tree, and that block has a row. */
  ghost predicate Canonical(R: Rules, s: State, best: Hash)
    requires Rooted(s.blocks)
  {
    best in s.blocks && IsBest(R, s.blocks, best) && best in s.rows && s.mat == PathMap(s.blocks, best)
  }

  ghost predicate AllValid(R: Rules, t: Table)
    requires Rooted(t)
  {
    forall h :: h in t ==> ValidChain(R, Path(t, h))
  }

  ghost predicate Inv(R: Rules, s: State) {
    && Rooted(s.blocks) && AllValid(R, s.blocks) && ValidRows(s)
    && (if s.blocks == map[] then s == EMPTY else exists best :: Canonical(R, s, best))
  }

  // ---- one step --------------------------------------------------------------------------------

  /** The persisted chain a block continues. */
  ghost function Parent(t: Table, b: Block): seq<Block>
    requires Rooted(t)
  {
    if b.prevHash in t then Path(t, b.prevHash) else []
  }

  /** A persisted block is looked up through its own row, an unpersisted one above its parent. */
  ghost function ViewOf(t: Table, b: Block): View
    requires Rooted(t)
  {
    if b.hash in t then View(Path(t, b.hash), []) else View(Parent(t, b), b.txns)
  }

  ghost function GenesisOf(t: Table): Option<Hash> {
    if exists h :: IsRoot(t, h) then var h :| IsRoot(t, h); Some(h) else None
  }

  /** The verdict of validation against the tables. */
  ghost function Verdict(R: Rules, now: int, t: Table, b: Block): Option<BlockError>
    requires Rooted(t)
  {
    Judge(R, now, GenesisOf(t), Parent(t, b), ViewOf(t, b), b)
  }

  /** Some stored block carries a transaction with this txid: it has a row. */
  predicate Carried(t: Table, txid: string) {
    exists h :: h in t && Carries(t[h], txid)
  }

  /** The outpoint has a row. */
  predicate HasOutflow(t: Table, i: Inflow) {
    exists h :: h in t && Creates(t[h], i)
  }

  /** Every inflow of the transaction finds the row of its outflow. */
  predicate InflowsHaveRows(t: Table, txn: Txn) {
    forall i :: i in txn.inflows ==> HasOutflow(t, i)
  }

  /** A stored block is found by its hash; a new one is built row by row. A transaction that has a row
      is reused, the inflow rows of the others must refer to outflow rows that exist already, and the
      proof of work must fit its column. */
  predicate Storable(t: Table, b: Block) {
    b.hash in t ||
    (b.proofOfWork < BIG_INTEGER && forall txn :: txn in b.txns ==> Carried(t, txn.txid) || InflowsHaveRows(t, txn))
  }

  /** What becomes of a block handed to the tables: validated first, then written. */
  ghost function Outcome(R: Rules, now: int, t: Table, b: Block): Option<BlockError>
    requires Rooted(t)
  {
    var v := Verdict(R, now, t, b);
    if v.Some? then v else if Storable(t, b) then None else Some(Unstorable)
  }

  /** A row for the new tip exists already, or the parent's row moves up, or a row is made. */
  function Enrolled(rows: map<Hash, int>, prev: Hash, tip: Hash, idx: int): map<Hash, int> {
    if tip in rows then rows
    else if prev in rows then (rows - {prev})[tip := idx]
    else rows[tip := idx]
  }

  /** Rows too far behind the tip are dropped; the tip's own row never is. */
  function Pruned(rows: map<Hash, int>, tip: Hash, depth: int): map<Hash, int>
    requires tip in rows
  {
    map g | g in rows && (g == tip || rows[g] >= rows[tip] - depth) :: rows[g]
  }

  ghost function Synced(R: Rules, s: State, tip: Hash, depth: int): State
    requires Rooted(s.blocks) && ValidRows(s) && tip in s.rows
  {
    if Wins(R, s.blocks, s.rows.Keys, tip)
    then State(s.blocks, Pruned(s.rows, tip, depth), PathMap(s.blocks, tip))
    else s
  }

  function Stored(t: Table, b: Block): Table {
    if b.hash in t then t else t[b.hash := b]
  }

  /** Blocks and rows after the block is written and its chain row is found, moved or made. */
  function Enrol(s: State, b: Block): State {
    var blocks := Stored(s.blocks, b);
    State(blocks, Enrolled(s.rows, b.prevHash, b.hash, blocks[b.hash].idx), s.mat)
  }

  ghost function Added(R: Rules, s: State, b: Block, depth: int): State
    requires Rooted(Enrol(s, b).blocks) && ValidRows(Enrol(s, b))
  {
    Synced(R, Enrol(s, b), b.hash, depth)
  }

  /** The digest of this header is neither a stored block's by accident nor that of the genesis text. */
  ghost predicate Identified(R: Rules, t: Table, b: Block) {
    && R.hash(Header(b)) != R.hash(GENESIS)
    && (b.hash in t && R.hash(Header(b)) == b.hash ==> Header(t[b.hash]) == Header(b))
  }

  // ---- the tree a step leaves ------------------------------------------------------------------

  lemma RootedPrev(R: Rules, t: Table)
    requires Rooted(t) && AllValid(R, t) && t != map[]
    ensures R.hash(GENESIS) !in t && GenesisOf(t).Some?
  {
    hide Path, ValidChain, Shape;
    var h :| h in t;
    assert Linked(t, h);
    PathAt(t, h, 0);
    var root := Path(t, h)[0].hash;
    assert IsRoot(t, root) && Linked(t, root);
    ChainLinks(R, Path(t, h), 0);
  }

  lemma AcceptedLinks(R: Rules, now: int, t: Table, b: Block)
    requires Rooted(t) && AllValid(R, t) && Verdict(R, now, t, b) == None
    ensures Shape(R, b) && b.idx == |Parent(t, b)|
    ensures b.prevHash !in t ==> Genesis(R, b) && b.idx == 0 && (t == map[] || b.hash in t)
    ensures b.prevHash in t ==> b.idx == t[b.prevHash].idx + 1
    ensures b.hash !in t ==> ValidNext(R, Parent(t, b), b)
  {
    hide ValidChain, Shape, CheckMoney, TargetAfter, Before, Path;
    if t != map[] {
      RootedPrev(R, t);
    }
    if b.prevHash in t {
      PathLast(t, b.prevHash);
    } else if t != map[] {
      assert IsRoot(t, GenesisOf(t).value);
    }
  }

  lemma HashOfShape(R: Rules, b: Block)
    requires Shape(R, b)
    ensures b.hash == R.hash(Header(b)) && ValidHeader(R, b)
  {
    hide Header, Leaves, InOrder, ValidRegular, ValidCoinbase, ValidHeader;
  }

  lemma GenesisPrev(R: Rules, t: Table, h: Hash)
    requires Rooted(t) && AllValid(R, t) && IsRoot(t, h)
    ensures t[h].prevHash == R.hash(GENESIS)
  {
    hide Shape, ValidChain;
    ChainLinks(R, Path(t, h), 0);
  }

  lemma StoredIsRooted(R: Rules, now: int, t: Table, b: Block)
    requires Rooted(t) && AllValid(R, t) && Verdict(R, now, t, b) == None && Identified(R, t, b)
    ensures Rooted(Stored(t, b))
  {
    hide AllValid, Verdict, Path, Shape, ValidNext, Header;
    AcceptedLinks(R, now, t, b);
    HashOfShape(R, b);
    if b.hash !in t {
      var u := Stored(t, b);
      forall h | h in u
        ensures Linked(u, h)
      {
        if h in t {
          assert Linked(t, h);
          if IsRoot(t, h) {
            GenesisPrev(R, t, h);
          }
        } else if b.prevHash in t {
          assert Linked(t, b.prevHash);
        }
      }
      assert forall g :: IsRoot(u, g) && g != b.hash ==> IsRoot(t, g);
      if b.prevHash in t {
        assert Linked(t, b.prevHash);
      }
    }
  }

  // ---- the invariant is kept -------------------------------------------------------------------

  lemma StoredIsValid(R: Rules, now: int, t: Table, b: Block)
    requires Rooted(t) && AllValid(R, t) && Verdict(R, now, t, b) == None && Identified(R, t, b)
    ensures Rooted(Stored(t, b)) && AllValid(R, Stored(t, b))
  {
    hide Verdict, Shape, ValidNext, Header, ValidChain;
    StoredIsRooted(R, now, t, b);
    AcceptedLinks(R, now, t, b);
    if b.hash !in t {
      var u := Stored(t, b);
      forall h | h in u
        ensures ValidChain(R, Path(u, h))
      {
        if h in t {
          PathGrows(t, u, h);
        } else {
          NewPath(R, now, t, b);
          ExtendValid(R, Parent(t, b), b);
        }
      }
    }
  }

  lemma NewPath(R: Rules, now: int, t: Table, b: Block)
    requires Rooted(t) && AllValid(R, t) && Verdict(R, now, t, b) == None && Identified(R, t, b) && b.hash !in t
    ensures Rooted(Stored(t, b)) && Path(Stored(t, b), b.hash) == Parent(t, b) + [b] && ValidChain(R, Parent(t, b))
  {
    hide Verdict, Shape, ValidNext, Header;
    StoredIsRooted(R, now, t, b);
    AcceptedLinks(R, now, t, b);
    if b.prevHash in t {
      PathGrows(t, Stored(t, b), b.prevHash);
    }
  }

  lemma ExtendValid(R: Rules, chain: seq<Block>, b: Block)
    requires ValidChain(R, chain) && ValidNext(R, chain, b)
    ensures ValidChain(R, chain + [b])
  {
    hide ValidNext;
    assert (chain + [b])[..|chain|] == chain;
  }

  /** A block that is stored already sits where its header says. */
  lemma StoredHeader(R: Rules, now: int, t: Table, b: Block)
    requires Rooted(t) && AllValid(R, t) && Verdict(R, now, t, b) == None && Identified(R, t, b) && b.hash in t
    ensures t[b.hash].prevHash == b.prevHash && t[b.hash].idx == b.idx
  {
    hide Verdict, Shape, ValidNext, Header, ValidHeader, ValidChain;
    AcceptedLinks(R, now, t, b);
    HashOfShape(R, b);
    PathLast(t, b.hash);
    ChainLinks(R, Path(t, b.hash), t[b.hash].idx);
    HashOfShape(R, t[b.hash]);
    HeaderInjective(R, t[b.hash], b);
  }

  lemma EnrolledRows(R: Rules, now: int, s: State, b: Block)
    requires Inv(R, s) && Verdict(R, now, s.blocks, b) == None && Identified(R, s.blocks, b)
    ensures Rooted(Enrol(s, b).blocks) && AllValid(R, Enrol(s, b).blocks) && ValidRows(Enrol(s, b))
      && b.hash in Enrol(s, b).rows
  {
    hide Verdict, Identified, Path, AllValid;
    StoredIsValid(R, now, s.blocks, b);
  }

  /** No stored block sits on top of the best one. */
  lemma NothingAboveBest(R: Rules, t: Table, best: Hash, h: Hash)
    requires Rooted(t) && IsBest(R, t, best) && h in t && t[h].prevHash in t
    ensures t[h].prevHash != best
  {
    hide Earlier;
    assert Linked(t, h) && Linked(t, best);
    assert h == best || Better(R, t[best], t[h]);
  }

  lemma EnrolledKeeps(rows: map<Hash, int>, prev: Hash, tip: Hash, idx: int, h: Hash)
    requires h in rows && h != prev
    ensures h in Enrolled(rows, prev, tip, idx)
  {
  }

  /** The row of the best block survives the enrolment, or the new block is the best. */
  lemma EnrolKeepsBest(R: Rules, now: int, s: State, b: Block, best: Hash)
    requires Inv(R, s) && Verdict(R, now, s.blocks, b) == None && Identified(R, s.blocks, b) && Canonical(R, s, best)
    ensures Rooted(Enrol(s, b).blocks)
    ensures var e := Enrol(s, b);
      best in e.blocks &&
      if b.hash !in s.blocks && Better(R, b, s.blocks[best]) then IsBest(R, e.blocks, b.hash)
      else IsBest(R, e.blocks, best) && best in e.rows
  {
    hide Verdict, Identified, Path, PathMap, AllValid, Earlier, Rooted, ValidRows, IsBest, Enrolled;
    EnrolledRows(R, now, s, b);
    AcceptedLinks(R, now, s.blocks, b);
    if b.hash in s.blocks {
      StoredHeader(R, now, s.blocks, b);
      if b.prevHash in s.blocks {
        NothingAboveBest(R, s.blocks, best, b.hash);
      }
    } else {
      BestAfter(R, s.blocks, best, b);
    }
    if !(b.hash !in s.blocks && Better(R, b, s.blocks[best])) {
      EnrolledKeeps(s.rows, b.prevHash, b.hash, Enrol(s, b).blocks[b.hash].idx, best);
    }
  }

  // ---- validity and storability ----------------------------------------------------------------

  /** Validation never reports a storage error. */
  lemma VerdictIsNotStorage(R: Rules, now: int, t: Table, b: Block)
    requires Rooted(t)
    ensures Verdict(R, now, t, b) != Some(Unstorable)
    ensures Outcome(R, now, t, b) == None <==> Verdict(R, now, t, b) == None && Storable(t, b)
    ensures Outcome(R, now, t, b) == Some(Unstorable) <==> Verdict(R, now, t, b) == None && !Storable(t, b)
  {
    hide Shape, CheckTxns, TargetAfter, Before, Storable, NonZeroAmounts, Path;
  }

  /** No transaction without a row spends an output of another one without a row. */
  predicate NoFreshSpend(t: Table, b: Block) {
    forall txn, i :: txn in b.txns && i in txn.inflows ==> Carried(t, txn.txid) || Carried(t, i.outflowTxid)
  }

  lemma ChainOutflowHasRow(t: Table, h: Hash, i: Inflow, source: Txn)
    requires Rooted(t) && h in t && source in AllTxns(Path(t, h))
    requires source.txid == i.outflowTxid && 0 <= i.outflowIdx < |source.outflows|
    ensures HasOutflow(t, i) && Carried(t, i.outflowTxid)
  {
    hide Path, Rooted, AllTxns;
    var m, k := TxnInBlock(Path(t, h), source);
    PathAt(t, h, m);
    assert Creates(t[Path(t, h)[m].hash], i) && Carries(t[Path(t, h)[m].hash], i.outflowTxid);
  }

  lemma StoredTxnValid(R: Rules, t: Table, h: Hash, txn: Txn)
    requires Rooted(t) && AllValid(R, t) && h in t && txn in t[h].txns
    ensures ValidTxn(R, txn)
  {
    hide Path, Rooted, ValidChain, ValidNext, ValidTxn;
    PathLast(t, h);
    var m := t[h].idx;
    ValidAt(R, Path(t, h), m);
    var k :| 0 <= k < |t[h].txns| && t[h].txns[k] == txn;
    AcceptedIsValid(R, Path(t, h)[..m], t[h], k);
  }

  /** The row an inflow of a valid new block needs: there is one unless its source is new as well. */
  lemma SourceHasRow(R: Rules, now: int, t: Table, b: Block, txn: Txn, i: Inflow, texts: set<string>)
    requires Rooted(t) && AllValid(R, t) && Verdict(R, now, t, b) == None && b.hash !in t
    requires CollisionFree(R, texts) && Contents(b.txns) <= texts && forall h :: h in t ==> Contents(t[h].txns) <= texts
    requires txn in b.txns && i in txn.inflows
    ensures HasOutflow(t, i) <==> Carried(t, i.outflowTxid)
  {
    hide Path, Rooted, Verdict, ValidChain, ValidNext, Shape, AllTxns, Find, DataCsv, ValidTxn, AllValid,
      CollisionFree, OwnerOf;
    AcceptedLinks(R, now, t, b);
    var k :| 0 <= k < |b.txns| && b.txns[k] == txn;
    AcceptedInflow(R, Parent(t, b), b, k, i);
    var v := View(Parent(t, b), b.txns);
    var source := Lookup(v, i.outflowTxid).value;
    FindAnswers(b.txns, i.outflowTxid);
    FindAnswers(AllTxns(Parent(t, b)), i.outflowTxid);
    if HasOutflow(t, i) {
      RowIsCarried(t, i);
    }
    if source in b.txns {
      if Carried(t, i.outflowTxid) {
        var h, twin := CarrierOf(t, i.outflowTxid);
        var l :| 0 <= l < |b.txns| && b.txns[l] == source;
        AcceptedIsValid(R, Parent(t, b), b, l);
        StoredTxnValid(R, t, h, twin);
        assert DataCsv(source) in Contents(b.txns) && DataCsv(twin) in Contents(t[h].txns);
        SameTxidSameContent(R, texts, source, twin);
        assert Creates(t[h], i);
      }
    } else if b.prevHash in t {
      ChainOutflowHasRow(t, b.prevHash, i, source);
    } else {
      NothingFound(i.outflowTxid);
    }
  }

  lemma NothingFound(txid: string)
    ensures Find(AllTxns([]), txid) == None
  {
  }

  lemma RowIsCarried(t: Table, i: Inflow)
    requires HasOutflow(t, i)
    ensures Carried(t, i.outflowTxid)
  {
    var h :| h in t && Creates(t[h], i);
    assert Carries(t[h], i.outflowTxid);
  }

  lemma CarrierOf(t: Table, txid: string) returns (h: Hash, txn: Txn)
    requires Carried(t, txid)
    ensures h in t && txn in t[h].txns && txn.txid == txid
  {
    h :| h in t && Carries(t[h], txid);
    txn :| txn in t[h].txns && txn.txid == txid;
  }

  /** A valid new block is stored exactly when its nonce fits and it spends nothing that is itself new. */
  lemma StorableIff(R: Rules, now: int, t: Table, b: Block, texts: set<string>)
    requires Rooted(t) && AllValid(R, t) && Verdict(R, now, t, b) == None && b.hash !in t
    requires CollisionFree(R, texts) && Contents(b.txns) <= texts && forall h :: h in t ==> Contents(t[h].txns) <= texts
    ensures Storable(t, b) <==> b.proofOfWork <= 9_223_372_036_854_775_807 && NoFreshSpend(t, b)
  {
    hide Rooted, Verdict, AllValid, CollisionFree, Contents, Carried, HasOutflow;
    forall txn, i | txn in b.txns && i in txn.inflows
      ensures HasOutflow(t, i) <==> Carried(t, i.outflowTxid)
    {
      SourceHasRow(R, now, t, b, txn, i, texts);
    }
  }
}
