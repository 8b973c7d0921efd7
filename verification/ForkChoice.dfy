/** What every step of a node's store keeps, and what whole runs of steps agree on. */
module ForkChoice {
  import opened Prelude
  import opened Transactions
  import opened Order
  import opened Blocks
  import opened Ledger
  import opened LedgerTheory
  import opened Unspent
  import opened Tree
  import opened Store

  // ---- one step --------------------------------------------------------------------------------

  lemma SyncedBest(R: Rules, e: State, tip: Hash, depth: int)
    requires Rooted(e.blocks) && ValidRows(e) && tip in e.rows && IsBest(R, e.blocks, tip)
    ensures var u := Synced(R, e, tip, depth);
      u.blocks == e.blocks && ValidRows(u) && Canonical(R, u, tip)
  {
    hide Path, Rooted;
    BestAmongRows(R, e.blocks, e.rows.Keys, tip, tip);
  }

  lemma SyncedOther(R: Rules, e: State, tip: Hash, best: Hash, depth: int)
    requires Rooted(e.blocks) && ValidRows(e) && tip in e.rows && best in e.rows && IsBest(R, e.blocks, best)
      && tip != best
    ensures Synced(R, e, tip, depth) == e
  {
    hide Path, Rooted, IsBest;
    BestAmongRows(R, e.blocks, e.rows.Keys, best, tip);
  }

  lemma OnlyBlock(R: Rules, t: Table, h: Hash)
    requires t.Keys == {h}
    ensures IsBest(R, t, h)
  {
  }

  /** The best block after a step: the old best, or the added block if it beats it. */
  lemma StepBest(R: Rules, now: int, s: State, b: Block, depth: int) returns (best: Hash)
    requires Inv(R, s) && Verdict(R, now, s.blocks, b) == None && Identified(R, s.blocks, b)
    ensures Rooted(Enrol(s, b).blocks) && AllValid(R, Enrol(s, b).blocks) && ValidRows(Enrol(s, b))
      && b.hash in Enrol(s, b).rows
    ensures var u := Added(R, s, b, depth);
      u.blocks == Enrol(s, b).blocks && ValidRows(u) && Canonical(R, u, best)
      && (forall was :: Canonical(R, s, was) ==> was in u.blocks && u.blocks[best].idx >= u.blocks[was].idx)
  {
    hide Path, AllValid, Verdict, Identified, Earlier;
    EnrolledRows(R, now, s, b);
    var e := Enrol(s, b);
    if s.blocks == map[] {
      OnlyBlock(R, e.blocks, b.hash);
      best := b.hash;
      SyncedBest(R, e, best, depth);
    } else {
      var before :| Canonical(R, s, before);
      EnrolKeepsBest(R, now, s, b, before);
      PathMapGrows(s.blocks, e.blocks, before);
      best := if b.hash !in s.blocks && Better(R, b, s.blocks[before]) then b.hash else before;
      if best == b.hash {
        SyncedBest(R, e, best, depth);
      } else {
        SyncedOther(R, e, b.hash, best, depth);
      }
      BestIsOne(R, s);
    }
  }

  lemma BestIsOne(R: Rules, s: State)
    requires Rooted(s.blocks)
    ensures forall g, h :: Canonical(R, s, g) && Canonical(R, s, h) ==> g == h
  {
    hide Path, Rooted, PathMap, Better;
    forall g, h | Canonical(R, s, g) && Canonical(R, s, h)
      ensures g == h
    {
      WinnerUnique(R, s.blocks, s.blocks.Keys, g, h);
    }
  }

  /** Every accepted block keeps the invariant, whatever the prune depth. */
  lemma StepKeepsInv(R: Rules, now: int, s: State, b: Block, depth: int)
    requires Inv(R, s) && Verdict(R, now, s.blocks, b) == None && Identified(R, s.blocks, b)
    ensures Rooted(Enrol(s, b).blocks) && ValidRows(Enrol(s, b)) && b.hash in Enrol(s, b).rows
    ensures Inv(R, Added(R, s, b, depth))
  {
    hide Path, AllValid, Verdict, Identified, Rooted, ValidRows, Canonical, Synced;
    var best := StepBest(R, now, s, b, depth);
    assert b.hash in Enrol(s, b).blocks;
  }

  /** Pruning is invisible: the winner among the remaining rows is the best block of the whole tree. */
  lemma LongestIsBest(R: Rules, s: State, h: Hash)
    requires Inv(R, s)
    ensures s.rows.Keys <= s.blocks.Keys
    ensures Wins(R, s.blocks, s.rows.Keys, h) <==> IsBest(R, s.blocks, h)
  {
    hide Path, AllValid, Rooted, PathMap, Better;
    if s.blocks != map[] {
      var best :| Canonical(R, s, best);
      BestAmongRows(R, s.blocks, s.rows.Keys, best, h);
      BestAmongRows(R, s.blocks, s.blocks.Keys, best, h);
    }
  }

  /** Which chain rows a step leaves: the block's own, and every older one, unless the block moved it up
      or is the best of the tree and leaves it further behind than the depth. */
  lemma RowsAfter(R: Rules, now: int, s: State, b: Block, depth: int, h: Hash)
    requires Inv(R, s) && Verdict(R, now, s.blocks, b) == None && Identified(R, s.blocks, b)
    ensures Rooted(Enrol(s, b).blocks) && ValidRows(Enrol(s, b)) && b.hash in Enrol(s, b).rows
    ensures
      var u := Added(R, s, b, depth);
      var moved := h == b.prevHash && b.hash !in s.rows;
      var stale := h in s.rows && s.rows[h] < b.idx - depth && IsBest(R, u.blocks, b.hash);
      h in u.rows <==> h == b.hash || (h in s.rows && !moved && !stale)
  {
    hide Path, PathMap, AllValid, Verdict, Identified, Better, Rooted, IsBest, Wins;
    EnrolledRows(R, now, s, b);
    TipHeight(R, now, s, b);
    StepWins(R, now, s, b);
  }

  lemma TipHeight(R: Rules, now: int, s: State, b: Block)
    requires Inv(R, s) && Verdict(R, now, s.blocks, b) == None && Identified(R, s.blocks, b)
    requires ValidRows(Enrol(s, b)) && b.hash in Enrol(s, b).rows
    ensures Enrol(s, b).rows[b.hash] == b.idx
  {
    hide Path, AllValid, Verdict, Identified, Canonical;
    if b.hash in s.blocks {
      StoredHeader(R, now, s.blocks, b);
    }
  }

  /** The block wins among the rows it is written to exactly when it is the best of the tree. */
  lemma StepWins(R: Rules, now: int, s: State, b: Block)
    requires Inv(R, s) && Verdict(R, now, s.blocks, b) == None && Identified(R, s.blocks, b)
    requires var e := Enrol(s, b); Rooted(e.blocks) && ValidRows(e) && b.hash in e.rows
    ensures var e := Enrol(s, b); Wins(R, e.blocks, e.rows.Keys, b.hash) <==> IsBest(R, e.blocks, b.hash)
  {
    hide Path, PathMap, AllValid, Verdict, Identified, Better, Wins, Enrolled;
    var e := Enrol(s, b);
    if s.blocks == map[] {
      OnlyBlock(R, e.blocks, b.hash);
      BestAmongRows(R, e.blocks, e.rows.Keys, b.hash, b.hash);
    } else {
      var best :| Canonical(R, s, best);
      EnrolKeepsBest(R, now, s, b, best);
      var top := if b.hash !in s.blocks && Better(R, b, s.blocks[best]) then b.hash else best;
      BestAmongRows(R, e.blocks, e.rows.Keys, top, b.hash);
      BestAmongRows(R, e.blocks, e.blocks.Keys, top, b.hash);
    }
  }

  // ---- runs ------------------------------------------------------------------------------------

  /** A block handed to the node, the clock at that moment, and the configured prune depth. */
  datatype Arrival = Arrival(block: Block, now: int, depth: int)

  /** Texts the digest is applied to during a run. */
  ghost predicate Known(R: Rules, texts: set<string>, arrivals: seq<Arrival>) {
    && CollisionFree(R, texts) && GENESIS in texts
    && forall k :: 0 <= k < |arrivals| ==> Header(arrivals[k].block) in texts
  }

  ghost predicate HeadersKnown(R: Rules, texts: set<string>, t: Table) {
    forall h :: h in t ==> Header(t[h]) in texts && R.hash(Header(t[h])) == h && ValidHeader(R, t[h])
  }

  lemma KnownIsIdentified(R: Rules, texts: set<string>, t: Table, b: Block)
    requires CollisionFree(R, texts) && GENESIS in texts && Header(b) in texts && HeadersKnown(R, texts, t)
    ensures Identified(R, t, b)
  {
    hide Header;
    HeaderHasComma(b);
    assert ',' !in GENESIS;
  }

  ghost function StepOf(R: Rules, texts: set<string>, s: State, a: Arrival): (u: State)
    requires Inv(R, s) && HeadersKnown(R, texts, s.blocks) && Known(R, texts, [a])
    ensures Inv(R, u) && HeadersKnown(R, texts, u.blocks)
  {
    hide Inv, Header, Verdict, Identified, AllValid, Shape, ValidHeader;
    assert Header([a][0].block) in texts;
    InvRooted(R, s);
    if Outcome(R, a.now, s.blocks, a.block) == None then
      KnownIsIdentified(R, texts, s.blocks, a.block);
      StepKeepsInv(R, a.now, s, a.block, a.depth);
      VerdictShape(R, a.now, s.blocks, a.block);
      HashOfShape(R, a.block);
      Added(R, s, a.block, a.depth)
    else s
  }

  lemma InvRooted(R: Rules, s: State)
    requires Inv(R, s)
    ensures Rooted(s.blocks) && AllValid(R, s.blocks)
  {
    hide AllValid, Canonical, ValidRows, Rooted;
  }

  lemma VerdictShape(R: Rules, now: int, t: Table, b: Block)
    requires Rooted(t) && Verdict(R, now, t, b) == None
    ensures Shape(R, b)
  {
    hide Shape, CheckMoney, CheckLink;
  }

  lemma EmptyInv(R: Rules, texts: set<string>)
    ensures Inv(R, EMPTY) && HeadersKnown(R, texts, EMPTY.blocks)
  {
    hide ValidChain, Shape;
  }

  lemma KnownParts(R: Rules, texts: set<string>, arrivals: seq<Arrival>, n: nat)
    requires Known(R, texts, arrivals) && n < |arrivals|
    ensures Known(R, texts, arrivals[..n]) && Known(R, texts, [arrivals[n]])
  {
    hide Header;
  }

  /** The store after the arrivals, refused ones included, starting from nothing. */
  ghost function Run(R: Rules, texts: set<string>, arrivals: seq<Arrival>): (s: State)
    requires Known(R, texts, arrivals)
    ensures Inv(R, s) && HeadersKnown(R, texts, s.blocks)
  {
    hide Inv, Header, Known, HeadersKnown, StepOf;
    if arrivals == [] then
      EmptyInv(R, texts);
      EMPTY
    else
      var n := |arrivals| - 1;
      KnownParts(R, texts, arrivals, n);
      StepOf(R, texts, Run(R, texts, arrivals[..n]), arrivals[n])
  }

  /** Every arrival was accepted when it came. */
  ghost predicate AllAccepted(R: Rules, texts: set<string>, arrivals: seq<Arrival>)
    requires Known(R, texts, arrivals)
  {
    if arrivals == [] then true
    else
      var n := |arrivals| - 1;
      KnownParts(R, texts, arrivals, n);
      InvRooted(R, Run(R, texts, arrivals[..n]));
      AllAccepted(R, texts, arrivals[..n])
      && Outcome(R, arrivals[n].now, Run(R, texts, arrivals[..n]).blocks, arrivals[n].block) == None
  }

  function Hashes(arrivals: seq<Arrival>): set<Hash> {
    set a | a in arrivals :: a.block.hash
  }

  lemma {:induction false} RunHolds(R: Rules, texts: set<string>, arrivals: seq<Arrival>)
    requires Known(R, texts, arrivals) && AllAccepted(R, texts, arrivals)
    ensures Run(R, texts, arrivals).blocks.Keys == Hashes(arrivals)
  {
    hide Inv, Header, Known, HeadersKnown, Verdict, Synced, Shape, Identified;
    if arrivals != [] {
      var n := |arrivals| - 1;
      KnownParts(R, texts, arrivals, n);
      RunHolds(R, texts, arrivals[..n]);
      var before := Run(R, texts, arrivals[..n]);
      InvRooted(R, before);
      StepBlocks(R, texts, before, arrivals[n]);
      assert arrivals == arrivals[..n] + [arrivals[n]];
    }
  }

  lemma StepBlocks(R: Rules, texts: set<string>, s: State, a: Arrival)
    requires Inv(R, s) && HeadersKnown(R, texts, s.blocks) && Known(R, texts, [a]) && Rooted(s.blocks)
    ensures StepOf(R, texts, s, a).blocks ==
      if Outcome(R, a.now, s.blocks, a.block) == None then Stored(s.blocks, a.block) else s.blocks
  {
    hide Inv, Header, HeadersKnown, Verdict, Shape, Identified, Rooted, ValidHeader, AllValid;
    assert Header([a][0].block) in texts;
    if Outcome(R, a.now, s.blocks, a.block) == None {
      KnownIsIdentified(R, texts, s.blocks, a.block);
      StepKeepsInv(R, a.now, s, a.block, a.depth);
      SyncedBlocks(R, Enrol(s, a.block), a.block.hash, a.depth);
    }
  }

  lemma SyncedBlocks(R: Rules, e: State, tip: Hash, depth: int)
    requires Rooted(e.blocks) && ValidRows(e) && tip in e.rows
    ensures Synced(R, e, tip, depth).blocks == e.blocks
  {
    hide Wins, PathMap, Rooted;
  }

  // ---- agreement -------------------------------------------------------------------------------

  /** Same hashes, same headers; signatures of stored transactions may differ. */
  ghost predicate SameTree(t: Table, u: Table) {
    t.Keys == u.Keys && forall h :: h in t ==> SameHeader(t[h], u[h]) && t[h].hash == u[h].hash
  }

  lemma HashesFixHeaders(R: Rules, texts: set<string>, t: Table, u: Table)
    requires CollisionFree(R, texts) && HeadersKnown(R, texts, t) && HeadersKnown(R, texts, u)
    requires Rooted(t) && Rooted(u) && t.Keys == u.Keys
    ensures SameTree(t, u)
  {
    hide Header, ValidHeader;
    forall h | h in t
      ensures SameHeader(t[h], u[h]) && t[h].hash == u[h].hash
    {
      assert Linked(t, h) && Linked(u, h);
      HeaderInjective(R, t[h], u[h]);
    }
  }

  lemma {:induction false} SamePath(t: Table, u: Table, h: Hash, k: nat)
    requires Rooted(t) && Rooted(u) && SameTree(t, u) && h in t && k <= t[h].idx
    ensures Path(t, h)[k].hash == Path(u, h)[k].hash
    decreases t[h].idx
  {
    assert Linked(t, h) && Linked(u, h);
    if k < t[h].idx {
      SamePath(t, u, t[h].prevHash, k);
    }
  }

  lemma SamePathMap(t: Table, u: Table, h: Hash)
    requires Rooted(t) && Rooted(u) && SameTree(t, u) && h in t
    ensures PathMap(t, h) == PathMap(u, h)
  {
    hide Path, Rooted;
    forall g | g in t && 0 <= t[g].idx <= t[h].idx
      ensures OnPath(t, g, h) <==> OnPath(u, g, h)
    {
      SamePath(t, u, h, t[g].idx);
    }
  }

  lemma SameBest(R: Rules, t: Table, u: Table, h: Hash)
    requires SameTree(t, u) && IsBest(R, t, h)
    ensures IsBest(R, u, h)
  {
    hide StringLess;
  }

  /** Two nodes that hold the same blocks have the same tip and the same materialised chain, however
      the blocks arrived, whatever was refused on the way, and at whatever depth each node prunes. */
  lemma Convergence(R: Rules, texts: set<string>, a: seq<Arrival>, b: seq<Arrival>)
    requires Known(R, texts, a) && Known(R, texts, b)
    requires Run(R, texts, a).blocks.Keys == Run(R, texts, b).blocks.Keys
    ensures var s, u := Run(R, texts, a), Run(R, texts, b);
      s.mat == u.mat && s.rows.Keys <= s.blocks.Keys && u.rows.Keys <= u.blocks.Keys
      && forall h :: Wins(R, s.blocks, s.rows.Keys, h) <==> Wins(R, u.blocks, u.rows.Keys, h)
  {
    hide Header, HeadersKnown, AllValid, Rooted, Better, Path, PathMap, Run;
    var s, u := Run(R, texts, a), Run(R, texts, b);
    HashesFixHeaders(R, texts, s.blocks, u.blocks);
    forall h
      ensures Wins(R, s.blocks, s.rows.Keys, h) <==> Wins(R, u.blocks, u.rows.Keys, h)
    {
      LongestIsBest(R, s, h);
      LongestIsBest(R, u, h);
      if IsBest(R, s.blocks, h) {
        SameBest(R, s.blocks, u.blocks, h);
      }
      if IsBest(R, u.blocks, h) {
        SameBest(R, u.blocks, s.blocks, h);
      }
    }
    SameMat(R, s, u);
  }

  lemma SameMat(R: Rules, s: State, u: State)
    requires Inv(R, s) && Inv(R, u) && SameTree(s.blocks, u.blocks)
    ensures s.mat == u.mat
  {
    hide AllValid, Rooted, Better, Path, PathMap;
    if s.blocks != map[] {
      var best :| Canonical(R, s, best);
      var other :| Canonical(R, u, other);
      SameBest(R, s.blocks, u.blocks, best);
      WinnerUnique(R, u.blocks, u.blocks.Keys, best, other);
      SamePathMap(s.blocks, u.blocks, best);
    } else {
      assert u.blocks.Keys == {};
    }
  }

  /** In particular after any two orders in which the same blocks are all accepted. */
  lemma AnyOrderSameTip(R: Rules, texts: set<string>, a: seq<Arrival>, b: seq<Arrival>)
    requires Known(R, texts, a) && Known(R, texts, b) && AllAccepted(R, texts, a) && AllAccepted(R, texts, b)
    requires Hashes(a) == Hashes(b)
    ensures var s, u := Run(R, texts, a), Run(R, texts, b);
      s.mat == u.mat && s.rows.Keys <= s.blocks.Keys && u.rows.Keys <= u.blocks.Keys
      && forall h :: Wins(R, s.blocks, s.rows.Keys, h) <==> Wins(R, u.blocks, u.rows.Keys, h)
  {
    hide Known, AllAccepted, Run, Wins;
    RunHolds(R, texts, a);
    RunHolds(R, texts, b);
    Convergence(R, texts, a, b);
  }

  // ---- acceptance in any order -----------------------------------------------------------------

  /** No two of the blocks share a hash without being the same, signatures included. */
  predicate OneContent(arrivals: seq<Arrival>) {
    forall j, k :: 0 <= j < |arrivals| && 0 <= k < |arrivals| && arrivals[j].block.hash == arrivals[k].block.hash ==>
      arrivals[j].block == arrivals[k].block
  }

  function Signatures(txns: seq<Txn>): (r: seq<string>)
    ensures |r| == |txns|
  {
    seq(|txns|, k requires 0 <= k < |txns| => txns[k].signature)
  }

  /** A hash always comes with the same signatures: they are all it does not commit to. */
  predicate OneSigning(arrivals: seq<Arrival>) {
    forall j, k :: 0 <= j < |arrivals| && 0 <= k < |arrivals| && arrivals[j].block.hash == arrivals[k].block.hash ==>
      Signatures(arrivals[j].block.txns) == Signatures(arrivals[k].block.txns)
  }

  ghost predicate NoAccidents(R: Rules, arrivals: seq<Arrival>) {
    forall j, k :: 0 <= j < |arrivals| && 0 <= k < |arrivals| ==> NoAccident(R, arrivals[j].block, arrivals[k].block)
  }

  lemma SameBut(R: Rules, a: Block, b: Block)
    requires Shape(R, a) && Shape(R, b) && a.hash == b.hash && NoAccident(R, a, b)
    requires Signatures(a.txns) == Signatures(b.txns)
    ensures a == b
  {
    hide Shape, NoAccident;
    HashCommits(R, a, b);
    forall k | 0 <= k < |a.txns|
      ensures a.txns[k] == b.txns[k]
    {
      assert Signatures(a.txns)[k] == a.txns[k].signature && Signatures(b.txns)[k] == b.txns[k].signature;
    }
    assert a.txns == b.txns;
  }

  lemma {:induction false} AcceptedShape(R: Rules, texts: set<string>, arrivals: seq<Arrival>, k: nat)
    requires Known(R, texts, arrivals) && AllAccepted(R, texts, arrivals) && k < |arrivals|
    ensures Shape(R, arrivals[k].block)
  {
    hide Inv, Header, Known, HeadersKnown, Run, Shape, Rooted, CheckLink, CheckMoney;
    var n := |arrivals| - 1;
    KnownParts(R, texts, arrivals, n);
    InvRooted(R, Run(R, texts, arrivals[..n]));
    if k < n {
      AcceptedShape(R, texts, arrivals[..n], k);
    }
  }

  /** What is accepted under one hash is one block, once the signatures are the same. */
  lemma OneContentIs(R: Rules, texts: set<string>, arrivals: seq<Arrival>)
    requires Known(R, texts, arrivals) && AllAccepted(R, texts, arrivals)
    requires OneSigning(arrivals) && NoAccidents(R, arrivals)
    ensures OneContent(arrivals)
  {
    hide Known, AllAccepted, Shape, NoAccident;
    forall j, k | 0 <= j < |arrivals| && 0 <= k < |arrivals| && arrivals[j].block.hash == arrivals[k].block.hash
      ensures arrivals[j].block == arrivals[k].block
    {
      AcceptedShape(R, texts, arrivals, j);
      AcceptedShape(R, texts, arrivals, k);
      SameBut(R, arrivals[j].block, arrivals[k].block);
    }
  }

  /** The table holds the block, which fits its columns. */
  predicate Holds(t: Table, b: Block) {
    b.hash in t && t[b.hash] == b && b.proofOfWork < BIG_INTEGER
  }

  lemma StillHolds(t: Table, b: Block, c: Block)
    requires Holds(t, c)
    ensures Holds(Stored(t, b), c)
  {
  }

  /** An arrival that repeats a hash repeats the block. */
  lemma SameBlock(arrivals: seq<Arrival>, n: nat) returns (j: nat)
    requires OneContent(arrivals) && n < |arrivals| && arrivals[n].block.hash in Hashes(arrivals[..n])
    ensures j < n && arrivals[j].block == arrivals[n].block
  {
    var a :| a in arrivals[..n] && a.block.hash == arrivals[n].block.hash;
    j :| 0 <= j < n && arrivals[..n][j] == a;
  }

  lemma OneContentPart(arrivals: seq<Arrival>, n: nat)
    requires OneContent(arrivals) && n <= |arrivals|
    ensures OneContent(arrivals[..n])
  {
  }

  lemma NewlyHeld(R: Rules, now: int, t: Table, b: Block)
    requires Rooted(t) && Outcome(R, now, t, b) == None && b.hash !in t
    ensures Holds(Stored(t, b), b)
  {
    hide Rooted, Verdict;
  }

  lemma {:induction false} RunContents(R: Rules, texts: set<string>, arrivals: seq<Arrival>, k: nat)
    requires Known(R, texts, arrivals) && AllAccepted(R, texts, arrivals) && OneContent(arrivals) && k < |arrivals|
    ensures Holds(Run(R, texts, arrivals).blocks, arrivals[k].block)
  {
    hide Inv, Header, Known, HeadersKnown, Outcome, Run, StepOf, Holds, OneContent, Stored, Hashes, Rooted;
    var n := |arrivals| - 1;
    var init, last := arrivals[..n], arrivals[n].block;
    KnownParts(R, texts, arrivals, n);
    var before := Run(R, texts, init);
    InvRooted(R, before);
    StepBlocks(R, texts, before, arrivals[n]);
    RunStep(R, texts, arrivals);
    RunHolds(R, texts, init);
    OneContentPart(arrivals, n);
    if k < n {
      RunContents(R, texts, init, k);
      StillHolds(before.blocks, last, arrivals[k].block);
    } else if last.hash in Hashes(init) {
      var j := SameBlock(arrivals, n);
      RunContents(R, texts, init, j);
      StillHolds(before.blocks, last, last);
    } else {
      NewlyHeld(R, arrivals[n].now, before.blocks, last);
    }
  }

  lemma RunStep(R: Rules, texts: set<string>, arrivals: seq<Arrival>)
    requires Known(R, texts, arrivals) && arrivals != []
    ensures var n := |arrivals| - 1;
      && Known(R, texts, arrivals[..n]) && Known(R, texts, [arrivals[n]])
      && Run(R, texts, arrivals) == StepOf(R, texts, Run(R, texts, arrivals[..n]), arrivals[n])
  {
    hide Inv, Header, Known, HeadersKnown, StepOf;
    KnownParts(R, texts, arrivals, |arrivals| - 1);
  }

  /** Each block comes once, above something that came before it or as the genesis. */
  ghost predicate ParentsFirst(R: Rules, arrivals: seq<Arrival>) {
    forall k :: 0 <= k < |arrivals| ==>
      arrivals[k].block.hash !in Hashes(arrivals[..k])
      && (arrivals[k].block.prevHash in Hashes(arrivals[..k]) || Genesis(R, arrivals[k].block))
  }

  /** Where both tables hold a block it is the same one, and both trees grow from one genesis. */
  ghost predicate Agree(t: Table, u: Table) {
    && (forall h :: h in t && h in u ==> u[h] == t[h])
    && (forall g, h :: IsRoot(t, g) && IsRoot(u, h) ==> g == h)
  }

  lemma PartAgrees(part: Table, whole: Table)
    requires Rooted(whole) && (forall h :: h in part ==> h in whole && part[h] == whole[h])
    ensures Agree(part, whole)
  {
    hide Linked;
    assert forall g :: IsRoot(part, g) ==> IsRoot(whole, g);
  }

  /** The verdict on a new block of a good tree depends only on its parent's path, the genesis and the
      clock: any agreeing table that holds the parent gives the same. */
  lemma AgreeingTableAccepts(R: Rules, now: int, whole: Table, part: Table, b: Block)
    requires Rooted(whole) && AllValid(R, whole) && Rooted(part) && AllValid(R, part) && Agree(part, whole)
    requires b.hash in whole && whole[b.hash] == b && b.hash !in part && NotAfter(R, now, b)
    requires b.prevHash in part || Genesis(R, b)
    ensures Verdict(R, now, part, b) == None
  {
    hide Path, Rooted, ValidChain, Shape, CheckMoney, TargetAfter, Before;
    var chain := Path(whole, b.hash);
    PathLast(whole, b.hash);
    ValidAt(R, chain, b.idx);
    ParentInPart(R, whole, part, b);
    ShapeTimestamp(R, b);
    if b.idx == 0 {
      NoOtherRoot(whole, part, b.hash);
    }
  }

  lemma NoOtherRoot(whole: Table, part: Table, h: Hash)
    requires Agree(part, whole) && IsRoot(whole, h) && h !in part
    ensures GenesisOf(part) == None
  {
  }

  lemma GenesisPrevOf(R: Rules, whole: Table, b: Block)
    requires Rooted(whole) && AllValid(R, whole) && b.hash in whole && whole[b.hash] == b
    ensures b.idx == 0 <==> Genesis(R, b)
  {
    hide ValidChain, Shape, Path;
    RootedPrev(R, whole);
    assert Linked(whole, b.hash);
    if b.idx == 0 {
      GenesisPrev(R, whole, b.hash);
    }
  }

  lemma ParentInPart(R: Rules, whole: Table, part: Table, b: Block)
    requires Rooted(whole) && AllValid(R, whole) && Rooted(part) && AllValid(R, part) && Agree(part, whole)
    requires b.hash in whole && whole[b.hash] == b && b.hash !in part && (b.prevHash in part || Genesis(R, b))
    ensures 0 <= b.idx < |Path(whole, b.hash)| && Parent(part, b) == Path(whole, b.hash)[..b.idx]
  {
    hide ValidChain, Shape;
    assert Linked(whole, b.hash);
    RootedPrev(R, whole);
    if b.prevHash in part {
      GenesisPrevOf(R, whole, b);
      RootedPrev(R, part);
      PathGrows(part, whole, b.prevHash);
      assert Path(whole, b.hash)[..b.idx] == Path(whole, b.prevHash);
    }
  }

  /** No transaction of the block spends another one of it. */
  predicate OwnSpendFree(b: Block) {
    forall txn, i :: txn in b.txns && i in txn.inflows ==> !Carries(b, i.outflowTxid)
  }

  /** Such a block can be written wherever it is valid. */
  lemma OwnSpendFreeIsStorable(R: Rules, now: int, t: Table, b: Block)
    requires Rooted(t) && AllValid(R, t) && Verdict(R, now, t, b) == None
    requires OwnSpendFree(b) && b.proofOfWork < BIG_INTEGER
    ensures Storable(t, b)
  {
    hide Path, Rooted, AllValid, Verdict, ValidChain, ValidNext, Shape, AllTxns, Find, OwnerOf, Carried,
      HasOutflow;
    if b.hash !in t {
      AcceptedLinks(R, now, t, b);
      forall txn, i | txn in b.txns && i in txn.inflows
        ensures HasOutflow(t, i)
      {
        var k :| 0 <= k < |b.txns| && b.txns[k] == txn;
        AcceptedInflow(R, Parent(t, b), b, k, i);
        var source := Lookup(View(Parent(t, b), b.txns), i.outflowTxid).value;
        FindAnswers(b.txns, i.outflowTxid);
        FindAnswers(AllTxns(Parent(t, b)), i.outflowTxid);
        assert source in b.txns ==> Carries(b, i.outflowTxid);
        NothingFound(i.outflowTxid);
        ChainOutflowHasRow(t, b.prevHash, i, source);
      }
    }
  }

  /** Where a block spends within itself, the transactions involved must have rows when it comes. */
  ghost predicate AllWritable(R: Rules, texts: set<string>, arrivals: seq<Arrival>)
    requires Known(R, texts, arrivals)
  {
    if arrivals == [] then true
    else
      var n := |arrivals| - 1;
      KnownParts(R, texts, arrivals, n);
      AllWritable(R, texts, arrivals[..n])
      && (OwnSpendFree(arrivals[n].block) || Storable(Run(R, texts, arrivals[..n]).blocks, arrivals[n].block))
  }

  lemma ParentsFirstPart(R: Rules, arrivals: seq<Arrival>, n: nat)
    requires ParentsFirst(R, arrivals) && n <= |arrivals|
    ensures ParentsFirst(R, arrivals[..n])
  {
    forall k | 0 <= k < n
      ensures arrivals[..n][..k] == arrivals[..k]
    {
    }
  }

  lemma {:induction false} AcceptedUpTo(R: Rules, texts: set<string>, whole: State, arrivals: seq<Arrival>)
    requires Inv(R, whole) && Known(R, texts, arrivals) && AllWritable(R, texts, arrivals) && ParentsFirst(R, arrivals)
    requires forall a :: a in arrivals ==> Holds(whole.blocks, a.block) && NotAfter(R, a.now, a.block)
    ensures AllAccepted(R, texts, arrivals)
    ensures forall h :: h in Run(R, texts, arrivals).blocks ==>
      h in whole.blocks && Run(R, texts, arrivals).blocks[h] == whole.blocks[h]
  {
    hide Inv, Header, Known, HeadersKnown, Outcome, Run, StepOf, Storable, OwnSpendFree, Rooted, AllValid,
      ParentsFirst, Genesis;
    if arrivals == [] {
      assert Run(R, texts, arrivals) == EMPTY by { NothingRun(R, texts); }
    } else {
      var n := |arrivals| - 1;
      var init, a := arrivals[..n], arrivals[n];
      assert arrivals == init + [a];
      KnownParts(R, texts, arrivals, n);
      ParentsFirstPart(R, arrivals, n);
      AcceptedUpTo(R, texts, whole, init);
      RunHolds(R, texts, init);
      var before := Run(R, texts, init);
      LastParent(R, arrivals);
      InvRooted(R, whole);
      InvRooted(R, before);
      PartAgrees(before.blocks, whole.blocks);
      AgreeingTableAccepts(R, a.now, whole.blocks, before.blocks, a.block);
      if OwnSpendFree(a.block) {
        OwnSpendFreeIsStorable(R, a.now, before.blocks, a.block);
      }
      VerdictIsNotStorage(R, a.now, before.blocks, a.block);
      StepBlocks(R, texts, before, a);
      RunStep(R, texts, arrivals);
    }
  }

  lemma NothingRun(R: Rules, texts: set<string>)
    requires Known(R, texts, [])
    ensures Run(R, texts, []) == EMPTY
  {
    hide Inv, StepOf;
  }

  lemma LastParent(R: Rules, arrivals: seq<Arrival>)
    requires ParentsFirst(R, arrivals) && arrivals != []
    ensures var init, b := arrivals[..|arrivals| - 1], arrivals[|arrivals| - 1].block;
      b.hash !in Hashes(init) && (b.prevHash in Hashes(init) || Genesis(R, b))
  {
  }

  /** The blocks of one accepted run, handed to another node once each, parents first, at clocks past
      their timestamps, are all accepted again - except that a block spending within itself needs the
      rows of the transactions involved - and leave the same tip and materialised chain. */
  lemma AcceptedInAnyOrder(R: Rules, texts: set<string>, a: seq<Arrival>, b: seq<Arrival>)
    requires Known(R, texts, a) && AllAccepted(R, texts, a) && OneSigning(a) && NoAccidents(R, a)
    requires Known(R, texts, b) && AllWritable(R, texts, b) && ParentsFirst(R, b)
    requires forall x :: x in b ==> NotAfter(R, x.now, x.block) && exists y :: y in a && y.block == x.block
    ensures AllAccepted(R, texts, b)
    ensures Hashes(a) == Hashes(b) ==>
      var s, u := Run(R, texts, a), Run(R, texts, b);
      s.mat == u.mat && s.rows.Keys <= s.blocks.Keys && u.rows.Keys <= u.blocks.Keys
      && forall h :: Wins(R, s.blocks, s.rows.Keys, h) <==> Wins(R, u.blocks, u.rows.Keys, h)
  {
    hide Inv, Known, AllAccepted, AllWritable, Run, Wins, ParentsFirst, NotAfter, Holds, OneContent, OneSigning,
      NoAccidents;
    OneContentIs(R, texts, a);
    var whole := Run(R, texts, a);
    forall x | x in b
      ensures Holds(whole.blocks, x.block)
    {
      var y :| y in a && y.block == x.block;
      var k :| 0 <= k < |a| && a[k] == y;
      RunContents(R, texts, a, k);
    }
    AcceptedUpTo(R, texts, whole, b);
    if Hashes(a) == Hashes(b) {
      AnyOrderSameTip(R, texts, a, b);
    }
  }

  /** The height of the best block, or -1. */
  ghost function Height(R: Rules, s: State): int
    requires Rooted(s.blocks)
  {
    if exists h :: Canonical(R, s, h) then var h :| Canonical(R, s, h); s.blocks[h].idx else -1
  }

  lemma StepHeight(R: Rules, texts: set<string>, s: State, a: Arrival)
    requires Inv(R, s) && HeadersKnown(R, texts, s.blocks) && Known(R, texts, [a])
    ensures var u := StepOf(R, texts, s, a);
      Rooted(s.blocks) && Rooted(u.blocks) && Height(R, s) <= Height(R, u)
  {
    hide AllValid, Header, HeadersKnown, Verdict, Shape, Identified, Rooted, ValidHeader, Path, PathMap,
      IsBest, Synced, ValidRows;
    assert Header([a][0].block) in texts;
    if Outcome(R, a.now, s.blocks, a.block) == None {
      KnownIsIdentified(R, texts, s.blocks, a.block);
      var best := StepBest(R, a.now, s, a.block, a.depth);
      BestIsOne(R, Added(R, s, a.block, a.depth));
      NonNegativeIdx(Added(R, s, a.block, a.depth).blocks, best);
    }
  }

  lemma NonNegativeIdx(t: Table, h: Hash)
    requires Rooted(t) && h in t
    ensures t[h].idx >= 0
  {
    assert Linked(t, h);
  }

  /** The height of the best chain never decreases along a run. */
  lemma {:induction false} HeightNeverDecreases(R: Rules, texts: set<string>, arrivals: seq<Arrival>, n: nat)
    requires Known(R, texts, arrivals) && n <= |arrivals|
    ensures Known(R, texts, arrivals[..n])
    ensures var s, u := Run(R, texts, arrivals[..n]), Run(R, texts, arrivals);
      Rooted(s.blocks) && Rooted(u.blocks) && Height(R, s) <= Height(R, u)
  {
    hide Inv, Header, HeadersKnown, Known, Height, StepOf;
    if n == |arrivals| {
      assert arrivals[..n] == arrivals;
      InvRooted(R, Run(R, texts, arrivals));
    } else {
      var m := |arrivals| - 1;
      KnownParts(R, texts, arrivals, m);
      assert arrivals[..m][..n] == arrivals[..n];
      HeightNeverDecreases(R, texts, arrivals[..m], n);
      StepHeight(R, texts, Run(R, texts, arrivals[..m]), arrivals[m]);
    }
  }
}
