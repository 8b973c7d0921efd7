/** Blocks: the hashed header and the shape every block must have whatever chain it extends. */
module Blocks {
  import opened Text
  import opened Payload
  import opened Transactions
  import opened Order

  const MAX_TRANSACTIONS: nat := 100

  /** Four hours, in seconds. */
  const TXN_TIMEOUT: int := 14400

  datatype Block = Block(
    idx: int,
    timestamp: string,
    hash: string,
    prevHash: string,
    target: string,
    proofOfWork: int,
    merkleRoot: string,
    txns: seq<Txn>)

  // ---- header ----------------------------------------------------------------------------------

  function UnprovenHeader(b: Block): string {
    Join([IntText(b.idx), b.timestamp, b.prevHash, b.target, b.merkleRoot, VERSION, ""])
  }

  function Header(b: Block): string {
    UnprovenHeader(b) + IntText(b.proofOfWork)
  }

  function HeaderFields(b: Block): seq<string> {
    [IntText(b.idx), b.timestamp, b.prevHash, b.target, b.merkleRoot, VERSION, IntText(b.proofOfWork)]
  }

  /** What the block model demands of the header fields. */
  predicate ValidHeader(R: Rules, b: Block) {
    && b.idx >= 0 && b.proofOfWork >= 0
    && ValidTimestamp(R, b.timestamp)
    && IsMillHash(b.hash) && IsMillHash(b.prevHash) && IsMillHash(b.target) && IsMillHash(b.merkleRoot)
  }

  predicate SameHeader(a: Block, b: Block) {
    a.idx == b.idx && a.timestamp == b.timestamp && a.prevHash == b.prevHash && a.target == b.target &&
    a.merkleRoot == b.merkleRoot && a.proofOfWork == b.proofOfWork
  }

  lemma JoinLast(fs: seq<string>, last: string)
    requires fs != []
    ensures Join(fs + [""]) + last == Join(fs + [last])
  {
    JoinAppend(fs, [""]);
    JoinAppend(fs, [last]);
  }

  lemma HeaderIsJoin(b: Block)
    ensures Header(b) == Join(HeaderFields(b))
  {
    hide Join, IntText;
    var fs := [IntText(b.idx), b.timestamp, b.prevHash, b.target, b.merkleRoot, VERSION];
    JoinLast(fs, IntText(b.proofOfWork));
    assert fs + [""] == [IntText(b.idx), b.timestamp, b.prevHash, b.target, b.merkleRoot, VERSION, ""];
    assert fs + [IntText(b.proofOfWork)] == HeaderFields(b);
  }

  lemma HeaderFieldsText(R: Rules, b: Block)
    requires ValidHeader(R, b)
    ensures AllCommaFree(HeaderFields(b))
  {
    hide IntText;
    NumberText(b.idx, b.idx);
    NumberText(b.proofOfWork, b.proofOfWork);
  }

  /** The hashed header determines every header field. */
  lemma HeaderInjective(R: Rules, a: Block, b: Block)
    requires ValidHeader(R, a) && ValidHeader(R, b) && Header(a) == Header(b)
    ensures SameHeader(a, b)
  {
    hide Join, IntText, Header, ValidHeader;
    HeaderIsJoin(a);
    HeaderIsJoin(b);
    HeaderFieldsText(R, a);
    HeaderFieldsText(R, b);
    JoinInjective(HeaderFields(a), HeaderFields(b));
    var x, y := HeaderFields(a), HeaderFields(b);
    assert x[0] == y[0] && x[1] == y[1] && x[2] == y[2] && x[3] == y[3] && x[4] == y[4] && x[6] == y[6];
    NumbersAgree(R, a, b);
  }

  lemma NumbersAgree(R: Rules, a: Block, b: Block)
    requires ValidHeader(R, a) && ValidHeader(R, b)
    requires IntText(a.idx) == IntText(b.idx) && IntText(a.proofOfWork) == IntText(b.proofOfWork)
    ensures a.idx == b.idx && a.proofOfWork == b.proofOfWork
  {
    hide IntText;
    NumberText(a.idx, b.idx);
    NumberText(a.proofOfWork, b.proofOfWork);
  }

  /** A header is never the text the genesis hash is made from. */
  lemma HeaderHasComma(b: Block)
    ensures ',' in Header(b)
  {
    hide IntText;
    HeaderIsJoin(b);
    var fs := HeaderFields(b);
    assert Join(fs) == fs[0] + "," + Join(fs[1..]);
    assert Join(fs)[|fs[0]|] == ',';
  }

  // ---- shape -----------------------------------------------------------------------------------

  function Regular(b: Block): seq<Txn> {
    if b.txns == [] then [] else b.txns[..|b.txns| - 1]
  }

  function Coinbase(b: Block): Txn
    requires b.txns != []
  {
    b.txns[|b.txns| - 1]
  }

  function Txids(txns: seq<Txn>): (r: seq<string>)
    ensures |r| == |txns|
  {
    seq(|txns|, i requires 0 <= i < |txns| => txns[i].txid)
  }

  predicate Carries(b: Block, txid: string) {
    exists t :: t in b.txns && t.txid == txid
  }

  /** The block has a transaction that creates this outpoint. */
  predicate Creates(b: Block, i: Inflow) {
    exists t :: t in b.txns && t.txid == i.outflowTxid && 0 <= i.outflowIdx < |t.outflows|
  }

  /** The merkle leaves: the txids in canonical order. */
  function Leaves(txns: seq<Txn>): seq<string> {
    Txids(CanonicalOrder(txns))
  }

  /** Not from the future of the block, and not expired at its time; exactly four hours is alive. */
  predicate Timely(R: Rules, at: int, t: Txn) {
    R.instant(t.timestamp).Some? && at - TXN_TIMEOUT <= R.instant(t.timestamp).value <= at
  }

  predicate InOrder(txns: seq<Txn>) {
    forall k :: 0 < k < |txns| ==> !TxnLess(txns[k], txns[k - 1])
  }

  predicate Shape(R: Rules, b: Block) {
    && ValidHeader(R, b)
    && 1 <= |b.txns| <= MAX_TRANSACTIONS
    && R.meets(b.hash, b.target)
    && b.hash == R.hash(Header(b))
    && b.merkleRoot == R.merkle(Leaves(b.txns))
    && (forall k :: 0 <= k < |b.txns| - 1 ==>
          ValidRegular(R, b.txns[k]) && Timely(R, R.instant(b.timestamp).value, b.txns[k]))
    && InOrder(Regular(b))
    && ValidCoinbase(R, Coinbase(b))
  }

  lemma ShapeTimestamp(R: Rules, b: Block)
    requires Shape(R, b)
    ensures R.instant(b.timestamp).Some?
  {
    hide Header, Leaves, InOrder, ValidRegular, ValidCoinbase;
  }

  /** The block was not stamped after `now`. */
  predicate NotAfter(R: Rules, now: int, b: Block) {
    R.instant(b.timestamp).Some? ==> R.instant(b.timestamp).value <= now
  }

  // ---- canonical order of a valid block --------------------------------------------------------

  lemma {:induction false} InOrderSorted(s: seq<Txn>)
    requires InOrder(s) && forall k :: 0 <= k < |s| ==> !IsCoinbase(s[k])
    ensures Sorted(s)
  {
    hide Sorted, TxnLess;
    if s == [] {
      SortedNothing();
    } else if |s| == 1 {
      assert s == [s[0]];
      SortedOne(s[0]);
    } else {
      var n := |s| - 1;
      var init := s[..n];
      assert InOrder(init) by {
        forall k | 0 < k < |init|
          ensures !TxnLess(init[k], init[k - 1])
        {
          assert !TxnLess(s[k], s[k - 1]);
        }
      }
      InOrderSorted(init);
      SortedPrefix(init);
      assert !KeyLess(s[n], s[n - 1]);
      assert init[|init| - 1] == s[n - 1];
      forall u | u in init
        ensures !KeyLess(s[n], u)
      {
        KeyTransitive(u, s[n - 1], s[n]);
      }
      SortedSnoc(init, s[n]);
      assert s == init + [s[n]];
    }
  }

  /** Regular transactions in order and a coinbase behind them are their own canonical order. */
  lemma OrderedIsCanonical(txns: seq<Txn>)
    requires txns != [] && IsCoinbase(txns[|txns| - 1]) && InOrder(txns[..|txns| - 1])
    requires forall k :: 0 <= k < |txns| - 1 ==> !IsCoinbase(txns[k])
    ensures CanonicalOrder(txns) == txns
  {
    hide InOrder, CanonicalOrder, Sorted;
    var reg, last := txns[..|txns| - 1], txns[|txns| - 1];
    InOrderSorted(reg);
    SortedSnoc(reg, last);
    assert txns == reg + [last];
    CanonicalFixpoint(txns);
  }

  /** A valid block is its own canonical order; its one coinbase comes last. */
  lemma ShapeIsCanonical(R: Rules, b: Block)
    requires Shape(R, b)
    ensures CanonicalOrder(b.txns) == b.txns
    ensures forall k :: 0 <= k < |b.txns| ==> (IsCoinbase(b.txns[k]) <==> k == |b.txns| - 1)
  {
    hide ValidHeader, ValidShape, InOrder, CanonicalOrder, Sorted, Leaves, Header;
    forall k | 0 <= k < |b.txns| - 1
      ensures !IsCoinbase(b.txns[k])
    {
      assert ValidRegular(R, b.txns[k]);
    }
    OrderedIsCanonical(b.txns);
  }

  /** Rows read back in any order give the block again: leaves, regular transactions and coinbase. */
  lemma ReloadPreserves(R: Rules, b: Block, rows: seq<Txn>)
    requires Shape(R, b) && DistinctTxids(b.txns) && multiset(rows) == multiset(b.txns)
    ensures CanonicalOrder(rows) == b.txns
    ensures Leaves(rows) == Leaves(b.txns) == Txids(b.txns)
    ensures var c := b.(txns := CanonicalOrder(rows)); Regular(c) == Regular(b) && Coinbase(c) == Coinbase(b)
  {
    ShapeIsCanonical(R, b);
    CanonicalOfSet(b.txns, rows);
  }

  // ---- what a block hash commits to ------------------------------------------------------------

  /** The digests involved do not take these two blocks for each other by accident. */
  predicate NoAccident(R: Rules, a: Block, b: Block) {
    && (R.hash(Header(a)) == R.hash(Header(b)) ==> Header(a) == Header(b))
    && (R.merkle(Leaves(a.txns)) == R.merkle(Leaves(b.txns)) ==> Leaves(a.txns) == Leaves(b.txns))
    && forall t, u :: t in a.txns && u in b.txns && R.hash(DataCsv(t)) == R.hash(DataCsv(u)) ==>
         DataCsv(t) == DataCsv(u)
  }

  predicate SameContents(a: seq<Txn>, b: seq<Txn>) {
    |a| == |b| && forall k :: 0 <= k < |a| ==> a[k].txid == b[k].txid && SameContent(a[k], b[k])
  }

  /** Two valid blocks of one hash have the same header and the same transactions, signatures aside. */
  lemma HashCommits(R: Rules, a: Block, b: Block)
    requires Shape(R, a) && Shape(R, b) && a.hash == b.hash && NoAccident(R, a, b)
    ensures SameHeader(a, b) && Txids(a.txns) == Txids(b.txns) && SameContents(a.txns, b.txns)
  {
    hide Header, CanonicalOrder, InOrder, DataCsv, ValidTxn, ValidRegular, ValidCoinbase, SameContent;
    HeaderInjective(R, a, b);
    ShapeIsCanonical(R, a);
    ShapeIsCanonical(R, b);
    assert Leaves(a.txns) == Txids(a.txns) && Leaves(b.txns) == Txids(b.txns);
    forall k | 0 <= k < |a.txns|
      ensures a.txns[k].txid == b.txns[k].txid && SameContent(a.txns[k], b.txns[k])
    {
      var t, u := a.txns[k], b.txns[k];
      assert t.txid == Txids(a.txns)[k] == Txids(b.txns)[k] == u.txid;
      ShapeTxn(R, a, k);
      ShapeTxn(R, b, k);
      assert t in a.txns && u in b.txns;
      DataCsvInjective(R, t, u);
    }
  }

  lemma ShapeTxn(R: Rules, b: Block, k: nat)
    requires Shape(R, b) && k < |b.txns|
    ensures ValidTxn(R, b.txns[k]) && b.txns[k].txid == R.hash(DataCsv(b.txns[k]))
  {
    hide ValidHeader, Header, Leaves, InOrder, DataCsv, ValidFlows, IsAddress, SigningData;
  }
}
