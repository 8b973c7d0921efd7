/** The batch fill behind a tip, on values: what was asked of the peers, what the rows come to, and when
    an honest peer is enough. */
module BatchFill {
  import opened Prelude
  import opened Transactions
  import opened Blocks
  import opened Ledger
  import opened LedgerTheory
  import opened Tree
  import opened Store
  import opened ForkChoice

  /** A peer asked for a block by hash: whatever it likes, differently each time. */
  type Peer = (nat, Hash) -> Option<Block>

  datatype Fill = AlreadyKnown | Filled | TooDeep | RequestFailed | Refused(error: BlockError)
  {
    /** What the caller is told. */
    predicate Ok() {
      AlreadyKnown? || Filled?
    }
  }

  // ---- the staging table -----------------------------------------------------------------------

  /** Rows come back ordered by the height each block claims. */
  function ByIdx(staged: seq<Block>): (r: seq<Block>)
    ensures |r| == |staged|
  {
    if staged == [] then [] else InsertByIdx(ByIdx(staged[..|staged| - 1]), staged[|staged| - 1])
  }

  function InsertByIdx(s: seq<Block>, b: Block): (r: seq<Block>)
    ensures |r| == |s| + 1
  {
    if s == [] then [b]
    else if b.idx < s[|s| - 1].idx then InsertByIdx(s[..|s| - 1], b) + [s[|s| - 1]]
    else s + [b]
  }

  lemma {:induction false} InsertedByIdx(s: seq<Block>, b: Block)
    ensures forall x :: x in InsertByIdx(s, b) <==> x in s || x == b
  {
    if s != [] {
      var n := |s| - 1;
      assert s == s[..n] + [s[n]];
      InsertedByIdx(s[..n], b);
    }
  }

  predicate Rising(s: seq<Block>) {
    forall j, k :: 0 <= j < k < |s| ==> s[j].idx <= s[k].idx
  }

  lemma {:induction false} InsertRising(s: seq<Block>, b: Block)
    requires Rising(s)
    ensures Rising(InsertByIdx(s, b)) && multiset(InsertByIdx(s, b)) == multiset(s) + multiset{b}
  {
    if s != [] {
      var n := |s| - 1;
      assert s == s[..n] + [s[n]];
      InsertRising(s[..n], b);
      InsertedByIdx(s[..n], b);
      var below := InsertByIdx(s[..n], b);
      forall j | 0 <= j < |below|
        ensures b.idx < s[n].idx ==> below[j].idx <= s[n].idx
      {
        assert below[j] in below;
      }
    }
  }

  /** The rows are those staged, rising in height. */
  lemma {:induction false} ByIdxRises(staged: seq<Block>)
    ensures Rising(ByIdx(staged)) && multiset(ByIdx(staged)) == multiset(staged)
  {
    hide InsertByIdx;
    if staged != [] {
      var n := |staged| - 1;
      assert staged == staged[..n] + [staged[n]];
      ByIdxRises(staged[..n]);
      InsertRising(ByIdx(staged[..n]), staged[n]);
    }
  }

  lemma {:induction false} SameRows(staged: seq<Block>)
    ensures forall x :: x in ByIdx(staged) <==> x in staged
  {
    hide InsertByIdx;
    if staged != [] {
      var n := |staged| - 1;
      assert staged == staged[..n] + [staged[n]];
      SameRows(staged[..n]);
      InsertedByIdx(ByIdx(staged[..n]), staged[n]);
    }
  }

  function Reversed(s: seq<Block>): (r: seq<Block>)
    ensures |r| == |s| && forall k :: 0 <= k < |s| ==> r[k] == s[|s| - 1 - k]
  {
    seq(|s|, k requires 0 <= k < |s| => s[|s| - 1 - k])
  }

  lemma InsertFirst(s: seq<Block>, b: Block)
    requires forall k :: 0 <= k < |s| ==> b.idx < s[k].idx
    ensures InsertByIdx(s, b) == [b] + s
  {
    if s != [] {
      InsertFirst(s[..|s| - 1], b);
    }
  }

  /** A walk down in height is applied from the bottom up: the order of staging, reversed. */
  lemma {:induction false} WalkIsReversed(staged: seq<Block>)
    requires forall j, k :: 0 <= j < k < |staged| ==> staged[k].idx < staged[j].idx
    ensures ByIdx(staged) == Reversed(staged)
  {
    hide InsertByIdx;
    if staged != [] {
      var n := |staged| - 1;
      WalkIsReversed(staged[..n]);
      InsertFirst(Reversed(staged[..n]), staged[n]);
      assert Reversed(staged) == [staged[n]] + Reversed(staged[..n]);
    }
  }

  // ---- asking the peers ------------------------------------------------------------------------

  predicate Answers(R: Rules, b: Block, hash: Hash) {
    b.hash == hash && R.hash(Header(b)) == hash
  }

  /** What the peer sends in round `n` for the hash is no block, or not the one asked for. */
  predicate NoAnswer(R: Rules, p: Peer, n: nat, hash: Hash) {
    p(n, hash).Some? ==> !Answers(R, p(n, hash).value, hash)
  }

  /** Peer `j` is the first whose block really hashes to what was asked for. */
  predicate FirstAnswer(R: Rules, peers: seq<Peer>, j: nat, n: nat, hash: Hash, b: Block)
    requires j < |peers|
  {
    && peers[j](n, hash) == Some(b) && Answers(R, b, hash)
    && forall i :: 0 <= i < j ==> NoAnswer(R, peers[i], n, hash)
  }

  predicate Requested(R: Rules, peers: seq<Peer>, n: nat, hash: Hash, b: Block) {
    exists j :: 0 <= j < |peers| && FirstAnswer(R, peers, j, n, hash, b)
  }

  predicate NobodyAnswers(R: Rules, peers: seq<Peer>, n: nat, hash: Hash) {
    forall i :: 0 <= i < |peers| ==> NoAnswer(R, peers[i], n, hash)
  }

  /** A request has at most one answer, and either an answer or none. */
  lemma OneReply(R: Rules, peers: seq<Peer>, n: nat, hash: Hash, b: Block, c: Block)
    requires Requested(R, peers, n, hash, b)
    ensures Requested(R, peers, n, hash, c) ==> b == c
    ensures b.hash == R.hash(Header(b)) == hash && exists p :: p in peers && p(n, hash) == Some(b)
    ensures !NobodyAnswers(R, peers, n, hash)
  {
    hide Header;
    var j :| 0 <= j < |peers| && FirstAnswer(R, peers, j, n, hash, b);
    assert peers[j] in peers && !NoAnswer(R, peers[j], n, hash);
    if Requested(R, peers, n, hash, c) {
      var k :| 0 <= k < |peers| && FirstAnswer(R, peers, k, n, hash, c);
      assert !NoAnswer(R, peers[k], n, hash);
    }
  }

  /** A walk of `n` blocks back from `last`, each the first answer to the request for the parent the one
      before it names. */
  predicate Walked(R: Rules, peers: seq<Peer>, last: Block, segment: seq<Block>, n: nat) {
    && n > 0 && |segment| == n && segment[0] == last
    && forall k :: 0 < k < n ==> Requested(R, peers, k - 1, segment[k - 1].prevHash, segment[k])
  }

  /** The parent is neither stored nor the genesis text: the walk goes on. */
  predicate Dangling(R: Rules, t: Table, b: Block) {
    b.prevHash !in t && !Genesis(R, b)
  }

  lemma AnswerRequested(R: Rules, peers: seq<Peer>, j: nat, n: nat, hash: Hash, b: Block)
    requires j < |peers| && FirstAnswer(R, peers, j, n, hash, b)
    ensures Requested(R, peers, n, hash, b) && b.hash == hash
  {
    hide Header;
  }

  lemma WalkedOn(R: Rules, peers: seq<Peer>, last: Block, segment: seq<Block>, n: nat, b: Block)
    requires Walked(R, peers, last, segment, n) && Requested(R, peers, n - 1, segment[n - 1].prevHash, b)
    ensures Walked(R, peers, last, segment + [b], n + 1)
  {
    hide Requested;
  }

  /** Each staged block after the first is the parent the one before it names. */
  predicate Chained(R: Rules, staged: seq<Block>) {
    forall k :: 0 < k < |staged| ==>
      staged[k].hash == staged[k - 1].prevHash && R.hash(Header(staged[k])) == staged[k].hash
  }

  lemma WalkIsChained(R: Rules, peers: seq<Peer>, last: Block, segment: seq<Block>, n: nat)
    requires Walked(R, peers, last, segment, n)
    ensures Chained(R, segment)
  {
    hide Header;
    forall k | 0 < k < n
      ensures segment[k].hash == segment[k - 1].prevHash && R.hash(Header(segment[k])) == segment[k].hash
    {
      var j :| 0 <= j < |peers| && FirstAnswer(R, peers, j, k - 1, segment[k - 1].prevHash, segment[k]);
    }
  }

  // ---- what a batch leaves ---------------------------------------------------------------------

  function HashesOf(bs: seq<Block>): set<Hash> {
    set b | b in bs :: b.hash
  }

  /** The new blocks, each above something older or first of all. */
  ghost predicate ParentFirst(R: Rules, t: Table, bs: seq<Block>) {
    forall k :: 0 <= k < |bs| ==> bs[k].prevHash in t || bs[k].prevHash in HashesOf(bs[..k]) || Genesis(R, bs[k])
  }

  /** The table `u` is `t` with the blocks `bs` written, none of which it had. */
  ghost predicate Extends(t: Table, u: Table, bs: seq<Block>) {
    && u.Keys == t.Keys + HashesOf(bs)
    && (forall h :: h in t ==> h in u && u[h] == t[h])
    && (forall k :: 0 <= k < |bs| ==> bs[k].hash !in t && bs[k].hash in u && u[bs[k].hash] == bs[k])
    && (forall j, k :: 0 <= j < k < |bs| ==> bs[j].hash != bs[k].hash)
  }

  /** The block's hash is stored at the height and above the parent the block names. */
  predicate InPlace(t: Table, b: Block) {
    b.hash in t && t[b.hash].idx == b.idx && t[b.hash].prevHash == b.prevHash
  }

  /** The rows that are not in `t` and do not repeat an earlier one, in order. */
  function NewPart(t: Table, rows: seq<Block>): seq<Block> {
    if rows == [] then []
    else
      var init, b := rows[..|rows| - 1], rows[|rows| - 1];
      if b.hash in t || b.hash in HashesOf(init) then NewPart(t, init) else NewPart(t, init) + [b]
  }

  lemma NothingNew(t: Table)
    ensures NewPart(t, []) == [] && HashesOf([]) == {}
  {
  }

  lemma NewPartSnoc(t: Table, rows: seq<Block>, k: nat)
    requires k < |rows|
    ensures HashesOf(rows[..k + 1]) == HashesOf(rows[..k]) + {rows[k].hash}
    ensures NewPart(t, rows[..k + 1]) ==
      if rows[k].hash in t || rows[k].hash in HashesOf(rows[..k]) then NewPart(t, rows[..k])
      else NewPart(t, rows[..k]) + [rows[k]]
  {
    hide HashesOf;
    assert rows[..k + 1] == rows[..k] + [rows[k]];
    HashesSnoc(rows[..k], rows[k]);
    assert rows[..k + 1][..k] == rows[..k];
  }

  /** A hash-linked walk that has been stored whole goes down one height at a time. */
  lemma {:induction false} HeightsFall(R: Rules, t: Table, segment: seq<Block>, k: nat)
    requires Rooted(t) && Chained(R, segment) && k < |segment| && forall b :: b in segment ==> InPlace(t, b)
    ensures segment[k].idx == segment[0].idx - k
  {
    hide Header;
    if k > 0 {
      HeightsFall(R, t, segment, k - 1);
      var above, below := segment[k - 1], segment[k];
      assert above in segment && below in segment;
      assert Tree.Linked(t, above.hash);
    }
  }

  lemma FilledHeights(R: Rules, t: Table, segment: seq<Block>)
    requires Rooted(t) && Chained(R, segment) && forall b :: b in segment ==> InPlace(t, b)
    ensures forall k :: 0 <= k < |segment| ==> segment[k].idx == segment[0].idx - k
  {
    hide Rooted, Chained, InPlace;
    forall k | 0 <= k < |segment|
      ensures segment[k].idx == segment[0].idx - k
    {
      HeightsFall(R, t, segment, k);
    }
  }

  lemma ReversedMember(s: seq<Block>)
    ensures forall b :: b in Reversed(s) ==> b in s
  {
  }

  /** Rows in place at different heights have different hashes. */
  lemma OtherHash(u: Table, b: Block, c: Block)
    requires InPlace(u, b) && InPlace(u, c) && b.idx != c.idx
    ensures b.hash != c.hash
  {
  }

  /** Rows in place at rising heights, none of them stored before, are all new. */
  lemma {:induction false} AllNew(t: Table, u: Table, rows: seq<Block>)
    requires forall b :: b in rows ==> b.hash !in t && InPlace(u, b)
    requires forall j, k :: 0 <= j < k < |rows| ==> rows[j].idx < rows[k].idx
    ensures NewPart(t, rows) == rows
  {
    hide InPlace, HashesOf;
    if rows != [] {
      var n := |rows| - 1;
      var init, b := rows[..n], rows[n];
      AllNew(t, u, init);
      if b.hash in HashesOf(init) {
        var j := HashMember(init, b.hash);
        OtherHash(u, rows[j], b);
      }
    }
  }

  lemma HashMember(bs: seq<Block>, h: Hash) returns (j: nat)
    requires h in HashesOf(bs)
    ensures j < |bs| && bs[j].hash == h
  {
    var b :| b in bs && b.hash == h;
    j :| 0 <= j < |bs| && bs[j] == b;
  }

  lemma HashesSnoc(bs: seq<Block>, b: Block)
    ensures HashesOf(bs + [b]) == HashesOf(bs) + {b.hash}
  {
    assert forall x :: x in bs + [b] <==> x in bs || x == b;
  }

  lemma ExtendsSnoc(t: Table, u: Table, bs: seq<Block>, b: Block)
    requires Extends(t, u, bs) && b.hash !in u
    ensures Extends(t, u[b.hash := b], bs + [b])
  {
    HashesSnoc(bs, b);
    var v, cs := u[b.hash := b], bs + [b];
    forall k | 0 <= k < |cs|
      ensures cs[k].hash !in t && cs[k].hash in v && v[cs[k].hash] == cs[k]
    {
      if k < |bs| {
        assert cs[k] == bs[k];
      }
    }
    forall j, k | 0 <= j < k < |cs|
      ensures cs[j].hash != cs[k].hash
    {
      if k < |bs| {
        assert cs[j] == bs[j] && cs[k] == bs[k];
      } else {
        assert cs[j] == bs[j] && bs[j].hash in u;
      }
    }
  }

  lemma ParentFirstSnoc(R: Rules, t: Table, u: Table, bs: seq<Block>, b: Block)
    requires ParentFirst(R, t, bs) && Extends(t, u, bs) && (b.prevHash in u || Genesis(R, b))
    ensures ParentFirst(R, t, bs + [b])
  {
    var cs := bs + [b];
    forall k | 0 <= k < |cs|
      ensures cs[k].prevHash in t || cs[k].prevHash in HashesOf(cs[..k]) || Genesis(R, cs[k])
    {
      if k < |bs| {
        assert cs[k] == bs[k] && cs[..k] == bs[..k];
      } else {
        assert cs[..k] == bs;
      }
    }
  }

  /** What an accepted block of a batch leaves: it is in place, and announced if it was not stored. */
  lemma Applied(R: Rules, now: int, before: Table, t: Table, applied: seq<Block>, b: Block)
    requires Rooted(t) && AllValid(R, t) && Identified(R, t, b) && Outcome(R, now, t, b) == None
    requires Extends(before, t, applied) && ParentFirst(R, before, applied)
    ensures InPlace(Stored(t, b), b)
    ensures var after := if b.hash in t then applied else applied + [b];
      Extends(before, Stored(t, b), after) && ParentFirst(R, before, after)
  {
    hide Rooted, AllValid, Verdict, Identified, Extends, ParentFirst, Shape, ValidNext, Path;
    AcceptedLinks(R, now, t, b);
    if b.hash in t {
      StoredHeader(R, now, t, b);
    } else {
      ExtendsSnoc(before, t, applied, b);
      ParentFirstSnoc(R, before, t, applied, b);
    }
  }

  lemma NothingExtended(R: Rules, t: Table)
    ensures Extends(t, t, []) && ParentFirst(R, t, [])
  {
  }

  // ---- what the rows come to -------------------------------------------------------------------

  /** The table with all rows written that it does not hold. */
  function StoredAll(t: Table, rows: seq<Block>): Table {
    if rows == [] then t else Stored(StoredAll(t, rows[..|rows| - 1]), rows[|rows| - 1])
  }

  /** Row `k`, handed to the table that took all rows before it, comes to `e`. */
  ghost predicate ComesTo(R: Rules, t: Table, rows: seq<Block>, clock: nat -> int, k: nat, e: Option<BlockError>) {
    && k < |rows| && Rooted(StoredAll(t, rows[..k]))
    && Outcome(R, clock(k), StoredAll(t, rows[..k]), rows[k]) == e
  }

  /** The first `n` rows are accepted one after the other. */
  ghost predicate AcceptedRows(R: Rules, t: Table, rows: seq<Block>, clock: nat -> int, n: nat) {
    n <= |rows| && forall k :: 0 <= k < n ==> ComesTo(R, t, rows, clock, k, None)
  }

  /** Some row is refused with `e`, after all rows before it were accepted. */
  ghost predicate RefusedAt(R: Rules, t: Table, rows: seq<Block>, clock: nat -> int, e: BlockError) {
    exists k: nat :: AcceptedRows(R, t, rows, clock, k) && ComesTo(R, t, rows, clock, k, Some(e))
  }

  lemma StoredAllSnoc(t: Table, rows: seq<Block>, k: nat)
    requires k < |rows|
    ensures StoredAll(t, rows[..k + 1]) == Stored(StoredAll(t, rows[..k]), rows[k])
  {
    assert rows[..k + 1][..k] == rows[..k];
  }

  /** A batch has one fate: accepted whole, or refused with one error. */
  lemma OneFate(R: Rules, t: Table, rows: seq<Block>, clock: nat -> int, e: BlockError, f: BlockError)
    requires RefusedAt(R, t, rows, clock, e)
    ensures !AcceptedRows(R, t, rows, clock, |rows|)
    ensures RefusedAt(R, t, rows, clock, f) ==> e == f
  {
    hide Outcome, StoredAll, Rooted;
    var j: nat :| AcceptedRows(R, t, rows, clock, j) && ComesTo(R, t, rows, clock, j, Some(e));
    assert !ComesTo(R, t, rows, clock, j, None);
    if RefusedAt(R, t, rows, clock, f) {
      var k: nat :| AcceptedRows(R, t, rows, clock, k) && ComesTo(R, t, rows, clock, k, Some(f));
      assert !ComesTo(R, t, rows, clock, k, None);
    }
  }

  /** Any valid block under the hash of an accepted row has the row's header and transactions, signatures
      aside: what was asked for by hash is what was written. */
  lemma RowAsNamed(R: Rules, t: Table, rows: seq<Block>, clock: nat -> int, n: nat, k: nat, b: Block)
    requires AcceptedRows(R, t, rows, clock, n) && k < n
    requires Shape(R, b) && b.hash == rows[k].hash && NoAccident(R, rows[k], b)
    ensures SameHeader(rows[k], b) && SameContents(rows[k].txns, b.txns)
  {
    hide Shape, NoAccident, StoredAll, Rooted, CheckLink, CheckMoney, SameHeader, SameContents;
    assert ComesTo(R, t, rows, clock, k, None);
    HashCommits(R, rows[k], b);
  }

  // ---- the outcome of a fill -------------------------------------------------------------------

  /** The walk found its way to the table: only the last block of it has a stored parent or none. */
  ghost predicate Arrived(R: Rules, peers: seq<Peer>, t: Table, last: Block, segment: seq<Block>, requests: nat) {
    && Walked(R, peers, last, segment, requests + 1) && !Dangling(R, t, segment[requests])
    && forall k :: 0 <= k < requests ==> Dangling(R, t, segment[k])
  }

  /** The reason for each outcome. */
  ghost predicate Explained(R: Rules, peers: seq<Peer>, depth: nat, t: Table, last: Block, clock: nat -> int,
                            outcome: Fill, segment: seq<Block>, requests: nat) {
    requests <= depth && (last.hash in t <==> outcome.AlreadyKnown?) &&
    match outcome
    case AlreadyKnown => true
    case TooDeep =>
      && requests == depth && Walked(R, peers, last, segment, requests + 1)
      && forall k :: 0 <= k <= requests ==> Dangling(R, t, segment[k])
    case RequestFailed =>
      && requests > 0 && Walked(R, peers, last, segment, requests)
      && (forall k :: 0 <= k < requests ==> Dangling(R, t, segment[k]))
      && NobodyAnswers(R, peers, requests - 1, segment[requests - 1].prevHash)
    case Refused(e) =>
      Arrived(R, peers, t, last, segment, requests) && RefusedAt(R, t, ByIdx(segment), clock, e)
    case Filled =>
      Arrived(R, peers, t, last, segment, requests) && AcceptedRows(R, t, ByIdx(segment), clock, requests + 1)
  }

  // ---- an honest peer is enough ----------------------------------------------------------------

  /** In round `n` some peer sends `b`, and no peer another block for its hash. */
  ghost predicate ServedAt(R: Rules, peers: seq<Peer>, n: nat, b: Block) {
    && (exists p :: p in peers && p(n, b.hash) == Some(b))
    && forall p :: p in peers && p(n, b.hash) != Some(b) ==> NoAnswer(R, p, n, b.hash)
  }

  ghost predicate Served(R: Rules, peers: seq<Peer>, whole: Table) {
    forall n: nat, h :: h in whole ==> ServedAt(R, peers, n, whole[h])
  }

  /** Blocks on the path of `last` that the table lacks. */
  ghost predicate Missing(t: Table, whole: Table, last: Hash, h: Hash)
    requires Rooted(whole) && last in whole
  {
    OnPath(whole, h, last) && h !in t
  }

  /** Asking `depth` times for a parent, from `last` down, is enough to get to the genesis, or to a block
      on top of a stored one. */
  ghost predicate WithinReach(t: Table, whole: Table, last: Hash, depth: nat)
    requires Rooted(whole) && last in whole
  {
    var top := whole[last].idx;
    top <= depth || exists n: nat :: top - depth - 1 <= n < top && Path(whole, last)[n].hash in t
  }

  /** A fresh block that is valid can be written. */
  predicate Writable(b: Block) {
    OwnSpendFree(b) && b.proofOfWork < BIG_INTEGER
  }

  lemma PathParent(R: Rules, whole: Table, h: Hash, m: nat)
    requires Rooted(whole) && AllValid(R, whole) && h in whole && m <= whole[h].idx
    ensures var b := Path(whole, h)[m];
      && b.hash in whole && whole[b.hash] == b && b.idx == m && OnPath(whole, b.hash, h) && Answers(R, b, b.hash)
      && (m == 0 ==> Genesis(R, b))
      && (m > 0 ==> b.prevHash == Path(whole, h)[m - 1].hash)
  {
    hide Rooted, ValidChain, Path, Header, Shape;
    PathAt(whole, h, m);
    ChainLinks(R, Path(whole, h), m);
    HashOfShape(R, Path(whole, h)[m]);
  }

  /** What honest peers make of the walk: the path of `last`, downwards. */
  lemma {:induction false} HonestWalk(R: Rules, peers: seq<Peer>, t: Table, whole: Table, last: Block,
                                      segment: seq<Block>, n: nat, k: nat)
    requires Rooted(whole) && AllValid(R, whole) && Served(R, peers, whole)
    requires last.hash in whole && whole[last.hash] == last && k < n
    requires Walked(R, peers, last, segment, n) && forall j :: 0 <= j < n - 1 ==> Dangling(R, t, segment[j])
    ensures k <= last.idx && segment[k] == Path(whole, last.hash)[last.idx - k]
  {
    hide Rooted, AllValid, Path, Served, Answers, Genesis;
    PathLast(whole, last.hash);
    if k > 0 {
      HonestWalk(R, peers, t, whole, last, segment, n, k - 1);
      var m := last.idx - k + 1;
      assert Dangling(R, t, segment[k - 1]);
      PathParent(R, whole, last.hash, m);
      PathParent(R, whole, last.hash, m - 1);
      HonestAnswer(R, peers, whole, k - 1, segment[k - 1].prevHash, segment[k]);
    }
  }

  lemma HonestAnswer(R: Rules, peers: seq<Peer>, whole: Table, n: nat, hash: Hash, b: Block)
    requires Served(R, peers, whole) && Requested(R, peers, n, hash, b)
    requires hash in whole && whole[hash].hash == hash
    ensures b == whole[hash]
  {
    hide Answers;
    var j :| 0 <= j < |peers| && FirstAnswer(R, peers, j, n, hash, b);
    assert ServedAt(R, peers, n, whole[hash]) && peers[j] in peers;
  }

  lemma HonestReply(R: Rules, peers: seq<Peer>, whole: Table, n: nat, hash: Hash)
    requires Served(R, peers, whole) && hash in whole && whole[hash].hash == hash && Answers(R, whole[hash], hash)
    ensures !NobodyAnswers(R, peers, n, hash)
  {
    hide Answers;
    assert ServedAt(R, peers, n, whole[hash]);
    var p :| p in peers && p(n, hash) == Some(whole[hash]);
    var i :| 0 <= i < |peers| && peers[i] == p;
    assert !NoAnswer(R, peers[i], n, hash);
  }

  /** Rows taken from a good tree keep an agreeing table good and in agreement. */
  lemma {:induction false} HonestPrefix(R: Rules, t: Table, whole: Table, rows: seq<Block>, clock: nat -> int, k: nat)
    requires Rooted(t) && AllValid(R, t) && Rooted(whole) && AllValid(R, whole) && Agree(t, whole)
    requires forall b :: b in rows ==> b.hash in whole && whole[b.hash] == b
    requires AcceptedRows(R, t, rows, clock, k)
    ensures var u := StoredAll(t, rows[..k]);
      Rooted(u) && AllValid(R, u) && Agree(u, whole) && u.Keys == t.Keys + HashesOf(rows[..k])
  {
    hide Rooted, AllValid, Agree, Outcome, StoredAll, HashesOf;
    if k == 0 {
      assert rows[..0] == [];
      NothingStored(t);
    } else {
      HonestPrefix(R, t, whole, rows, clock, k - 1);
      assert ComesTo(R, t, rows, clock, k - 1, None);
      var u, b := StoredAll(t, rows[..k - 1]), rows[k - 1];
      StoredAllSnoc(t, rows, k - 1);
      HonestStored(R, clock(k - 1), whole, u, b);
      assert rows[..k] == rows[..k - 1] + [b];
      HashesSnoc(rows[..k - 1], b);
    }
  }

  lemma NothingStored(t: Table)
    ensures StoredAll(t, []) == t && HashesOf([]) == {}
  {
  }

  lemma HonestStored(R: Rules, now: int, whole: Table, u: Table, b: Block)
    requires Rooted(u) && AllValid(R, u) && Rooted(whole) && AllValid(R, whole) && Agree(u, whole)
    requires b.hash in whole && whole[b.hash] == b && Outcome(R, now, u, b) == None
    ensures Rooted(Stored(u, b)) && AllValid(R, Stored(u, b)) && Agree(Stored(u, b), whole)
    ensures Stored(u, b).Keys == u.Keys + {b.hash}
  {
    hide AllValid, Rooted, Verdict, Storable, Header, Path;
    RootedPrev(R, whole);
    PathLast(whole, b.hash);
    PathParent(R, whole, b.hash, whole[b.hash].idx);
    StoredIsValid(R, now, u, b);
    StoredAgrees(u, whole, b);
  }

  lemma StoredAgrees(u: Table, whole: Table, b: Block)
    requires Rooted(whole) && Agree(u, whole) && b.hash in whole && whole[b.hash] == b
    ensures Agree(Stored(u, b), whole)
  {
    forall g, h | IsRoot(Stored(u, b), g) && IsRoot(whole, h)
      ensures g == h
    {
      if g in u {
        assert IsRoot(u, g);
      } else {
        assert IsRoot(whole, b.hash);
      }
    }
  }

  /** Row `k` of an honest batch is valid where it comes. */
  lemma HonestRow(R: Rules, t: Table, whole: Table, last: Hash, rows: seq<Block>, base: nat, clock: nat -> int, k: nat)
    requires Rooted(t) && AllValid(R, t) && Rooted(whole) && AllValid(R, whole) && Agree(t, whole)
    requires last in whole && base + |rows| == whole[last].idx + 1 && k < |rows|
    requires forall j :: 0 <= j < |rows| ==> rows[j] == Path(whole, last)[base + j] && rows[j].hash !in t
    requires !Dangling(R, t, rows[0]) && NotAfter(R, clock(k), rows[k]) && AcceptedRows(R, t, rows, clock, k)
    ensures Rooted(StoredAll(t, rows[..k])) && AllValid(R, StoredAll(t, rows[..k]))
    ensures Verdict(R, clock(k), StoredAll(t, rows[..k]), rows[k]) == None
  {
    hide Rooted, AllValid, Agree, Verdict, StoredAll, AcceptedRows, Path, OnPath, HashesOf, Answers, NotAfter;
    forall j | 0 <= j < |rows|
      ensures rows[j].hash in whole && whole[rows[j].hash] == rows[j] && rows[j].idx == base + j
    {
      PathParent(R, whole, last, base + j);
    }
    HonestPrefix(R, t, whole, rows, clock, k);
    var u := StoredAll(t, rows[..k]);
    forall j | 0 <= j < k
      ensures rows[j].hash != rows[k].hash
    {
    }
    HashNotIn(rows[..k], rows[k].hash);
    PathParent(R, whole, last, base + k);
    if k > 0 {
      MemberHash(rows[..k], k - 1);
    }
    assert rows[k].prevHash in u || Genesis(R, rows[k]);
    AgreeingTableAccepts(R, clock(k), whole, u, rows[k]);
  }

  lemma HashNotIn(bs: seq<Block>, h: Hash)
    requires forall j :: 0 <= j < |bs| ==> bs[j].hash != h
    ensures h !in HashesOf(bs)
  {
  }

  lemma MemberHash(bs: seq<Block>, k: nat)
    requires k < |bs|
    ensures bs[k].hash in HashesOf(bs)
  {
  }

  /** The rows of an honest walk are the path from its lowest block up. */
  lemma HonestRows(R: Rules, peers: seq<Peer>, t: Table, whole: Table, last: Block, segment: seq<Block>, requests: nat)
    requires Rooted(whole) && AllValid(R, whole) && Served(R, peers, whole)
    requires last.hash in whole && whole[last.hash] == last && last.hash !in t
    requires Arrived(R, peers, t, last, segment, requests)
    ensures requests <= last.idx && ByIdx(segment) == Reversed(segment)
    ensures forall j :: 0 <= j <= requests ==>
      Reversed(segment)[j] == Path(whole, last.hash)[last.idx - requests + j] && Reversed(segment)[j].hash !in t
  {
    hide Rooted, AllValid, Path, Served, OnPath, ByIdx, Walked, Genesis;
    assert |segment| == requests + 1 by { WalkLength(R, peers, last, segment, requests + 1); }
    PathLast(whole, last.hash);
    forall k | 0 <= k <= requests
      ensures k <= last.idx && segment[k] == Path(whole, last.hash)[last.idx - k] && segment[k].hash !in t
      ensures segment[k].idx == last.idx - k
    {
      HonestWalk(R, peers, t, whole, last, segment, requests + 1, k);
      PathParent(R, whole, last.hash, last.idx - k);
      if k > 0 {
        HonestWalk(R, peers, t, whole, last, segment, requests + 1, k - 1);
        PathParent(R, whole, last.hash, last.idx - k + 1);
        assert Dangling(R, t, segment[k - 1]);
      }
    }
    WalkIsReversed(segment);
  }

  lemma WalkLength(R: Rules, peers: seq<Peer>, last: Block, segment: seq<Block>, n: nat)
    requires Walked(R, peers, last, segment, n)
    ensures |segment| == n && n > 0 && segment[0] == last
  {
  }

  /** What an honest peer offers: the tree the tip belongs to, in agreement with the own tables and no
      later than any of the clocks. */
  ghost predicate Offered(R: Rules, peers: seq<Peer>, t: Table, whole: Table, last: Block, clock: nat -> int) {
    && Rooted(t) && AllValid(R, t) && Rooted(whole) && AllValid(R, whole) && Agree(t, whole)
    && last.hash in whole && whole[last.hash] == last && Served(R, peers, whole)
    && forall k: nat, h :: Missing(t, whole, last.hash, h) ==> NotAfter(R, clock(k), whole[h])
  }

  /** An honest batch is refused for nothing but rows that cannot be written. */
  lemma HonestRefusal(R: Rules, peers: seq<Peer>, t: Table, whole: Table, last: Block, clock: nat -> int,
                      segment: seq<Block>, requests: nat, e: BlockError) returns (h: Hash)
    requires Offered(R, peers, t, whole, last, clock) && last.hash !in t
    requires Arrived(R, peers, t, last, segment, requests) && RefusedAt(R, t, ByIdx(segment), clock, e)
    ensures e == Unstorable && Missing(t, whole, last.hash, h) && !Writable(whole[h])
  {
    hide Rooted, AllValid, Agree, Path, Served, OnPath, ByIdx, Walked, Dangling, Verdict, NotAfter,
      OwnSpendFree, StoredAll, AcceptedRows;
    HonestRows(R, peers, t, whole, last, segment, requests);
    var rows, base := Reversed(segment), last.idx - requests;
    WalkLength(R, peers, last, segment, requests + 1);
    PathLast(whole, last.hash);
    var k: nat :| AcceptedRows(R, t, rows, clock, k) && ComesTo(R, t, rows, clock, k, Some(e));
    PathParent(R, whole, last.hash, base + k);
    h := rows[k].hash;
    assert Missing(t, whole, last.hash, h);
    HonestRow(R, t, whole, last.hash, rows, base, clock, k);
    var u := StoredAll(t, rows[..k]);
    VerdictIsNotStorage(R, clock(k), u, rows[k]);
    if Writable(rows[k]) {
      OwnSpendFreeIsStorable(R, clock(k), u, rows[k]);
    }
  }

  /** Against honest peers a fill ends in one of four ways: there was nothing to do, it filled, the tip
      was too far away - exactly when it is - or a block on the way could not be written. In particular
      it fills whenever the tip is within reach and no missing block spends within itself. */
  lemma HonestFill(R: Rules, peers: seq<Peer>, depth: nat, t: Table, whole: Table, last: Block, clock: nat -> int,
                   outcome: Fill, segment: seq<Block>, requests: nat)
    requires Offered(R, peers, t, whole, last, clock)
    requires Explained(R, peers, depth, t, last, clock, outcome, segment, requests)
    ensures outcome.AlreadyKnown? || outcome.Filled? || outcome.TooDeep? || outcome == Refused(Unstorable)
    ensures outcome.TooDeep? <==> last.hash !in t && !WithinReach(t, whole, last.hash, depth)
    ensures (forall h :: Missing(t, whole, last.hash, h) ==> Writable(whole[h])) ==>
      (outcome.Ok() <==> last.hash in t || WithinReach(t, whole, last.hash, depth))
  {
    hide Rooted, AllValid, Agree, Path, Served, OnPath, ByIdx, Walked, Dangling, Verdict, NotAfter,
      Writable, Missing, RefusedAt, AcceptedRows;
    if !outcome.AlreadyKnown? {
      HonestReach(R, peers, depth, t, whole, last, clock, outcome, segment, requests);
      if outcome.Refused? {
        var h := HonestRefusal(R, peers, t, whole, last, clock, segment, requests, outcome.error);
      }
    }
  }

  lemma DanglingOnPath(R: Rules, t: Table, whole: Table, last: Hash, m: nat)
    requires Rooted(whole) && AllValid(R, whole) && last in whole && m <= whole[last].idx
    ensures !Dangling(R, t, Path(whole, last)[m]) <==> m == 0 || Path(whole, last)[m - 1].hash in t
  {
    hide Rooted, AllValid, Path, OnPath, Answers;
    RootedPrev(R, whole);
    PathParent(R, whole, last, m);
    if m > 0 {
      PathParent(R, whole, last, m - 1);
    }
  }

  lemma ReachIs(R: Rules, t: Table, whole: Table, last: Hash, depth: nat)
    requires Rooted(whole) && AllValid(R, whole) && last in whole
    ensures WithinReach(t, whole, last, depth) <==>
      exists m: nat :: whole[last].idx - depth <= m <= whole[last].idx && !Dangling(R, t, Path(whole, last)[m])
  {
    hide Rooted, AllValid, Path, OnPath, Dangling;
    var top := whole[last].idx;
    PathLast(whole, last);
    if top <= depth {
      DanglingOnPath(R, t, whole, last, 0);
    } else if WithinReach(t, whole, last, depth) {
      var n: nat :| top - depth - 1 <= n < top && Path(whole, last)[n].hash in t;
      DanglingOnPath(R, t, whole, last, n + 1);
    }
    if m: nat :| top - depth <= m <= top && !Dangling(R, t, Path(whole, last)[m]) {
      DanglingOnPath(R, t, whole, last, m);
    }
  }

  lemma HonestReach(R: Rules, peers: seq<Peer>, depth: nat, t: Table, whole: Table, last: Block, clock: nat -> int,
                    outcome: Fill, segment: seq<Block>, requests: nat)
    requires Offered(R, peers, t, whole, last, clock) && last.hash !in t
    requires Explained(R, peers, depth, t, last, clock, outcome, segment, requests)
    ensures !outcome.RequestFailed?
    ensures outcome.TooDeep? <==> !WithinReach(t, whole, last.hash, depth)
  {
    hide Rooted, AllValid, Agree, Path, Served, OnPath, ByIdx, Walked, Dangling, NotAfter, Missing, RefusedAt,
      AcceptedRows, NobodyAnswers, Genesis, Answers, WithinReach;
    PathLast(whole, last.hash);
    ReachIs(R, t, whole, last.hash, depth);
    var n := if outcome.RequestFailed? then requests else requests + 1;
    WalkLength(R, peers, last, segment, n);
    forall k | 0 <= k < n
      ensures k <= last.idx && segment[k] == Path(whole, last.hash)[last.idx - k]
    {
      HonestWalk(R, peers, t, whole, last, segment, n, k);
    }
    if outcome.RequestFailed? {
      var m := last.idx - n + 1;
      assert Dangling(R, t, segment[n - 1]);
      PathParent(R, whole, last.hash, m);
      PathOrigin(R, t, whole, last.hash, m);
      PathParent(R, whole, last.hash, m - 1);
      HonestReply(R, peers, whole, n - 1, segment[n - 1].prevHash);
    } else if outcome.TooDeep? {
      forall m: nat | last.idx - depth <= m <= last.idx
        ensures Dangling(R, t, Path(whole, last.hash)[m])
      {
        assert segment[last.idx - m] == Path(whole, last.hash)[m];
      }
    } else {
      assert !Dangling(R, t, Path(whole, last.hash)[last.idx - requests]);
    }
  }

  lemma PathOrigin(R: Rules, t: Table, whole: Table, h: Hash, m: nat)
    requires Rooted(whole) && AllValid(R, whole) && h in whole && m <= whole[h].idx
    requires Dangling(R, t, Path(whole, h)[m])
    ensures m > 0
  {
    hide Rooted, AllValid, Path, OnPath;
    PathParent(R, whole, h, m);
  }
}
