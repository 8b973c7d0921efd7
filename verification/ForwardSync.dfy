/** The forward sync, on values: the tip it starts from, what each answer of the peer comes to, and when
    an honest peer is followed to its tip. */
module ForwardSync {
  import opened Prelude
  import opened Transactions
  import opened Blocks
  import opened Ledger
  import opened Tree
  import opened Store
  import opened ForkChoice
  import opened BatchFill
  import opened Protocol
  import opened LedgerTheory
  import Acceptance

  /** A peer asked in some round for blocks from a height on. */
  type Feed = (nat, int) -> seq<Block>

  datatype Mismatch = HeaderHash | NotOnTip | NoProgress

  datatype Sync = CaughtUp | Diverged(why: Mismatch) | Raised(error: BlockError) | Pending

  // ---- extending the tip -----------------------------------------------------------------------

  ghost predicate TipIs(R: Rules, s: State, tip: Option<Hash>) {
    Rooted(s.blocks) && if tip.Some? then Canonical(R, s, tip.value) else s.blocks == map[]
  }

  ghost function ChainAt(s: State, tip: Option<Hash>): seq<Block>
    requires Rooted(s.blocks) && (tip.Some? ==> tip.value in s.blocks)
  {
    if tip.Some? then Path(s.blocks, tip.value) else []
  }

  lemma SomeTip(R: Rules, s: State) returns (tip: Option<Hash>)
    requires Inv(R, s)
    ensures TipIs(R, s, tip)
  {
    hide Rooted, AllValid, ValidRows, PathMap, IsBest;
    if s.blocks == map[] {
      tip := None;
    } else {
      var best :| Canonical(R, s, best);
      tip := Some(best);
    }
  }

  lemma LongestIsTip(R: Rules, s: State, tip: Option<Hash>, longest: Option<Hash>)
    requires Inv(R, s) && TipIs(R, s, tip)
    requires longest.None? <==> s.rows == map[]
    requires longest.Some? ==> s.rows.Keys <= s.blocks.Keys && Wins(R, s.blocks, s.rows.Keys, longest.value)
    ensures longest == tip
  {
    hide Rooted, AllValid, PathMap, Better;
    if tip.Some? {
      BestAmongRows(R, s.blocks, s.rows.Keys, tip.value, longest.value);
    }
  }

  /** A block accepted on the tip is new, becomes the tip, and extends the canonical chain by itself. */
  lemma ExtendsTip(R: Rules, now: int, s: State, tip: Option<Hash>, b: Block, depth: int)
    requires Inv(R, s) && TipIs(R, s, tip) && Verdict(R, now, s.blocks, b) == None && Identified(R, s.blocks, b)
    requires b.prevHash == if tip.Some? then tip.value else R.hash(GENESIS)
    ensures Rooted(Enrol(s, b).blocks) && ValidRows(Enrol(s, b)) && b.hash in Enrol(s, b).rows
    ensures b.hash !in s.blocks && Added(R, s, b, depth).blocks == s.blocks[b.hash := b]
    ensures TipIs(R, Added(R, s, b, depth), Some(b.hash))
    ensures ChainAt(Added(R, s, b, depth), Some(b.hash)) == ChainAt(s, tip) + [b]
  {
    hide Rooted, AllValid, Path, PathMap, Verdict, Identified, Earlier, IsBest, Enrolled, Synced;
    EnrolledRows(R, now, s, b);
    AcceptedLinks(R, now, s.blocks, b);
    var e := Enrol(s, b);
    if tip.None? {
      OnlyBlock(R, e.blocks, b.hash);
    } else {
      if b.hash in s.blocks {
        StoredHeader(R, now, s.blocks, b);
        NothingAboveBest(R, s.blocks, tip.value, b.hash);
      }
      EnrolKeepsBest(R, now, s, b, tip.value);
    }
    SyncedBest(R, e, b.hash, depth);
    NewPath(R, now, s.blocks, b);
  }

  lemma HashIsKey(t: Table, h: Hash)
    requires Rooted(t) && h in t
    ensures t[h].hash == h
  {
    assert Linked(t, h);
  }

  /** What a forward sync makes of the next block: a reason to stop, or nothing. */
  ghost function NextVerdict(R: Rules, now: int, t: Table, tip: Option<Hash>, b: Block): Option<Sync>
    requires Rooted(t)
  {
    if R.hash(Header(b)) != b.hash then Some(Diverged(HeaderHash))
    else if b.prevHash != (if tip.Some? then tip.value else R.hash(GENESIS)) then Some(Diverged(NotOnTip))
    else
      var e := Outcome(R, now, t, b);
      if e.Some? then Some(Raised(e.value)) else None
  }

  lemma NeverNoProgress(R: Rules, now: int, t: Table, tip: Option<Hash>, b: Block)
    requires Rooted(t)
    ensures NextVerdict(R, now, t, tip, b) in {None, Some(Diverged(HeaderHash)), Some(Diverged(NotOnTip))}
      || NextVerdict(R, now, t, tip, b).value.Raised?
  {
    hide Rooted, Header, Outcome;
  }

  /** What a forward sync commits is exactly what is lawful on top of the canonical chain, of the past,
      and can be written. */
  lemma CommitsLawful(R: Rules, now: int, s: State, tip: Option<Hash>, b: Block)
    requires Inv(R, s) && TipIs(R, s, tip) && b.hash !in s.blocks
    requires CollisionFree(R, Preimages(ChainAt(s, tip) + [b]))
    ensures NextVerdict(R, now, s.blocks, tip, b) == None <==>
      Lawful(R, ChainAt(s, tip), b) && Instant(R, b.timestamp) <= now && Storable(s.blocks, b)
  {
    hide Rooted, AllValid, Path, PathMap, Verdict, IsBest, CollisionFree, Preimages, Lawful, Storable, Header;
    InvRooted(R, s);
    if tip.Some? {
      PathLast(s.blocks, tip.value);
      HashIsKey(s.blocks, tip.value);
    }
    if Lawful(R, ChainAt(s, tip), b) {
      LawfulLinks(R, ChainAt(s, tip), b);
    }
    if b.prevHash == (if tip.Some? then tip.value else R.hash(GENESIS)) {
      Acceptance.VerdictIff(R, now, s.blocks, b);
    }
  }

  lemma LawfulLinks(R: Rules, chain: seq<Block>, b: Block)
    requires Lawful(R, chain, b)
    ensures R.hash(Header(b)) == b.hash
    ensures b.prevHash == if chain == [] then R.hash(GENESIS) else chain[|chain| - 1].hash
  {
  }

  // ---- the run -------------------------------------------------------------------------------

  /** All blocks of the first `n` answers, each asked for from the height after everything before it. */
  function Received(feed: Feed, start: nat, n: nat): seq<Block>
    decreases n, 0
  {
    if n == 0 then [] else Received(feed, start, n - 1) + Answer(feed, start, n - 1)
  }

  /** The answer of round `n`. */
  function Answer(feed: Feed, start: nat, n: nat): seq<Block>
    decreases n, 1
  {
    feed(n, start + |Received(feed, start, n)|)
  }

  /** After `asked` full rounds and `m` blocks of the next one, `committed` is all that was committed. */
  ghost predicate Committed(feed: Feed, start: nat, asked: nat, m: nat, committed: seq<Block>) {
    && (forall n :: 0 <= n < asked ==> Answer(feed, start, n) != [])
    && m <= |Answer(feed, start, asked)|
    && committed == Received(feed, start, asked) + Answer(feed, start, asked)[..m]
  }

  lemma {:induction false} RoundsRaise(feed: Feed, start: nat, n: nat)
    requires forall j :: 0 <= j < n ==> Answer(feed, start, j) != []
    ensures |Received(feed, start, n)| >= n
  {
    if n > 0 {
      RoundsRaise(feed, start, n - 1);
    }
  }

  /** Why the sync stopped: the peer had nothing above the tip, the next block it sent was refused, or the
      rounds were used up. */
  ghost predicate Stopped(R: Rules, t: Table, feed: Feed, start: nat, rounds: nat, clock: nat -> int, outcome: Sync,
                          tip: Option<Hash>, asked: nat, m: nat, committed: seq<Block>)
    requires Rooted(t)
  {
    match outcome
    case CaughtUp => asked < rounds && m == 0 && feed(asked, start + |committed|) == []
    case Pending => asked == rounds && m == 0
    case Diverged(why) =>
      && why != NoProgress && asked < rounds && m < |Answer(feed, start, asked)|
      && NextVerdict(R, clock(|committed|), t, tip, Answer(feed, start, asked)[m]) == Some(outcome)
    case Raised(error) =>
      && asked < rounds && m < |Answer(feed, start, asked)|
      && NextVerdict(R, clock(|committed|), t, tip, Answer(feed, start, asked)[m]) == Some(outcome)
  }

  lemma NothingReceived(feed: Feed, start: nat)
    ensures Received(feed, start, 0) == []
  {
  }

  lemma AnswerIs(feed: Feed, start: nat, n: nat)
    ensures Answer(feed, start, n) == feed(n, start + |Received(feed, start, n)|)
    ensures Received(feed, start, n + 1) == Received(feed, start, n) + Answer(feed, start, n)
  {
  }

  // ---- an honest peer --------------------------------------------------------------------------

  /** The peer serves the path `p`, up to `size` blocks a request. */
  ghost predicate Serves(feed: Feed, p: seq<Block>, size: nat) {
    size > 0 && forall n: nat, idx: nat :: feed(n, idx) == Slice(p, idx, size)
  }

  function Slice(p: seq<Block>, idx: nat, size: nat): seq<Block> {
    if idx >= |p| then [] else if idx + size <= |p| then p[idx..idx + size] else p[idx..]
  }

  lemma {:induction false} HonestReceived(feed: Feed, p: seq<Block>, size: nat, start: nat, n: nat)
    requires Serves(feed, p, size) && start <= |p|
    ensures start + |Received(feed, start, n)| <= |p|
    ensures Received(feed, start, n) == p[start..start + |Received(feed, start, n)|]
  {
    hide Slice, Answer;
    if n > 0 {
      HonestReceived(feed, p, size, start, n - 1);
      var x := start + |Received(feed, start, n - 1)|;
      AnswerIs(feed, start, n - 1);
      SliceIs(p, x, size);
    }
  }

  lemma SliceIs(p: seq<Block>, x: nat, size: nat)
    requires x <= |p| && size > 0
    ensures x + |Slice(p, x, size)| <= |p| && Slice(p, x, size) == p[x..x + |Slice(p, x, size)|]
    ensures Slice(p, x, size) == [] <==> x == |p|
  {
  }

  lemma HonestCommitted(feed: Feed, p: seq<Block>, size: nat, start: nat, asked: nat, m: nat, committed: seq<Block>)
    requires Serves(feed, p, size) && start <= |p| && Committed(feed, start, asked, m, committed)
    ensures start + |committed| <= |p| && committed == p[start..start + |committed|]
    ensures m < |Answer(feed, start, asked)| ==>
      start + |committed| < |p| && Answer(feed, start, asked)[m] == p[start + |committed|]
  {
    hide Slice, Answer, Received;
    HonestReceived(feed, p, size, start, asked);
    AnswerIs(feed, start, asked);
    SliceIs(p, start + |Received(feed, start, asked)|, size);
  }

  /** Blocks of a good tree, added to an agreeing table, leave it in agreement. */
  lemma ExtendedAgrees(t: Table, u: Table, whole: Table, bs: seq<Block>)
    requires Rooted(whole) && Agree(t, whole) && Extends(t, u, bs)
    requires forall k :: 0 <= k < |bs| ==> bs[k].hash in whole && whole[bs[k].hash] == bs[k]
    ensures Agree(u, whole)
  {
    forall h | h in u && h !in t
      ensures h in whole && whole[h] == u[h]
    {
      var k := HashMember(bs, h);
    }
    forall g, h | IsRoot(u, g) && IsRoot(whole, h)
      ensures g == h
    {
      if g in t {
        assert IsRoot(t, g);
      } else {
        assert IsRoot(whole, g);
      }
    }
  }

  lemma TipOfChain(R: Rules, s: State, tip: Option<Hash>)
    requires TipIs(R, s, tip)
    ensures tip.None? <==> ChainAt(s, tip) == []
    ensures tip.Some? ==> ChainAt(s, tip)[|ChainAt(s, tip)| - 1].hash == tip.value
  {
    hide Path, PathMap, IsBest;
    if tip.Some? {
      PathLast(s.blocks, tip.value);
    }
  }

  /** The next block of an honest path is new and valid. */
  lemma HonestNext(R: Rules, now: int, s: State, whole: Table, tip: Option<Hash>, last: Hash, x: nat)
    requires Inv(R, s) && TipIs(R, s, tip) && Rooted(whole) && AllValid(R, whole) && Agree(s.blocks, whole)
    requires last in whole && x <= whole[last].idx && ChainAt(s, tip) == Path(whole, last)[..x]
    requires NotAfter(R, now, Path(whole, last)[x])
    ensures var b := Path(whole, last)[x];
      && Rooted(s.blocks) && Verdict(R, now, s.blocks, b) == None && b.hash !in s.blocks
      && R.hash(Header(b)) == b.hash && b.prevHash == if tip.Some? then tip.value else R.hash(GENESIS)
  {
    hide Rooted, AllValid, Path, PathMap, Agree, Earlier, ValidRows, Header, OnPath, Verdict, ChainAt,
      NotAfter;
    InvRooted(R, s);
    TipOfChain(R, s, tip);
    PathParent(R, whole, last, x);
    var b := Path(whole, last)[x];
    if tip.Some? {
      assert Path(whole, last)[..x][x - 1] == Path(whole, last)[x - 1];
      NotOnBest(R, s.blocks, whole, tip.value, b);
    }
    AgreeingTableAccepts(R, now, whole, s.blocks, b);
  }

  lemma NotOnBest(R: Rules, t: Table, whole: Table, best: Hash, b: Block)
    requires Rooted(t) && IsBest(R, t, best) && Agree(t, whole) && b.hash in whole && whole[b.hash] == b
    requires b.prevHash == best
    ensures b.hash !in t
  {
    hide Rooted, Better;
    if b.hash in t {
      NothingAboveBest(R, t, best, b.hash);
    }
  }

  /** A peer that serves the path of `last` in a tree that agrees with the own tables, extending the own
      chain and no later than any of the clocks. */
  ghost predicate Leads(R: Rules, t0: Table, whole: Table, last: Hash, feed: Feed, size: nat, chain0: seq<Block>,
                        clock: nat -> int) {
    && Rooted(whole) && AllValid(R, whole) && Agree(t0, whole) && last in whole
    && chain0 <= Path(whole, last) && Serves(feed, Path(whole, last), size)
    && forall k: nat, b :: b in Path(whole, last)[|chain0|..] ==> NotAfter(R, clock(k), b)
  }

  /** Where a sync that began with `chain0` in `t0` has come to. */
  ghost predicate Ended(R: Rules, t0: Table, s: State, feed: Feed, chain0: seq<Block>, rounds: nat,
                        clock: nat -> int, outcome: Sync, tip: Option<Hash>, asked: nat, m: nat,
                        committed: seq<Block>) {
    && Inv(R, s) && TipIs(R, s, tip) && Extends(t0, s.blocks, committed)
    && ChainAt(s, tip) == chain0 + committed && Committed(feed, |chain0|, asked, m, committed)
    && Stopped(R, s.blocks, feed, |chain0|, rounds, clock, outcome, tip, asked, m, committed)
  }

  /** An honest peer is followed along its path; a block of it is refused only if it cannot be written. */
  lemma HonestStop(R: Rules, t0: Table, s: State, whole: Table, last: Hash, feed: Feed, size: nat, chain0: seq<Block>,
                   rounds: nat, clock: nat -> int, outcome: Sync, tip: Option<Hash>, asked: nat, m: nat,
                   committed: seq<Block>)
    requires Leads(R, t0, whole, last, feed, size, chain0, clock)
    requires Ended(R, t0, s, feed, chain0, rounds, clock, outcome, tip, asked, m, committed)
    ensures chain0 + committed <= Path(whole, last)
    ensures outcome.CaughtUp? ==> chain0 + committed == Path(whole, last)
    ensures outcome.Pending? ==> rounds <= |Path(whole, last)| - |chain0|
    ensures outcome.Diverged? || outcome.Raised? ==>
      outcome == Raised(Unstorable) && exists b :: b in Path(whole, last)[|chain0|..] && !Writable(b)
  {
    hide Rooted, AllValid, Path, Agree, Slice, Serves, TipIs, Extends, Inv, Writable, NotAfter, ChainAt,
      Answer, Received, Verdict, Header, Storable;
    var p := Path(whole, last);
    var x := |chain0| + |committed|;
    HonestCommitted(feed, p, size, |chain0|, asked, m, committed);
    assert chain0 + committed == p[..x];
    ServedSlice(feed, p, size, asked, x);
    SliceIs(p, x, size);
    RoundsRaise(feed, |chain0|, asked);
    if outcome.Diverged? || outcome.Raised? {
      var b := p[x];
      assert p[|chain0|..][|committed|] == b;
      assert b in p[|chain0|..] && NotAfter(R, clock(|committed|), b);
      forall k | 0 <= k < |committed|
        ensures committed[k].hash in whole && whole[committed[k].hash] == committed[k]
      {
        PathAt(whole, last, |chain0| + k);
      }
      ExtendedAgrees(t0, s.blocks, whole, committed);
      HonestNext(R, clock(|committed|), s, whole, tip, last, x);
      if Writable(b) {
        HonestWritable(R, clock(|committed|), s, b);
      }
    }
  }

  lemma ServedSlice(feed: Feed, p: seq<Block>, size: nat, n: nat, x: nat)
    requires Serves(feed, p, size)
    ensures size > 0 && feed(n, x) == Slice(p, x, size)
  {
  }

  /** Against a peer that serves a chain extending our own, the sync commits that chain in order. It
      never diverges, stops short only at a block that cannot be written or when the rounds are used up,
      and with enough rounds it reaches the peer's tip. */
  lemma HonestSync(R: Rules, t0: Table, s: State, whole: Table, last: Hash, feed: Feed, size: nat, chain0: seq<Block>,
                   rounds: nat, clock: nat -> int, outcome: Sync, tip: Option<Hash>, asked: nat, m: nat,
                   committed: seq<Block>)
    requires Leads(R, t0, whole, last, feed, size, chain0, clock)
    requires Ended(R, t0, s, feed, chain0, rounds, clock, outcome, tip, asked, m, committed)
    ensures ChainAt(s, tip) <= Path(whole, last)
    ensures outcome.CaughtUp? || outcome.Pending? || outcome == Raised(Unstorable)
    ensures outcome.CaughtUp? ==> ChainAt(s, tip) == Path(whole, last)
    ensures (forall b :: b in Path(whole, last)[|chain0|..] ==> Writable(b)) ==>
      rounds > |Path(whole, last)| - |chain0| ==> outcome.CaughtUp?
  {
    hide Rooted, AllValid, Path, Agree, Serves, TipIs, Extends, Stopped, Committed, Inv, Writable,
      NotAfter, ChainAt;
    HonestStop(R, t0, s, whole, last, feed, size, chain0, rounds, clock, outcome, tip, asked, m, committed);
  }

  lemma HonestWritable(R: Rules, now: int, s: State, b: Block)
    requires Inv(R, s) && Rooted(s.blocks) && Verdict(R, now, s.blocks, b) == None && Writable(b)
    ensures Storable(s.blocks, b)
  {
    hide Rooted, AllValid, Verdict, OwnSpendFree, Canonical, ValidRows;
    InvRooted(R, s);
    OwnSpendFreeIsStorable(R, now, s.blocks, b);
  }
}
