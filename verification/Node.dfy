/** Taking blocks from untrusted peers: the batch fill behind a tip, and the forward sync. */
module Node {
  import opened Prelude
  import opened Blocks
  import opened Ledger
  import opened LedgerTheory
  import opened Tree
  import opened Store
  import opened BatchFill
  import opened ForwardSync
  import Db = ChainStore

  class Node {
    const store: Db.ChainStore
    const peers: seq<Peer>
    const maxFillDepth: nat
    /** The staging rows of the fill under way. */
    var staged: seq<Block>

    constructor (store: Db.ChainStore, peers: seq<Peer>, maxFillDepth: nat)
      ensures this.store == store && this.peers == peers && this.maxFillDepth == maxFillDepth && staged == []
    {
      this.store := store;
      this.peers := peers;
      this.maxFillDepth := maxFillDepth;
      staged := [];
    }

    /** Whatever peers send is among the texts on which the digest is taken not to collide. */
    ghost predicate PeersKnown() {
      forall p, n, hash :: p in peers && p(n, hash).Some? ==> Db.BlockTexts(p(n, hash).value) <= store.texts
    }

    /** The first peer whose block really hashes to what was asked for. */
    method RequestBlock(n: nat, hash: Hash) returns (r: Option<Block>, ghost from: nat)
      ensures r.Some? ==> from < |peers| && FirstAnswer(store.R, peers, from, n, hash, r.value)
      ensures r.None? ==> NobodyAnswers(store.R, peers, n, hash)
    {
      hide Header;
      for k := 0 to |peers|
        invariant forall i :: 0 <= i < k ==> NoAnswer(store.R, peers[i], n, hash)
      {
        var reply := peers[k](n, hash);
        if reply.Some? && Answers(store.R, reply.value, hash) {
          return reply, k;
        }
      }
      return None, 0;
    }

    /** Add one block of a batch; `applied` collects those that were not stored before. */
    method ApplyOne(b: Block, now: int, ghost before: Table, applied: seq<Block>)
      returns (e: Option<BlockError>, after: seq<Block>)
      requires store.Valid() && Db.BlockTexts(b) <= store.texts
      requires Extends(before, store.blocks, applied) && ParentFirst(store.R, before, applied)
      modifies store
      ensures store.Valid() && Rooted(old(store.blocks)) && e == Outcome(store.R, now, old(store.blocks), b)
      ensures e.Some? ==> store.Now() == old(store.Now())
      ensures e.None? ==> store.blocks == Stored(old(store.blocks), b) && InPlace(store.blocks, b)
      ensures e.None? ==> Extends(before, store.blocks, after) && ParentFirst(store.R, before, after)
      ensures e.None? ==> after == if b.hash in old(store.blocks) then applied else applied + [b]
    {
      hide Db.ChainStore.Valid, Rooted, AllValid, ValidRows, Enrol, Added, Outcome, Stored, Identified,
        Extends, ParentFirst, Db.BlockTexts, InPlace;
      var known := b.hash in store.blocks;
      after := applied;
      ghost var t := store.blocks;
      store.CacheIsSomePath();
      store.TextsIdentify(b);
      e := store.AddBlock(b, now);
      if e.Some? {
        return;
      }
      Applied(store.R, now, before, t, applied, b);
      if !known {
        after := applied + [b];
      }
    }

    /** Stage `last` and its ancestors until a stored parent, a genesis, the depth limit or a failed
        request. */
    method WalkBack(last: Block) returns (stop: Option<Fill>, requests: nat)
      requires Db.BlockTexts(last) <= store.texts && PeersKnown()
      modifies this`staged
      ensures requests <= maxFillDepth && forall b :: b in staged ==> Db.BlockTexts(b) <= store.texts
      ensures forall b :: b in staged ==> b == last || b.hash !in store.blocks
      ensures stop.None? ==> Arrived(store.R, peers, store.blocks, last, staged, requests)
      ensures stop.Some? ==> stop.value.TooDeep? || stop.value.RequestFailed?
      ensures stop.Some? && last.hash !in store.blocks ==>
        forall clock :: Explained(store.R, peers, maxFillDepth, store.blocks, last, clock, stop.value, staged, requests)
    {
      hide Header, Db.BlockTexts, Requested, Genesis, Answers;
      requests := 0;
      staged := [last];
      var block := last;
      while block.prevHash !in store.blocks && !Genesis(store.R, block)
        invariant requests <= maxFillDepth && Walked(store.R, peers, last, staged, requests + 1)
        invariant staged[requests] == block
        invariant forall k :: 0 <= k < requests ==> Dangling(store.R, store.blocks, staged[k])
        invariant forall b :: b in staged ==> Db.BlockTexts(b) <= store.texts
        invariant forall b :: b in staged ==> b == last || b.hash !in store.blocks
        decreases maxFillDepth - requests
      {
        if requests == maxFillDepth {
          return Some(TooDeep), requests;
        }
        var reply, from := RequestBlock(requests, block.prevHash);
        requests := requests + 1;
        if reply.None? {
          return Some(RequestFailed), requests;
        }
        AnswerRequested(store.R, peers, from, requests - 1, block.prevHash, reply.value);
        WalkedOn(store.R, peers, last, staged, requests, reply.value);
        block := reply.value;
        staged := staged + [block];
      }
      return None, requests;
    }

    /** Add all rows, or roll back to where the batch began. */
    method ApplyAll(rows: seq<Block>, clock: nat -> int) returns (e: Option<BlockError>, applied: seq<Block>)
      requires store.Valid() && forall b :: b in rows ==> Db.BlockTexts(b) <= store.texts
      modifies store
      ensures store.Valid()
      ensures e.Some? ==> store.Now() == old(store.Now()) && RefusedAt(store.R, old(store.blocks), rows, clock, e.value)
      ensures e.None? ==> AcceptedRows(store.R, old(store.blocks), rows, clock, |rows|)
      ensures e.None? ==> store.blocks == StoredAll(old(store.blocks), rows)
      ensures e.None? ==> forall b :: b in rows ==> InPlace(store.blocks, b)
      ensures e.None? ==>
        Extends(old(store.blocks), store.blocks, applied) && ParentFirst(store.R, old(store.blocks), applied)
      ensures e.None? ==> applied == NewPart(old(store.blocks), rows)
    {
      hide Db.ChainStore.Valid, Header, Extends, ParentFirst, NewPart, Db.BlockTexts, Outcome, StoredAll,
        Rooted, HashesOf;
      var blocks0, rows0, mat0 := store.blocks, store.rows, store.mat;
      applied := [];
      NothingExtended(store.R, store.blocks);
      NothingNew(blocks0);
      NothingStored(blocks0);
      for k := 0 to |rows|
        invariant store.Valid() && store.blocks == StoredAll(blocks0, rows[..k])
        invariant AcceptedRows(store.R, blocks0, rows, clock, k)
        invariant Extends(blocks0, store.blocks, applied) && ParentFirst(store.R, blocks0, applied)
        invariant forall j :: 0 <= j < k ==> InPlace(store.blocks, rows[j])
        invariant forall h :: h in blocks0 ==> h in store.blocks
        invariant store.blocks.Keys == blocks0.Keys + HashesOf(rows[..k]) && applied == NewPart(blocks0, rows[..k])
      {
        assert rows[k] in rows;
        var refused, after := ApplyOne(rows[k], clock(k), blocks0, applied);
        assert ComesTo(store.R, blocks0, rows, clock, k, refused);
        if refused.Some? {
          store.blocks, store.rows, store.mat := blocks0, rows0, mat0;
          ValidAgain();
          return refused, [];
        }
        NewPartSnoc(blocks0, rows, k);
        StoredAllSnoc(blocks0, rows, k);
        applied := after;
      }
      assert rows[..|rows|] == rows;
      return None, applied;
    }

    /** Walk back from `last` until a stored parent, then add everything or nothing. */
    method FillChain(last: Block, clock: nat -> int)
      returns (outcome: Fill, notices: seq<Block>, requests: nat, ghost segment: seq<Block>)
      requires store.Valid() && Db.BlockTexts(last) <= store.texts && PeersKnown()
      modifies this`staged, store
      ensures store.Valid() && staged == []
      ensures Explained(store.R, peers, maxFillDepth, old(store.blocks), last, clock, outcome, segment, requests)
      ensures !outcome.Filled? ==> store.Now() == old(store.Now()) && notices == []
      ensures outcome.Filled? ==> store.blocks == StoredAll(old(store.blocks), notices)
      ensures outcome.Filled? ==>
        forall k :: 0 <= k <= requests ==> segment[k].idx == last.idx - k && InPlace(store.blocks, segment[k])
      ensures outcome.Filled? ==> ByIdx(segment) == Reversed(segment) == notices
      ensures outcome.Filled? ==>
        Extends(old(store.blocks), store.blocks, notices) && ParentFirst(store.R, old(store.blocks), notices)
    {
      hide Db.ChainStore.Valid, Header, Extends, ParentFirst, ByIdx, Db.BlockTexts, RefusedAt,
        NobodyAnswers, Chained, Rooted, AllValid, InPlace, NewPart, Outcome, Reversed, Genesis, Walked,
        Dangling, AcceptedRows, StoredAll;
      notices, segment := [], [];
      staged := [];
      if last.hash in store.blocks {
        return AlreadyKnown, notices, 0, segment;
      }
      var stop;
      stop, requests := WalkBack(last);
      segment := staged;
      if stop.Some? {
        staged := [];
        return stop.value, notices, requests, segment;
      }
      SameRows(staged);
      ghost var blocks0 := store.blocks;
      var e, applied := ApplyAll(ByIdx(staged), clock);
      staged := [];
      WalkLength(store.R, peers, last, segment, requests + 1);
      if e.Some? {
        return Refused(e.value), notices, requests, segment;
      }
      StoreInv(store);
      WalkIsChained(store.R, peers, last, segment, requests + 1);
      FilledHeights(store.R, store.blocks, segment);
      WalkIsReversed(segment);
      ReversedMember(segment);
      AllNew(blocks0, store.blocks, Reversed(segment));
      return Filled, applied, requests, segment;
    }

    /** What the feed sends is among the known texts. */
    ghost predicate FeedKnown(feed: Feed) {
      forall n, idx, b :: b in feed(n, idx) ==> Db.BlockTexts(b) <= store.texts
    }

    /** One block of a forward sync: it must hash right, name the tip as its parent, and be valid. */
    method CommitNext(b: Block, now: int, ghost tip: Option<Hash>) returns (r: Option<Sync>)
      requires store.Valid() && Db.BlockTexts(b) <= store.texts && TipIs(store.R, store.Now(), tip)
      modifies store
      ensures store.Valid() && Rooted(old(store.blocks))
      ensures r == NextVerdict(store.R, now, old(store.blocks), tip, b)
      ensures r.Some? ==> store.Now() == old(store.Now())
      ensures r.None? ==> TipIs(store.R, store.Now(), Some(b.hash)) && b.hash !in old(store.blocks)
      ensures r.None? ==> store.blocks == old(store.blocks)[b.hash := b]
      ensures r.None? ==> ChainAt(store.Now(), Some(b.hash)) == old(ChainAt(store.Now(), tip)) + [b]
    {
      hide Db.ChainStore.Valid, Rooted, AllValid, Path, PathMap, Header, Db.BlockTexts, Verdict,
        Identified, Enrol, Added, Wins, IsBest;
      store.CacheIsSomePath();
      if store.R.hash(Header(b)) != b.hash {
        return Some(Diverged(HeaderHash));
      }
      var longest := store.Longest();
      assert Inv(store.R, store.Now()) by { StoreInv(store); }
      LongestIsTip(store.R, store.Now(), tip, longest);
      if longest.Some? {
        PathLast(store.blocks, longest.value);
        HashIsKey(store.blocks, longest.value);
      }
      var expected := if longest.Some? then store.blocks[longest.value].hash else store.R.hash(GENESIS);
      if b.prevHash != expected {
        return Some(Diverged(NotOnTip));
      }
      ghost var s := store.Now();
      store.TextsIdentify(b);
      var e := store.AddBlock(b, now);
      if e.Some? {
        return Some(Raised(e.value));
      }
      ExtendsTip(store.R, now, s, tip, b, store.pruneDepth);
      return None;
    }

    /** Where an import stands: `tip` is the tip, reached from `chain0` in `t0` by `committed`. */
    ghost predicate Imported(t0: Table, chain0: seq<Block>, tip: Option<Hash>, committed: seq<Block>)
      reads store
    {
      && store.Valid() && TipIs(store.R, store.Now(), tip) && Extends(t0, store.blocks, committed)
      && ChainAt(store.Now(), tip) == chain0 + committed
    }

    /** Commit a batch block by block until one gives a reason to stop. */
    method ImportBatch(batch: seq<Block>, clock: nat -> int, ghost t0: Table, ghost chain0: seq<Block>,
                       ghost tip0: Option<Hash>, done: seq<Block>)
      returns (stop: Option<Sync>, committed: seq<Block>, ghost tip: Option<Hash>, ghost m: nat)
      requires Imported(t0, chain0, tip0, done) && forall b :: b in batch ==> Db.BlockTexts(b) <= store.texts
      modifies store
      ensures Imported(t0, chain0, tip, committed)
      ensures m <= |batch| && committed == done + batch[..m] && (stop.None? ==> m == |batch|)
      ensures stop.Some? ==>
        m < |batch| && NextVerdict(store.R, clock(|committed|), store.blocks, tip, batch[m]) == stop
    {
      hide Db.ChainStore.Valid, Rooted, Canonical, Path, Header, Db.BlockTexts, Extends, NextVerdict;
      committed, tip, m := done, tip0, 0;
      for k := 0 to |batch|
        invariant m == k && Imported(t0, chain0, tip, committed) && committed == done + batch[..k]
      {
        assert batch[k] in batch;
        ghost var t := store.blocks;
        stop := CommitNext(batch[k], clock(|committed|), tip);
        if stop.Some? {
          return;
        }
        ExtendsSnoc(t0, t, committed, batch[k]);
        assert chain0 + committed + [batch[k]] == chain0 + (committed + [batch[k]]);
        assert batch[..k + 1] == batch[..k] + [batch[k]];
        tip := Some(batch[k].hash);
        committed, m := committed + [batch[k]], k + 1;
      }
      stop := None;
    }

    /** One above the tip. */
    method NextIdx(ghost tip: Option<Hash>) returns (nextIdx: int)
      requires store.Valid() && TipIs(store.R, store.Now(), tip)
      ensures nextIdx == |ChainAt(store.Now(), tip)|
    {
      hide Db.ChainStore.Valid, Rooted, AllValid, Path, PathMap, Wins, IsBest;
      store.CacheIsSomePath();
      var longest := store.Longest();
      StoreInv(store);
      LongestIsTip(store.R, store.Now(), tip, longest);
      return if longest.Some? then store.blocks[longest.value].idx + 1 else 0;
    }

    /** Import a peer's chain forward from the tip, batch by batch, each block committed as it is
        validated; at most `rounds` batches. Every round returns or raises the tip. */
    method SyncForward(feed: Feed, rounds: nat, clock: nat -> int)
      returns (outcome: Sync, committed: seq<Block>, ghost from: Option<Hash>, ghost tip: Option<Hash>,
               ghost asked: nat, ghost m: nat)
      requires store.Valid() && FeedKnown(feed)
      modifies store
      ensures store.Valid() && TipIs(store.R, old(store.Now()), from)
      ensures Ended(store.R, old(store.blocks), store.Now(), feed, old(ChainAt(store.Now(), from)), rounds, clock,
                    outcome, tip, asked, m, committed)
    {
      hide Db.ChainStore.Valid, Rooted, AllValid, Path, PathMap, Header, Db.BlockTexts, Extends, Wins,
        IsBest, Verdict, Received, Answer, NextVerdict, ChainAt, HashesOf, Inv, ValidRows;
      committed, asked, m := [], 0, 0;
      StoreInv(store);
      from := SomeTip(store.R, store.Now());
      tip := from;
      NothingExtended(store.R, store.blocks);
      ghost var chain0 := ChainAt(store.Now(), from);
      ghost var t0 := store.blocks;
      NothingReceived(feed, |chain0|);
      var lastNextIdx: Option<int> := None;
      for round := 0 to rounds
        invariant asked == round && m == 0
        invariant Imported(t0, chain0, tip, committed) && committed == Received(feed, |chain0|, round)
        invariant forall n :: 0 <= n < round ==> Answer(feed, |chain0|, n) != []
        invariant lastNextIdx.Some? ==> lastNextIdx.value < |chain0| + |committed|
      {
        var nextIdx := NextIdx(tip);
        if lastNextIdx == Some(nextIdx) {
          // the no-progress guard: a round that did not return has raised the tip
          assert false;
        }
        lastNextIdx := Some(nextIdx);
        var batch := feed(round, nextIdx);
        AnswerIs(feed, |chain0|, round);
        if batch == [] {
          StoreInv(store);
          return CaughtUp, committed, from, tip, asked, m;
        }
        var stop;
        stop, committed, tip, m := ImportBatch(batch, clock, t0, chain0, tip, committed);
        if stop.Some? {
          StoreInv(store);
          NeverNoProgress(store.R, clock(|committed|), store.blocks, tip, batch[m]);
          return stop.value, committed, from, tip, asked, m;
        }
        assert batch[..|batch|] == batch;
        asked, m := round + 1, 0;
      }
      StoreInv(store);
      return Pending, committed, from, tip, asked, m;
    }

    /** A rolled-back store is as valid as it was. */
    twostate lemma ValidAgain()
      requires old(store.Valid()) && store.Now() == old(store.Now())
      ensures store.Valid()
    {
      hide Inv, CollisionFree, Db.BlockTexts;
    }
  }

  lemma StoreInv(store: Db.ChainStore)
    requires store.Valid()
    ensures Inv(store.R, store.Now()) && Rooted(store.blocks)
  {
    hide AllValid, Rooted, Canonical, ValidRows, CollisionFree, Db.BlockTexts;
  }
}
