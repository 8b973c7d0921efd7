/** The block tree: parent links, paths to genesis, and the fork-choice order. */
module Tree {
  import opened Prelude
  import opened Transactions
  import opened Order
  import opened Blocks

  type Hash = string

  /** The block table, by hash. */
  type Table = map<Hash, Block>

  /** A stored block goes by its hash and sits one above its stored parent, or is a genesis. */
  predicate Linked(t: Table, h: Hash)
    requires h in t
  {
    && t[h].hash == h && t[h].idx >= 0
    && if t[h].idx == 0 then t[h].prevHash !in t
       else t[h].prevHash in t && t[t[h].prevHash].idx == t[h].idx - 1
  }

  predicate IsRoot(t: Table, h: Hash) {
    h in t && t[h].idx == 0
  }

  /** Every block is linked, and there is at most one genesis. */
  ghost predicate Rooted(t: Table) {
    && (forall h {:trigger Linked(t, h)} :: h in t ==> Linked(t, h))
    && (forall g, h :: IsRoot(t, g) && IsRoot(t, h) ==> g == h)
  }

  /** The `prev` relationship of a stored block. */
  function Prev(t: Table, h: Hash): Option<Hash>
    requires h in t
  {
    if t[h].prevHash in t then Some(t[h].prevHash) else None
  }

  /** The walk along `prev`, genesis first. */
  function Path(t: Table, h: Hash): (p: seq<Block>)
    requires Rooted(t) && h in t
    ensures |p| == t[h].idx + 1
    decreases t[h].idx
  {
    assert Linked(t, h);
    if t[h].idx == 0 then [t[h]] else Path(t, t[h].prevHash) + [t[h]]
  }

  lemma {:induction false} PathAt(t: Table, h: Hash, k: nat)
    requires Rooted(t) && h in t && k <= t[h].idx
    ensures var g := Path(t, h)[k].hash;
      g in t && t[g] == Path(t, h)[k] && t[g].idx == k && Path(t, g) == Path(t, h)[..k + 1]
    decreases t[h].idx
  {
    assert Linked(t, h);
    if k < t[h].idx {
      PathAt(t, t[h].prevHash, k);
      assert Path(t, h)[k] == Path(t, t[h].prevHash)[k];
      assert Path(t, h)[..k + 1] == Path(t, t[h].prevHash)[..k + 1];
    } else {
      assert Path(t, h)[..k + 1] == Path(t, h);
    }
  }

  lemma PathLast(t: Table, h: Hash)
    requires Rooted(t) && h in t
    ensures t[h].idx >= 0 && Path(t, h)[t[h].idx] == t[h] && Path(t, h)[t[h].idx].hash == h
  {
    assert Linked(t, h);
  }

  /** `g` is `h` or one of its ancestors. */
  ghost predicate OnPath(t: Table, g: Hash, h: Hash)
    requires Rooted(t) && h in t
  {
    g in t && 0 <= t[g].idx <= t[h].idx && Path(t, h)[t[g].idx].hash == g
  }

  /** Positions of the blocks of one path. */
  ghost function PathMap(t: Table, h: Hash): map<Hash, nat>
    requires Rooted(t) && h in t
  {
    map g | g in t && t[g].idx >= 0 && OnPath(t, g, h) :: t[g].idx
  }

  /** Two tables that hold the same block wherever both hold one give `h` the same path. */
  lemma {:induction false} PathGrows(t: Table, u: Table, h: Hash)
    requires Rooted(t) && Rooted(u) && h in t && h in u && (forall g :: g in t && g in u ==> u[g] == t[g])
    ensures Path(u, h) == Path(t, h)
    decreases t[h].idx
  {
    assert Linked(t, h) && Linked(u, h);
    if t[h].idx > 0 {
      PathGrows(t, u, t[h].prevHash);
    }
  }

  lemma PathMapGrows(t: Table, u: Table, h: Hash)
    requires Rooted(t) && Rooted(u) && h in t && (forall g :: g in t ==> g in u && u[g] == t[g])
    ensures PathMap(u, h) == PathMap(t, h)
  {
    hide Path;
    PathGrows(t, u, h);
    forall g | g in u && OnPath(u, g, h)
      ensures g in t
    {
      assert Linked(u, g);
      PathAt(t, h, u[g].idx);
    }
  }

  /** All walks end in the one genesis. */
  lemma SameGenesis(t: Table, g: Hash, h: Hash)
    requires Rooted(t) && g in t && h in t
    ensures Path(t, g)[0] == Path(t, h)[0]
  {
    assert Linked(t, g) && Linked(t, h);
    PathAt(t, g, 0);
    PathAt(t, h, 0);
    assert IsRoot(t, Path(t, g)[0].hash) && IsRoot(t, Path(t, h)[0].hash);
  }

  // ---- fork choice -----------------------------------------------------------------------------

  /** Higher first, then earlier, then the smaller hash. */
  predicate Better(R: Rules, a: Block, b: Block) {
    a.idx > b.idx || (a.idx == b.idx && Earlier(R, a, b))
  }

  function At(R: Rules, b: Block): int {
    if R.instant(b.timestamp).Some? then R.instant(b.timestamp).value else 0
  }

  predicate Earlier(R: Rules, a: Block, b: Block) {
    At(R, a) < At(R, b) || (At(R, a) == At(R, b) && StringLess(a.hash, b.hash))
  }

  lemma BetterTotal(R: Rules, a: Block, b: Block)
    ensures Better(R, a, b) || Better(R, b, a) || a.hash == b.hash
    ensures !(Better(R, a, b) && Better(R, b, a))
      && (a.hash == b.hash && a.idx == b.idx && a.timestamp == b.timestamp ==> !Better(R, a, b))
  {
    StringTotal(a.hash, b.hash);
  }

  lemma BetterTransitive(R: Rules, a: Block, b: Block, c: Block)
    requires Better(R, a, b) && Better(R, b, c)
    ensures Better(R, a, c)
  {
    if StringLess(a.hash, b.hash) && StringLess(b.hash, c.hash) {
      StringTransitive(a.hash, b.hash, c.hash);
    }
  }

  /** `h` wins among the candidates `hs`. */
  ghost predicate Wins(R: Rules, t: Table, hs: set<Hash>, h: Hash)
    requires hs <= t.Keys
  {
    h in hs && forall g :: g in hs && g != h ==> Better(R, t[h], t[g])
  }

  ghost predicate IsBest(R: Rules, t: Table, h: Hash) {
    Wins(R, t, t.Keys, h)
  }

  lemma WinnerUnique(R: Rules, t: Table, hs: set<Hash>, g: Hash, h: Hash)
    requires hs <= t.Keys && Wins(R, t, hs, g) && Wins(R, t, hs, h)
    ensures g == h
  {
    hide Better;
    BetterTotal(R, t[g], t[h]);
  }

  /** The winner of the whole tree wins among any candidates that include it. */
  lemma BestAmongRows(R: Rules, t: Table, hs: set<Hash>, best: Hash, h: Hash)
    requires hs <= t.Keys && IsBest(R, t, best) && best in hs
    ensures Wins(R, t, hs, h) <==> h == best
  {
    hide Better;
    if Wins(R, t, hs, h) {
      assert Wins(R, t, hs, best);
      WinnerUnique(R, t, hs, h, best);
    }
  }

  /** Adding a block: it is the new best, or the old best stays. */
  lemma BestAfter(R: Rules, t: Table, best: Hash, b: Block)
    requires Rooted(t) && IsBest(R, t, best) && b.hash !in t
    ensures var u := t[b.hash := b];
      if Better(R, b, t[best]) then IsBest(R, u, b.hash) else IsBest(R, u, best)
  {
    hide Better;
    var u := t[b.hash := b];
    assert Linked(t, best);
    BetterTotal(R, b, t[best]);
    if Better(R, b, t[best]) {
      forall g | g in u && g != b.hash
        ensures Better(R, u[b.hash], u[g])
      {
        if g != best {
          BetterTransitive(R, b, t[best], t[g]);
        }
      }
    }
  }

  /** The query's own wording: the greatest height, then the earliest time, then the smallest hash. */
  ghost predicate First(R: Rules, t: Table, h: Hash)
    requires h in t
  {
    && (forall g :: g in t ==> t[g].idx <= t[h].idx)
    && (forall g :: g in t && t[g].idx == t[h].idx ==> At(R, t[h]) <= At(R, t[g]))
    && (forall g :: g in t && t[g].idx == t[h].idx && At(R, t[g]) == At(R, t[h]) ==> g == h || StringLess(h, g))
  }

  lemma BestIsFirst(R: Rules, t: Table, h: Hash)
    requires Rooted(t) && h in t
    ensures IsBest(R, t, h) <==> First(R, t, h)
  {
    hide StringLess;
    forall g | g in t
      ensures t[g].hash == g
    {
      assert Linked(t, g);
    }
    if IsBest(R, t, h) {
      forall g | g in t
        ensures g == h || Better(R, t[h], t[g])
      {
      }
    }
  }
}
