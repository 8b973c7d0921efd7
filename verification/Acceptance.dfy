/** What the tables take in, in terms of the protocol. */
module Acceptance {
  import opened Prelude
  import opened Payload
  import opened Transactions
  import opened Blocks
  import opened Ledger
  import opened LedgerTheory
  import opened Unspent
  import opened Conservation
  import opened Protocol
  import opened Tree
  import opened Store

  /** A block that is not stored is accepted if and only if it is not from the future, is lawful on top of
      its parent's path, and does not begin a second tree. */
  lemma VerdictIff(R: Rules, now: int, t: Table, b: Block)
    requires Rooted(t) && AllValid(R, t) && b.hash !in t
    requires CollisionFree(R, Preimages(Parent(t, b) + [b]))
    ensures Verdict(R, now, t, b) == None <==>
      && Lawful(R, Parent(t, b), b) && Instant(R, b.timestamp) <= now
      && (Parent(t, b) == [] ==> t == map[])
  {
    hide Path, Rooted, ValidChain, ValidNext, CollisionFree, Preimages, Lawful, Shape, CheckMoney, TargetAfter, Before;
    var chain := Parent(t, b);
    if b.prevHash in t {
      PathLast(t, b.prevHash);
    }
    assert ValidChain(R, chain) by { NoBlocks(R); }
    NextIff(R, chain, b);
    if Verdict(R, now, t, b) == None {
      AcceptedLinks(R, now, t, b);
      ShapeTimestamp(R, b);
    }
    if Lawful(R, chain, b) && Instant(R, b.timestamp) <= now && (chain == [] ==> t == map[]) {
      NextPasses(R, now, t, b);
    }
  }

  lemma NoBlocks(R: Rules)
    ensures ValidChain(R, [])
  {
  }

  lemma NextPasses(R: Rules, now: int, t: Table, b: Block)
    requires Rooted(t) && AllValid(R, t) && b.hash !in t && ValidNext(R, Parent(t, b), b)
    requires Instant(R, b.timestamp) <= now && (Parent(t, b) == [] ==> t == map[])
    ensures Verdict(R, now, t, b) == None
  {
    hide Path, Rooted, ValidChain, Shape, CheckMoney, TargetAfter, Before;
    ShapeTimestamp(R, b);
    if b.prevHash in t {
      PathLast(t, b.prevHash);
    }
  }

  /** The first rule a block breaks decides how it is refused; money is looked at last. */
  lemma Refusals(R: Rules, now: int, t: Table, b: Block)
    requires Rooted(t) && AllValid(R, t)
    ensures var chain, verdict, first := Parent(t, b), Verdict(R, now, t, b), b.prevHash == R.hash("GENESIS");
      if !(Sealed(R, b) && Filled(R, b)) then verdict == Some(InvalidBlock)
      else if Instant(R, b.timestamp) > now then verdict == Some(FutureBlock)
      else if first && b.idx == 0 && t != map[] && !IsRoot(t, b.hash) then verdict == Some(DuplicateGenesis)
      else if chain == [] && !first then verdict == Some(InvalidPreviousHash)
      else if chain != [] && Instant(R, b.timestamp) < Instant(R, chain[|chain| - 1].timestamp)
        then verdict == Some(OutOfOrder)
      else if b.idx != |chain| then verdict == Some(InvalidIndex)
      else if !Demanded(R, chain, b.target) then verdict == Some(InvalidTarget)
      else verdict == CheckMoney(ViewOf(t, b), b)
  {
    hide Path, Rooted, ValidChain, Shape, CheckMoney, TargetAfter, Before, Sealed, Filled, Demanded;
    ShapeIff(R, b);
    if Shape(R, b) {
      ShapeTimestamp(R, b);
      SomeRoot(R, t);
      NoBlocks(R);
      LinkRefusals(R, Parent(t, b), b);
    }
  }

  lemma SomeRoot(R: Rules, t: Table)
    requires Rooted(t) && AllValid(R, t)
    ensures t == map[] ==> GenesisOf(t) == None
    ensures t != map[] ==> GenesisOf(t).Some? && forall h :: IsRoot(t, h) <==> h == GenesisOf(t).value
  {
    hide Path, ValidChain;
    if t != map[] {
      RootedPrev(R, t);
    }
  }

  /** Every stored transaction is signed by its address and named by its content. */
  lemma StoredIsSigned(R: Rules, s: State, h: Hash, t: Txn)
    requires Inv(R, s) && h in s.blocks && t in s.blocks[h].txns
    ensures R.signed(t.address, SigningData(t), t.signature) && t.txid == R.hash(DataCsv(t))
  {
    hide Path, Rooted, Canonical, ValidRows, ValidChain, SigningData, DataCsv;
    PathLast(s.blocks, h);
    BlockInChain(Path(s.blocks, h), s.blocks[h].idx, t);
    SignedByAddress(R, Path(s.blocks, h), t);
  }

  /** Whatever a stored block consumes was created below it, and is signed for by its owner. */
  lemma StoredSpend(R: Rules, s: State, h: Hash, k: nat, i: Inflow)
    requires Inv(R, s) && h in s.blocks && k < |s.blocks[h].txns| && i in s.blocks[h].txns[k].inflows
    requires CollisionFree(R, Preimages(Path(s.blocks, h)))
    ensures var all, t := AllTxns(Path(s.blocks, h)), s.blocks[h].txns[k];
      && Source(all, i).Some? && multiset(Refs(all))[i] == 1
      && R.signed(OwnerOf(Source(all, i).value, Find(all, i.outflowTxid).value), SigningData(t), t.signature)
  {
    hide Path, Rooted, Canonical, ValidRows, ValidChain, SigningData, CollisionFree, Preimages, AllTxns, Refs, Find,
      OwnerOf, CheckInflow;
    PathLast(s.blocks, h);
    WhoSpends(R, Path(s.blocks, h), s.blocks[h].idx, k, i);
  }
}
