/** Unspent outpoints: their total under any weight is what was created less what was consumed. */
module Unspent {
  import opened Prelude
  import opened Payload
  import opened Transactions
  import opened Order
  import opened Sums
  import opened Ledger
  import opened LedgerTheory

  function Outpoints(t: Txn, n: nat): set<Inflow> {
    set j | 0 <= j < n :: Inflow(t.txid, j)
  }

  /** Every outpoint the transactions create. */
  function Created(txns: seq<Txn>): set<Inflow> {
    if txns == [] then {}
    else Created(txns[..|txns| - 1]) + Outpoints(txns[|txns| - 1], |txns[|txns| - 1].outflows|)
  }

  /** The outflow an outpoint names. */
  function Source(txns: seq<Txn>, i: Inflow): Option<Outflow> {
    var t := Find(txns, i.outflowTxid);
    if t.Some? && 0 <= i.outflowIdx < |t.value.outflows| then Some(t.value.outflows[i.outflowIdx]) else None
  }

  /** The unspent clause: created, and no inflow of the chain consumes it. */
  function UnspentOf(txns: seq<Txn>): set<Inflow> {
    set i | i in Created(txns) && i !in Refs(txns)
  }

  ghost function Worth(txns: seq<Txn>, w: Outflow -> int, i: Inflow): int {
    if Source(txns, i).Some? then w(Source(txns, i).value) else 0
  }

  /** Total weight of the unspent outflows. */
  ghost function UnspentValue(txns: seq<Txn>, w: Outflow -> int): int {
    Sum(UnspentOf(txns), i => Worth(txns, w, i))
  }

  function OutValue(outs: seq<Outflow>, w: Outflow -> int): int {
    if outs == [] then 0 else OutValue(outs[..|outs| - 1], w) + w(outs[|outs| - 1])
  }

  ghost function RefValue(txns: seq<Txn>, w: Outflow -> int, refs: seq<Inflow>): int {
    if refs == [] then 0 else RefValue(txns, w, refs[..|refs| - 1]) + Worth(txns, w, refs[|refs| - 1])
  }

  /** What `part` creates less what it consumes, outpoints resolved in `txns`. */
  ghost function Net(txns: seq<Txn>, part: seq<Txn>, w: Outflow -> int): int {
    if part == [] then 0
    else
      var t := part[|part| - 1];
      Net(txns, part[..|part| - 1], w) + OutValue(t.outflows, w) - RefValue(txns, w, t.inflows)
  }

  // ---- finding ---------------------------------------------------------------------------------

  lemma {:induction false} FindAnswers(txns: seq<Txn>, txid: string)
    ensures Find(txns, txid).Some? ==> Find(txns, txid).value in txns && Find(txns, txid).value.txid == txid
    ensures Find(txns, txid).None? ==> forall t :: t in txns ==> t.txid != txid
  {
    if txns != [] {
      FindAnswers(txns[1..], txid);
      assert txns == [txns[0]] + txns[1..];
    }
  }

  /** With distinct txids a lookup is independent of the search order. */
  lemma FindDistinct(txns: seq<Txn>, t: Txn)
    requires DistinctTxids(txns) && t in txns
    ensures Find(txns, t.txid) == Some(t)
  {
    FindAnswers(txns, t.txid);
    var u := Find(txns, t.txid).value;
    var k :| 0 <= k < |txns| && txns[k] == t;
    OneTxid(txns, u, k);
  }

  lemma FindInPart(txns: seq<Txn>, part: seq<Txn>, txid: string)
    requires DistinctTxids(txns) && (forall t :: t in part ==> t in txns) && Find(part, txid).Some?
    ensures Find(txns, txid) == Find(part, txid)
  {
    FindAnswers(part, txid);
    FindDistinct(txns, Find(part, txid).value);
  }

  lemma {:induction false} CreatedAnswers(txns: seq<Txn>, i: Inflow)
    requires DistinctTxids(txns)
    ensures i in Created(txns) <==> Source(txns, i).Some?
  {
    hide DistinctTxids, Find;
    if txns == [] {
      assert Find([], i.outflowTxid) == None by { FindNothing(i.outflowTxid); }
    } else {
      var init, t := txns[..|txns| - 1], txns[|txns| - 1];
      assert txns == init + [t];
      DistinctPrefix(txns, |init|);
      CreatedAnswers(init, i);
      FindDistinct(txns, t);
      if i.outflowTxid != t.txid {
        FindSnoc(init, t, i.outflowTxid);
      } else {
        LastUnfound(txns);
      }
    }
  }

  lemma FindNothing(txid: string)
    ensures Find([], txid) == None
  {
  }

  lemma FindSnoc(init: seq<Txn>, t: Txn, txid: string)
    requires t.txid != txid
    ensures Find(init + [t], txid) == Find(init, txid)
  {
    var txns := init + [t];
    if init == [] {
      assert txns == [t];
      assert txns[1..] == [];
    } else {
      assert txns[1..] == init[1..] + [t];
      FindSnoc(init[1..], t, txid);
    }
  }

  lemma LastUnfound(txns: seq<Txn>)
    requires txns != [] && DistinctTxids(txns)
    ensures Find(txns[..|txns| - 1], txns[|txns| - 1].txid) == None
  {
    FindAnswers(txns[..|txns| - 1], txns[|txns| - 1].txid);
  }

  // ---- sums over outpoints ---------------------------------------------------------------------

  lemma {:induction false} OutpointsSum(txns: seq<Txn>, t: Txn, w: Outflow -> int, n: nat)
    requires Find(txns, t.txid) == Some(t) && n <= |t.outflows|
    ensures Sum(Outpoints(t, n), i => Worth(txns, w, i)) == OutValue(t.outflows[..n], w)
  {
    hide Find;
    var f := i => Worth(txns, w, i);
    if n == 0 {
      assert Outpoints(t, 0) == {};
    } else {
      OutpointsSum(txns, t, w, n - 1);
      var i := Inflow(t.txid, n - 1);
      assert Outpoints(t, n) == Outpoints(t, n - 1) + {i};
      SumInsert(Outpoints(t, n - 1), f, i);
      assert t.outflows[..n][..n - 1] == t.outflows[..n - 1];
      assert Worth(txns, w, i) == w(t.outflows[n - 1]);
    }
  }

  ghost function OutTotal(txns: seq<Txn>, w: Outflow -> int): int {
    if txns == [] then 0 else OutTotal(txns[..|txns| - 1], w) + OutValue(txns[|txns| - 1].outflows, w)
  }

  lemma {:induction false} CreatedSum(txns: seq<Txn>, w: Outflow -> int)
    requires DistinctTxids(txns)
    ensures Sum(Created(txns), i => Worth(txns, w, i)) == OutTotal(txns, w)
  {
    if txns != [] {
      hide DistinctTxids, Find, Created, Outpoints, Source;
      var init, t := txns[..|txns| - 1], txns[|txns| - 1];
      assert txns == init + [t];
      var f, g := i => Worth(txns, w, i), i => Worth(init, w, i);
      DistinctPrefix(txns, |init|);
      CreatedSum(init, w);
      forall i | i in Created(init)
        ensures f(i) == g(i) && i.outflowTxid != t.txid
      {
        CreatedAnswers(init, i);
        LastUnfound(txns);
        CreatedSource(init, i);
        FindSnoc(init, t, i.outflowTxid);
        SourceFound(txns, init, i);
      }
      SumAgree(Created(init), f, g);
      FindDistinct(txns, t);
      OutpointsSum(txns, t, w, |t.outflows|);
      assert t.outflows[..|t.outflows|] == t.outflows;
      var own := Outpoints(t, |t.outflows|);
      OutpointsOf(t, |t.outflows|);
      SumDisjoint(Created(init), own, f);
      CreatedSnoc(txns);
    }
  }

  lemma CreatedSnoc(txns: seq<Txn>)
    requires txns != []
    ensures Created(txns) == Created(txns[..|txns| - 1]) + Outpoints(txns[|txns| - 1], |txns[|txns| - 1].outflows|)
  {
  }

  lemma OutpointsOf(t: Txn, n: nat)
    ensures forall i :: i in Outpoints(t, n) ==> i.outflowTxid == t.txid
  {
  }

  lemma CreatedSource(txns: seq<Txn>, i: Inflow)
    requires Source(txns, i).Some?
    ensures Find(txns, i.outflowTxid).Some?
  {
  }

  lemma SourceFound(a: seq<Txn>, b: seq<Txn>, i: Inflow)
    requires Find(a, i.outflowTxid) == Find(b, i.outflowTxid)
    ensures Source(a, i) == Source(b, i)
  {
  }

  function AsSet(refs: seq<Inflow>): set<Inflow> {
    set i | i in refs
  }

  lemma {:induction false} RefSum(txns: seq<Txn>, w: Outflow -> int, refs: seq<Inflow>)
    requires forall i :: multiset(refs)[i] <= 1
    ensures Sum(AsSet(refs), i => Worth(txns, w, i)) == RefValue(txns, w, refs)
  {
    hide Worth;
    var f := i => Worth(txns, w, i);
    if refs == [] {
      assert AsSet(refs) == {};
    } else {
      var init, last := refs[..|refs| - 1], refs[|refs| - 1];
      assert refs == init + [last];
      assert multiset(refs) == multiset(init) + multiset{last};
      forall i
        ensures multiset(init)[i] <= 1
      {
        assert multiset(refs)[i] <= 1;
      }
      assert last !in init by {
        assert multiset(refs)[last] <= 1;
      }
      RefSum(txns, w, init);
      assert AsSet(refs) == AsSet(init) + {last};
      SumInsert(AsSet(init), f, last);
    }
  }

  lemma {:induction false} NetSplits(txns: seq<Txn>, part: seq<Txn>, w: Outflow -> int)
    ensures Net(txns, part, w) == OutTotal(part, w) - RefValue(txns, w, Refs(part))
  {
    if part != [] {
      var init, t := part[..|part| - 1], part[|part| - 1];
      NetSplits(txns, init, w);
      RefValueAppend(txns, w, Refs(init), t.inflows);
    }
  }

  lemma {:induction false} RefValueAppend(txns: seq<Txn>, w: Outflow -> int, a: seq<Inflow>, b: seq<Inflow>)
    ensures RefValue(txns, w, a + b) == RefValue(txns, w, a) + RefValue(txns, w, b)
  {
    if b == [] {
      assert a + b == a;
    } else {
      RefValueAppend(txns, w, a, b[..|b| - 1]);
      assert (a + b)[..|a + b| - 1] == a + b[..|b| - 1];
    }
  }

  lemma {:induction false} NetAppend(txns: seq<Txn>, a: seq<Txn>, b: seq<Txn>, w: Outflow -> int)
    ensures Net(txns, a + b, w) == Net(txns, a, w) + Net(txns, b, w)
  {
    if b == [] {
      assert a + b == a;
    } else {
      NetAppend(txns, a, b[..|b| - 1], w);
      assert (a + b)[..|a + b| - 1] == a + b[..|b| - 1];
    }
  }

  /** Under any weight, unspent value is created value less consumed value. */
  lemma UnspentIsNet(txns: seq<Txn>, w: Outflow -> int)
    requires DistinctTxids(txns) && SpentOnce(txns)
    requires forall i :: i in Refs(txns) ==> Source(txns, i).Some?
    ensures UnspentValue(txns, w) == Net(txns, txns, w)
  {
    hide Worth, Refs, Find, DistinctTxids, Source;
    var f := i => Worth(txns, w, i);
    var refs := AsSet(Refs(txns));
    forall i | i in refs
      ensures i in Created(txns)
    {
      CreatedAnswers(txns, i);
    }
    assert UnspentOf(txns) == Created(txns) - refs;
    SumDifference(Created(txns), refs, f);
    CreatedSum(txns, w);
    RefSum(txns, w, Refs(txns));
    NetSplits(txns, txns, w);
  }
}
