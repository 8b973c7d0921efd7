/** The one canonical order of a block's transactions. */
module Order {
  import opened Transactions

  /** Python's `<` on strings: lexicographic by code point. */
  predicate StringLess(a: string, b: string)
    decreases |a|
  {
    if b == "" then false
    else if a == "" then true
    else a[0] < b[0] || (a[0] == b[0] && StringLess(a[1..], b[1..]))
  }

  lemma {:induction false} StringTotal(a: string, b: string)
    ensures StringLess(a, b) || StringLess(b, a) || a == b
    ensures !(StringLess(a, b) && StringLess(b, a)) && !StringLess(a, a)
    decreases |a|
  {
    if a != "" && b != "" {
      StringTotal(a[1..], b[1..]);
      assert a == [a[0]] + a[1..] && b == [b[0]] + b[1..];
    }
    if a != "" {
      StringTotal(a[1..], a[1..]);
    }
  }

  lemma {:induction false} StringTransitive(a: string, b: string, c: string)
    requires StringLess(a, b) && StringLess(b, c)
    ensures StringLess(a, c)
    decreases |a|
  {
    if a != "" && a[0] == b[0] == c[0] {
      StringTransitive(a[1..], b[1..], c[1..]);
    }
  }

  /** `txn < other`: by timestamp, then txid. */
  predicate TxnLess(t: Txn, u: Txn) {
    StringLess(t.timestamp, u.timestamp) || (t.timestamp == u.timestamp && StringLess(t.txid, u.txid))
  }

  /** The canonical sort key: regular transactions first, then timestamp, then txid. */
  predicate KeyLess(t: Txn, u: Txn) {
    (!IsCoinbase(t) && IsCoinbase(u)) || (IsCoinbase(t) == IsCoinbase(u) && TxnLess(t, u))
  }

  predicate SameKey(t: Txn, u: Txn) {
    IsCoinbase(t) == IsCoinbase(u) && t.timestamp == u.timestamp && t.txid == u.txid
  }

  lemma KeyTotal(t: Txn, u: Txn)
    ensures KeyLess(t, u) || KeyLess(u, t) || SameKey(t, u)
    ensures !(KeyLess(t, u) && KeyLess(u, t)) && (SameKey(t, u) ==> !KeyLess(t, u))
  {
    StringTotal(t.timestamp, u.timestamp);
    StringTotal(t.txid, u.txid);
  }

  lemma KeyTransitive(t: Txn, u: Txn, v: Txn)
    requires !KeyLess(u, t) && !KeyLess(v, u)
    ensures !KeyLess(v, t)
  {
    hide StringLess;
    KeyTotal(t, u);
    KeyTotal(u, v);
    KeyTotal(t, v);
    if KeyLess(v, t) {
      StringTotal(t.timestamp, u.timestamp);
      StringTotal(t.timestamp, v.timestamp);
      StringTotal(v.timestamp, u.timestamp);
      StringTotal(t.txid, u.txid);
      StringTotal(t.txid, v.txid);
      StringTotal(v.txid, u.txid);
      if StringLess(t.timestamp, u.timestamp) && StringLess(u.timestamp, v.timestamp) {
        StringTransitive(t.timestamp, u.timestamp, v.timestamp);
      }
      if StringLess(t.txid, u.txid) && StringLess(u.txid, v.txid) {
        StringTransitive(t.txid, u.txid, v.txid);
      }
    }
  }

  // ---- the stable sort -------------------------------------------------------------------------

  /** Insert behind everything that is not greater. */
  function Insert(s: seq<Txn>, t: Txn): seq<Txn> {
    if s == [] then [t]
    else if KeyLess(t, s[|s| - 1]) then Insert(s[..|s| - 1], t) + [s[|s| - 1]]
    else s + [t]
  }

  function CanonicalOrder(txns: seq<Txn>): seq<Txn> {
    if txns == [] then [] else Insert(CanonicalOrder(txns[..|txns| - 1]), txns[|txns| - 1])
  }

  predicate Sorted(s: seq<Txn>) {
    forall i, j :: 0 <= i < j < |s| ==> !KeyLess(s[j], s[i])
  }

  lemma InOrSnoc(s: seq<Txn>, z: Txn)
    ensures forall u :: u in s + [z] <==> u in s || u == z
  {
    var both := s + [z];
    assert both[|s|] == z;
  }

  lemma {:induction false} InsertContents(s: seq<Txn>, t: Txn)
    ensures multiset(Insert(s, t)) == multiset(s) + multiset{t}
    ensures forall u :: u in Insert(s, t) <==> u in s || u == t
  {
    hide KeyLess;
    if s != [] {
      var n := |s| - 1;
      assert s == s[..n] + [s[n]];
      InOrSnoc(s[..n], s[n]);
      InOrSnoc(s, t);
      if KeyLess(t, s[n]) {
        InsertContents(s[..n], t);
        InOrSnoc(Insert(s[..n], t), s[n]);
      }
    }
  }

  /** Something that is below nothing in a sorted list may be put at its end. */
  lemma SortedSnoc(s: seq<Txn>, z: Txn)
    requires Sorted(s) && forall u :: u in s ==> !KeyLess(z, u)
    ensures Sorted(s + [z])
  {
    hide KeyLess;
    var both := s + [z];
    forall i, j | 0 <= i < j < |both|
      ensures !KeyLess(both[j], both[i])
    {
      assert both[i] == s[i];
      if j < |s| {
        assert both[j] == s[j];
      }
    }
  }

  lemma SortedPrefix(s: seq<Txn>)
    requires s != [] && Sorted(s)
    ensures Sorted(s[..|s| - 1])
    ensures forall u :: u in s ==> !KeyLess(s[|s| - 1], u)
  {
    hide KeyLess;
    forall u | u in s
      ensures !KeyLess(s[|s| - 1], u)
    {
      var i :| 0 <= i < |s| && s[i] == u;
      KeyTotal(u, u);
      assert SameKey(u, u);
    }
  }

  lemma {:induction false} InsertSorted(s: seq<Txn>, t: Txn)
    requires Sorted(s)
    ensures Sorted(Insert(s, t))
  {
    hide KeyLess, Sorted;
    if s == [] {
      SortedOne(t);
    } else {
      var n := |s| - 1;
      SortedPrefix(s);
      if KeyLess(t, s[n]) {
        InsertSorted(s[..n], t);
        InsertContents(s[..n], t);
        KeyTotal(t, s[n]);
        assert forall u :: u in s[..n] ==> u in s;
        SortedSnoc(Insert(s[..n], t), s[n]);
      } else {
        forall u | u in s
          ensures !KeyLess(t, u)
        {
          KeyTransitive(u, s[n], t);
        }
        SortedSnoc(s, t);
      }
    }
  }

  lemma SortedOne(t: Txn)
    ensures Sorted([t])
  {
  }

  lemma {:induction false} CanonicalSorted(txns: seq<Txn>)
    ensures Sorted(CanonicalOrder(txns)) && multiset(CanonicalOrder(txns)) == multiset(txns)
  {
    hide KeyLess, Sorted, Insert;
    if txns == [] {
      SortedNothing();
    } else {
      var n := |txns| - 1;
      assert txns == txns[..n] + [txns[n]];
      CanonicalSorted(txns[..n]);
      InsertContents(CanonicalOrder(txns[..n]), txns[n]);
      InsertSorted(CanonicalOrder(txns[..n]), txns[n]);
    }
  }

  lemma SortedNothing()
    ensures Sorted([])
  {
  }

  /** A list already in order is returned unchanged, equal keys included. */
  lemma {:induction false} CanonicalFixpoint(txns: seq<Txn>)
    requires Sorted(txns)
    ensures CanonicalOrder(txns) == txns
  {
    hide KeyLess;
    if txns != [] {
      CanonicalFixpoint(txns[..|txns| - 1]);
    }
  }

  predicate DistinctTxids(s: seq<Txn>) {
    forall i, j :: 0 <= i < j < |s| ==> s[i].txid != s[j].txid
  }

  lemma DistinctPrefix(s: seq<Txn>, n: nat)
    requires DistinctTxids(s) && n <= |s|
    ensures DistinctTxids(s[..n])
  {
  }

  /** Where a list of distinct txids holds a given txid. */
  lemma OneTxid(s: seq<Txn>, u: Txn, n: nat)
    requires DistinctTxids(s) && n < |s| && u in s && u.txid == s[n].txid
    ensures u == s[n]
  {
    var i :| 0 <= i < |s| && s[i] == u;
    assert i == n;
  }

  lemma OtherTxid(s: seq<Txn>, u: Txn, n: nat)
    requires DistinctTxids(s) && n < |s| && u in s && u != s[n]
    ensures u.txid != s[n].txid
  {
    var i :| 0 <= i < |s| && s[i] == u;
    assert i != n;
  }

  lemma SameLast(a: seq<Txn>, b: seq<Txn>)
    requires Sorted(a) && Sorted(b) && multiset(a) == multiset(b) && DistinctTxids(a) && a != [] && b != []
    ensures a[|a| - 1] == b[|b| - 1]
  {
    hide KeyLess, Sorted, DistinctTxids;
    var x, y := a[|a| - 1], b[|b| - 1];
    assert x in multiset(b) && y in multiset(a);
    assert x in b && y in a;
    SortedPrefix(a);
    SortedPrefix(b);
    KeyTotal(x, y);
    OneTxid(a, y, |a| - 1);
  }

  lemma DropLast(a: seq<Txn>)
    requires a != []
    ensures multiset(a[..|a| - 1]) == multiset(a) - multiset{a[|a| - 1]}
  {
    assert a == a[..|a| - 1] + [a[|a| - 1]];
  }

  lemma {:induction false} SortedUnique(a: seq<Txn>, b: seq<Txn>)
    requires Sorted(a) && Sorted(b) && multiset(a) == multiset(b) && DistinctTxids(a)
    ensures a == b
  {
    hide KeyLess, Sorted, DistinctTxids;
    assert |a| == |multiset(a)| == |multiset(b)| == |b|;
    if a != [] {
      var n := |a| - 1;
      SameLast(a, b);
      SortedPrefix(a);
      SortedPrefix(b);
      DropLast(a);
      DropLast(b);
      DistinctPrefix(a, n);
      SortedUnique(a[..n], b[..n]);
      assert a == a[..n] + [a[n]] && b == b[..n] + [b[n]];
    }
  }

  /** With distinct txids the canonical order is a function of the set of transactions. */
  lemma CanonicalOfSet(a: seq<Txn>, b: seq<Txn>)
    requires multiset(a) == multiset(b) && DistinctTxids(a)
    ensures CanonicalOrder(a) == CanonicalOrder(b)
  {
    CanonicalSorted(a);
    CanonicalSorted(b);
    PermutedDistinct(a, CanonicalOrder(a));
    SortedUnique(CanonicalOrder(a), CanonicalOrder(b));
  }

  lemma PermutedDistinct(a: seq<Txn>, b: seq<Txn>)
    requires multiset(a) == multiset(b) && DistinctTxids(a)
    ensures DistinctTxids(b)
  {
    forall i, j | 0 <= i < j < |b|
      ensures b[i].txid != b[j].txid
    {
      assert b[i] in multiset(a) && b[j] in multiset(a);
      var k :| 0 <= k < |a| && a[k] == b[i];
      OnceOnly(a, b[i]);
      Once(b, i, j);
      assert b[j] in a;
      OtherTxid(a, b[j], k);
    }
  }

  lemma Once(b: seq<Txn>, i: nat, j: nat)
    requires i < j < |b| && multiset(b)[b[i]] <= 1
    ensures b[i] != b[j]
  {
    assert b == b[..j] + b[j..];
    assert b[i] in b[..j] && b[j] in b[j..];
    assert multiset(b) == multiset(b[..j]) + multiset(b[j..]);
  }

  lemma {:induction false} OnceOnly(a: seq<Txn>, t: Txn)
    requires DistinctTxids(a)
    ensures multiset(a)[t] <= 1
  {
    if a != [] {
      var n := |a| - 1;
      assert a == a[..n] + [a[n]];
      OnceOnly(a[..n], t);
      LastIsNew(a);
      assert multiset(a) == multiset(a[..n]) + multiset{a[n]};
      assert t == a[n] ==> t !in multiset(a[..n]);
    }
  }

  lemma LastIsNew(a: seq<Txn>)
    requires a != [] && DistinctTxids(a)
    ensures a[|a| - 1] !in a[..|a| - 1]
  {
    var init := a[..|a| - 1];
    assert forall k :: 0 <= k < |init| ==> init[k] == a[k];
  }
}
