/** A sequence of `f`-bit values read as one long bit string. */
module BitStreams {
  import opened Bits

  function Stream(ds: seq<nat>, f: nat): seq<bool> {
    if ds == [] then [] else Stream(ds[..|ds| - 1], f) + BitsOf(ds[|ds| - 1], f)
  }

  lemma {:induction false} StreamLength(ds: seq<nat>, f: nat)
    ensures |Stream(ds, f)| == |ds| * f
  {
    if ds != [] {
      StreamLength(ds[..|ds| - 1], f);
      assert (|ds| - 1) * f + f == |ds| * f;
    }
  }

  lemma NothingIsZero(f: nat)
    ensures Stream([], f) == [] && Num([]) == 0
  {
  }

  lemma StreamSnoc(ds: seq<nat>, d: nat, f: nat)
    ensures Stream(ds + [d], f) == Stream(ds, f) + BitsOf(d, f)
  {
    assert (ds + [d])[..|ds|] == ds;
  }

  lemma {:induction false} NumAppend(a: seq<bool>, b: seq<bool>)
    ensures Num(a + b) == Shl(Num(a), |b|) + Num(b)
  {
    if b == [] {
      assert a + b == a;
    } else {
      var n := |b| - 1;
      NumAppend(a, b[..n]);
      assert (a + b)[..|a + b| - 1] == a + b[..n];
    }
  }

  /** Same length and same bits: same values. */
  lemma {:induction false} StreamInjective(a: seq<nat>, b: seq<nat>, f: nat)
    requires |a| == |b|
    requires forall i :: 0 <= i < |a| ==> Fits(a[i], f) && Fits(b[i], f)
    requires Stream(a, f) == Stream(b, f)
    ensures a == b
  {
    if a != [] {
      var n := |a| - 1;
      var x, y := Stream(a[..n], f), Stream(b[..n], f);
      var p, q := BitsOf(a[n], f), BitsOf(b[n], f);
      StreamLength(a[..n], f);
      StreamLength(b[..n], f);
      assert x == (x + p)[..|x|] == (y + q)[..|y|] == y;
      assert p == (x + p)[|x|..] == (y + q)[|y|..] == q;
      StreamInjective(a[..n], b[..n], f);
      BitsInjective(a[n], b[n], f);
      assert a == a[..n] + [a[n]] && b == b[..n] + [b[n]];
    }
  }
}
