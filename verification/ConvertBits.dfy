/** Regrouping a bit string: from `f`-bit values to `t`-bit values and back. */
module ConvertBits {
  import opened Bits
  import opened BitStreams
  import opened Prelude

  /** The full groups of `t` bits, in order. */
  function Groups(bs: seq<bool>, t: nat): seq<nat>
    requires t >= 1
  {
    if |bs| < t then [] else [Num(bs[..t])] + Groups(bs[t..], t)
  }

  /** What is left after the last full group. */
  function Rest(bs: seq<bool>, t: nat): (r: seq<bool>)
    requires t >= 1
    ensures |r| < t
  {
    if |bs| < t then bs else Rest(bs[t..], t)
  }

  predicate AllFit(data: seq<int>, f: nat) {
    forall i :: 0 <= i < |data| ==> data[i] >= 0 && Fits(data[i], f)
  }

  /** Reference definition: regroup the whole bit string, pad or check the remainder. */
  function Convert(data: seq<int>, f: nat, t: nat, pad: bool): Option<seq<nat>>
    requires f >= 1 && t >= 1
  {
    if !AllFit(data, f) then None
    else
      var bs := Stream(data, f);
      var out, rest := Groups(bs, t), Rest(bs, t);
      if pad then Some(if rest == [] then out else out + [Num(rest + BitsOf(0, t - |rest|))])
      else if |rest| >= f || Num(rest) != 0 then None
      else Some(out)
  }

  // ---- the loop --------------------------------------------------------------------------------

  /** The accumulator loop of the program, with its masked accumulator. */
  method ConvertInPlace(data: seq<int>, frombits: nat, tobits: nat, pad: bool) returns (r: Option<seq<nat>>)
    requires frombits >= 1 && tobits >= 1
    ensures r == Convert(data, frombits, tobits, pad)
  {
    hide Num, Stream, Groups, Rest, Low, Shr, Shl, Or, BitsOf, Convert;
    var acc: nat := 0;
    var bits: nat := 0;
    var ret: seq<nat> := [];
    NothingPending(frombits, tobits);
    for i := 0 to |data|
      invariant AllFit(data[..i], frombits) && AllFit(ret, tobits) && bits < tobits
      invariant Stream(data[..i], frombits) == Stream(ret, tobits) + BitsOf(acc, bits)
    {
      var value := data[i];
      if value < 0 || Shr(value, frombits) != 0 {
        Misfit(data, i, frombits, tobits, pad);
        return None;
      }
      assert data[..i + 1] == data[..i] + [value];
      AbsorbStep(data[..i], ret, acc, bits, value, frombits, tobits);
      acc := Low(Or(Shl(acc, frombits), value), frombits + tobits - 1);
      bits := bits + frombits;
      while bits >= tobits
        invariant AllFit(ret, tobits)
        invariant Stream(data[..i + 1], frombits) == Stream(ret, tobits) + BitsOf(acc, bits)
      {
        bits := bits - tobits;
        EmitStep(ret, acc, bits, tobits);
        ret := ret + [Low(Shr(acc, bits), tobits)];
      }
    }
    assert data[..|data|] == data;
    Regrouped(data, ret, acc, bits, frombits, tobits, pad);
    if pad {
      if bits != 0 {
        ret := ret + [Low(Shl(acc, tobits - bits), tobits)];
      }
    } else if bits >= frombits || Low(Shl(acc, tobits - bits), tobits) != 0 {
      return None;
    }
    return Some(ret);
  }

  lemma NothingPending(f: nat, t: nat)
    ensures AllFit([], f) && Stream([], f) == Stream([], t) + BitsOf(0, 0)
  {
    NothingIsZero(f);
    NothingIsZero(t);
  }

  lemma Misfit(data: seq<int>, i: nat, f: nat, t: nat, pad: bool)
    requires f >= 1 && t >= 1 && i < |data| && (data[i] < 0 || !Fits(data[i], f))
    ensures Convert(data, f, t, pad) == None
  {
    hide Fits;
  }

  /** The pending bits grow by those of the new value. */
  lemma AbsorbStep(seen: seq<nat>, ret: seq<nat>, acc: nat, bits: nat, value: nat, f: nat, t: nat)
    requires f >= 1 && t >= 1 && Fits(value, f) && AllFit(seen, f) && bits < t
    requires Stream(seen, f) == Stream(ret, t) + BitsOf(acc, bits)
    ensures AllFit(seen + [value], f)
    ensures Stream(seen + [value], f)
      == Stream(ret, t) + BitsOf(Low(Or(Shl(acc, f), value), f + t - 1), bits + f)
  {
    hide Fits, Stream, BitsOf, Low, Or, Shl;
    StreamSnoc(seen, value, f);
    Absorb(acc, bits, value, f, t);
    Reassociate(Stream(ret, t), BitsOf(acc, bits), BitsOf(value, f));
  }

  /** Emitting a group moves its bits from the accumulator to the result. */
  lemma EmitStep(ret: seq<nat>, acc: nat, bits: nat, t: nat)
    requires AllFit(ret, t)
    ensures AllFit(ret + [Low(Shr(acc, bits), t)], t)
    ensures Stream(ret + [Low(Shr(acc, bits), t)], t) + BitsOf(acc, bits) == Stream(ret, t) + BitsOf(acc, bits + t)
  {
    hide Fits, Stream, BitsOf, Low, Shr;
    var group := Low(Shr(acc, bits), t);
    Emit(acc, bits, t);
    StreamSnoc(ret, group, t);
    Reassociate(Stream(ret, t), BitsOf(group, t), BitsOf(acc, bits));
  }

  /** What the pending bits decide once all values are read. */
  lemma Regrouped(data: seq<int>, ret: seq<nat>, acc: nat, bits: nat, f: nat, t: nat, pad: bool)
    requires f >= 1 && t >= 1 && bits < t && AllFit(data, f) && AllFit(ret, t)
    requires Stream(data, f) == Stream(ret, t) + BitsOf(acc, bits)
    ensures var group := Low(Shl(acc, t - bits), t);
      Convert(data, f, t, pad)
      == if pad then Some(if bits == 0 then ret else ret + [group])
         else if bits >= f || group != 0 then None else Some(ret)
  {
    hide Num, BitsOf, Stream, Groups, Rest, Low, Shl, AllFit;
    GroupsOfStream(ret, BitsOf(acc, bits), t);
    PaddedGroup(acc, bits, t);
  }

  /** Masking the accumulator to `f + t - 1` bits never loses a pending bit. */
  lemma Absorb(acc: nat, bits: nat, value: nat, f: nat, t: nat)
    requires Fits(value, f) && bits < t
    ensures BitsOf(Low(Or(Shl(acc, f), value), f + t - 1), bits + f) == BitsOf(acc, bits) + BitsOf(value, f)
  {
    var joined := Or(Shl(acc, f), value);
    ShlJoin(acc, value, f);
    BitsOfLow(joined, f + t - 1, bits + f);
    BitsSplit(joined, bits, f);
    BitsOfLow(joined, f, f);
  }

  lemma Emit(acc: nat, bits: nat, t: nat)
    ensures BitsOf(acc, bits + t) == BitsOf(Low(Shr(acc, bits), t), t) + BitsOf(acc, bits)
    ensures Fits(Low(Shr(acc, bits), t), t)
  {
    BitsSplit(acc, t, bits);
    BitsOfLow(Shr(acc, bits), t, t);
    HighLow(Shr(acc, bits), t);
  }

  lemma PaddedGroup(acc: nat, bits: nat, t: nat)
    requires bits < t
    ensures Low(Shl(acc, t - bits), t) == Num(BitsOf(acc, bits) + BitsOf(0, t - bits))
    ensures Low(Shl(acc, t - bits), t) == 0 <==> Num(BitsOf(acc, bits)) == 0
  {
    hide Num, BitsOf, Low, Shl;
    var k := t - bits;
    ShrZero(k);
    ShlJoin(acc, 0, k);
    BitsSplit(Shl(acc, k), bits, k);
    BitsOfLow(Shl(acc, k), k, k);
    NumOfBits(Shl(acc, k), t);
    NumAppend(BitsOf(acc, bits), BitsOf(0, k));
    NumOfBits(0, k);
    LowOfFitting(0, k);
    ShlPositive(Num(BitsOf(acc, bits)), k);
  }

  lemma {:induction false} ShlPositive(a: nat, k: nat)
    ensures Shl(a, k) == 0 <==> a == 0
  {
    if k > 0 {
      ShlPositive(a, k - 1);
    }
  }

  // ---- groups and streams are inverse ----------------------------------------------------------

  lemma {:induction false} StreamCons(d: nat, ds: seq<nat>, t: nat)
    ensures Stream([d] + ds, t) == BitsOf(d, t) + Stream(ds, t)
  {
    if ds == [] {
      assert [d] + ds == [] + [d];
      StreamSnoc([], d, t);
    } else {
      var n := |ds| - 1;
      StreamCons(d, ds[..n], t);
      assert [d] + ds == ([d] + ds[..n]) + [ds[n]] && ds == ds[..n] + [ds[n]];
      StreamSnoc([d] + ds[..n], ds[n], t);
      StreamSnoc(ds[..n], ds[n], t);
    }
  }

  lemma GroupsStep(first: seq<bool>, bs: seq<bool>, t: nat)
    requires t >= 1 && |first| == t
    ensures Groups(first + bs, t) == [Num(first)] + Groups(bs, t) && Rest(first + bs, t) == Rest(bs, t)
  {
    hide Num;
    assert (first + bs)[..t] == first && (first + bs)[t..] == bs;
  }

  lemma Reassociate(a: seq<bool>, b: seq<bool>, c: seq<bool>)
    ensures (a + b) + c == a + (b + c)
  {
  }

  lemma GroupsOfRest(rest: seq<bool>, t: nat)
    requires |rest| < t
    ensures Groups(Stream([], t) + rest, t) == [] && Rest(Stream([], t) + rest, t) == rest
  {
    assert Stream([], t) + rest == rest;
  }

  lemma {:induction false} GroupsOfStream(ds: seq<nat>, rest: seq<bool>, t: nat)
    requires t >= 1 && AllFit(ds, t) && |rest| < t
    ensures Groups(Stream(ds, t) + rest, t) == ds && Rest(Stream(ds, t) + rest, t) == rest
  {
    hide Num, BitsOf, Stream, Low, Fits, Groups, Rest;
    if ds == [] {
      GroupsOfRest(rest, t);
    } else {
      assert ds == [ds[0]] + ds[1..];
      StreamCons(ds[0], ds[1..], t);
      Reassociate(BitsOf(ds[0], t), Stream(ds[1..], t), rest);
      NumOfBits(ds[0], t);
      LowOfFitting(ds[0], t);
      GroupsOfStream(ds[1..], rest, t);
      GroupsStep(BitsOf(ds[0], t), Stream(ds[1..], t) + rest, t);
    }
  }

  lemma NoGroup(bs: seq<bool>, t: nat)
    requires |bs| < t
    ensures bs == Stream(Groups(bs, t), t) + Rest(bs, t) && AllFit(Groups(bs, t), t)
  {
  }

  lemma AllFitCons(d: nat, ds: seq<nat>, t: nat)
    requires Fits(d, t) && AllFit(ds, t)
    ensures AllFit([d] + ds, t)
  {
    hide Fits;
  }

  lemma {:induction false} StreamOfGroups(bs: seq<bool>, t: nat)
    requires t >= 1
    ensures bs == Stream(Groups(bs, t), t) + Rest(bs, t) && AllFit(Groups(bs, t), t)
    decreases |bs|
  {
    hide Num, BitsOf, Stream, Groups, Rest, AllFit, Fits;
    if |bs| < t {
      NoGroup(bs, t);
    } else {
      var first, more := bs[..t], bs[t..];
      var ds := Groups(more, t);
      assert bs == first + more;
      StreamOfGroups(more, t);
      GroupsStep(first, more, t);
      StreamCons(Num(first), ds, t);
      BitsOfNum(first);
      AllFitCons(Num(first), ds, t);
      Reassociate(first, Stream(ds, t), Rest(more, t));
    }
  }

  // ---- round trips -----------------------------------------------------------------------------

  /** Padding out of wide values and back loses nothing. */
  lemma ConvertThenBack(data: seq<int>, f: nat, t: nat)
    requires 1 <= t <= f && AllFit(data, f)
    ensures var there := Convert(data, f, t, true);
      there.Some? && Convert(there.value, t, f, false) == Some(data)
  {
    hide Num, BitsOf, Stream, Groups, Rest, Low, Shr;
    var bs := Stream(data, f);
    var out, rest := Groups(bs, t), Rest(bs, t);
    StreamOfGroups(bs, t);
    NothingIsZero(f);
    if rest == [] {
      assert Stream(out, t) == Stream(data, f) + [];
      GroupsOfStream(data, [], f);
    } else {
      var zeros := BitsOf(0, t - |rest|);
      var last := Num(rest + zeros);
      BitsOfNum(rest + zeros);
      StreamSnoc(out, last, t);
      assert Stream(out + [last], t) == Stream(data, f) + zeros;
      GroupsOfStream(data, zeros, f);
      NumOfBits(0, |zeros|);
      ShrZero(|zeros|);
      LowOfFitting(0, |zeros|);
    }
  }

  /** A strict decode into wider values is undone exactly by the padded encode. */
  lemma BackThenConvert(data: seq<int>, f: nat, t: nat)
    requires 1 <= f <= t && Convert(data, f, t, false).Some?
    ensures Convert(Convert(data, f, t, false).value, t, f, true) == Some(data)
  {
    hide Num, BitsOf, Stream, Groups, Rest, Low, Shr;
    var bs := Stream(data, f);
    var out, rest := Groups(bs, t), Rest(bs, t);
    StreamOfGroups(bs, t);
    NothingIsZero(f);
    if rest == [] {
      assert Stream(out, t) == Stream(data, f) + [];
      GroupsOfStream(data, [], f);
    } else {
      var n := |data| - 1;
      var last := data[n];
      StreamSnoc(data[..n], last, f);
      assert data == data[..n] + [last];
      var k := f - |rest|;
      var kept := BitsOf(last, f)[..k];
      assert BitsOf(last, f) == kept + rest by {
        assert bs[|bs| - |rest|..] == rest;
        assert BitsOf(last, f)[k..] == bs[|bs| - |rest|..];
      }
      assert Stream(out, t) == Stream(data[..n], f) + kept by {
        assert bs[..|bs| - |rest|] == Stream(out, t);
      }
      GroupsOfStream(data[..n], kept, f);
      BitsOfNum(rest);
      assert rest == BitsOf(0, |rest|);
      NumOfBits(last, f);
      LowOfFitting(last, f);
    }
  }

  // ---- shape of the result ---------------------------------------------------------------------

  lemma ConvertFits(data: seq<int>, f: nat, t: nat, pad: bool)
    requires f >= 1 && t >= 1 && Convert(data, f, t, pad).Some?
    ensures AllFit(Convert(data, f, t, pad).value, t)
  {
    hide Num, BitsOf, Stream, Groups, Rest, Low, Shr;
    var bs := Stream(data, f);
    var rest := Rest(bs, t);
    StreamOfGroups(bs, t);
    BitsOfNum(rest + BitsOf(0, t - |rest|));
  }

  lemma {:induction false} GroupsLength(bs: seq<bool>, t: nat)
    requires t >= 1
    ensures |bs| == |Groups(bs, t)| * t + |Rest(bs, t)|
    decreases |bs|
  {
    hide Num;
    if |bs| >= t {
      GroupsLength(bs[t..], t);
      var n := |Groups(bs[t..], t)|;
      assert (n + 1) * t == n * t + t;
    }
  }
}
