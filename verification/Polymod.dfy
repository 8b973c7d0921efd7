/** The bech32 checksum register (BIP-173, section "Bech32"; BIP-350, section "Bech32m"). */
module Polymod {
  import opened Bits
  import opened BitStreams

  type Symbol = s: nat | s < 32

  const GENERATOR: seq<nat> := [0x3B6A57B2, 0x26508E6D, 0x1EA119FA, 0x3D4233DD, 0x2A1462B3]

  /** The first `n` taps of the feedback for the five bits shifted out. */
  function Feedback(top: nat, n: nat): nat
    requires n <= 5
  {
    if n == 0 then 0
    else Xor(Feedback(top, n - 1), if Low(Shr(top, n - 1), 1) == 1 then GENERATOR[n - 1] else 0)
  }

  function Step(chk: nat, value: nat): nat {
    Xor(Xor(Shl(Low(chk, 25), 5), value), Feedback(Shr(chk, 25), 5))
  }

  function Run(chk: nat, values: seq<nat>): nat
    decreases |values|
  {
    if values == [] then chk else Run(Step(chk, values[0]), values[1..])
  }

  lemma StepDef(chk: nat, value: nat)
    ensures Step(chk, value) == Xor(Xor(Shl(Low(chk, 25), 5), value), Feedback(Shr(chk, 25), 5))
  {
  }

  lemma NoFeedback(shifted: nat, top: nat)
    ensures Xor(shifted, Feedback(top, 0)) == shifted
  {
    XorZeroRight(shifted);
  }

  /** One more conditional generator word. */
  lemma NextTap(shifted: nat, top: nat, i: nat)
    requires i < 5
    ensures Xor(Xor(shifted, Feedback(top, i)), if Low(Shr(top, i), 1) == 1 then GENERATOR[i] else 0)
      == Xor(shifted, Feedback(top, i + 1))
  {
    hide Xor, Low, Shr;
    XorAssoc(shifted, Feedback(top, i), if Low(Shr(top, i), 1) == 1 then GENERATOR[i] else 0);
  }

  /** The loop of the program, register and feedback updated in place. */
  method ComputePolymod(values: seq<nat>) returns (chk: nat)
    ensures chk == Run(1, values)
  {
    hide Step, Feedback, Xor, Low, Shl, Shr;
    chk := 1;
    for n := 0 to |values|
      invariant Run(chk, values[n..]) == Run(1, values)
    {
      var top := Shr(chk, 25);
      ghost var before := chk;
      chk := Xor(Shl(Low(chk, 25), 5), values[n]);
      ghost var shifted := chk;
      NoFeedback(shifted, top);
      for i := 0 to 5
        invariant chk == Xor(shifted, Feedback(top, i))
      {
        NextTap(shifted, top, i);
        chk := Xor(chk, if Low(Shr(top, i), 1) == 1 then GENERATOR[i] else 0);
      }
      StepDef(before, values[n]);
      assert values[n..][1..] == values[n + 1..];
    }
  }

  // ---- linearity -------------------------------------------------------------------------------

  lemma LowBit(a: nat)
    ensures Low(a, 1) == a % 2
  {
    assert Low(a / 2, 0) == 0;
  }

  lemma {:induction false} FeedbackLinear(a: nat, b: nat, n: nat)
    requires n <= 5
    ensures Feedback(Xor(a, b), n) == Xor(Feedback(a, n), Feedback(b, n))
  {
    if n > 0 {
      FeedbackLinear(a, b, n - 1);
      var i := n - 1;
      XorShr(a, b, i);
      XorHalf(Shr(a, i), Shr(b, i));
      LowBit(Shr(a, i));
      LowBit(Shr(b, i));
      LowBit(Shr(Xor(a, b), i));
      var x := if Low(Shr(a, i), 1) == 1 then GENERATOR[i] else 0;
      var y := if Low(Shr(b, i), 1) == 1 then GENERATOR[i] else 0;
      XorEqual(GENERATOR[i], GENERATOR[i]);
      XorZeroRight(x);
      XorComm(0, y);
      XorZeroRight(y);
      XorSwap(Feedback(a, i), Feedback(b, i), x, y);
    } else {
      XorEqual(0, 0);
    }
  }

  lemma StepLinear(a: nat, b: nat, u: nat, v: nat)
    ensures Step(Xor(a, b), Xor(u, v)) == Xor(Step(a, u), Step(b, v))
  {
    XorLow(a, b, 25);
    XorShl(Low(a, 25), Low(b, 25), 5);
    XorShr(a, b, 25);
    FeedbackLinear(Shr(a, 25), Shr(b, 25), 5);
    var sa, sb := Shl(Low(a, 25), 5), Shl(Low(b, 25), 5);
    XorSwap(sa, sb, u, v);
    XorSwap(Xor(sa, u), Xor(sb, v), Feedback(Shr(a, 25), 5), Feedback(Shr(b, 25), 5));
  }

  function XorSeq(u: seq<nat>, v: seq<nat>): (w: seq<nat>)
    requires |u| == |v|
    ensures |w| == |u| && forall i :: 0 <= i < |w| ==> w[i] == Xor(u[i], v[i])
  {
    if u == [] then [] else [Xor(u[0], v[0])] + XorSeq(u[1..], v[1..])
  }

  /** The register is linear over GF(2) in its start value and its input together. */
  lemma {:induction false} RunLinear(a: nat, b: nat, u: seq<nat>, v: seq<nat>)
    requires |u| == |v|
    ensures Run(Xor(a, b), XorSeq(u, v)) == Xor(Run(a, u), Run(b, v))
    decreases |u|
  {
    if u != [] {
      StepLinear(a, b, u[0], v[0]);
      RunLinear(Step(a, u[0]), Step(b, v[0]), u[1..], v[1..]);
      assert XorSeq(u, v)[1..] == XorSeq(u[1..], v[1..]);
    }
  }

  lemma {:induction false} RunAppend(c: nat, u: seq<nat>, v: seq<nat>)
    ensures Run(c, u + v) == Run(Run(c, u), v)
    decreases |u|
  {
    hide Step;
    if u == [] {
      assert u + v == v;
    } else {
      RunAppend(Step(c, u[0]), u[1..], v);
      assert (u + v)[1..] == u[1..] + v;
    }
  }

  // ---- the register never forgets --------------------------------------------------------------

  lemma FeedbackOfZero(n: nat)
    requires n <= 5
    ensures Feedback(0, n) == 0
  {
    if n > 0 {
      FeedbackOfZero(n - 1);
      ShrZero(n - 1);
      LowBit(0);
      XorEqual(0, 0);
    }
  }

  function BitAt(a: nat, j: nat): nat {
    Shr(a, j) % 2
  }

  /** Column `j` of the feedback matrix: a parity of the bits shifted out. */
  lemma {:induction false} FeedbackColumn(top: nat, n: nat, j: nat)
    requires n <= 5
    ensures BitAt(Feedback(top, n), j) == Column(top, n, j)
  {
    if n == 0 {
      ShrZero(j);
    } else {
      var i := n - 1;
      var tap := if Low(Shr(top, i), 1) == 1 then GENERATOR[i] else 0;
      FeedbackColumn(top, i, j);
      LowBit(Shr(top, i));
      ShrZero(j);
      XorShr(Feedback(top, i), tap, j);
      XorHalf(Shr(Feedback(top, i), j), Shr(tap, j));
    }
  }

  function Column(top: nat, n: nat, j: nat): (c: nat)
    requires n <= 5
    ensures c <= 1
  {
    if n == 0 then 0 else if BitAt(top, n - 1) == 1 && BitAt(GENERATOR[n - 1], j) == 1 then 1 - Column(top, n - 1, j)
    else Column(top, n - 1, j)
  }

  lemma {:induction false} LowBits(a: nat, k: nat, j: nat)
    requires Low(a, k) == 0 && j < k
    ensures BitAt(a, j) == 0
    decreases k
  {
    if j > 0 {
      LowBits(a / 2, k - 1, j - 1);
    }
  }

  /** The low five bits of the feedback alone identify the five bits shifted out. */
  lemma FeedbackInjective(top: Symbol)
    requires Low(Feedback(top, 5), 5) == 0
    ensures top == 0
  {
    forall j | 0 <= j < 5
      ensures Column(top, 5, j) == 0
    {
      FeedbackColumn(top, 5, j);
      LowBits(Feedback(top, 5), 5, j);
    }
    ColumnsAtZero(top);
  }

  lemma GeneratorLowBits()
    ensures BitAt(GENERATOR[0], 0) == 0 && BitAt(GENERATOR[1], 0) == 1 && BitAt(GENERATOR[2], 0) == 0
      && BitAt(GENERATOR[3], 0) == 1 && BitAt(GENERATOR[4], 0) == 1
    ensures BitAt(GENERATOR[0], 1) == 1 && BitAt(GENERATOR[1], 1) == 0 && BitAt(GENERATOR[2], 1) == 1
      && BitAt(GENERATOR[3], 1) == 0 && BitAt(GENERATOR[4], 1) == 1
    ensures BitAt(GENERATOR[0], 2) == 0 && BitAt(GENERATOR[1], 2) == 1 && BitAt(GENERATOR[2], 2) == 0
      && BitAt(GENERATOR[3], 2) == 1 && BitAt(GENERATOR[4], 2) == 0
    ensures BitAt(GENERATOR[0], 3) == 0 && BitAt(GENERATOR[1], 3) == 1 && BitAt(GENERATOR[2], 3) == 1
      && BitAt(GENERATOR[3], 3) == 1 && BitAt(GENERATOR[4], 3) == 0
    ensures BitAt(GENERATOR[0], 4) == 1 && BitAt(GENERATOR[1], 4) == 0 && BitAt(GENERATOR[2], 4) == 1
      && BitAt(GENERATOR[3], 4) == 1 && BitAt(GENERATOR[4], 4) == 1
  {
  }

  /** Gaussian elimination on the five low columns of the generator. */
  lemma ColumnsAtZero(top: Symbol)
    requires forall j :: 0 <= j < 5 ==> Column(top, 5, j) == 0
    ensures top == 0
  {
    GeneratorLowBits();
    var t1 := BitAt(top, 1);
    assert Column(top, 1, 2) == 0 && Column(top, 2, 2) == t1 && Column(top, 3, 2) == t1;
    assert t1 == BitAt(top, 3) by { assert Column(top, 5, 2) == Column(top, 4, 2) == 0; }
    assert Column(top, 1, 0) == 0 && Column(top, 2, 0) == t1 && Column(top, 3, 0) == t1 && Column(top, 4, 0) == 0;
    assert BitAt(top, 4) == 0 by { assert Column(top, 5, 0) == 0; }
    assert Column(top, 1, 3) == 0 && Column(top, 2, 3) == t1;
    assert Column(top, 3, 3) == if t1 == BitAt(top, 2) then 0 else 1;
    assert BitAt(top, 2) == 0 by { assert Column(top, 5, 3) == Column(top, 4, 3) == 0; }
    var t0 := BitAt(top, 0);
    assert Column(top, 1, 1) == t0 && Column(top, 2, 1) == t0 && Column(top, 3, 1) == t0 && Column(top, 4, 1) == t0;
    assert t0 == 0 by { assert Column(top, 5, 1) == 0; }
    assert Column(top, 1, 4) == 0 && Column(top, 2, 4) == 0 && Column(top, 3, 4) == 0;
    assert BitAt(top, 3) == 0 by { assert Column(top, 5, 4) == Column(top, 4, 4) == 0; }
  }

  predicate IsRegister(chk: nat) {
    Fits(chk, 30)
  }

  lemma RegisterDef(chk: nat)
    ensures IsRegister(chk) <==> Fits(chk, 30)
  {
    hide Fits;
  }

  lemma WordSize()
    ensures Pow2(30) == 0x40000000
  {
    assert Pow2(10) == 0x400;
    assert Pow2(20) == 0x100000;
  }

  lemma GeneratorFits(i: nat)
    requires i < 5
    ensures IsRegister(GENERATOR[i])
  {
    hide IsRegister, Fits;
    WordSize();
    FitsBelow(GENERATOR[i], 30);
    RegisterDef(GENERATOR[i]);
  }

  lemma {:induction false} FeedbackFits(top: nat, n: nat)
    requires n <= 5
    ensures IsRegister(Feedback(top, n))
  {
    hide IsRegister;
    ZeroIsRegister();
    if n > 0 {
      FeedbackFits(top, n - 1);
      GeneratorFits(n - 1);
      var tap := if Low(Shr(top, n - 1), 1) == 1 then GENERATOR[n - 1] else 0;
      RegisterXor(Feedback(top, n - 1), tap);
    }
  }

  lemma ZeroIsRegister()
    ensures IsRegister(0)
  {
    ShrZero(30);
  }

  lemma RegisterXor(a: nat, b: nat)
    requires IsRegister(a) && IsRegister(b)
    ensures IsRegister(Xor(a, b))
  {
    XorFits(a, b, 30);
  }

  lemma SymbolFits(v: nat)
    ensures Fits(v, 5) <==> v < 32
  {
  }

  lemma ShiftedFits(low: nat, value: nat, j: nat, k: nat)
    requires Fits(low, j) && Fits(value, k)
    ensures Fits(Xor(Shl(low, k), value), j + k)
    ensures Xor(Shl(low, k), value) == Shl(low, k) + value
  {
    ShlJoin(low, value, k);
    FitsJoin(low, value, j, k);
  }

  lemma StepFits(chk: nat, value: Symbol)
    ensures IsRegister(Step(chk, value))
  {
    hide IsRegister, Step;
    StepDef(chk, value);
    SymbolFits(value);
    HighLow(chk, 25);
    ShiftedFits(Low(chk, 25), value, 25, 5);
    RegisterDef(Xor(Shl(Low(chk, 25), 5), value));
    FeedbackFits(Shr(chk, 25), 5);
    RegisterXor(Xor(Shl(Low(chk, 25), 5), value), Feedback(Shr(chk, 25), 5));
  }

  /** A zero symbol clears the register only if it was clear. */
  lemma StepKernel(chk: nat)
    requires IsRegister(chk) && Step(chk, 0) == 0
    ensures chk == 0
  {
    hide Step, Xor, Feedback, Pow2;
    StepDef(chk, 0);
    var low, top := Low(chk, 25), Shr(chk, 25);
    XorZeroRight(Shl(low, 5));
    XorEqual(Shl(low, 5), Feedback(top, 5));
    SymbolFits(0);
    ShlJoin(low, 0, 5);
    ShrShr(chk, 25, 5);
    SymbolFits(top);
    FeedbackInjective(top);
    FeedbackOfZero(5);
    assert low == 0 by { assert Shr(0, 5) == low; ShrZero(5); }
    HighLow(chk, 25);
    ShlZero(25);
  }

  lemma StepInjective(a: nat, b: nat, value: nat)
    requires IsRegister(a) && IsRegister(b) && Step(a, value) == Step(b, value)
    ensures a == b
  {
    hide Step, IsRegister;
    StepLinear(a, b, value, value);
    XorEqual(value, value);
    XorEqual(Step(a, value), Step(b, value));
    RegisterXor(a, b);
    StepKernel(Xor(a, b));
    XorEqual(a, b);
  }

  /** Registers that differ still differ after any number of common symbols. */
  lemma {:induction false} RunInjective(a: nat, b: nat, values: seq<Symbol>)
    requires IsRegister(a) && IsRegister(b) && Run(a, values) == Run(b, values)
    ensures a == b
    decreases |values|
  {
    hide Step, IsRegister;
    if values != [] {
      StepFits(a, values[0]);
      StepFits(b, values[0]);
      RunInjective(Step(a, values[0]), Step(b, values[0]), values[1..]);
      StepInjective(a, b, values[0]);
    }
  }

  lemma {:induction false} RunFits(c: nat, values: seq<Symbol>)
    requires IsRegister(c)
    ensures IsRegister(Run(c, values))
    decreases |values|
  {
    hide Step, IsRegister;
    if values != [] {
      StepFits(c, values[0]);
      RunFits(Step(c, values[0]), values[1..]);
    }
  }

  // ---- six symbols fill the register -----------------------------------------------------------

  /** From a clear register, up to six symbols are simply written into it. */
  lemma {:induction false} RunFromZero(w: seq<Symbol>)
    requires |w| <= 6
    ensures Run(0, w) == Num(Stream(w, 5))
  {
    hide Step;
    if w != [] {
      var n := |w| - 1;
      RunFromZero(w[..n]);
      var before := Num(Stream(w[..n], 5));
      RunAppend(0, w[..n], [w[n]]);
      assert w == w[..n] + [w[n]];
      assert Run(before, [w[n]]) == Step(before, w[n]);
      BitsOfNum(Stream(w[..n], 5));
      StreamLength(w[..n], 5);
      StepWithoutFeedback(before, w[n], n * 5);
      NumAppend(Stream(w[..n], 5), BitsOf(w[n], 5));
      NumOfBits(w[n], 5);
      SymbolFits(w[n]);
      LowOfFitting(w[n], 5);
    }
  }

  lemma StepWithoutFeedback(chk: nat, value: Symbol, k: nat)
    requires k <= 25 && Fits(chk, k)
    ensures Step(chk, value) == Shl(chk, 5) + value
  {
    hide Step, Xor, Shl, Shr, Low, Feedback;
    StepDef(chk, value);
    ShrShr(chk, k, 25 - k);
    ShrZero(25 - k);
    LowOfFitting(chk, 25);
    SymbolFits(value);
    ShiftedFits(chk, value, 25, 5);
    FeedbackOfZero(5);
    XorZeroRight(Shl(chk, 5) + value);
  }
}
