/** What the six checksum symbols guarantee, for inputs of any length. */
module Checksum {
  import opened Bits
  import opened BitStreams
  import opened Polymod

  datatype Encoding = BECH32 | BECH32M

  const BECH32M_CONST: nat := 0x2BC830A3

  function Residue(spec: Encoding): nat {
    match spec
    case BECH32 => 1
    case BECH32M => BECH32M_CONST
  }

  /** The `n` symbols of a word, most significant first. */
  function SymbolsOf(word: nat, n: nat): (ds: seq<Symbol>)
    ensures |ds| == n && forall i :: 0 <= i < n ==> ds[i] == Low(Shr(word, 5 * (n - 1 - i)), 5)
  {
    hide Low, Shr;
    seq(n, i requires 0 <= i < n => SymbolAt(word, n, i))
  }

  function SymbolAt(word: nat, n: nat, i: nat): (s: Symbol)
    requires i < n
    ensures s == Low(Shr(word, 5 * (n - 1 - i)), 5)
  {
    hide Low, Shr;
    LowIsSymbol(Shr(word, 5 * (n - 1 - i)));
    Low(Shr(word, 5 * (n - 1 - i)), 5)
  }

  lemma LowIsSymbol(word: nat)
    ensures Low(word, 5) < 32
  {
  }

  function Zeros(n: nat): (ds: seq<Symbol>)
    ensures |ds| == n && forall i :: 0 <= i < n ==> ds[i] == 0
  {
    seq(n, _ => 0)
  }

  /** `values` is the expanded prefix followed by the data symbols. */
  function CreateChecksum(values: seq<Symbol>, spec: Encoding): (ds: seq<Symbol>)
    ensures |ds| == 6
  {
    SymbolsOf(Xor(Run(1, values + Zeros(6)), Residue(spec)), 6)
  }

  // ---- creation is correct, and the only way to satisfy verification ---------------------------

  lemma {:induction false} StreamOfSymbols(word: nat, n: nat)
    ensures Stream(SymbolsOf(word, n), 5) == BitsOf(word, 5 * n)
    decreases n
  {
    hide Low, Shr;
    if n == 0 {
      assert BitsOf(word, 5 * n) == [];
    } else {
      var ds := SymbolsOf(word, n);
      ShrNone(word, 5 * (n - 1 - (n - 1)));
      assert ds[n - 1] == Low(word, 5);
      StreamOfSymbols(Shr(word, 5), n - 1);
      forall i | 0 <= i < n - 1
        ensures ds[i] == SymbolsOf(Shr(word, 5), n - 1)[i]
      {
        ShrShr(word, 5, 5 * (n - 2 - i));
      }
      assert ds[..n - 1] == SymbolsOf(Shr(word, 5), n - 1);
      BitsSplit(word, 5 * (n - 1), 5);
      BitsOfLow(word, 5, 5);
    }
  }

  lemma ShrNone(a: nat, k: nat)
    requires k == 0
    ensures Shr(a, k) == a
  {
  }

  lemma {:induction false} XorSeqZero(c: seq<nat>)
    ensures XorSeq(Zeros(|c|), c) == c
  {
    forall i | 0 <= i < |c|
      ensures Xor(0, c[i]) == c[i]
    {
      XorComm(0, c[i]);
      XorZeroRight(c[i]);
    }
  }

  /** Appending six symbols adds their word to the register left by six zeros. */
  lemma RunOfSuffix(values: seq<Symbol>, c: seq<Symbol>)
    requires |c| == 6
    ensures Run(1, values + c) == Xor(Run(1, values + Zeros(6)), Num(Stream(c, 5)))
  {
    hide Step;
    var s := Run(1, values);
    RunAppend(1, values, c);
    RunAppend(1, values, Zeros(6));
    XorZeroRight(s);
    XorSeqZero(c);
    RunLinear(s, 0, Zeros(6), c);
    RunFromZero(c);
  }

  /** Existence and uniqueness: exactly one suffix of six symbols gives a wanted residue. */
  lemma ChecksumUnique(values: seq<Symbol>, c: seq<Symbol>, spec: Encoding)
    requires |c| == 6
    ensures Run(1, values + c) == Residue(spec) <==> c == CreateChecksum(values, spec)
  {
    hide Run, Stream, Xor;
    var q := Run(1, values + Zeros(6));
    var word := Xor(q, Residue(spec));
    var made := CreateChecksum(values, spec);
    assert Num(Stream(made, 5)) == word by {
      WordFits(values, spec);
      StreamOfSymbols(word, 6);
      NumOfBits(word, 30);
      LowOfFitting(word, 30);
    }
    RunOfSuffix(values, made);
    XorCancel(q, Residue(spec));
    RunOfSuffix(values, c);
    if Run(1, values + c) == Residue(spec) {
      XorCancel(q, Num(Stream(c, 5)));
      StreamLength(c, 5);
      StreamLength(made, 5);
      BitsOfNum(Stream(c, 5));
      BitsOfNum(Stream(made, 5));
      assert Stream(c, 5) == Stream(made, 5);
      forall i | 0 <= i < 6
        ensures Fits(c[i], 5) && Fits(made[i], 5)
      {
        SymbolFits(c[i]);
        SymbolFits(made[i]);
      }
      StreamInjective(c, made, 5);
    }
  }

  lemma ResidueFits(spec: Encoding)
    ensures IsRegister(Residue(spec))
  {
    hide IsRegister, Fits;
    WordSize();
    FitsBelow(Residue(spec), 30);
    RegisterDef(Residue(spec));
  }

  lemma WordFits(values: seq<Symbol>, spec: Encoding)
    ensures Fits(Xor(Run(1, values + Zeros(6)), Residue(spec)), 30)
  {
    hide IsRegister, Fits;
    OneIsRegister();
    RunFits(1, values + Zeros(6));
    ResidueFits(spec);
    RegisterXor(Run(1, values + Zeros(6)), Residue(spec));
    RegisterDef(Xor(Run(1, values + Zeros(6)), Residue(spec)));
  }

  lemma OneIsRegister()
    ensures IsRegister(1)
  {
    hide IsRegister, Fits;
    WordSize();
    FitsBelow(1, 30);
    RegisterDef(1);
  }

  // ---- burst detection -------------------------------------------------------------------------

  /** `u` and `v` agree everywhere outside six consecutive positions starting at `at`. */
  predicate DifferInWindow(u: seq<Symbol>, v: seq<Symbol>, at: nat) {
    |u| == |v| && forall i :: 0 <= i < |u| && !(at <= i < at + 6) ==> u[i] == v[i]
  }

  /** Two short words that leave the register in the same state are equal. */
  lemma WindowInjective(c: nat, u: seq<Symbol>, v: seq<Symbol>)
    requires |u| == |v| <= 6 && Run(c, u) == Run(c, v)
    ensures u == v
  {
    hide Run;
    var e := SymbolDifference(u, v);
    RunLinear(c, c, u, v);
    XorEqual(c, c);
    XorEqual(Run(c, u), Run(c, v));
    RunFromZero(e);
    StreamLength(e, 5);
    BitsOfNum(Stream(e, 5));
    ZeroStream(|u|);
    forall i | 0 <= i < |u|
      ensures Fits(e[i], 5) && Fits(Zeros(|u|)[i], 5)
    {
      SymbolFits(e[i]);
      SymbolFits(0);
    }
    StreamInjective(e, Zeros(|u|), 5);
    forall i | 0 <= i < |u|
      ensures u[i] == v[i]
    {
      XorEqual(u[i], v[i]);
    }
  }

  function SymbolXor(a: Symbol, b: Symbol): Symbol {
    SymbolXorFits(a, b);
    Xor(a, b)
  }

  lemma SymbolXorFits(a: Symbol, b: Symbol)
    ensures Xor(a, b) < 32
  {
    SymbolFits(a);
    SymbolFits(b);
    XorFits(a, b, 5);
    SymbolFits(Xor(a, b));
  }

  function SymbolDifference(u: seq<Symbol>, v: seq<Symbol>): (e: seq<Symbol>)
    requires |u| == |v|
    ensures e == XorSeq(u, v)
  {
    seq(|u|, i requires 0 <= i < |u| => SymbolXor(u[i], v[i]))
  }

  lemma {:induction false} ZeroStream(n: nat)
    ensures Stream(Zeros(n), 5) == BitsOf(0, n * 5)
  {
    if n > 0 {
      ZeroStream(n - 1);
      assert Zeros(n)[..n - 1] == Zeros(n - 1);
      ShrZero(5);
      BitsSplit(0, (n - 1) * 5, 5);
    }
  }

  /** A burst of at most six consecutive symbols always changes the register, at any length. */
  lemma BurstDetected(c: nat, u: seq<Symbol>, v: seq<Symbol>, at: nat)
    requires IsRegister(c) && DifferInWindow(u, v, at)
    ensures Run(c, u) == Run(c, v) <==> u == v
  {
    hide Run, IsRegister;
    if Run(c, u) == Run(c, v) {
      var n := |u|;
      var lo := if at < n then at else n;
      var hi := if at + 6 < n then at + 6 else n;
      var before := Run(c, u[..lo]);
      assert u[..lo] == v[..lo] && u[hi..] == v[hi..];
      RunFits(c, u[..lo]);
      RunFits(before, u[lo..hi]);
      RunFits(before, v[lo..hi]);
      ThreeParts(c, u, lo, hi);
      ThreeParts(c, v, lo, hi);
      RunInjective(Run(before, u[lo..hi]), Run(before, v[lo..hi]), u[hi..]);
      WindowInjective(before, u[lo..hi], v[lo..hi]);
      assert u == u[..lo] + u[lo..hi] + u[hi..] && v == v[..lo] + v[lo..hi] + v[hi..];
    }
  }

  lemma ThreeParts(c: nat, u: seq<Symbol>, lo: nat, hi: nat)
    requires lo <= hi <= |u|
    ensures Run(c, u) == Run(Run(Run(c, u[..lo]), u[lo..hi]), u[hi..])
  {
    hide Run;
    RunAppend(c, u[..lo], u[lo..]);
    RunAppend(Run(c, u[..lo]), u[lo..hi], u[hi..]);
    assert u == u[..lo] + u[lo..] && u[lo..] == u[lo..hi] + u[hi..];
  }
}
