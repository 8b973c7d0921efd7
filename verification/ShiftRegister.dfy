/** The checksum register as six symbols, most significant first: one step drops the leading symbol,
    takes in a new one at the end, and adds a word for each bit that was dropped. */
module ShiftRegister {
  import opened Bits
  import opened Polymod
  import opened Checksum

  function Join(word: nat, cell: nat): nat {
    32 * word + cell
  }

  function JoinAll(a: nat, b: nat, c: nat, d: nat, e: nat, f: nat): nat {
    Join(Join(Join(Join(Join(a, b), c), d), e), f)
  }

  /** Five bits. */
  type Cell = bv5

  function Value(x: Cell): Symbol {
    x as nat
  }

  datatype Cells = Cells(a: Cell, b: Cell, c: Cell, d: Cell, e: Cell, f: Cell)
  {
    function Word(): nat {
      JoinAll(Value(a), Value(b), Value(c), Value(d), Value(e), Value(f))
    }
  }

  function AddCells(s: Cells, t: Cells): Cells {
    Cells(s.a ^ t.a, s.b ^ t.b, s.c ^ t.c, s.d ^ t.d, s.e ^ t.e, s.f ^ t.f)
  }

  lemma Halved(x: Cell)
    ensures (x as nat) / 2 == (x >> 1) as nat && (x as nat) % 2 == (x & 1) as nat
  {
  }

  lemma XorHalved(x: Cell, y: Cell)
    ensures Xor(x as nat, y as nat) == ((x ^ y) & 1) as nat + 2 * Xor((x >> 1) as nat, (y >> 1) as nat)
  {
    hide Xor;
    Halved(x);
    Halved(y);
    XorHalf(x as nat, y as nat);
    assert ((x ^ y) & 1) == if x & 1 == y & 1 then 0 else 1;
  }

  lemma {:induction false} CellXorFrom(x: Cell, y: Cell, n: nat)
    requires n <= 5 && x as nat < Pow2(n) && y as nat < Pow2(n)
    ensures (x ^ y) as nat == Xor(x as nat, y as nat)
  {
    hide Xor;
    if n == 0 {
      XorZeroRight(0);
    } else {
      XorHalved(x, y);
      Halved(x);
      Halved(y);
      Halved(x ^ y);
      CellXorFrom(x >> 1, y >> 1, n - 1);
      assert (x ^ y) >> 1 == (x >> 1) ^ (y >> 1);
    }
  }

  /** Exclusive or of two cells. */
  lemma CellXor(x: Cell, y: Cell)
    ensures Value(x ^ y) == Xor(Value(x), Value(y))
  {
    hide Xor;
    assert Pow2(5) == 32;
    CellXorFrom(x, y, 5);
  }

  function AddIf(bit: bool, s: Cells, word: Cells): Cells {
    if bit then AddCells(s, word) else s
  }

  function Tap(i: nat): Cells
    requires i < 5
  {
    if i == 0 then Cells(29, 22, 20, 21, 29, 18)
    else if i == 1 then Cells(19, 5, 1, 3, 19, 13)
    else if i == 2 then Cells(15, 10, 2, 6, 15, 26)
    else if i == 3 then Cells(30, 20, 4, 12, 30, 29)
    else Cells(21, 1, 8, 24, 21, 19)
  }

  function Shift(s: Cells, v: Cell): Cells {
    var s0 := AddIf(s.a & 1 != 0, Cells(s.b, s.c, s.d, s.e, s.f, v), Tap(0));
    var s1 := AddIf(s.a & 2 != 0, s0, Tap(1));
    var s2 := AddIf(s.a & 4 != 0, s1, Tap(2));
    var s3 := AddIf(s.a & 8 != 0, s2, Tap(3));
    AddIf(s.a & 16 != 0, s3, Tap(4))
  }

  // ---- it is the register ----------------------------------------------------------------------

  lemma ShlFive(a: nat)
    ensures Shl(a, 5) == 32 * a
  {
    assert Shl(a, 1) == 2 * a;
    assert Shl(a, 2) == 4 * a;
    assert Shl(a, 3) == 8 * a;
    assert Shl(a, 4) == 16 * a;
  }

  lemma JoinIs(word: nat, cell: Symbol)
    ensures Join(word, cell) == Xor(Shl(word, 5), cell)
  {
    hide Xor, Shl;
    ShlFive(word);
    SymbolFits(cell);
    ShlJoin(word, cell, 5);
  }

  /** Words are added symbol by symbol. */
  lemma XorJoin(a1: nat, a0: Symbol, b1: nat, b0: Symbol)
    ensures Xor(Join(a1, a0), Join(b1, b0)) == Join(Xor(a1, b1), Xor(a0, b0))
  {
    hide Xor, Shl, Join;
    JoinIs(a1, a0);
    JoinIs(b1, b0);
    XorSwap(Shl(a1, 5), a0, Shl(b1, 5), b0);
    XorShl(a1, b1, 5);
    SymbolXorFits(a0, b0);
    JoinIs(Xor(a1, b1), Xor(a0, b0));
  }

  lemma XorJoinAll(a: Symbol, b: Symbol, c: Symbol, d: Symbol, e: Symbol, f: Symbol,
                   p: Symbol, q: Symbol, r: Symbol, s: Symbol, t: Symbol, u: Symbol)
    ensures Xor(JoinAll(a, b, c, d, e, f), JoinAll(p, q, r, s, t, u))
      == JoinAll(Xor(a, p), Xor(b, q), Xor(c, r), Xor(d, s), Xor(e, t), Xor(f, u))
  {
    hide Xor, Join;
    var x1, y1 := Join(a, b), Join(p, q);
    var x2, y2 := Join(x1, c), Join(y1, r);
    var x3, y3 := Join(x2, d), Join(y2, s);
    var x4, y4 := Join(x3, e), Join(y3, t);
    XorJoin(x4, f, y4, u);
    XorJoin(x3, e, y3, t);
    XorJoin(x2, d, y2, s);
    XorJoin(x1, c, y1, r);
    XorJoin(a, b, p, q);
  }

  lemma WordXor(s: Cells, t: Cells)
    ensures Xor(s.Word(), t.Word()) == AddCells(s, t).Word()
  {
    hide Xor, JoinAll, Value;
    XorJoinAll(Value(s.a), Value(s.b), Value(s.c), Value(s.d), Value(s.e), Value(s.f),
               Value(t.a), Value(t.b), Value(t.c), Value(t.d), Value(t.e), Value(t.f));
    CellXor(s.a, t.a);
    CellXor(s.b, t.b);
    CellXor(s.c, t.c);
    CellXor(s.d, t.d);
    CellXor(s.e, t.e);
    CellXor(s.f, t.f);
  }

  lemma {:induction false} LowSplit(x: nat, k: nat, n: nat)
    ensures Low(x, k + n) == Shl(Low(Shr(x, n), k), n) + Low(x, n)
    decreases n
  {
    if n > 0 {
      LowSplit(x / 2, k, n - 1);
    }
  }

  lemma LowFive(a: nat, b: Symbol, k: nat)
    ensures Low(Join(a, b), k + 5) == Join(Low(a, k), b) && Shr(Join(a, b), k + 5) == Shr(a, k)
  {
    hide Low, Shr, Shl;
    SymbolFits(b);
    ShlFive(a);
    ShlJoin(a, b, 5);
    ShrShr(Join(a, b), 5, k);
    LowSplit(Join(a, b), k, 5);
    ShlFive(Low(a, k));
  }

  lemma LowNothing(a: nat)
    ensures Low(a, 0) == 0 && Shr(a, 0) == a
  {
  }

  lemma ValueOfZero()
    ensures Value(0) == 0
  {
  }

  lemma DropLeading(s: Cells)
    ensures Low(s.Word(), 25) == s.(a := 0).Word() && Shr(s.Word(), 25) == Value(s.a)
  {
    hide Low, Shr, Join, Value;
    var s1 := Join(Value(s.a), Value(s.b));
    var s2 := Join(s1, Value(s.c));
    var s3 := Join(s2, Value(s.d));
    var s4 := Join(s3, Value(s.e));
    LowFive(s4, Value(s.f), 20);
    LowFive(s3, Value(s.e), 15);
    LowFive(s2, Value(s.d), 10);
    LowFive(s1, Value(s.c), 5);
    LowFive(Value(s.a), Value(s.b), 0);
    LowNothing(Value(s.a));
    ValueOfZero();
  }

  lemma TapIs(i: nat)
    requires i < 5
    ensures Tap(i).Word() == GENERATOR[i]
  {
  }

  /** One conditional word. */
  lemma TapStep(s: Cells, word: nat, top: nat, i: nat)
    requires i < 5 && s.Word() == Xor(word, Feedback(top, i))
    ensures AddIf(Shr(top, i) % 2 == 1, s, Tap(i)).Word() == Xor(word, Feedback(top, i + 1))
  {
    hide Xor, Shr, AddCells, Tap, Cells.Word;
    NextTap(word, top, i);
    LowBit(Shr(top, i));
    TapIs(i);
    WordXor(s, Tap(i));
    XorZeroRight(s.Word());
  }

  /** The five bits of a cell. */
  lemma CellBits(x: Cell)
    ensures (Shr(Value(x), 0) % 2 == 1 <==> x & 1 != 0) && (Shr(Value(x), 1) % 2 == 1 <==> x & 2 != 0)
    ensures (Shr(Value(x), 2) % 2 == 1 <==> x & 4 != 0) && (Shr(Value(x), 3) % 2 == 1 <==> x & 8 != 0)
    ensures Shr(Value(x), 4) % 2 == 1 <==> x & 16 != 0
  {
    Halved(x);
    Halved(x >> 1);
    Halved(x >> 2);
    Halved(x >> 3);
    Halved(x >> 4);
    assert x >> 1 >> 1 == x >> 2 && x >> 2 >> 1 == x >> 3 && x >> 3 >> 1 == x >> 4;
    assert Shr(Value(x), 1) == Value(x >> 1);
    assert Shr(Value(x >> 1), 1) == Value(x >> 2) && Shr(Value(x), 2) == Value(x >> 2);
    ShrShr(Value(x), 2, 1);
    assert Shr(Value(x), 3) == Value(x >> 3);
    ShrShr(Value(x), 3, 1);
    assert Shr(Value(x), 4) == Value(x >> 4);
  }

  /** A step of the register is a shift of its cells. */
  lemma ShiftIsStep(s: Cells, v: Cell)
    ensures Shift(s, v).Word() == Step(s.Word(), Value(v))
  {
    hide Xor, Shr, Low, Shl, AddIf, Tap, Feedback, Step, Join, Value;
    var shifted := Cells(s.b, s.c, s.d, s.e, s.f, v);
    DropLeading(s);
    StepDef(s.Word(), Value(v));
    JoinIs(Low(s.Word(), 25), Value(v));
    var top := Value(s.a);
    CellBits(s.a);
    LeadingZero(shifted);
    NoFeedback(shifted.Word(), top);
    var s0 := AddIf(s.a & 1 != 0, shifted, Tap(0));
    TapStep(shifted, shifted.Word(), top, 0);
    var s1 := AddIf(s.a & 2 != 0, s0, Tap(1));
    TapStep(s0, shifted.Word(), top, 1);
    var s2 := AddIf(s.a & 4 != 0, s1, Tap(2));
    TapStep(s1, shifted.Word(), top, 2);
    var s3 := AddIf(s.a & 8 != 0, s2, Tap(3));
    TapStep(s2, shifted.Word(), top, 3);
    TapStep(s3, shifted.Word(), top, 4);
  }

  lemma LeadingZero(s: Cells)
    ensures s.Word() == Join(Cells(0, s.a, s.b, s.c, s.d, s.e).Word(), Value(s.f))
  {
    assert Join(0, Value(s.a)) == Value(s.a);
  }

  function Values(cells: seq<Cell>): (values: seq<Symbol>)
    ensures |values| == |cells|
  {
    seq(|cells|, i requires 0 <= i < |cells| => Value(cells[i]))
  }

  function ShiftAll(s: Cells, cells: seq<Cell>): Cells
    decreases |cells|
  {
    if cells == [] then s else ShiftAll(Shift(s, cells[0]), cells[1..])
  }

  /** Running the register is shifting its cells, for symbol lists of any length. */
  lemma {:induction false} ShiftAllIsRun(s: Cells, cells: seq<Cell>)
    ensures ShiftAll(s, cells).Word() == Run(s.Word(), Values(cells))
    decreases |cells|
  {
    hide Step, Shift, Cells.Word;
    if cells != [] {
      ShiftIsStep(s, cells[0]);
      ShiftAllIsRun(Shift(s, cells[0]), cells[1..]);
      assert Values(cells)[1..] == Values(cells[1..]);
    }
  }
}
