/** Published examples: BIP-350, section "Test vectors for Bech32m", and BIP-173, section "Test vectors". */
module Bip350 {
  import opened Prelude
  import opened Polymod
  import opened Checksum
  import opened ShiftRegister
  import opened Bech32

  // ---- "abcdef1l7aum6echk45nj3s0wdvt2fg8x9yrzpqzd3ryx" -----------------------------------------

  /** What the register takes in: the expanded prefix, thirty-one down to zero, the checksum. */
  function Letter(k: nat): (v: Symbol)
    requires k < 51
  {
    if k < 6 then 3
    else if k < 13 then k - 6
    else if k < 45 then 44 - k
    else if k == 45 then 2
    else if k == 46 then 13
    else if k == 47 then 17
    else if k == 48 then 3
    else if k == 49 then 4
    else 6
  }

  function Letters(n: nat): (values: seq<Symbol>)
    requires n <= 51
    ensures |values| == n
  {
    seq(n, k requires 0 <= k < n => Letter(k))
  }

  /** The register stands at `s` after `n` letters. */
  predicate Stands(n: nat, s: Cells)
    requires n <= 51
  {
    Run(1, Letters(n)) == s.Word()
  }

  lemma Next(values: seq<Symbol>, s: Cells, v: Cell, d: Symbol, t: Cells)
    requires Run(1, values) == s.Word() && Value(v) == d && Shift(s, v) == t
    ensures Run(1, values + [d]) == t.Word()
  {
    hide Step, Shift, Value, JoinAll;
    RunAppend(1, values, [d]);
    RunOne(Run(1, values), d);
    ShiftIsStep(s, v);
  }

  lemma Advance(n: nat, s: Cells, v: Cell, t: Cells)
    requires n < 51 && Stands(n, s) && Value(v) == Letter(n) && Shift(s, v) == t
    ensures Stands(n + 1, t)
  {
    hide Step, Shift, Value, Letter, JoinAll, Run;
    assert Letters(n + 1) == Letters(n) + [Letter(n)];
    Next(Letters(n), s, v, Letter(n), t);
  }

  lemma RunOne(c: nat, v: Symbol)
    ensures Run(c, [v]) == Step(c, v)
  {
    hide Step;
    assert [v][1..] == [];
  }

  lemma UpTo6()
    ensures Stands(6, Cells(30, 21, 23, 22, 30, 17))
  {
    hide Stands;
    Begin();
    Advance(0, Cells(0, 0, 0, 0, 0, 1), 3, Cells(0, 0, 0, 0, 1, 3));
    Advance(1, Cells(0, 0, 0, 0, 1, 3), 3, Cells(0, 0, 0, 1, 3, 3));
    Advance(2, Cells(0, 0, 0, 1, 3, 3), 3, Cells(0, 0, 1, 3, 3, 3));
    Advance(3, Cells(0, 0, 1, 3, 3, 3), 3, Cells(0, 1, 3, 3, 3, 3));
    Advance(4, Cells(0, 1, 3, 3, 3, 3), 3, Cells(1, 3, 3, 3, 3, 3));
    Advance(5, Cells(1, 3, 3, 3, 3, 3), 3, Cells(30, 21, 23, 22, 30, 17));
  }

  lemma UpTo12()
    requires Stands(6, Cells(30, 21, 23, 22, 30, 17))
    ensures Stands(12, Cells(19, 6, 12, 13, 13, 8))
  {
    hide Stands;
    Advance(6, Cells(30, 21, 23, 22, 30, 17), 0, Cells(2, 13, 25, 15, 6, 25));
    Advance(7, Cells(2, 13, 25, 15, 6, 25), 1, Cells(30, 28, 14, 5, 10, 12));
    Advance(8, Cells(30, 28, 14, 5, 10, 12), 2, Cells(11, 20, 10, 27, 27, 27));
    Advance(9, Cells(11, 20, 10, 27, 27, 27), 3, Cells(4, 13, 10, 1, 11, 1));
    Advance(10, Cells(4, 13, 10, 1, 11, 1), 4, Cells(2, 0, 3, 13, 14, 30));
    Advance(11, Cells(2, 0, 3, 13, 14, 30), 5, Cells(19, 6, 12, 13, 13, 8));
  }

  lemma UpTo18()
    requires Stands(12, Cells(19, 6, 12, 13, 13, 8))
    ensures Stands(18, Cells(20, 18, 9, 6, 2, 12))
  {
    hide Stands;
    Advance(12, Cells(19, 6, 12, 13, 13, 8), 6, Cells(29, 30, 16, 3, 19, 10));
    Advance(13, Cells(29, 30, 16, 3, 19, 10), 31, Cells(7, 25, 25, 20, 19, 25));
    Advance(14, Cells(7, 25, 25, 20, 19, 25), 30, Cells(24, 0, 3, 3, 24, 27));
    Advance(15, Cells(24, 0, 3, 3, 24, 27), 29, Cells(11, 22, 15, 12, 16, 19));
    Advance(16, Cells(11, 22, 15, 12, 16, 19), 28, Cells(6, 8, 29, 10, 3, 30));
    Advance(17, Cells(6, 8, 29, 10, 3, 30), 27, Cells(20, 18, 9, 6, 2, 12));
  }

  lemma UpTo24()
    requires Stands(18, Cells(20, 18, 9, 6, 2, 12))
    ensures Stands(24, Cells(16, 27, 8, 30, 27, 29))
  {
    hide Stands;
    Advance(18, Cells(20, 18, 9, 6, 2, 12), 26, Cells(8, 2, 12, 28, 22, 19));
    Advance(19, Cells(8, 2, 12, 28, 22, 19), 25, Cells(28, 24, 24, 26, 13, 4));
    Advance(20, Cells(28, 24, 24, 26, 13, 4), 24, Cells(28, 7, 20, 31, 0, 12));
    Advance(21, Cells(28, 7, 20, 31, 0, 12), 23, Cells(3, 11, 17, 18, 8, 3));
    Advance(22, Cells(3, 11, 17, 18, 8, 3), 22, Cells(5, 2, 7, 30, 13, 9));
    Advance(23, Cells(5, 2, 7, 30, 13, 9), 21, Cells(16, 27, 8, 30, 27, 29));
  }

  lemma UpTo30()
    requires Stands(24, Cells(16, 27, 8, 30, 27, 29))
    ensures Stands(30, Cells(8, 21, 10, 26, 14, 29))
  {
    hide Stands;
    Advance(24, Cells(16, 27, 8, 30, 27, 29), 20, Cells(14, 9, 22, 3, 8, 7));
    Advance(25, Cells(14, 9, 22, 3, 8, 7), 19, Cells(11, 13, 4, 1, 5, 25));
    Advance(26, Cells(11, 13, 4, 1, 5, 25), 18, Cells(29, 3, 16, 31, 9, 16));
    Advance(27, Cells(29, 3, 16, 31, 9, 16), 17, Cells(26, 25, 5, 14, 9, 23));
    Advance(28, Cells(26, 25, 5, 14, 9, 23), 16, Cells(1, 21, 3, 30, 15, 19));
    Advance(29, Cells(1, 21, 3, 30, 15, 19), 15, Cells(8, 21, 10, 26, 14, 29));
  }

  lemma UpTo36()
    requires Stands(30, Cells(8, 21, 10, 26, 14, 29))
    ensures Stands(36, Cells(1, 22, 22, 8, 5, 0))
  {
    hide Stands;
    Advance(30, Cells(8, 21, 10, 26, 14, 29), 14, Cells(11, 30, 30, 2, 3, 19));
    Advance(31, Cells(11, 30, 30, 2, 3, 19), 13, Cells(14, 25, 19, 25, 3, 15));
    Advance(32, Cells(14, 25, 19, 25, 3, 15), 12, Cells(27, 8, 30, 10, 13, 6));
    Advance(33, Cells(27, 8, 30, 10, 13, 6), 11, Cells(13, 24, 19, 15, 3, 26));
    Advance(34, Cells(13, 24, 19, 15, 3, 26), 10, Cells(20, 27, 29, 28, 22, 31));
    Advance(35, Cells(20, 27, 29, 28, 22, 31), 9, Cells(1, 22, 22, 8, 5, 0));
  }

  lemma UpTo42()
    requires Stands(36, Cells(1, 22, 22, 8, 5, 0))
    ensures Stands(42, Cells(17, 1, 3, 12, 8, 6))
  {
    hide Stands;
    Advance(36, Cells(1, 22, 22, 8, 5, 0), 8, Cells(11, 0, 28, 16, 29, 26));
    Advance(37, Cells(11, 0, 28, 16, 29, 26), 7, Cells(16, 27, 1, 7, 10, 5));
    Advance(38, Cells(16, 27, 1, 7, 10, 5), 6, Cells(14, 0, 15, 18, 16, 21));
    Advance(39, Cells(14, 0, 15, 18, 16, 21), 5, Cells(2, 20, 21, 25, 23, 15));
    Advance(40, Cells(2, 20, 21, 25, 23, 15), 4, Cells(7, 16, 24, 20, 28, 9));
    Advance(41, Cells(7, 16, 24, 20, 28, 9), 3, Cells(17, 1, 3, 12, 8, 6));
  }

  lemma UpTo47()
    requires Stands(42, Cells(17, 1, 3, 12, 8, 6))
    ensures Stands(47, Cells(15, 28, 3, 7, 29, 12))
  {
    hide Stands;
    Advance(42, Cells(17, 1, 3, 12, 8, 6), 2, Cells(9, 20, 16, 5, 14, 3));
    Advance(43, Cells(9, 20, 16, 5, 14, 3), 1, Cells(23, 18, 21, 23, 0, 14));
    Advance(44, Cells(23, 18, 21, 23, 0, 14), 0, Cells(6, 13, 8, 8, 26, 22));
    Advance(45, Cells(6, 13, 8, 8, 26, 22), 2, Cells(17, 7, 11, 31, 10, 21));
    Advance(46, Cells(17, 7, 11, 31, 10, 21), 13, Cells(15, 28, 3, 7, 29, 12));
  }

  lemma UpTo51()
    requires Stands(47, Cells(15, 28, 3, 7, 29, 12))
    ensures Stands(51, Cells(21, 28, 16, 12, 5, 3))
  {
    hide Stands;
    Advance(47, Cells(15, 28, 3, 7, 29, 12), 17, Cells(3, 14, 20, 1, 19, 9));
    Advance(48, Cells(3, 14, 20, 1, 19, 9), 3, Cells(0, 7, 20, 5, 7, 28));
    Advance(49, Cells(0, 7, 20, 5, 7, 28), 4, Cells(7, 20, 5, 7, 28, 4));
    Advance(50, Cells(7, 20, 5, 7, 28, 4), 6, Cells(21, 28, 16, 12, 5, 3));
  }

  lemma Begin()
    ensures Stands(0, Cells(0, 0, 0, 0, 0, 1))
  {
    hide Run, JoinAll;
    assert Letters(0) == [];
    RunNothing();
    One();
  }

  lemma RunNothing()
    ensures Run(1, []) == 1
  {
    hide Step;
  }

  lemma One()
    ensures Cells(0, 0, 0, 0, 0, 1).Word() == 1
  {
    hide Value;
    assert Value(0) == 0 && Value(1) == 1 by { Small(); }
  }

  lemma Small()
    ensures Value(0) == 0 && Value(1) == 1
  {
  }

  lemma LastWord()
    ensures Cells(21, 28, 16, 12, 5, 3).Word() == Residue(BECH32M)
  {
  }

  /** All fifty-one letters leave the residue of bech32m. */
  lemma Registered()
    ensures Run(1, Letters(51)) == Residue(BECH32M)
  {
    hide Run, JoinAll, Residue, Value;
    UpTo6();
    UpTo12();
    UpTo18();
    UpTo24();
    UpTo30();
    UpTo36();
    UpTo42();
    UpTo47();
    UpTo51();
    LastWord();
  }

  function Countdown(): (data: seq<Symbol>)
    ensures |data| == 32
  {
    seq(32, k requires 0 <= k < 32 => 31 - k)
  }

  function Check(): seq<Symbol> {
    [2, 13, 17, 3, 4, 6]
  }

  lemma Spelled()
    ensures Printable("abcdef") && Letters(51) == HrpExpand("abcdef") + Countdown() + Check()
  {
    var hrp := HrpExpand("abcdef");
    assert hrp == [3, 3, 3, 3, 3, 3, 0, 1, 2, 3, 4, 5, 6];
    var all := hrp + Countdown() + Check();
    forall k | 0 <= k < 51
      ensures Letters(51)[k] == all[k]
    {
      if 45 <= k {
        assert all[k] == Check()[k - 45];
      }
    }
  }

  const COUNTED: string := "l7aum6echk45nj3s0wdvt2fg8x9yrzpq"
  const CHECKED: string := "zd3ryx"

  /** Six symbols that leave the residue are the checksum, so this is the text of these parts. */
  lemma Example(hrp: string, data: seq<Symbol>, check: seq<Symbol>, spec: Encoding, text: string)
    requires GoodPrefix(hrp) && |hrp| + |data| + 7 <= 90 && |check| == 6
    requires Run(1, HrpExpand(hrp) + data + check) == Residue(spec) && Chars(data + check) == text
    ensures Encode(hrp, data, spec) == hrp + "1" + text
    ensures Decode(hrp + "1" + text) == Some(Decoded(hrp, data, spec))
  {
    hide Run, Residue, CreateChecksum, Decode, Chars, HrpExpand;
    ChecksumUnique(HrpExpand(hrp) + data, check, spec);
    DecodeOfEncode(hrp, data, spec);
  }

  /** The example encodes the symbols thirty-one down to zero under "abcdef", and decodes to them. */
  lemma CountdownExample()
    ensures GoodPrefix("abcdef")
    ensures Encode("abcdef", Countdown(), BECH32M) == "abcdef" + "1" + (COUNTED + CHECKED)
    ensures Decode("abcdef" + "1" + (COUNTED + CHECKED)) == Some(Decoded("abcdef", Countdown(), BECH32M))
  {
    hide Run, Residue, Decode, Encode, Chars, HrpExpand, Countdown, Check, Letters;
    Spelled();
    Registered();
    SixChecks();
    Written();
    Prefixed();
    Example("abcdef", Countdown(), Check(), BECH32M, COUNTED + CHECKED);
  }

  lemma SixChecks()
    ensures |Check()| == 6 && Check()[0] == 2 && Check()[1] == 13 && Check()[2] == 17
    ensures Check()[3] == 3 && Check()[4] == 4 && Check()[5] == 6
  {
  }

  lemma Prefixed()
    ensures GoodPrefix("abcdef")
  {
    assert Lower("abcdef") == "abcdef";
  }

  lemma CountedAt(k: nat)
    requires k < 32
    ensures |CHARSET| == 32 == |COUNTED| && CHARSET[31 - k] == COUNTED[k]
  {
  }

  lemma CountedChars()
    ensures Chars(Countdown()) == COUNTED
  {
    forall k | 0 <= k < 32
      ensures Chars(Countdown())[k] == COUNTED[k]
    {
      CountedAt(k);
    }
    CountedAt(0);
  }

  lemma SixChars()
    ensures |CHARSET| == 32
    ensures CHARSET[2] == 'z' && CHARSET[13] == 'd' && CHARSET[17] == '3'
    ensures CHARSET[3] == 'r' && CHARSET[4] == 'y' && CHARSET[6] == 'x'
  {
  }

  lemma CharsOfSix()
    ensures SymbolChar(2) == 'z' && SymbolChar(13) == 'd' && SymbolChar(17) == '3'
    ensures SymbolChar(3) == 'r' && SymbolChar(4) == 'y' && SymbolChar(6) == 'x'
  {
    SixChars();
  }

  lemma SixLetters()
    ensures |CHECKED| == 6 && CHECKED[0] == 'z' && CHECKED[1] == 'd' && CHECKED[2] == '3'
    ensures CHECKED[3] == 'r' && CHECKED[4] == 'y' && CHECKED[5] == 'x'
  {
  }

  lemma SpelledBy(ds: seq<Symbol>, s: string)
    requires |ds| == |s| && forall k :: 0 <= k < |s| ==> SymbolChar(ds[k]) == s[k]
    ensures Chars(ds) == s
  {
    hide SymbolChar;
  }

  lemma SpelledBySix(ds: seq<Symbol>, s: string)
    requires |ds| == 6 == |s|
    requires SymbolChar(ds[0]) == s[0] && SymbolChar(ds[1]) == s[1] && SymbolChar(ds[2]) == s[2]
    requires SymbolChar(ds[3]) == s[3] && SymbolChar(ds[4]) == s[4] && SymbolChar(ds[5]) == s[5]
    ensures Chars(ds) == s
  {
    hide SymbolChar, Chars;
    SpelledBy(ds, s);
  }

  lemma CheckedChars()
    ensures Chars(Check()) == CHECKED
  {
    hide SymbolChar, Chars, Check;
    SixChecks();
    SixLetters();
    CharsOfSix();
    SpelledBySix(Check(), CHECKED);
  }

  lemma Written()
    ensures Chars(Countdown() + Check()) == COUNTED + CHECKED
  {
    hide SymbolChar, Countdown, Check;
    CountedChars();
    CheckedChars();
    assert Chars(Countdown() + Check()) == Chars(Countdown()) + Chars(Check());
  }

  // ---- "a12uel5l", of BIP-173 ------------------------------------------------------------------

  const SHORT: string := "2uel5l"

  function ShortCheck(): seq<Symbol> {
    [10, 28, 25, 31, 20, 31]
  }

  lemma ShortStart(values: seq<Symbol>)
    requires values == [3, 0, 1]
    ensures Run(1, values) == Cells(0, 0, 1, 3, 0, 1).Word()
  {
    hide Run, JoinAll, Value;
    RunNothing();
    One();
    SmallValues();
    Next([], Cells(0, 0, 0, 0, 0, 1), 3, 3, Cells(0, 0, 0, 0, 1, 3));
    Next([] + [3], Cells(0, 0, 0, 0, 1, 3), 0, 0, Cells(0, 0, 0, 1, 3, 0));
    Next([] + [3] + [0], Cells(0, 0, 0, 1, 3, 0), 1, 1, Cells(0, 0, 1, 3, 0, 1));
    assert values == [] + [3] + [0] + [1];
  }

  lemma SmallValues()
    ensures Value(0) == 0 && Value(1) == 1 && Value(3) == 3
  {
  }

  lemma ShortValues()
    ensures Value(10) == 10 && Value(28) == 28 && Value(25) == 25 && Value(31) == 31 && Value(20) == 20
  {
  }

  /** The checksum of an empty list under "a" leaves the residue of bech32. */
  lemma ShortRegistered(u: seq<Symbol>)
    requires Run(1, u) == Cells(0, 0, 1, 3, 0, 1).Word()
    ensures Run(1, u + ShortCheck()) == Residue(BECH32)
  {
    hide Run, JoinAll, Value, Residue;
    ShortValues();
    Next(u, Cells(0, 0, 1, 3, 0, 1), 10, 10, Cells(0, 1, 3, 0, 1, 10));
    Next(u + [10], Cells(0, 1, 3, 0, 1, 10), 28, 28, Cells(1, 3, 0, 1, 10, 28));
    Next(u + [10] + [28], Cells(1, 3, 0, 1, 10, 28), 25, 25, Cells(30, 22, 21, 31, 1, 11));
    var w := u + [10] + [28] + [25];
    Next(w, Cells(30, 22, 21, 31, 1, 11), 31, 31, Cells(1, 15, 16, 16, 28, 6));
    Next(w + [31], Cells(1, 15, 16, 16, 28, 6), 20, 20, Cells(18, 6, 4, 9, 27, 6));
    Next(w + [31] + [20], Cells(18, 6, 4, 9, 27, 6), 31, 31, Cells(0, 0, 0, 0, 0, 1));
    assert u + ShortCheck() == w + [31] + [20] + [31];
    One();
    ShortResidue();
  }

  lemma ShortResidue()
    ensures Residue(BECH32) == 1
  {
  }

  lemma ShortParts()
    ensures GoodPrefix("a") && HrpExpand("a") == [3, 0, 1] && |ShortCheck()| == 6
  {
    assert Lower("a") == "a";
  }

  lemma ShortSymbols()
    ensures ShortCheck()[0] == 10 && ShortCheck()[1] == 28 && ShortCheck()[2] == 25
    ensures |ShortCheck()| == 6 && ShortCheck()[3] == 31 && ShortCheck()[4] == 20 && ShortCheck()[5] == 31
  {
  }

  lemma ShortLetters()
    ensures |SHORT| == 6 && SHORT[0] == '2' && SHORT[1] == 'u' && SHORT[2] == 'e'
    ensures SHORT[3] == 'l' && SHORT[4] == '5' && SHORT[5] == 'l'
  {
  }

  lemma ShortChars()
    ensures SymbolChar(10) == '2' && SymbolChar(28) == 'u' && SymbolChar(25) == 'e'
    ensures SymbolChar(31) == 'l' && SymbolChar(20) == '5'
  {
  }

  lemma ShortSpelled()
    ensures Chars([] + ShortCheck()) == SHORT
  {
    hide SymbolChar, Chars, ShortCheck;
    ShortSymbols();
    ShortLetters();
    ShortChars();
    SpelledBySix(ShortCheck(), SHORT);
    assert [] + ShortCheck() == ShortCheck();
  }

  lemma ShortRun(u: seq<Symbol>)
    requires u == [3, 0, 1]
    ensures Run(1, u + [] + ShortCheck()) == Residue(BECH32)
  {
    hide Run, Residue, ShortCheck, JoinAll, Value;
    ShortStart(u);
    ShortRegistered(u);
    assert u + [] == u;
  }

  lemma EmptyRegistered()
    ensures GoodPrefix("a") && |ShortCheck()| == 6
    ensures Run(1, HrpExpand("a") + [] + ShortCheck()) == Residue(BECH32)
  {
    hide Run, Residue, HrpExpand, ShortCheck, GoodPrefix;
    ShortParts();
    ShortRun(HrpExpand("a"));
  }

  /** The empty list under "a", in bech32. */
  lemma EmptyExample()
    ensures GoodPrefix("a")
    ensures Encode("a", [], BECH32) == "a" + "1" + SHORT
    ensures Decode("a" + "1" + SHORT) == Some(Decoded("a", [], BECH32))
  {
    hide Run, Residue, Decode, Encode, Chars, HrpExpand, ShortCheck;
    EmptyRegistered();
    ShortSpelled();
    Example("a", [], ShortCheck(), BECH32, SHORT);
  }
}
