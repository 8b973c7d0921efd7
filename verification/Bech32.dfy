/** Bech32m strings: characters, checksum, and the two directions of the encoding. */
module Bech32 {
  import opened Prelude
  import opened Polymod
  import opened Checksum

  const CHARSET: string := "qpzry9x8gf2tvdw0s3jn54khce6mua7l"

  // ---- characters ------------------------------------------------------------------------------

  function LowerChar(c: char): char {
    if 'A' <= c <= 'Z' then (c as int + 32) as char else c
  }

  function UpperChar(c: char): char {
    if 'a' <= c <= 'z' then (c as int - 32) as char else c
  }

  function Lower(s: string): (r: string)
    ensures |r| == |s|
  {
    seq(|s|, i requires 0 <= i < |s| => LowerChar(s[i]))
  }

  function Upper(s: string): (r: string)
    ensures |r| == |s|
  {
    seq(|s|, i requires 0 <= i < |s| => UpperChar(s[i]))
  }

  /** Index of the last occurrence of `c`, or -1. */
  function RFind(s: string, c: char): (pos: int)
    ensures -1 <= pos < |s|
    ensures pos >= 0 ==> s[pos] == c
    ensures forall i :: pos < i < |s| ==> s[i] != c
  {
    if s == [] then -1
    else if s[|s| - 1] == c then |s| - 1
    else RFind(s[..|s| - 1], c)
  }

  /** Index of the first occurrence of `c`, or -1. */
  function Find(s: string, c: char): (pos: int)
    ensures -1 <= pos < |s|
    ensures pos >= 0 ==> s[pos] == c
    ensures pos == -1 <==> c !in s
  {
    if s == [] then -1
    else if s[0] == c then 0
    else var rest := Find(s[1..], c); if rest == -1 then -1 else rest + 1
  }

  predicate Printable(s: string) {
    forall i :: 0 <= i < |s| ==> 33 <= s[i] as int <= 126
  }

  predicate InCharset(s: string) {
    forall i :: 0 <= i < |s| ==> s[i] in CHARSET
  }

  lemma CharsetSize()
    ensures |CHARSET| == 32
  {
  }

  function SymbolChar(d: Symbol): (c: char)
    ensures c in CHARSET
  {
    CharsetSize();
    CHARSET[d]
  }

  function CharSymbol(c: char): Symbol
    requires c in CHARSET
  {
    CharsetSize();
    Find(CHARSET, c)
  }

  lemma CharsetDistinct()
    ensures forall i, j :: 0 <= i < j < 32 ==> CHARSET[i] != CHARSET[j]
  {
  }

  function Chars(ds: seq<Symbol>): (s: string)
    ensures |s| == |ds| && forall i :: 0 <= i < |s| ==> s[i] == SymbolChar(ds[i])
  {
    seq(|ds|, i requires 0 <= i < |ds| => SymbolChar(ds[i]))
  }

  function Symbols(s: string): (ds: seq<Symbol>)
    requires InCharset(s)
    ensures |ds| == |s| && forall i :: 0 <= i < |s| ==> ds[i] == CharSymbol(s[i])
  {
    seq(|s|, i requires 0 <= i < |s| => CharSymbol(s[i]))
  }

  lemma CharsThenSymbols(ds: seq<Symbol>)
    ensures InCharset(Chars(ds)) && Symbols(Chars(ds)) == ds
  {
    CharsetDistinct();
  }

  lemma SymbolsThenChars(s: string)
    requires InCharset(s)
    ensures Chars(Symbols(s)) == s
  {
  }

  // ---- strings with a checksum -----------------------------------------------------------------

  function HrpExpand(hrp: string): seq<Symbol>
    requires Printable(hrp)
  {
    seq(|hrp|, i requires 0 <= i < |hrp| => (hrp[i] as int / 32) as Symbol) + [0] +
    seq(|hrp|, i requires 0 <= i < |hrp| => (hrp[i] as int % 32) as Symbol)
  }

  function VerifyChecksum(hrp: string, data: seq<Symbol>): Option<Encoding>
    requires Printable(hrp)
  {
    var residue := Run(1, HrpExpand(hrp) + data);
    if residue == Residue(BECH32) then Some(BECH32)
    else if residue == Residue(BECH32M) then Some(BECH32M)
    else None
  }

  function Encode(hrp: string, data: seq<Symbol>, spec: Encoding): string
    requires Printable(hrp)
  {
    hrp + "1" + Chars(data + CreateChecksum(HrpExpand(hrp) + data, spec))
  }

  datatype Decoded = Decoded(hrp: string, data: seq<Symbol>, spec: Encoding)

  lemma LowerPrintable(s: string)
    ensures Printable(s) ==> Printable(Lower(s))
  {
  }

  function Decode(bech: string): Option<Decoded> {
    if !Printable(bech) then None
    else if Lower(bech) != bech && Upper(bech) != bech then None
    else
      LowerPrintable(bech);
      var s := Lower(bech);
      var pos := RFind(s, '1');
      if pos < 1 || pos + 7 > |s| || |s| > 90 then None
      else if !InCharset(s[pos + 1..]) then None
      else
        var data := Symbols(s[pos + 1..]);
        match VerifyChecksum(s[..pos], data)
        case None => None
        case Some(spec) => Some(Decoded(s[..pos], data[..|data| - 6], spec))
  }

  /** What decodes is printable, not too long, and has a prefix and room for the checksum. */
  lemma Decodable(s: string)
    ensures Decode(s).Some? ==>
      8 <= |s| <= 90 && Decode(s).value.hrp != "" && forall i :: 0 <= i < |s| ==> '!' <= s[i] <= '~'
  {
    hide Run;
  }

  /** A text with letters of both cases does not decode. */
  lemma MixedCase(s: string, i: nat, j: nat)
    requires i < |s| && j < |s| && 'a' <= s[i] <= 'z' && 'A' <= s[j] <= 'Z'
    ensures Decode(s) == None
  {
    hide Run, RFind;
    assert Upper(s)[i] != s[i] && Lower(s)[j] != s[j];
  }

  /** A text without capitals decodes like the same text in capitals. */
  lemma Capitals(s: string, u: string)
    requires |s| == |u| && forall i :: 0 <= i < |s| ==> !('A' <= s[i] <= 'Z')
    requires forall i :: 0 <= i < |s| ==> u[i] as int == s[i] as int - (if 'a' <= s[i] <= 'z' then 32 else 0)
    ensures Decode(u) == Decode(s)
  {
    hide Run, RFind;
    assert Lower(s) == s && Lower(u) == s && Upper(u) == u;
    assert Printable(u) <==> Printable(s) by {
      forall i | 0 <= i < |s|
        ensures 33 <= u[i] as int <= 126 <==> 33 <= s[i] as int <= 126
      {
      }
    }
  }

  /** Prefixes the encoder may be given: printable, lower case and non-empty. */
  predicate GoodPrefix(hrp: string) {
    hrp != "" && Printable(hrp) && Lower(hrp) == hrp
  }

  lemma CharsetFacts(c: char)
    requires c in CHARSET
    ensures 33 <= c as int <= 126 && LowerChar(c) == c && c != '1'
  {
    var i :| 0 <= i < |CHARSET| && CHARSET[i] == c;
    CharsetEntry(i);
  }

  lemma CharsetEntry(i: nat)
    requires i < |CHARSET|
    ensures 33 <= CHARSET[i] as int <= 126 && LowerChar(CHARSET[i]) == CHARSET[i] && CHARSET[i] != '1'
  {
    CharsetSize();
    CharsetTable(i);
  }

  lemma CharsetTable(i: nat)
    requires i < |CHARSET|
    ensures 'a' <= CHARSET[i] <= 'z' || CHARSET[i] == '0' || '2' <= CHARSET[i] <= '9'
  {
  }

  predicate Settled(c: char) {
    33 <= c as int <= 126 && LowerChar(c) == c
  }

  lemma {:induction false} RFindAfter(s: string, tail: string, c: char)
    requires c !in tail
    ensures RFind(s + [c] + tail, c) == |s|
  {
    var whole := s + [c] + tail;
    assert whole[|s|] == c;
    assert forall i :: |s| < i < |whole| ==> whole[i] == tail[i - |s| - 1];
  }

  lemma SettledString(s: string)
    requires forall i :: 0 <= i < |s| ==> Settled(s[i])
    ensures Printable(s) && Lower(s) == s
  {
  }

  lemma SettledParts(hrp: string, tail: string)
    requires GoodPrefix(hrp) && InCharset(tail)
    ensures forall c :: c in hrp + "1" + tail ==> Settled(c)
    ensures '1' !in tail
  {
    forall c | c in hrp + "1" + tail
      ensures Settled(c)
    {
      if c in hrp {
        var i :| 0 <= i < |hrp| && hrp[i] == c;
        assert Lower(hrp)[i] == LowerChar(c);
      } else if c in tail {
        CharsetFacts(c);
      }
    }
    if '1' in tail {
      CharsetFacts('1');
    }
  }

  lemma EncodedShape(hrp: string, tail: string)
    requires GoodPrefix(hrp) && InCharset(tail)
    ensures var s := hrp + "1" + tail;
      Printable(s) && Lower(s) == s && RFind(s, '1') == |hrp| && s[..|hrp|] == hrp && s[|hrp| + 1..] == tail
  {
    hide Settled, Printable, Lower, RFind, InCharset;
    var s := hrp + "1" + tail;
    SettledParts(hrp, tail);
    SettledString(s);
    RFindAfter(hrp, tail, '1');
  }

  /** Decoding undoes encoding, for either residue and any data that fits the length limit. */
  lemma DecodeOfEncode(hrp: string, data: seq<Symbol>, spec: Encoding)
    requires GoodPrefix(hrp) && |hrp| + |data| + 7 <= 90
    ensures Decode(Encode(hrp, data, spec)) == Some(Decoded(hrp, data, spec))
  {
    hide Run, HrpExpand, CreateChecksum, Chars, Symbols, CharSymbol, SymbolChar, Lower, RFind, Printable;
    var values := HrpExpand(hrp) + data;
    var combined := data + CreateChecksum(values, spec);
    CharsThenSymbols(combined);
    EncodedShape(hrp, Chars(combined));
    ChecksumUnique(values, CreateChecksum(values, spec), spec);
    assert HrpExpand(hrp) + combined == values + CreateChecksum(values, spec);
    assert combined[..|combined| - 6] == data;
  }

  /** A string that decodes is, in lower case, the encoding of what it decodes to. */
  lemma EncodeOfDecode(bech: string)
    requires Decode(bech).Some?
    ensures var d := Decode(bech).value;
      GoodPrefix(d.hrp) && Encode(d.hrp, d.data, d.spec) == Lower(bech)
  {
    hide Run, HrpExpand, CreateChecksum, Chars, Symbols, CharSymbol, SymbolChar;
    LowerPrintable(bech);
    var s := Lower(bech);
    var pos := RFind(s, '1');
    var hrp, tail := s[..pos], s[pos + 1..];
    var combined := Symbols(tail);
    var n := |combined| - 6;
    var data, c := combined[..n], combined[n..];
    var d := Decode(bech).value;
    assert d.hrp == hrp && d.data == data;
    assert combined == data + c;
    var values := HrpExpand(hrp) + data;
    assert HrpExpand(hrp) + combined == values + c;
    ChecksumUnique(values, c, d.spec);
    SymbolsThenChars(tail);
    assert s == hrp + "1" + tail;
    LowerPrefix(bech, pos);
  }

  /** Lower-casing changes nothing in a part of a lower-cased string. */
  lemma LowerPrefix(s: string, n: nat)
    requires n <= |Lower(s)|
    ensures Lower(Lower(s)) == Lower(s) && Lower(Lower(s)[..n]) == Lower(s)[..n]
  {
    LowerTwice(s);
    var lower := Lower(s);
    forall i | 0 <= i < n
      ensures LowerChar(lower[..n][i]) == lower[..n][i]
    {
      assert LowerChar(lower[i]) == Lower(lower)[i];
    }
  }

  lemma LowerTwice(s: string)
    ensures Lower(Lower(s)) == Lower(s)
  {
  }
}
