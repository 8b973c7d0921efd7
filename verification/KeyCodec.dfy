/** 32-byte keys as bech32m strings: public addresses (`gc1...`) and secrets (`gcsec1...`). */
module KeyCodec {
  import opened Prelude
  import opened Bits
  import opened BitStreams
  import opened Polymod
  import opened Checksum
  import opened ConvertBits
  import opened Bech32

  const ADDRESS_HRP: string := "gc"
  const SECRET_HRP: string := "gcsec"
  const KEY_LENGTH: nat := 32

  predicate IsKey(key: seq<int>) {
    |key| == KEY_LENGTH && forall i :: 0 <= i < |key| ==> 0 <= key[i] < 256
  }

  lemma ByteFits(v: nat)
    ensures Fits(v, 8) <==> v < 256
  {
  }

  lemma KeyFits(key: seq<int>)
    requires IsKey(key)
    ensures AllFit(key, 8)
  {
    hide Fits;
    forall i | 0 <= i < |key|
      ensures Fits(key[i], 8)
    {
      ByteFits(key[i]);
    }
  }

  predicate AreSymbols(ds: seq<int>) {
    forall i :: 0 <= i < |ds| ==> 0 <= ds[i] < 32
  }

  lemma SymbolsFit(ds: seq<int>)
    ensures AreSymbols(ds) <==> AllFit(ds, 5)
  {
    hide Fits;
    forall i | 0 <= i < |ds| && ds[i] >= 0
      ensures Fits(ds[i], 5) <==> ds[i] < 32
    {
      SymbolFits(ds[i]);
    }
  }

  /** `None` stands for the exception on a value that is not a 32-byte key. */
  function EncodeKey(hrp: string, key: seq<int>): Option<string>
    requires GoodPrefix(hrp)
  {
    if |key| != KEY_LENGTH then None
    else
      match Convert(key, 8, 5, true)
      case None => None
      case Some(groups) =>
        ConvertFits(key, 8, 5, true);
        SymbolsFit(groups);
        var data: seq<Symbol> := groups;
        Some(Encode(hrp, data, BECH32M))
  }

  function DecodeKey(hrp: string, text: string): Option<seq<nat>> {
    match Decode(text)
    case None => None
    case Some(d) =>
      if d.hrp != hrp || d.spec != BECH32M then None
      else
        match Convert(d.data, 5, 8, false)
        case None => None
        case Some(key) => if |key| != KEY_LENGTH then None else Some(key)
  }

  function EncodeAddress(key: seq<int>): Option<string> {
    PrefixesAreGood();
    EncodeKey(ADDRESS_HRP, key)
  }

  function DecodeAddress(text: string): Option<seq<nat>> {
    DecodeKey(ADDRESS_HRP, text)
  }

  function EncodeSecret(seed: seq<int>): Option<string> {
    PrefixesAreGood();
    EncodeKey(SECRET_HRP, seed)
  }

  function DecodeSecret(text: string): Option<seq<nat>> {
    DecodeKey(SECRET_HRP, text)
  }

  lemma PrefixesAreGood()
    ensures GoodPrefix(ADDRESS_HRP) && GoodPrefix(SECRET_HRP)
  {
  }

  // ---- the bijection ---------------------------------------------------------------------------

  lemma EncodedLength(key: seq<int>)
    requires |key| == KEY_LENGTH && Convert(key, 8, 5, true).Some?
    ensures |Convert(key, 8, 5, true).value| == 52
  {
    hide Num, BitsOf, Stream, Groups, Rest, Fits;
    var bs := Stream(key, 8);
    StreamLength(key, 8);
    GroupsLength(bs, 5);
  }

  /** Every 32-byte key has exactly one encoding, and it decodes to that key. */
  lemma KeyRoundTrip(hrp: string, key: seq<int>)
    requires GoodPrefix(hrp) && |hrp| <= 31 && IsKey(key)
    ensures var text := EncodeKey(hrp, key);
      text.Some? && DecodeKey(hrp, text.value) == Some(key)
  {
    hide Convert, Encode, Decode, GoodPrefix, AllFit;
    KeyFits(key);
    ConvertThenBack(key, 8, 5);
    EncodedLength(key);
    var groups := Convert(key, 8, 5, true).value;
    ConvertFits(key, 8, 5, true);
    SymbolsFit(groups);
    DecodeOfEncode(hrp, groups, BECH32M);
  }

  /** Nothing but a list of 32 bytes has an encoding. */
  lemma OnlyKeysEncode(hrp: string, key: seq<int>)
    requires GoodPrefix(hrp)
    ensures EncodeKey(hrp, key).Some? <==> IsKey(key)
  {
    hide Encode, GoodPrefix, Stream, Groups, Rest, Num, Fits;
    if IsKey(key) {
      KeyFits(key);
    } else if |key| == KEY_LENGTH && AllFit(key, 8) {
      forall i | 0 <= i < |key|
        ensures 0 <= key[i] < 256
      {
        ByteFits(key[i]);
      }
    }
  }

  /** The texts that decode to a key are its encoding in all-lower or all-upper case. */
  lemma DecodesExactly(hrp: string, text: string, key: seq<nat>)
    requires GoodPrefix(hrp) && |hrp| <= 31
    ensures DecodeKey(hrp, text) == Some(key) <==>
            IsKey(key) && EncodeKey(hrp, key) == Some(Lower(text)) && (Lower(text) == text || Upper(text) == text)
  {
    if DecodeKey(hrp, text) == Some(key) {
      DecodedIsEncoding(hrp, text, key);
    }
    if IsKey(key) && EncodeKey(hrp, key) == Some(Lower(text)) && (Lower(text) == text || Upper(text) == text) {
      KeyRoundTrip(hrp, key);
      DecodeIgnoresCase(text);
    }
  }

  /** Addresses and secrets are never confused: no text is both. */
  lemma AddressOrSecret(text: string)
    ensures DecodeAddress(text).None? || DecodeSecret(text).None?
    ensures forall seed: seq<nat> :: DecodeSecret(text) == Some(seed) <==>
      IsKey(seed) && EncodeSecret(seed) == Some(Lower(text)) && (Lower(text) == text || Upper(text) == text)
  {
    hide Decode, Convert, Lower, Upper, IsKey, Encode;
    PrefixesAreGood();
    forall seed: seq<nat>
      ensures DecodeSecret(text) == Some(seed) <==>
        IsKey(seed) && EncodeSecret(seed) == Some(Lower(text)) && (Lower(text) == text || Upper(text) == text)
    {
      DecodesExactly(SECRET_HRP, text, seed);
    }
  }

  lemma DecodeIgnoresCase(text: string)
    requires Lower(text) == text || Upper(text) == text
    requires Decode(Lower(text)).Some?
    ensures Decode(text) == Decode(Lower(text))
  {
    LowerTwice(text);
    forall i | 0 <= i < |text|
      ensures 33 <= text[i] as int <= 126
    {
      assert Lower(text)[i] == LowerChar(text[i]);
    }
  }

  lemma DecodedIsEncoding(hrp: string, text: string, key: seq<nat>)
    requires GoodPrefix(hrp) && DecodeKey(hrp, text) == Some(key)
    ensures IsKey(key) && EncodeKey(hrp, key) == Some(Lower(text))
    ensures Lower(text) == text || Upper(text) == text
  {
    EncodeOfDecode(text);
    var d := Decode(text).value;
    BackThenConvert(d.data, 5, 8);
    ConvertFits(d.data, 5, 8, false);
    forall i | 0 <= i < |key|
      ensures key[i] < 256
    {
      ByteFits(key[i]);
    }
  }

  lemma SymbolCharInjective(d: Symbol, e: Symbol)
    requires SymbolChar(d) == SymbolChar(e)
    ensures d == e
  {
    CharsetDistinct();
  }

  /** Texts with the same prefix and symbols `u`, `v` that differ in a window of characters. */
  lemma WindowOfText(hrp: string, u: seq<Symbol>, v: seq<Symbol>, at: nat)
    requires |u| == |v|
    requires var s, t := hrp + "1" + Chars(u), hrp + "1" + Chars(v);
      forall i :: 0 <= i < |s| && !(at <= i < at + 6) ==> s[i] == t[i]
    ensures DifferInWindow(u, v, if at >= |hrp| + 1 then at - |hrp| - 1 else 0)
  {
    hide SymbolChar;
    var n := |hrp| + 1;
    var s, t := hrp + "1" + Chars(u), hrp + "1" + Chars(v);
    forall i | 0 <= i < |u| && !(at <= n + i < at + 6)
      ensures u[i] == v[i]
    {
      assert s[n + i] == Chars(u)[i] && t[n + i] == Chars(v)[i];
      SymbolCharInjective(u[i], v[i]);
    }
  }

  lemma StartFits(hrp: string)
    requires Printable(hrp)
    ensures IsRegister(Run(1, HrpExpand(hrp)))
  {
    hide IsRegister, Run;
    OneIsRegister();
    RunFits(1, HrpExpand(hrp));
  }

  /** The checksummed symbols of an encoding leave exactly the residue of its variant. */
  lemma EncodedResidue(hrp: string, data: seq<Symbol>, spec: Encoding)
    requires Printable(hrp)
    ensures var u := data + CreateChecksum(HrpExpand(hrp) + data, spec);
      Run(Run(1, HrpExpand(hrp)), u) == Residue(spec)
  {
    hide Run, CreateChecksum, HrpExpand;
    var values := HrpExpand(hrp) + data;
    var c := CreateChecksum(values, spec);
    ChecksumUnique(values, c, spec);
    RunAppend(1, HrpExpand(hrp), data + c);
    assert values + c == HrpExpand(hrp) + (data + c);
  }

  /** No two accepted texts differ, up to case, by a burst of at most six consecutive characters. */
  lemma BurstBetweenTexts(a: string, b: string, at: nat)
    requires Decode(a).Some? && Decode(b).Some? && |a| == |b|
    requires Decode(a).value.hrp == Decode(b).value.hrp && Decode(a).value.spec == Decode(b).value.spec
    requires forall i :: 0 <= i < |a| && !(at <= i < at + 6) ==> Lower(a)[i] == Lower(b)[i]
    ensures Lower(a) == Lower(b)
  {
    EncodeOfDecode(a);
    EncodeOfDecode(b);
    var x, y := Decode(a).value, Decode(b).value;
    var hrp := x.hrp;
    var u := x.data + CreateChecksum(HrpExpand(hrp) + x.data, x.spec);
    var v := y.data + CreateChecksum(HrpExpand(hrp) + y.data, y.spec);
    hide Decode, Lower, Run, HrpExpand, CreateChecksum, Chars, IsRegister;
    assert Lower(a) == hrp + "1" + Chars(u) && Lower(b) == hrp + "1" + Chars(v);
    WindowOfText(hrp, u, v, at);
    StartFits(hrp);
    EncodedResidue(hrp, x.data, x.spec);
    EncodedResidue(hrp, y.data, y.spec);
    BurstDetected(Run(1, HrpExpand(hrp)), u, v, if at >= |hrp| + 1 then at - |hrp| - 1 else 0);
  }

  /** Changing one to six consecutive characters of an address never gives another address. */
  lemma AddressBurst(a: string, b: string, at: nat)
    requires DecodeAddress(a).Some? && |a| == |b| && Lower(a) != Lower(b)
    requires forall i :: 0 <= i < |a| && !(at <= i < at + 6) ==> Lower(a)[i] == Lower(b)[i]
    ensures DecodeAddress(b) == None
  {
    hide Decode, Lower;
    if DecodeAddress(b).Some? {
      BurstBetweenTexts(a, b, at);
      assert false;
    }
  }

  // ---- the prefix is protected too -------------------------------------------------------------

  lemma ExpandedLength(p: string)
    requires Printable(p)
    ensures |HrpExpand(p)| == 2 * |p| + 1
  {
  }

  /** The expansion determines the prefix: high bits, a zero, low bits. */
  lemma ExpandInjective(p: string, q: string)
    requires Printable(p) && Printable(q) && |p| == |q| && HrpExpand(p) == HrpExpand(q)
    ensures p == q
  {
    forall i | 0 <= i < |p|
      ensures p[i] == q[i]
    {
      assert HrpExpand(p)[i] as int == p[i] as int / 32 && HrpExpand(q)[i] as int == q[i] as int / 32;
      assert HrpExpand(p)[|p| + 1 + i] as int == p[i] as int % 32;
      assert HrpExpand(q)[|p| + 1 + i] as int == q[i] as int % 32;
    }
  }

  /** No two prefixes of two characters leave the register in the same state, whatever follows. */
  lemma PrefixProtected(p: string, q: string, u: seq<Symbol>)
    requires Printable(p) && Printable(q) && |p| == |q| == 2
    requires Run(1, HrpExpand(p) + u) == Run(1, HrpExpand(q) + u)
    ensures p == q
  {
    hide Run, HrpExpand, IsRegister;
    RunAppend(1, HrpExpand(p), u);
    RunAppend(1, HrpExpand(q), u);
    StartFits(p);
    StartFits(q);
    RunInjective(Run(1, HrpExpand(p)), Run(1, HrpExpand(q)), u);
    ExpandedLength(p);
    ExpandedLength(q);
    WindowInjective(1, HrpExpand(p), HrpExpand(q));
    ExpandInjective(p, q);
  }

  /** The prefix of a text that decodes is what stands before its last separator. */
  lemma DecodedParts(a: string)
    requires Decode(a).Some?
    ensures var d := Decode(a).value;
      GoodPrefix(d.hrp) && Lower(a) == d.hrp + "1" + Chars(d.data + CreateChecksum(HrpExpand(d.hrp) + d.data, d.spec))
  {
    EncodeOfDecode(a);
  }

  lemma KeyLooks(hrp: string, text: string)
    requires GoodPrefix(hrp) && DecodeKey(hrp, text).Some?
    ensures |text| == |hrp| + 59 && Lower(text)[..|hrp| + 1] == hrp + "1"
  {
    hide Run, HrpExpand, CreateChecksum, Chars, Decode, Convert;
    var key := DecodeKey(hrp, text).value;
    DecodedIsEncoding(hrp, text, key);
    EncodedLength(key);
    var data := Convert(key, 8, 5, true).value;
    ConvertFits(key, 8, 5, true);
    SymbolsFit(data);
    assert Lower(text) == Encode(hrp, data, BECH32M);
    assert Lower(text)[..|hrp| + 1] == hrp + "1";
  }

  /** What an address and a secret look like. */
  lemma AddressLooks(text: string)
    ensures DecodeAddress(text).Some? ==> |text| == 61 && Lower(text)[..3] == "gc1"
    ensures DecodeSecret(text).Some? ==> |text| == 64 && Lower(text)[..6] == "gcsec1"
  {
    hide DecodeKey;
    PrefixesAreGood();
    if DecodeAddress(text).Some? {
      KeyLooks(ADDRESS_HRP, text);
    }
    if DecodeSecret(text).Some? {
      KeyLooks(SECRET_HRP, text);
    }
  }

  /** An address with either or both of its prefix characters changed, and nothing else, is no key of any
      kind. */
  lemma AddressPrefix(a: string, b: string, hrp: string)
    requires DecodeAddress(a).Some? && |a| == |b| && Lower(a) != Lower(b)
    requires forall i :: 2 <= i < |a| ==> Lower(a)[i] == Lower(b)[i]
    ensures DecodeKey(hrp, b) == None
  {
    hide Run, HrpExpand, CreateChecksum, Chars, RFind, Convert, Decode;
    if Decode(b).Some? && Decode(b).value.spec == BECH32M {
      DecodedParts(a);
      DecodedParts(b);
      var x, y := Decode(a).value, Decode(b).value;
      var u := x.data + CreateChecksum(HrpExpand(x.hrp) + x.data, x.spec);
      var v := y.data + CreateChecksum(HrpExpand(y.hrp) + y.data, y.spec);
      SamePlace(Lower(a), Lower(b), x.hrp, y.hrp, u, v);
      SameChars(Lower(a), Lower(b), x.hrp, y.hrp, u, v);
      EncodedResidue(x.hrp, x.data, x.spec);
      EncodedResidue(y.hrp, y.data, y.spec);
      RunAppend(1, HrpExpand(x.hrp), u);
      RunAppend(1, HrpExpand(y.hrp), u);
      PrefixProtected(x.hrp, y.hrp, u);
    }
  }

  lemma SeparatorLast(s: string, hrp: string, u: seq<Symbol>)
    requires s == hrp + "1" + Chars(u)
    ensures s[|hrp|] == '1' && forall i :: |hrp| < i < |s| ==> s[i] != '1'
  {
    hide SymbolChar;
    forall i | |hrp| < i < |s|
      ensures s[i] != '1'
    {
      assert s[i] == Chars(u)[i - |hrp| - 1];
      CharsetFacts(s[i]);
    }
  }

  lemma SamePlace(s: string, t: string, p: string, q: string, u: seq<Symbol>, v: seq<Symbol>)
    requires s == p + "1" + Chars(u) && t == q + "1" + Chars(v) && |p| == 2 && |s| == |t|
    requires forall i :: 2 <= i < |s| ==> s[i] == t[i]
    ensures |q| == 2
  {
    SeparatorLast(s, p, u);
    SeparatorLast(t, q, v);
  }

  lemma SameChars(s: string, t: string, p: string, q: string, u: seq<Symbol>, v: seq<Symbol>)
    requires s == p + "1" + Chars(u) && t == q + "1" + Chars(v) && |p| == |q| && |s| == |t|
    requires forall i :: |p| <= i < |s| ==> s[i] == t[i]
    ensures u == v
  {
    hide SymbolChar;
    forall i | 0 <= i < |u|
      ensures u[i] == v[i]
    {
      assert s[|p| + 1 + i] == Chars(u)[i] && t[|p| + 1 + i] == Chars(v)[i];
      SymbolCharInjective(u[i], v[i]);
    }
  }
}
