/** Transaction flows: what a transaction consumes and what it creates. */
module Payload {
  import opened Prelude
  import opened Text
  import opened KeyCodec
  import Bech32

  datatype StakeKind = Opposition | Support

  datatype Outflow = Outflow(
    amount: int,
    address: Option<string>,
    opposition: Option<string>,
    rescind: Option<string>,
    support: Option<string>,
    rescindKind: Option<StakeKind>)

  datatype Inflow = Inflow(outflowTxid: string, outflowIdx: int)

  // ---- field shapes ----------------------------------------------------------------------------

  predicate IsBase64Char(c: char) {
    'A' <= c <= 'Z' || 'a' <= c <= 'z' || IsDigit(c) || c == '+' || c == '/' || c == '='
  }

  /** 64 characters of the base64 alphabet; hexadecimal digests are the ones in use. */
  predicate IsMillHash(s: string) {
    |s| == 64 && forall i :: 0 <= i < |s| ==> IsBase64Char(s[i])
  }

  /** Subjects travel in unpadded URL-safe base64. */
  predicate IsSubject(s: string) {
    s != "" && forall i :: 0 <= i < |s| ==>
      'A' <= s[i] <= 'Z' || 'a' <= s[i] <= 'z' || IsDigit(s[i]) || s[i] == '-' || s[i] == '_'
  }

  predicate IsAddress(s: string) {
    DecodeAddress(s).Some?
  }

  predicate ValidInflow(i: Inflow) {
    IsMillHash(i.outflowTxid) && i.outflowIdx >= 0
  }

  /** How many of the three stake destinations are set. */
  function StakeOptions(o: Outflow): nat {
    (if o.opposition.Some? then 1 else 0) + (if o.rescind.Some? then 1 else 0) + (if o.support.Some? then 1 else 0)
  }

  predicate ValidDestinations(o: Outflow) {
    && (if o.address.Some? then StakeOptions(o) == 0 else StakeOptions(o) == 1)
    && (o.rescind.Some? <==> o.rescindKind.Some?)
  }

  predicate ValidOutflow(o: Outflow) {
    && o.amount >= 1
    && (o.address.Some? ==> IsAddress(o.address.value))
    && (o.opposition.Some? ==> IsSubject(o.opposition.value))
    && (o.rescind.Some? ==> IsSubject(o.rescind.value))
    && (o.support.Some? ==> IsSubject(o.support.value))
    && ValidDestinations(o)
  }

  predicate ValidFlows(ins: seq<Inflow>, outs: seq<Outflow>) {
    && (forall i :: 0 <= i < |ins| ==> ValidInflow(ins[i]))
    && (forall j :: 0 <= j < |outs| ==> ValidOutflow(outs[j]))
  }

  // ---- preimage fields -------------------------------------------------------------------------

  function IntText(n: int): string {
    if n < 0 then "-" + Decimal(-n) else Decimal(n)
  }

  function OrEmpty(s: Option<string>): string {
    if s.Some? then s.value else ""
  }

  function KindText(k: StakeKind): string {
    match k
    case Opposition => "opposition"
    case Support => "support"
  }

  function InflowFields(i: Inflow): seq<string> {
    [i.outflowTxid, IntText(i.outflowIdx)]
  }

  function OutflowFields(o: Outflow): (fs: seq<string>)
    ensures |fs| == 6
  {
    [IntText(o.amount), OrEmpty(o.address), OrEmpty(o.opposition), OrEmpty(o.rescind), OrEmpty(o.support),
     if o.rescindKind.Some? then KindText(o.rescindKind.value) else ""]
  }

  function InflowCsv(i: Inflow): string {
    Join(InflowFields(i))
  }

  function OutflowCsv(o: Outflow): string {
    Join(OutflowFields(o))
  }

  // ---- fields of valid flows -------------------------------------------------------------------

  /** An address never contains a comma and never looks like a number. */
  lemma AddressText(s: string)
    requires IsAddress(s)
    ensures CommaFree(s) && s != "" && !IsDigit(s[0])
  {
    var key := DecodeAddress(s).value;
    PrefixesAreGood();
    DecodedIsEncoding(ADDRESS_HRP, s, key);
    var lower := Bech32.Lower(s);
    EncodedText(key, lower);
    forall i | 0 <= i < |s|
      ensures s[i] != ','
    {
      assert lower[i] == Bech32.LowerChar(s[i]);
    }
    assert lower[0] == Bech32.LowerChar(s[0]) == 'g';
  }

  lemma EncodedText(key: seq<int>, text: string)
    requires EncodeAddress(key) == Some(text)
    ensures text != "" && text[0] == 'g' && CommaFree(text)
  {
    forall c | c in text
      ensures c != ','
    {
      if c != 'g' && c != 'c' && c != '1' {
        assert c in Bech32.CHARSET;
        NoCommaInCharset();
      }
    }
  }

  lemma NoCommaInCharset()
    ensures ',' !in Bech32.CHARSET
  {
    if ',' in Bech32.CHARSET {
      var i :| 0 <= i < |Bech32.CHARSET| && Bech32.CHARSET[i] == ',';
      Bech32.CharsetTable(i);
    }
  }
}
