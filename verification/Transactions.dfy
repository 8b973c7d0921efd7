/** Transactions, their hashed preimage, and the shape rules of the two transaction classes. */
module Transactions {
  import opened Prelude
  import opened Text
  import opened Payload

  /** Everything the ledger takes from libraries: digests, signatures, the calendar, retargeting. */
  datatype Rules = Rules(
    hash: string -> string,
    merkle: seq<string> -> string,
    signed: (string, string, string) -> bool,
    instant: string -> Option<int>,
    retarget: (string, int) -> string,
    meets: (string, string) -> bool)

  const VERSION: string := "1"
  const MAX_FLOWS: nat := 50
  const MAX_COINBASE_OUTFLOWS: nat := 5

  datatype Txn = Txn(
    timestamp: string,
    txid: string,
    address: string,
    signature: string,
    inflows: seq<Inflow>,
    outflows: seq<Outflow>,
    prevHash: Option<string>)

  function InflowCsvs(ins: seq<Inflow>): (r: seq<string>)
    ensures |r| == |ins|
  {
    seq(|ins|, i requires 0 <= i < |ins| => InflowCsv(ins[i]))
  }

  function OutflowCsvs(outs: seq<Outflow>): (r: seq<string>)
    ensures |r| == |outs|
  {
    seq(|outs|, j requires 0 <= j < |outs| => OutflowCsv(outs[j]))
  }

  /** The txid preimage: nested lists joined with the same comma, without counts. */
  function DataCsv(t: Txn): string {
    Join([t.timestamp, t.address, Join(InflowCsvs(t.inflows)), Join(OutflowCsvs(t.outflows)), VERSION]
         + (if t.prevHash.Some? then [t.prevHash.value] else []))
  }

  function SigningData(t: Txn): string {
    Join([DataCsv(t), t.txid])
  }

  predicate IsCoinbase(t: Txn) {
    t.prevHash.Some?
  }

  predicate ValidTimestamp(R: Rules, s: string) {
    CommaFree(s) && R.instant(s).Some?
  }

  /** The rules both classes share. */
  predicate ValidShape(R: Rules, t: Txn) {
    && ValidTimestamp(R, t.timestamp)
    && IsMillHash(t.txid)
    && IsAddress(t.address)
    && ValidFlows(t.inflows, t.outflows)
    && R.signed(t.address, SigningData(t), t.signature)
    && t.txid == R.hash(DataCsv(t))
  }

  predicate ValidRegular(R: Rules, t: Txn) {
    && ValidShape(R, t)
    && 1 <= |t.inflows| <= MAX_FLOWS && 1 <= |t.outflows| <= MAX_FLOWS
    && t.prevHash == None
  }

  predicate ValidCoinbase(R: Rules, t: Txn) {
    && ValidShape(R, t)
    && t.inflows == [] && 1 <= |t.outflows| <= MAX_COINBASE_OUTFLOWS
    && t.prevHash.Some? && IsMillHash(t.prevHash.value)
  }

  predicate ValidTxn(R: Rules, t: Txn) {
    ValidRegular(R, t) || ValidCoinbase(R, t)
  }

  // ---- the preimage as one flat record ---------------------------------------------------------

  function AllInflowFields(ins: seq<Inflow>): seq<string> {
    if ins == [] then [] else InflowFields(ins[0]) + AllInflowFields(ins[1..])
  }

  function AllOutflowFields(outs: seq<Outflow>): seq<string> {
    if outs == [] then [] else OutflowFields(outs[0]) + AllOutflowFields(outs[1..])
  }

  /** An empty inflow list still leaves one empty field behind. */
  function InflowPart(ins: seq<Inflow>): seq<string> {
    if ins == [] then [""] else AllInflowFields(ins)
  }

  function Tail(t: Txn): seq<string> {
    [VERSION] + (if t.prevHash.Some? then [t.prevHash.value] else [])
  }

  function Fields(t: Txn): seq<string> {
    [t.timestamp, t.address] + InflowPart(t.inflows) + AllOutflowFields(t.outflows) + Tail(t)
  }

  lemma {:induction false} JoinInflows(ins: seq<Inflow>)
    requires ins != []
    ensures AllInflowFields(ins) != [] && Join(InflowCsvs(ins)) == Join(AllInflowFields(ins))
  {
    if |ins| == 1 {
      assert AllInflowFields(ins) == InflowFields(ins[0]);
    } else {
      JoinInflows(ins[1..]);
      assert InflowCsvs(ins)[1..] == InflowCsvs(ins[1..]);
      JoinAppend(InflowFields(ins[0]), AllInflowFields(ins[1..]));
    }
  }

  lemma {:induction false} JoinOutflows(outs: seq<Outflow>)
    requires outs != []
    ensures AllOutflowFields(outs) != [] && Join(OutflowCsvs(outs)) == Join(AllOutflowFields(outs))
  {
    hide OutflowFields;
    if |outs| == 1 {
      assert AllOutflowFields(outs) == OutflowFields(outs[0]);
    } else {
      JoinOutflows(outs[1..]);
      assert OutflowCsvs(outs)[1..] == OutflowCsvs(outs[1..]);
      JoinAppend(OutflowFields(outs[0]), AllOutflowFields(outs[1..]));
    }
  }

  /** A joined field may be replaced by the fields it was joined from. */
  lemma Splice(head: seq<string>, field: string, fs: seq<string>, rest: seq<string>)
    requires head != [] && fs != [] && rest != [] && field == Join(fs)
    ensures Join(head + [field] + rest) == Join(head + fs + rest)
  {
    JoinAppend(head + [field], rest);
    JoinAppend(head + fs, rest);
    JoinAppend(head, [field]);
    JoinAppend(head, fs);
  }

  lemma JoinFields(t: Txn)
    requires t.outflows != []
    ensures DataCsv(t) == Join(Fields(t))
  {
    hide Join, InflowCsvs, OutflowCsvs, AllInflowFields, AllOutflowFields;
    var ins, outs, tail := InflowPart(t.inflows), AllOutflowFields(t.outflows), Tail(t);
    var head := [t.timestamp, t.address];
    var a, b := Join(InflowCsvs(t.inflows)), Join(OutflowCsvs(t.outflows));
    JoinOutflows(t.outflows);
    InflowPartJoin(t.inflows);
    assert [t.timestamp, t.address, a, b, VERSION] + (if t.prevHash.Some? then [t.prevHash.value] else [])
        == head + [a] + ([b] + tail);
    Splice(head, a, ins, [b] + tail);
    assert head + ins + ([b] + tail) == (head + ins) + [b] + tail;
    Splice(head + ins, b, outs, tail);
  }

  lemma InflowPartJoin(ins: seq<Inflow>)
    ensures InflowPart(ins) != [] && Join(InflowPart(ins)) == Join(InflowCsvs(ins))
  {
    if ins != [] {
      JoinInflows(ins);
    }
  }

  // ---- fields determine the content ------------------------------------------------------------

  predicate IsNumber(s: string) {
    s != "" && IsDigit(s[0])
  }

  lemma NumberText(m: int, n: int)
    requires m >= 0 && n >= 0
    ensures IsNumber(IntText(m)) && CommaFree(IntText(m))
    ensures IntText(m) == IntText(n) ==> m == n
  {
    if IntText(m) == IntText(n) {
      DecimalInjective(m, n);
    }
  }

  lemma OutflowInjective(o: Outflow, p: Outflow)
    requires ValidOutflow(o) && ValidOutflow(p) && OutflowFields(o) == OutflowFields(p)
    ensures o == p
  {
    var x, y := OutflowFields(o), OutflowFields(p);
    assert x[0] == y[0] && x[1] == y[1] && x[2] == y[2] && x[3] == y[3] && x[4] == y[4] && x[5] == y[5];
    NumberText(o.amount, p.amount);
    hide IsAddress, IntText;
    if o.address.Some? { AddressText(o.address.value); }
    if p.address.Some? { AddressText(p.address.value); }
  }

  lemma OutflowText(o: Outflow)
    requires ValidOutflow(o)
    ensures AllCommaFree(OutflowFields(o)) && !IsNumber(OutflowFields(o)[1])
  {
    hide IsAddress;
    NumberText(o.amount, o.amount);
    if o.address.Some? { AddressText(o.address.value); }
  }

  /** A record that continues with outflows: its second field is not a number. */
  predicate StartsWithOutflow(fs: seq<string>) {
    |fs| >= 2 && !IsNumber(fs[1])
  }

  lemma PairThenRest(p: string, q: string, rest: seq<string>)
    ensures var s := [p, q] + rest; |s| >= 2 && s[0] == p && s[1] == q && s[2..] == rest
  {
  }

  lemma InflowsCons(a: seq<Inflow>, x: seq<string>)
    requires a != []
    ensures AllInflowFields(a) + x == [a[0].outflowTxid, IntText(a[0].outflowIdx)] + (AllInflowFields(a[1..]) + x)
  {
    hide IntText;
    var rest := AllInflowFields(a[1..]);
    assert AllInflowFields(a) == [a[0].outflowTxid, IntText(a[0].outflowIdx)] + rest;
  }

  lemma FirstInflow(a: seq<Inflow>, x: seq<string>)
    requires ValidFlows(a, []) && StartsWithOutflow(x)
    ensures var s := AllInflowFields(a) + x;
      && |s| >= 2 && (IsNumber(s[1]) <==> a != [])
      && (a == [] ==> s == x)
      && (a != [] ==> s[0] == a[0].outflowTxid && s[1] == IntText(a[0].outflowIdx)
                      && s[2..] == AllInflowFields(a[1..]) + x)
  {
    if a != [] {
      hide IntText, IsNumber, ValidOutflow, IsMillHash, AllInflowFields;
      InflowsCons(a, x);
      PairThenRest(a[0].outflowTxid, IntText(a[0].outflowIdx), AllInflowFields(a[1..]) + x);
      assert ValidInflow(a[0]);
      NumberText(a[0].outflowIdx, a[0].outflowIdx);
    } else {
      assert AllInflowFields(a) + x == x;
    }
  }

  /** The inflow list ends where the second field of a group stops being a number. */
  lemma {:induction false} ParseInflows(a: seq<Inflow>, x: seq<string>, b: seq<Inflow>, y: seq<string>)
    requires ValidFlows(a, []) && ValidFlows(b, [])
    requires StartsWithOutflow(x) && StartsWithOutflow(y)
    requires AllInflowFields(a) + x == AllInflowFields(b) + y
    ensures a == b && x == y
  {
    hide IntText, AllInflowFields, StartsWithOutflow, IsNumber;
    FirstInflow(a, x);
    FirstInflow(b, y);
    if a != [] {
      NumberText(a[0].outflowIdx, b[0].outflowIdx);
      ParseInflows(a[1..], x, b[1..], y);
      assert a == [a[0]] + a[1..] && b == [b[0]] + b[1..];
    }
  }

  /** What follows the outflows is shorter than one outflow record, so the lists end together. */
  lemma {:induction false} ParseOutflows(a: seq<Outflow>, x: seq<string>, b: seq<Outflow>, y: seq<string>)
    requires ValidFlows([], a) && ValidFlows([], b)
    requires |x| < 6 && |y| < 6
    requires AllOutflowFields(a) + x == AllOutflowFields(b) + y
    ensures a == b && x == y
  {
    hide OutflowFields, ValidOutflow;
    var s, t := AllOutflowFields(a) + x, AllOutflowFields(b) + y;
    if a == [] || b == [] {
      assert |s| == |t|;
      assert a == b;
      assert s == x && t == y;
    } else {
      assert s == OutflowFields(a[0]) + (AllOutflowFields(a[1..]) + x);
      assert t == OutflowFields(b[0]) + (AllOutflowFields(b[1..]) + y);
      assert OutflowFields(a[0]) == s[..6] == t[..6] == OutflowFields(b[0]);
      assert AllOutflowFields(a[1..]) + x == s[6..] == t[6..] == AllOutflowFields(b[1..]) + y;
      OutflowInjective(a[0], b[0]);
      ParseOutflows(a[1..], x, b[1..], y);
      assert a == [a[0]] + a[1..] && b == [b[0]] + b[1..];
    }
  }

  lemma {:induction false} OutflowsText(outs: seq<Outflow>)
    requires ValidFlows([], outs)
    ensures AllCommaFree(AllOutflowFields(outs))
  {
    hide OutflowFields, ValidOutflow;
    if outs != [] {
      OutflowText(outs[0]);
      OutflowsText(outs[1..]);
    }
  }

  lemma {:induction false} InflowsText(ins: seq<Inflow>)
    requires ValidFlows(ins, [])
    ensures AllCommaFree(AllInflowFields(ins))
  {
    hide IntText;
    if ins != [] {
      NumberText(ins[0].outflowIdx, ins[0].outflowIdx);
      InflowsText(ins[1..]);
    }
  }

  lemma FieldsText(R: Rules, t: Txn)
    requires ValidTxn(R, t)
    ensures AllCommaFree(Fields(t))
  {
    hide IsAddress, DataCsv, SigningData;
    AddressText(t.address);
    InflowsText(t.inflows);
    OutflowsText(t.outflows);
  }

  lemma OutflowsStart(outs: seq<Outflow>, x: seq<string>)
    requires outs != [] && ValidFlows([], outs)
    ensures StartsWithOutflow(AllOutflowFields(outs) + x)
  {
    hide ValidOutflow;
    OutflowText(outs[0]);
    assert (AllOutflowFields(outs) + x)[1] == OutflowFields(outs[0])[1];
  }

  /** The content a txid commits to: everything but the signature. */
  predicate SameContent(t: Txn, u: Txn) {
    t.timestamp == u.timestamp && t.address == u.address && t.inflows == u.inflows &&
    t.outflows == u.outflows && t.prevHash == u.prevHash
  }

  lemma InflowPartStart(ins: seq<Inflow>)
    requires ValidFlows(ins, [])
    ensures InflowPart(ins) != [] && (InflowPart(ins)[0] == "" <==> ins == [])
  {
  }

  /** Two valid transactions with the same preimage have the same content. */
  lemma DataCsvInjective(R: Rules, t: Txn, u: Txn)
    requires ValidTxn(R, t) && ValidTxn(R, u) && DataCsv(t) == DataCsv(u)
    ensures SameContent(t, u)
  {
    hide IsAddress, DataCsv, SigningData, ValidOutflow, AllOutflowFields, AllInflowFields, Join;
    JoinFields(t);
    JoinFields(u);
    FieldsText(R, t);
    FieldsText(R, u);
    JoinInjective(Fields(t), Fields(u));
    FieldsDetermine(t, u);
  }

  /** Timestamp and address come first, and what follows them is equal as well. */
  lemma FrontFields(t: Txn, u: Txn)
    requires Fields(t) == Fields(u)
    ensures t.timestamp == u.timestamp && t.address == u.address
    ensures InflowPart(t.inflows) + (AllOutflowFields(t.outflows) + Tail(t))
      == InflowPart(u.inflows) + (AllOutflowFields(u.outflows) + Tail(u))
  {
    hide InflowPart, AllOutflowFields, Tail;
    var x, y := AllOutflowFields(t.outflows) + Tail(t), AllOutflowFields(u.outflows) + Tail(u);
    assert Fields(t) == [t.timestamp, t.address] + (InflowPart(t.inflows) + x);
    assert Fields(u) == [u.timestamp, u.address] + (InflowPart(u.inflows) + y);
    assert Fields(t)[0] == t.timestamp && Fields(u)[0] == u.timestamp;
    assert Fields(t)[1] == t.address && Fields(u)[1] == u.address;
    assert Fields(t)[2..] == InflowPart(t.inflows) + x && Fields(u)[2..] == InflowPart(u.inflows) + y;
  }

  lemma FieldsDetermine(t: Txn, u: Txn)
    requires ValidFlows(t.inflows, t.outflows) && ValidFlows(u.inflows, u.outflows)
    requires t.outflows != [] && u.outflows != [] && Fields(t) == Fields(u)
    ensures SameContent(t, u)
  {
    hide ValidOutflow, AllOutflowFields, AllInflowFields, IsAddress;
    var x, y := AllOutflowFields(t.outflows) + Tail(t), AllOutflowFields(u.outflows) + Tail(u);
    InflowPartStart(t.inflows);
    InflowPartStart(u.inflows);
    FrontFields(t, u);
    var f, g := InflowPart(t.inflows) + x, InflowPart(u.inflows) + y;
    assert f[0] == InflowPart(t.inflows)[0] && g[0] == InflowPart(u.inflows)[0];
    if t.inflows == [] {
      assert x == f[1..] == g[1..] == y;
    } else {
      OutflowsStart(t.outflows, Tail(t));
      OutflowsStart(u.outflows, Tail(u));
      ParseInflows(t.inflows, x, u.inflows, y);
    }
    ParseOutflows(t.outflows, Tail(t), u.outflows, Tail(u));
    TailDetermines(t, u);
  }

  lemma TailDetermines(t: Txn, u: Txn)
    requires Tail(t) == Tail(u)
    ensures t.prevHash == u.prevHash
  {
    assert |Tail(t)| == |Tail(u)|;
    if t.prevHash.Some? {
      assert Tail(t)[1] == Tail(u)[1];
    }
  }

  /** The signed text is the content followed by the txid: two valid transactions with the same signed
      text have the same content and the same txid. */
  lemma SigningDataInjective(R: Rules, t: Txn, u: Txn)
    requires ValidTxn(R, t) && ValidTxn(R, u) && SigningData(t) == SigningData(u)
    ensures SameContent(t, u) && t.txid == u.txid
  {
    hide DataCsv, IsAddress, ValidFlows;
    var a, b := DataCsv(t), DataCsv(u);
    SigningDataIs(t);
    SigningDataIs(u);
    var s := a + ("," + t.txid);
    assert s == b + ("," + u.txid) && |t.txid| == |u.txid| == 64;
    assert a == s[..|s| - 65] == b;
    assert t.txid == s[|s| - 64..] == u.txid;
    DataCsvInjective(R, t, u);
  }

  lemma SigningDataIs(t: Txn)
    ensures SigningData(t) == DataCsv(t) + ("," + t.txid)
  {
    hide DataCsv;
    var fs := [DataCsv(t), t.txid];
    assert fs[1..] == [t.txid];
    assert Join(fs[1..]) == t.txid;
    assert Join(fs) == DataCsv(t) + "," + t.txid;
  }
}
