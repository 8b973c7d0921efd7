/** The texts the protocol hashes, spelled out, and the orders and alphabets it depends on. */
module Formats {
  import opened Prelude
  import opened Text
  import opened Payload
  import opened Transactions
  import opened Order
  import opened Blocks

  // ---- numerals --------------------------------------------------------------------------------

  function DigitValue(c: char): int {
    c as int - '0' as int
  }

  function Number(s: string): int {
    if s == "" then 0 else 10 * Number(s[..|s| - 1]) + DigitValue(s[|s| - 1])
  }

  /** A numeral is read back as the number, and has no leading zero. */
  lemma {:induction false} DecimalReads(n: nat)
    ensures Number(Decimal(n)) == n && (n > 0 ==> Decimal(n)[0] != '0')
  {
    if n >= 10 {
      DecimalReads(n / 10);
      var s := Decimal(n);
      assert s[..|s| - 1] == Decimal(n / 10);
    } else {
      assert Decimal(n)[..0] == "";
    }
  }

  // ---- the order of texts ----------------------------------------------------------------------

  /** `k` is where `a` and `b` part, `a` ending there or having the smaller character. */
  predicate PartsAt(a: string, b: string, k: nat) {
    && k <= |a| && k < |b| && a[..k] == b[..k] && (k == |a| || a[k] < b[k])
  }

  lemma {:induction false} StringLessIff(a: string, b: string)
    ensures StringLess(a, b) <==> exists k: nat :: PartsAt(a, b, k)
    decreases |a|
  {
    if b == "" {
    } else if a == "" {
      assert PartsAt(a, b, 0);
    } else {
      StringLessIff(a[1..], b[1..]);
      if a[0] < b[0] {
        assert PartsAt(a, b, 0);
      } else if a[0] == b[0] {
        if StringLess(a[1..], b[1..]) {
          var k: nat :| PartsAt(a[1..], b[1..], k);
          assert a[..k + 1] == [a[0]] + a[1..][..k] && b[..k + 1] == [b[0]] + b[1..][..k];
          assert PartsAt(a, b, k + 1);
        }
        forall k: nat | PartsAt(a, b, k)
          ensures k > 0 && PartsAt(a[1..], b[1..], k - 1)
        {
          assert a[1..][..k - 1] == a[..k][1..] && b[1..][..k - 1] == b[..k][1..];
        }
      } else {
        forall k: nat
          ensures !PartsAt(a, b, k)
        {
          if k > 0 && k <= |a| && k < |b| {
            assert a[..k][0] != b[..k][0];
          }
        }
      }
    }
  }

  // ---- alphabets -------------------------------------------------------------------------------

  /** The edges of the base64 alphabet. */
  lemma DigestCharacters()
    ensures forall c :: c in ['A', 'Z', 'a', 'z', '0', '9', '+', '/', '='] ==> IsBase64Char(c)
    ensures forall c :: c in ['@', '[', '`', '{', ',', '-', '.', ':', '_', '*', '<', '>', ' '] ==> !IsBase64Char(c)
    ensures forall s :: IsMillHash(s) ==> |s| == 64
  {
  }

  /** A subject is not empty, and `c` alone is one at the edges of its alphabet. */
  lemma SubjectCharacters()
    ensures !IsSubject("")
    ensures forall c :: c in ['A', 'Z', 'a', 'z', '0', '9', '-', '_'] ==> IsSubject([c]) && IsSubject([c, c])
    ensures forall c :: c in ['@', '[', '`', '{', ',', '+', '.', '/', ':', '=', '^', ' '] ==>
      !IsSubject([c]) && !IsSubject(['A', c]) && !IsSubject([c, 'A'])
  {
    forall c | c in ['@', '[', '`', '{', ',', '+', '.', '/', ':', '=', '^', ' ']
      ensures !IsSubject([c]) && !IsSubject(['A', c]) && !IsSubject([c, 'A'])
    {
      assert [c][0] == c && ['A', c][1] == c && [c, 'A'][0] == c;
    }
  }

  // ---- flows -----------------------------------------------------------------------------------

  /** A field and what follows it. */
  function Then(field: string, rest: string): string {
    field + "," + rest
  }

  lemma JoinFirst(fs: seq<string>, rest: seq<string>)
    requires fs != [] && rest != [] && fs == [fs[0]] + rest
    ensures Join(fs) == Then(fs[0], Join(rest))
  {
    assert fs[1..] == rest;
  }

  lemma JoinTwo(a: string, b: string)
    ensures Join([a, b]) == Then(a, b)
  {
    JoinFirst([a, b], [b]);
  }

  lemma JoinFive(a: string, b: string, c: string, d: string, e: string)
    ensures Join([a, b, c, d, e]) == Then(a, Then(b, Then(c, Then(d, e))))
  {
    hide Join;
    JoinFirst([a, b, c, d, e], [b, c, d, e]);
    JoinFirst([b, c, d, e], [c, d, e]);
    JoinFirst([c, d, e], [d, e]);
    JoinTwo(d, e);
  }

  lemma JoinSix(a: string, b: string, c: string, d: string, e: string, f: string)
    ensures Join([a, b, c, d, e, f]) == Then(a, Then(b, Then(c, Then(d, Then(e, f)))))
  {
    hide Join;
    JoinFirst([a, b, c, d, e, f], [b, c, d, e, f]);
    JoinFive(b, c, d, e, f);
  }

  /** Empty fields leave their commas behind. */
  lemma Empties(x: string)
    ensures Then("", Then("", Then("", ""))) == ",,," && Then("", Then("", "")) == ",,"
    ensures Then("", Then(x, Then("", Then("", "")))) == "," + Then(x, ",,")
    ensures Then("", Then("", Then("", Then(x, "")))) == ",,," + Then(x, "")
    ensures Then("", Then("", Then(x, Then("", "opposition")))) == ",," + Then(x, ",opposition")
    ensures Then("", Then("", Then(x, Then("", "support")))) == ",," + Then(x, ",support")
  {
  }

  /** The kinds of outflows as text: amount, address, opposition, rescind, support, rescind kind. */
  lemma OutflowTexts(n: int, x: string)
    ensures OutflowCsv(Outflow(n, Some(x), None, None, None, None)) == Then(IntText(n), Then(x, ",,,"))
    ensures OutflowCsv(Outflow(n, None, Some(x), None, None, None)) == Then(IntText(n), "," + Then(x, ",,"))
    ensures OutflowCsv(Outflow(n, None, None, None, Some(x), None)) == Then(IntText(n), ",,," + Then(x, ""))
    ensures OutflowCsv(Outflow(n, None, None, Some(x), None, Some(Opposition)))
      == Then(IntText(n), ",," + Then(x, ",opposition"))
    ensures OutflowCsv(Outflow(n, None, None, Some(x), None, Some(Support)))
      == Then(IntText(n), ",," + Then(x, ",support"))
  {
    hide Join, IntText;
    JoinSix(IntText(n), x, "", "", "", "");
    JoinSix(IntText(n), "", x, "", "", "");
    JoinSix(IntText(n), "", "", "", x, "");
    JoinSix(IntText(n), "", "", x, "", "opposition");
    JoinSix(IntText(n), "", "", x, "", "support");
    Empties(x);
  }

  lemma InflowText(txid: string, idx: int)
    ensures InflowCsv(Inflow(txid, idx)) == Then(txid, IntText(idx))
  {
    hide Join, IntText;
    JoinTwo(txid, IntText(idx));
  }

  lemma SignedNumerals(n: int)
    ensures IntText(n) == if n >= 0 then Decimal(n) else "-" + Decimal(-n)
  {
  }

  // ---- transactions and headers ----------------------------------------------------------------

  /** The hashed content: timestamp, address, inflows, outflows, version, and what a coinbase binds. */
  lemma ContentText(t: Txn)
    ensures
      var end := if t.prevHash.Some? then Then("1", t.prevHash.value) else "1";
      var flows := Then(Join(InflowCsvs(t.inflows)), Then(Join(OutflowCsvs(t.outflows)), end));
      DataCsv(t) == Then(t.timestamp, Then(t.address, flows))
  {
    hide Join, InflowCsvs, OutflowCsvs;
    var i, o := Join(InflowCsvs(t.inflows)), Join(OutflowCsvs(t.outflows));
    var five := [t.timestamp, t.address, i, o, "1"];
    if t.prevHash == None {
      JoinFive(t.timestamp, t.address, i, o, "1");
      assert five + [] == five;
    } else {
      JoinSix(t.timestamp, t.address, i, o, "1", t.prevHash.value);
      assert five + [t.prevHash.value] == [t.timestamp, t.address, i, o, "1", t.prevHash.value];
    }
  }

  /** The signed text: the hashed content and the txid. */
  lemma SignedText(t: Txn)
    ensures SigningData(t) == Then(DataCsv(t), t.txid)
  {
    hide Join, DataCsv;
    JoinTwo(DataCsv(t), t.txid);
  }

  /** The hashed header: height, timestamp, previous hash, target, merkle root, version, nonce. */
  lemma HeaderText(b: Block)
    ensures Header(b) == Then(IntText(b.idx), Then(b.timestamp, Then(b.prevHash, Then(b.target, Then(b.merkleRoot,
      Then("1", IntText(b.proofOfWork)))))))
  {
    hide Join, IntText;
    HeaderIsJoin(b);
    JoinFirst(HeaderFields(b), [b.timestamp, b.prevHash, b.target, b.merkleRoot, VERSION, IntText(b.proofOfWork)]);
    JoinSix(b.timestamp, b.prevHash, b.target, b.merkleRoot, "1", IntText(b.proofOfWork));
  }
}
