/** Comma-joined records and decimal numerals. */
module Text {

  predicate CommaFree(s: string) {
    ',' !in s
  }

  predicate AllCommaFree(fs: seq<string>) {
    forall i :: 0 <= i < |fs| ==> CommaFree(fs[i])
  }

  /** `','.join(fs)` */
  function Join(fs: seq<string>): string {
    if fs == [] then ""
    else if |fs| == 1 then fs[0]
    else fs[0] + "," + Join(fs[1..])
  }

  lemma {:induction false} JoinAppend(a: seq<string>, b: seq<string>)
    requires a != [] && b != []
    ensures Join(a + b) == Join(a) + "," + Join(b)
  {
    if |a| == 1 {
      assert (a + b)[1..] == b;
    } else {
      JoinAppend(a[1..], b);
      assert (a + b)[1..] == a[1..] + b;
    }
  }

  lemma FirstComma(x: string, u: string)
    requires CommaFree(x)
    ensures (x + "," + u)[|x|] == ',' && forall i :: 0 <= i < |x| ==> (x + "," + u)[i] != ','
  {
  }

  /** Cutting two texts at their first comma. */
  lemma CutAtComma(x: string, y: string, u: string, v: string)
    requires CommaFree(x) && CommaFree(y) && x + "," + u == y + "," + v
    ensures x == y && u == v
  {
    var s, t := x + "," + u, y + "," + v;
    FirstComma(x, u);
    FirstComma(y, v);
    assert |x| == |y|;
    assert x == s[..|x|] && y == t[..|y|];
    assert u == s[|x| + 1..] && v == t[|y| + 1..];
  }

  lemma CommaInJoin(fs: seq<string>)
    requires fs != [] && AllCommaFree(fs)
    ensures ',' in Join(fs) <==> |fs| >= 2
  {
    if |fs| >= 2 {
      FirstComma(fs[0], Join(fs[1..]));
    }
  }

  /** A joined text has only one reading as a non-empty list of comma-free fields. */
  lemma {:induction false} JoinInjective(a: seq<string>, b: seq<string>)
    requires a != [] && b != [] && AllCommaFree(a) && AllCommaFree(b) && Join(a) == Join(b)
    ensures a == b
  {
    CommaInJoin(a);
    CommaInJoin(b);
    if |a| >= 2 {
      CutAtComma(a[0], b[0], Join(a[1..]), Join(b[1..]));
      JoinInjective(a[1..], b[1..]);
      assert a == [a[0]] + a[1..] && b == [b[0]] + b[1..];
    }
  }

  // ---- decimal numerals ------------------------------------------------------------------------

  predicate IsDigit(c: char) {
    '0' <= c <= '9'
  }

  function Digit(d: nat): char
    requires d < 10
  {
    ('0' as int + d) as char
  }

  /** `str(n)` */
  function Decimal(n: nat): (s: string)
    ensures s != "" && forall i :: 0 <= i < |s| ==> IsDigit(s[i])
  {
    if n < 10 then [Digit(n)] else Decimal(n / 10) + [Digit(n % 10)]
  }

  lemma DecimalLength(n: nat)
    ensures |Decimal(n)| >= 2 <==> n >= 10
  {
  }

  lemma {:induction false} DecimalInjective(m: nat, n: nat)
    requires Decimal(m) == Decimal(n)
    ensures m == n
  {
    var s, t := Decimal(m), Decimal(n);
    assert s[|s| - 1] == Digit(m % 10) && t[|t| - 1] == Digit(n % 10);
    DecimalLength(m);
    DecimalLength(n);
    if m >= 10 {
      assert s[..|s| - 1] == Decimal(m / 10) && t[..|t| - 1] == Decimal(n / 10);
      DecimalInjective(m / 10, n / 10);
    }
  }
}
