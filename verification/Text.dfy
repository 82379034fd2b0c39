/** Decimal numbers and dash-separated ids. */
module Text {

  predicate IsDigit(c: char) { '0' <= c <= '9' }

  function DigitChar(d: nat): (c: char)
    requires d < 10
    ensures IsDigit(c) && c as int - '0' as int == d
  {
    ('0' as int + d) as char
  }

  function DigitValue(c: char): (d: nat)
    requires IsDigit(c)
    ensures d < 10
  {
    c as int - '0' as int
  }

  predicate AllDigits(s: string) {
    forall i :: 0 <= i < |s| ==> IsDigit(s[i])
  }

  function Decimal(n: nat): (s: string)
    ensures s != [] && AllDigits(s)
  {
    if n < 10 then [DigitChar(n)] else Decimal(n / 10) + [DigitChar(n % 10)]
  }

  /** The format `:02d`. */
  function Decimal2(n: nat): (s: string)
    ensures |s| >= 2 && AllDigits(s)
  {
    if n < 10 then ['0', DigitChar(n)] else Decimal(n / 10) + [DigitChar(n % 10)]
  }

  function Number(s: string): (n: nat)
    requires AllDigits(s)
  {
    if s == [] then 0 else 10 * Number(s[..|s| - 1]) + DigitValue(s[|s| - 1])
  }

  lemma {:induction false} DecimalRoundTrip(n: nat)
    ensures Number(Decimal(n)) == n
  {
    var s := Decimal(n);
    if n < 10 {
      assert s[..0] == [];
    } else {
      DecimalRoundTrip(n / 10);
      assert s[..|s| - 1] == Decimal(n / 10);
    }
  }

  lemma Decimal2RoundTrip(n: nat)
    ensures Number(Decimal2(n)) == n
  {
    var s := Decimal2(n);
    if n < 10 {
      assert s[..1] == ['0'] && ['0'][..0] == [];
      assert Number(['0']) == 0;
    } else {
      DecimalRoundTrip(n / 10);
      assert s[..|s| - 1] == Decimal(n / 10);
    }
  }

  /** No leading zeros. */
  lemma {:induction false} DecimalIsShort(n: nat)
    ensures Decimal(n)[0] == '0' <==> n == 0
    ensures |Decimal(n)| == 1 <==> n < 10
  {
    if n >= 10 { DecimalIsShort(n / 10); }
  }

  /** Two digits at least: one zero in front of a single digit, and nothing else. */
  lemma {:induction false} Decimal2Pads(n: nat)
    ensures Decimal2(n) == if n < 10 then "0" + Decimal(n) else Decimal(n)
  {
    if n < 10 { assert Decimal2(n) == "0" + Decimal(n); }
  }

  // ----- splitting -----

  /** Python's `s.split(c)`. */
  function Split(s: string, c: char): (parts: seq<string>)
    ensures parts != []
  {
    if s == [] then [[]]
    else
      var rest := Split(s[1..], c);
      if s[0] == c then [[]] + rest else [[s[0]] + rest[0]] + rest[1..]
  }

  lemma {:induction false} SplitCons(x: char, s: string, c: char)
    ensures Split([x] + s, c) == if x == c then [[]] + Split(s, c) else [[x] + Split(s, c)[0]] + Split(s, c)[1..]
  {
    assert ([x] + s)[1..] == s;
  }

  lemma PrependHead(x: char, r: seq<string>, q: seq<string>)
    requires r != []
    ensures [[x] + (r + q)[0]] + (r + q)[1..] == ([[x] + r[0]] + r[1..]) + q
    ensures [[]] + (r + q) == ([[]] + r) + q
  {
    assert (r + q)[1..] == r[1..] + q;
  }

  lemma ConsAround(x: char, t: string, c: char, b: string, u: string)
    requires u == t + [c] + b
    ensures ([x] + t) + [c] + b == [x] + u
  {
  }

  lemma {:induction false} SplitAround(a: string, c: char, b: string)
    ensures Split(a + [c] + b, c) == Split(a, c) + Split(b, c)
  {
    if a == [] {
      assert a + [c] + b == [c] + b;
      SplitCons(c, b, c);
    } else {
      hide Split;
      var x, t := a[0], a[1..];
      var u := t + [c] + b;
      SplitAround(t, c, b);
      SplitCons(x, t, c);
      SplitCons(x, u, c);
      PrependHead(x, Split(t, c), Split(b, c));
      assert a == [x] + t;
      ConsAround(x, t, c, b, u);
    }
  }

  lemma {:induction false} SplitPlain(s: string, c: char)
    requires c !in s
    ensures Split(s, c) == [s]
  {
    if s != [] {
      SplitPlain(s[1..], c);
      assert [s[0]] + s[1..] == s;
    }
  }

  /** One more segment on an id is one more part. */
  lemma {:induction false} SplitSegment(prefix: string, segment: string)
    requires '-' !in segment
    ensures Split(prefix + "-" + segment, '-') == Split(prefix, '-') + [segment]
  {
    SplitPlain(segment, '-');
    SplitAround(prefix, '-', segment);
  }
}
