/** The character-range helpers the core borrows from its parser-helper library:
    blank and digit classification, trimming, and the decimal form of an id. */
module TextRanges {

  /** A blank, as the C `isspace` test in the "C" locale: space, tab, line feed,
      vertical tab, form feed and carriage return. */
  predicate IsBlank(c: char) {
    c == ' ' || ('\t' <= c <= '\r')
  }

  /** `is_number`: an ASCII decimal digit. */
  predicate IsDigit(c: char) {
    '0' <= c <= '9'
  }

  predicate AllBlank(s: string) {
    forall i :: 0 <= i < |s| ==> IsBlank(s[i])
  }

  /** How many blanks open `s`. */
  function LeadingBlanks(s: string): (n: nat)
    ensures n <= |s|
    ensures forall i :: 0 <= i < n ==> IsBlank(s[i])
    ensures n < |s| ==> !IsBlank(s[n])
  {
    if s != [] && IsBlank(s[0]) then 1 + LeadingBlanks(s[1..]) else 0
  }

  /** How many blanks close `s`. */
  function TrailingBlanks(s: string): (n: nat)
    ensures n <= |s|
    ensures forall i :: |s| - n <= i < |s| ==> IsBlank(s[i])
    ensures n < |s| ==> !IsBlank(s[|s| - 1 - n])
  {
    if s != [] && IsBlank(s[|s| - 1]) then 1 + TrailingBlanks(s[..|s| - 1]) else 0
  }

  /** `left_trim`: the range with its leading blanks skipped. */
  function TrimLeft(s: string): (r: string)
    ensures |r| <= |s| && r == s[|s| - |r|..]
    ensures forall i :: 0 <= i < |s| - |r| ==> IsBlank(s[i])
    ensures r == [] || !IsBlank(r[0])
  {
    s[LeadingBlanks(s)..]
  }

  /** `trim_right`: the range with its trailing blanks cut off. */
  function TrimRight(s: string): (r: string)
    ensures |r| <= |s| && r == s[..|r|]
    ensures forall i :: |r| <= i < |s| ==> IsBlank(s[i])
    ensures r == [] || !IsBlank(r[|r| - 1])
  {
    s[..|s| - TrailingBlanks(s)]
  }

  /** Where a range ends once its trailing blanks are cut off. */
  function TrimEnd(s: string): (e: nat)
    ensures e <= |s| && AllBlank(s[e..])
    ensures e == 0 || !IsBlank(s[e - 1])
  {
    |s| - TrailingBlanks(s)
  }

  /** Where a range starts once its leading blanks are skipped, within what is left
      after cutting off the trailing ones. */
  function TrimStart(s: string): (k: nat)
    ensures k <= TrimEnd(s) && AllBlank(s[..k])
    ensures k == TrimEnd(s) || !IsBlank(s[k])
  {
    var t := s[..TrimEnd(s)];
    var k := LeadingBlanks(t);
    assert s[..k] == t[..k];
    k
  }

  /** `trim`: the contiguous piece of `s` left once the blanks at both ends are cut
      off; everything removed is blank and the piece starts and ends unblank. */
  function Trim(s: string): (r: string)
    ensures r == s[TrimStart(s)..TrimEnd(s)]
    ensures r == [] || (!IsBlank(r[0]) && !IsBlank(r[|r| - 1]))
  {
    TrimLeft(TrimRight(s))
  }

  lemma TrimLeftUnblank(s: string)
    requires s == [] || !IsBlank(s[0])
    ensures TrimLeft(s) == s
  {
  }

  lemma TrimRightUnblank(s: string)
    requires s == [] || !IsBlank(s[|s| - 1])
    ensures TrimRight(s) == s
  {
  }

  /** Right-trimming removes exactly the blanks appended to an unblank end. */
  lemma TrimRightAppended(s: string, b: string)
    requires s == [] || !IsBlank(s[|s| - 1])
    requires AllBlank(b)
    ensures TrimRight(s + b) == s
  {
    var x := s + b;
    assert TrailingBlanks(x) == |b|;
    assert x[..|s|] == s;
  }

  /** Left-trimming removes exactly the blanks prepended to an unblank start. */
  lemma TrimLeftPrepended(b: string, s: string)
    requires AllBlank(b)
    requires s == [] || !IsBlank(s[0])
    ensures TrimLeft(b + s) == s
  {
    var x := b + s;
    assert LeadingBlanks(x) == |b|;
    assert x[|b|..] == s;
  }

  /** The trimmed piece is unique: blanks around an unblank-ended piece are exactly
      what `trim` removes. */
  lemma TrimUnique(p: string, r: string, q: string)
    requires AllBlank(p) && AllBlank(q)
    requires r == [] || (!IsBlank(r[0]) && !IsBlank(r[|r| - 1]))
    ensures Trim(p + r + q) == r
  {
    if r == [] {
      assert p + r + q == [] + (p + q);
      TrimRightAppended([], p + q);
    } else {
      TrimRightAppended(p + r, q);
      TrimLeftPrepended(p, r);
    }
  }

  lemma AllBlankAppend(a: string, b: string)
    requires AllBlank(a) && AllBlank(b)
    ensures AllBlank(a + b)
  {
    forall i | 0 <= i < |a + b| ensures IsBlank((a + b)[i]) {
      if i < |a| { assert (a + b)[i] == a[i]; } else { assert (a + b)[i] == b[i - |a|]; }
    }
  }

  /** Cutting `s` at `k` and `e` and regrouping the outer pieces with `b1` and `b2`. */
  lemma Regroup(b1: string, s: string, b2: string, k: nat, e: nat)
    requires k <= e <= |s|
    ensures b1 + s + b2 == (b1 + s[..k]) + s[k..e] + (s[e..] + b2)
  {
    assert s == s[..k] + s[k..e] + s[e..];
  }

  /** Blanks added around a range do not change what `trim` leaves. */
  lemma TrimOuterBlanks(b1: string, s: string, b2: string)
    requires AllBlank(b1) && AllBlank(b2)
    ensures Trim(b1 + s + b2) == Trim(s)
  {
    var k, e := TrimStart(s), TrimEnd(s);
    AllBlankAppend(b1, s[..k]);
    AllBlankAppend(s[e..], b2);
    Regroup(b1, s, b2, k, e);
    TrimUnique(b1 + s[..k], s[k..e], s[e..] + b2);
  }

  predicate AllDigits(s: string) {
    forall i :: 0 <= i < |s| ==> IsDigit(s[i])
  }

  function DigitChar(d: nat): (c: char)
    requires d < 10
    ensures IsDigit(c)
  {
    ('0' as int + d) as char
  }

  function DigitValue(c: char): (d: nat)
    requires IsDigit(c)
    ensures d < 10 && DigitChar(d) == c
  {
    c as int - '0' as int
  }

  /** The decimal textual form of a natural number, most significant digit first. */
  function Decimal(n: nat): (r: string)
    ensures |r| >= 1 && AllDigits(r)
  {
    if n < 10 then [DigitChar(n)] else Decimal(n / 10) + [DigitChar(n % 10)]
  }

  /** The number a string of decimal digits denotes. */
  function DecimalValue(s: string): nat
    requires AllDigits(s)
  {
    if s == [] then 0 else 10 * DecimalValue(s[..|s| - 1]) + DigitValue(s[|s| - 1])
  }

  /** Reading back the decimal form gives the number. */
  lemma {:induction false} DecimalRoundTrip(n: nat)
    ensures DecimalValue(Decimal(n)) == n
  {
    var r := Decimal(n);
    if n < 10 {
      assert r[..0] == [];
    } else {
      DecimalRoundTrip(n / 10);
      assert r[..|r| - 1] == Decimal(n / 10);
    }
  }

  /** Distinct numbers have distinct decimal forms. */
  lemma DecimalInjective(a: nat, b: nat)
    ensures Decimal(a) == Decimal(b) ==> a == b
  {
    DecimalRoundTrip(a);
    DecimalRoundTrip(b);
  }
}
