/** Text helpers shared by the compilers: Python's `str(int)`, `str.join`,
    the ordering Python uses on `str`, and the facts about names of the form
    `prefix-<number>` that the naming schemes rely on. */
module Text {

  predicate IsDigit(c: char) {
    '0' <= c <= '9'
  }

  predicate AllDigits(s: string) {
    forall i :: 0 <= i < |s| ==> IsDigit(s[i])
  }

  function DigitChar(d: nat): (c: char)
    requires d < 10
    ensures IsDigit(c)
    ensures (c as int) - ('0' as int) == d
  {
    "0123456789"[d]
  }

  function DigitValue(c: char): (d: nat)
    requires IsDigit(c)
    ensures d < 10
  {
    (c as int) - ('0' as int)
  }

  /** Python's `str(n)` for a non-negative integer: decimal digits, no sign,
      no leading zero. */
  function Decimal(n: nat): (r: string)
    ensures |r| > 0
    ensures AllDigits(r)
    ensures r[0] == '0' ==> n == 0
    decreases n
  {
    if n < 10 then [DigitChar(n)] else Decimal(n / 10) + [DigitChar(n % 10)]
  }

  /** Reads a string of decimal digits back as a number. */
  function ParseDecimal(s: string): (n: nat)
    requires AllDigits(s)
    decreases |s|
  {
    if |s| == 0 then 0
    else ParseDecimal(s[..|s| - 1]) * 10 + DigitValue(s[|s| - 1])
  }

  /** Decimal rendering loses nothing: reading it back gives the number. */
  lemma {:induction false} ParseDecimalInverts(n: nat)
    ensures ParseDecimal(Decimal(n)) == n
    decreases n
  {
    if n >= 10 {
      var d := Decimal(n);
      assert d[..|d| - 1] == Decimal(n / 10);
      ParseDecimalInverts(n / 10);
    }
  }

  /** Distinct numbers have distinct renderings. */
  lemma {:induction false} DecimalInjective(a: nat, b: nat)
    requires Decimal(a) == Decimal(b)
    ensures a == b
  {
    ParseDecimalInverts(a);
    ParseDecimalInverts(b);
  }

  /** Python's `sep.join(items)`. */
  function Join(sep: string, items: seq<string>): (r: string)
    ensures |items| == 0 ==> r == ""
    ensures |items| == 1 ==> r == items[0]
    ensures |items| > 0 ==> |r| >= |items[0]|
    decreases |items|
  {
    if |items| == 0 then ""
    else if |items| == 1 then items[0]
    else items[0] + sep + Join(sep, items[1..])
  }

  /** Python's `a < b` on `str`: code points compared left to right, a proper
      prefix coming first. */
  predicate Below(a: string, b: string)
    decreases |a|
  {
    if |a| == 0 then |b| > 0
    else if |b| == 0 then false
    else a[0] < b[0] || (a[0] == b[0] && Below(a[1..], b[1..]))
  }

  lemma {:induction false} BelowIrreflexive(a: string)
    ensures !Below(a, a)
    decreases |a|
  {
    if |a| > 0 {
      BelowIrreflexive(a[1..]);
    }
  }

  lemma {:induction false} BelowAsymmetric(a: string, b: string)
    requires Below(a, b)
    ensures !Below(b, a)
    decreases |a|
  {
    if |a| > 0 && |b| > 0 && a[0] == b[0] {
      BelowAsymmetric(a[1..], b[1..]);
    }
  }

  lemma {:induction false} BelowTransitive(a: string, b: string, c: string)
    requires Below(a, b) && Below(b, c)
    ensures Below(a, c)
    decreases |a|
  {
    if |a| > 0 && a[0] == b[0] && b[0] == c[0] {
      BelowTransitive(a[1..], b[1..], c[1..]);
    }
  }

  lemma {:induction false} BelowTotal(a: string, b: string)
    requires a != b
    ensures Below(a, b) || Below(b, a)
    decreases |a|
  {
    if |a| > 0 && |b| > 0 && a[0] == b[0] {
      assert a == [a[0]] + a[1..];
      assert b == [b[0]] + b[1..];
      BelowTotal(a[1..], b[1..]);
    }
  }

  /** Where the dash and the digits sit in `prefix + "-" + digits`. */
  lemma DashLayout(s: string, d: string)
    ensures (s + "-" + d)[|s|] == '-'
    ensures forall k :: |s| < k < |s| + 1 + |d| ==> (s + "-" + d)[k] == d[k - |s| - 1]
  {
  }

  /** A name built as `prefix + "-" + digits` determines both parts, because
      the digits hold no dash: the last dash splits the name. */
  lemma DashDigitsSplit(s1: string, d1: string, s2: string, d2: string)
    requires AllDigits(d1) && AllDigits(d2)
    requires s1 + "-" + d1 == s2 + "-" + d2
    ensures s1 == s2 && d1 == d2
  {
    var t := s1 + "-" + d1;
    assert t == s2 + "-" + d2;
    DashLayout(s1, d1);
    DashLayout(s2, d2);
    if |d1| < |d2| {
      assert false;
    } else if |d2| < |d1| {
      assert false;
    }
    assert |s1| == |s2|;
    assert s1 == t[..|s1|] && s2 == t[..|s2|];
    assert d1 == t[|s1| + 1..] && d2 == t[|s2| + 1..];
  }

  /** `prefix-<n>` names are injective in the pair (prefix, n). */
  lemma {:induction false} DashDecimalInjective(s1: string, n1: nat, s2: string, n2: nat)
    requires s1 + "-" + Decimal(n1) == s2 + "-" + Decimal(n2)
    ensures s1 == s2 && n1 == n2
  {
    DashDigitsSplit(s1, Decimal(n1), s2, Decimal(n2));
    DecimalInjective(n1, n2);
  }
}
