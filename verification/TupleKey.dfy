/** The string keys that name an (asset, expiry) tuple: `asset:expiry` in the settle lanes,
    `asset|expiry` in the fan-out. An asset name may itself contain the separator, so that
    two tuples never share a key is a property of the decimal suffix. */
module TupleKey {

  const DIGITS := "0123456789"

  function NatToString(n: nat): (s: string)
    ensures s != [] && forall c :: c in s ==> c in DIGITS
  {
    if n < 10 then [DIGITS[n]] else NatToString(n / 10) + [DIGITS[n % 10]]
  }

  /** A whole number as a template literal prints it. */
  function IntToString(n: int): (s: string)
    ensures forall c :: c in s ==> c in DIGITS || c == '-'
  {
    if n < 0 then "-" + NatToString(-n) else NatToString(n)
  }

  predicate Separator(c: char) {
    c !in DIGITS && c != '-'
  }

  function Key(asset: string, separator: char, expiry: int): string {
    asset + [separator] + IntToString(expiry)
  }

  lemma {:induction false} NatToStringInjective(m: nat, n: nat)
    requires NatToString(m) == NatToString(n)
    ensures m == n
    decreases m
  {
    var s, t := NatToString(m), NatToString(n);
    assert s[|s| - 1] == DIGITS[m % 10] && t[|t| - 1] == DIGITS[n % 10];
    assert m % 10 == n % 10;
    if m >= 10 && n >= 10 {
      assert s[..|s| - 1] == NatToString(m / 10) && t[..|t| - 1] == NatToString(n / 10);
      NatToStringInjective(m / 10, n / 10);
    } else {
      assert m < 10 <==> |s| == 1;
      assert n < 10 <==> |t| == 1;
    }
  }

  lemma IntToStringInjective(m: int, n: int)
    requires IntToString(m) == IntToString(n)
    ensures m == n
  {
    assert m >= 0 ==> NatToString(m)[0] in NatToString(m);
    assert n >= 0 ==> NatToString(n)[0] in NatToString(n);
    assert '-' !in DIGITS;
    assert (m < 0) == (IntToString(m)[0] == '-');
    assert (n < 0) == (IntToString(n)[0] == '-');
    if m < 0 {
      assert IntToString(m)[1..] == NatToString(-m) && IntToString(n)[1..] == NatToString(-n);
      NatToStringInjective(-m, -n);
    } else {
      NatToStringInjective(m, n);
    }
  }

  lemma SuffixNoLonger(a: string, d: string, b: string, e: string, separator: char)
    requires a + [separator] + d == b + [separator] + e
    requires separator !in d && separator !in e
    ensures |d| <= |e|
  {
    var k := a + [separator] + d;
    assert k[|k| - 1 - |e|] == separator;
    assert forall q :: |a| < q < |k| ==> k[q] == d[q - |a| - 1] && k[q] in d;
  }

  /** One key, one tuple: nothing else prints to it, whatever the asset name contains. */
  lemma KeyInjective(a: string, m: int, b: string, n: int, separator: char)
    requires Separator(separator)
    requires Key(a, separator, m) == Key(b, separator, n)
    ensures a == b && m == n
  {
    var d, e := IntToString(m), IntToString(n);
    SuffixNoLonger(a, d, b, e, separator);
    SuffixNoLonger(b, e, a, d, separator);
    var k := Key(a, separator, m);
    assert a == k[..|k| - 1 - |d|] == b;
    assert d == k[|k| - |d|..] == e;
    IntToStringInjective(m, n);
  }
}
