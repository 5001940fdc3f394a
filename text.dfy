// Decimal rendering of non-negative integers, as JavaScript's template
// literals and Number.prototype.toFixed produce it for the values the two
// scenes display, together with the decoder that inverts it.

module Text {

  predicate IsDigit(c: char) {
    '0' <= c <= '9'
  }

  predicate AllDigits(s: string) {
    forall i :: 0 <= i < |s| ==> IsDigit(s[i])
  }

  function DigitChar(d: nat): (c: char)
    requires d < 10
    ensures IsDigit(c) && (c as int) - ('0' as int) == d
  {
    (('0' as int) + d) as char
  }

  /** The shortest decimal numeral of n: no leading zero unless n is 0. */
  function NatToString(n: nat): (s: string)
    ensures 1 <= |s| && AllDigits(s)
    ensures s[0] == '0' ==> n == 0
    ensures n < 10 <==> |s| == 1
    decreases n
  {
    if n < 10 then [DigitChar(n)] else NatToString(n / 10) + [DigitChar(n % 10)]
  }

  /** The value of a string of decimal digits, most significant first. */
  function DigitsValue(s: string): nat
    requires AllDigits(s)
  {
    if s == [] then 0
    else DigitsValue(s[..|s| - 1]) * 10 + ((s[|s| - 1] as int) - ('0' as int))
  }

  lemma {:induction false} DigitsRoundTrip(n: nat)
    ensures DigitsValue(NatToString(n)) == n
    decreases n
  {
    var s := NatToString(n);
    if n >= 10 {
      DigitsRoundTrip(n / 10);
      assert s[..|s| - 1] == NatToString(n / 10);
    }
  }

  /** Distinct numbers render as distinct numerals. */
  lemma NatToStringInjective(a: nat, b: nat)
    requires NatToString(a) == NatToString(b)
    ensures a == b
  {
    DigitsRoundTrip(a);
    DigitsRoundTrip(b);
  }

  /** A marker that occurs in neither prefix splits two equal strings at the same place. */
  lemma SplitAtMarker(u: string, v: string, u': string, v': string, c: char)
    requires c !in u && c !in u'
    requires u + [c] + v == u' + [c] + v'
    ensures u == u' && v == v'
  {
    var w := u + [c] + v;
    assert w[|u|] == c && w[|u'|] == c;
    assert forall i :: 0 <= i < |u| ==> w[i] == u[i] != c;
    assert forall i :: 0 <= i < |u'| ==> w[i] == u'[i] != c;
    assert u == w[..|u|] == u';
    assert v == w[|u| + 1..] == v';
  }
}
