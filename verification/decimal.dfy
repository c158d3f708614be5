/**
 Python's `str(n)` for an `int`, which is what an f-string placeholder
 `{pplacer_threads}` renders: an optional minus sign followed by the decimal
 digits, without leading zeros.

 Python refuses to convert an `int` of more than 4300 decimal digits to a
 string (it raises `ValueError`); `Renderable` says when the conversion
 succeeds, and `Render` is the text it produces then.
 */
module Decimal {
  import Tokens

  predicate IsDigit(c: char) {
    '0' <= c <= '9'
  }

  predicate AllDigits(s: string) {
    forall i :: 0 <= i < |s| ==> IsDigit(s[i])
  }

  function DigitChar(d: nat): (c: char)
    requires d < 10
    ensures IsDigit(c)
  {
    ('0' as int + d) as char
  }

  /** Decimal digits of a natural number, most significant first. */
  function NatDigits(n: nat): (s: string)
    ensures |s| >= 1
    ensures AllDigits(s)
    ensures s[0] == '0' ==> n == 0
    decreases n
  {
    if n < 10 then [DigitChar(n)] else NatDigits(n / 10) + [DigitChar(n % 10)]
  }

  /** Python's default limit on the number of digits `str` converts. */
  const IntMaxStrDigits: nat := 4300

  /** The magnitude of `n`. */
  function Magnitude(n: int): nat {
    if n < 0 then -n else n
  }

  /** `str(n)` succeeds: the digits, not counting the sign, are within the
      limit. */
  predicate Renderable(n: int) {
    |NatDigits(Magnitude(n))| <= IntMaxStrDigits
  }

  /** The text of `str(n)` for a `Renderable` `n`. */
  function Render(n: int): string {
    if n < 0 then "-" + NatDigits(-n) else NatDigits(n)
  }

  /** The value of a string of decimal digits (the inverse reading). */
  function DigitsValue(s: string): nat
    requires AllDigits(s)
  {
    if |s| == 0 then 0
    else DigitsValue(s[..|s| - 1]) * 10 + (s[|s| - 1] as int - '0' as int)
  }

  /** The value of an optionally signed digit string, as `int(s)` reads it
      (for strings within the digit limit). */
  function ParseInt(s: string): int
    requires |s| > 0
    requires s[0] == '-' ==> AllDigits(s[1..])
    requires s[0] != '-' ==> AllDigits(s)
  {
    if s[0] == '-' then -(DigitsValue(s[1..]) as int) else DigitsValue(s)
  }

  lemma {:induction false} NatDigitsRoundTrip(n: nat)
    ensures DigitsValue(NatDigits(n)) == n
    decreases n
  {
    if n >= 10 {
      var s := NatDigits(n);
      assert s[..|s| - 1] == NatDigits(n / 10);
      NatDigitsRoundTrip(n / 10);
    }
  }

  /** The rendering of a thread count reads back as the same number. */
  lemma RenderRoundTrip(n: int)
    ensures var s := Render(n);
      && |s| > 0
      && (s[0] == '-' <==> n < 0)
      && (s[0] == '-' ==> AllDigits(s[1..]))
      && (s[0] != '-' ==> AllDigits(s))
      && ParseInt(s) == n
  {
    var s := Render(n);
    if n < 0 {
      assert s[1..] == NatDigits(-n);
      NatDigitsRoundTrip(-n);
    } else {
      NatDigitsRoundTrip(n);
    }
  }

  /** Distinct thread counts render differently. */
  lemma RenderInjective(m: int, n: int)
    requires Render(m) == Render(n)
    ensures m == n
  {
    RenderRoundTrip(m);
    RenderRoundTrip(n);
  }

  /** The rendering has no whitespace, so `split()` keeps it as one token. */
  lemma RenderIsWord(n: int)
    ensures Tokens.IsWord(Render(n))
  {
    var s := Render(n);
    if n < 0 {
      forall i | 1 <= i < |s| ensures !Tokens.IsSpace(s[i]) {
        assert s[i] == NatDigits(-n)[i - 1];
      }
    }
  }

  function Pow10(k: nat): (p: nat)
    ensures p >= 1
  {
    if k == 0 then 1 else 10 * Pow10(k - 1)
  }

  /** A natural number has at most `k` digits exactly when it is below
      `10^k`. */
  lemma {:induction false} DigitCount(n: nat, k: nat)
    requires k >= 1
    ensures |NatDigits(n)| <= k <==> n < Pow10(k)
    decreases k
  {
    if k > 1 {
      assert Pow10(k - 1) >= 1;
    }
    if n >= 10 && k > 1 {
      DigitCount(n / 10, k - 1);
      assert n == 10 * (n / 10) + n % 10;
      assert n / 10 < Pow10(k - 1) <==> n < 10 * Pow10(k - 1);
    }
  }

  /** `str(n)` succeeds exactly for the ints strictly between `-10^4300`
      and `10^4300`. */
  lemma RenderableRange(n: int)
    ensures Renderable(n) <==> -(Pow10(IntMaxStrDigits) as int) < n < Pow10(IntMaxStrDigits)
  {
    DigitCount(Magnitude(n), IntMaxStrDigits);
  }
}
