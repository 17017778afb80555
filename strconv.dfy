/**
 * Decimal integer text, as the quiz server reads and writes it: Go's
 * `strconv.Atoi` (reading `correct_option`, `option` and the question id)
 * and the `%d` verb of `fmt.Sprintf` (building the field names `option1`
 * to `option4`).
 */
module Strconv {
  import opened Wrappers

  /** Bounds of Go's `int` on a 64-bit platform. */
  const MinInt64: int := -0x8000_0000_0000_0000
  const MaxInt64: int := 0x7fff_ffff_ffff_ffff

  predicate IsDigit(c: char) {
    '0' <= c <= '9'
  }

  predicate AllDigits(s: string) {
    forall i :: 0 <= i < |s| ==> IsDigit(s[i])
  }

  /** The value of a string of decimal digits, most significant first. */
  function DigitsValue(s: string): nat
    requires AllDigits(s)
  {
    if s == [] then 0 else DigitsValue(s[..|s| - 1]) * 10 + (s[|s| - 1] as int - '0' as int)
  }

  /**
   * `strconv.Atoi`: an optional `+` or `-`, then one or more decimal digits,
   * whose value must fit a 64-bit `int`; anything else is an error.
   */
  function Atoi(s: string): (r: Maybe<int>)
    ensures r.Just? ==> MinInt64 <= r.value <= MaxInt64
    ensures r.Just? ==> |s| > 0 && (IsDigit(s[0]) || s[0] == '+' || s[0] == '-')
    ensures r.Just? ==> |s| > (if s[0] == '+' || s[0] == '-' then 1 else 0)
    ensures r.Just? ==> forall i :: 0 < i < |s| ==> IsDigit(s[i])
    ensures r.Just? && s[0] == '-' ==> r.value <= 0
    ensures r.Just? && s[0] != '-' ==> r.value >= 0
  {
    if |s| == 0 then Nothing
    else
      var digits := if s[0] == '+' || s[0] == '-' then s[1..] else s;
      if |digits| == 0 || !AllDigits(digits) then Nothing
      else
        var n: int := if s[0] == '-' then -(DigitsValue(digits) as int) else DigitsValue(digits);
        if MinInt64 <= n <= MaxInt64 then Just(n) else Nothing
  }

  function DigitChar(d: nat): (c: char)
    requires d < 10
    ensures IsDigit(c) && c as int - '0' as int == d
  {
    ('0' as int + d) as char
  }

  /** The shortest decimal digits of `n`, as `%d` prints a non-negative number. */
  function NatString(n: nat): (s: string)
    ensures |s| >= 1 && AllDigits(s)
    ensures |s| > 1 ==> s[0] != '0'
  {
    if n < 10 then [DigitChar(n)] else NatString(n / 10) + [DigitChar(n % 10)]
  }

  /** `%d` / `strconv.Itoa`: a minus sign before the digits of a negative number. */
  function Itoa(n: int): (s: string)
    ensures |s| >= 1
    ensures s[0] == '-' <==> n < 0
  {
    if n < 0 then "-" + NatString(-n) else NatString(n)
  }

  lemma {:induction false} NatStringValue(n: nat)
    ensures DigitsValue(NatString(n)) == n
  {
    if n >= 10 {
      NatStringValue(n / 10);
      var s := NatString(n);
      assert s[..|s| - 1] == NatString(n / 10);
    }
  }

  /** Reading back what `%d` printed gives the number again. */
  lemma AtoiItoa(n: int)
    requires MinInt64 <= n <= MaxInt64
    ensures Atoi(Itoa(n)) == Just(n)
  {
    var m := if n < 0 then -n else n;
    NatStringValue(m);
    var s := Itoa(n);
    if n < 0 {
      assert s[1..] == NatString(m);
    }
  }

  /** Different numbers print differently. */
  lemma ItoaInjective(m: int, n: int)
    requires Itoa(m) == Itoa(n)
    ensures m == n
  {
    var a, b := if m < 0 then -m else m, if n < 0 then -n else n;
    NatStringValue(a);
    NatStringValue(b);
    if m < 0 {
      assert Itoa(m)[1..] == NatString(a);
      assert Itoa(n)[1..] == NatString(b);
    }
  }
}
