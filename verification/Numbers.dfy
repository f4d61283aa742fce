/** Decimal text: what `to_string` and `{}` print, and its value. */
module Numbers {

  predicate IsDigit(c: char) {
    '0' <= c <= '9'
  }

  function DigitsValue(s: string): (r: int)
    requires forall k | 0 <= k < |s| :: IsDigit(s[k])
    ensures r >= 0
  {
    if s == "" then 0 else
    assert IsDigit(s[|s| - 1]);
    10 * DigitsValue(s[..|s| - 1]) + (s[|s| - 1] as int - '0' as int)
  }

  function DigitsOf(n: nat): (s: string)
    ensures |s| > 0 && forall k | 0 <= k < |s| :: IsDigit(s[k])
  {
    var last := [('0' as int + n % 10) as char];
    if n < 10 then last else DigitsOf(n / 10) + last
  }

  /** `to_string`. */
  function Decimal(n: int): (s: string)
    ensures |s| > 0 && (s[0] == '-' || IsDigit(s[0])) && forall k | 1 <= k < |s| :: IsDigit(s[k])
    ensures IsDigit(s[|s| - 1])
  {
    if n < 0 then "-" + DigitsOf(-n) else DigitsOf(n)
  }

  lemma {:induction false} DigitsReadBack(n: nat)
    ensures DigitsValue(DigitsOf(n)) == n
  {
    var s := DigitsOf(n);
    if n >= 10 {
      assert s[..|s| - 1] == DigitsOf(n / 10);
      DigitsReadBack(n / 10);
    }
  }

  /** Different numbers print differently. */
  lemma {:induction false} DigitsDiffer(m: nat, n: nat)
    ensures DigitsOf(m) == DigitsOf(n) <==> m == n
  {
    DigitsReadBack(m);
    DigitsReadBack(n);
  }
}
