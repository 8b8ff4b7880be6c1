/** Decimal notation of counters, and why ids that end in one are distinct. */
module Decimal {

  predicate IsDigit(c: char) { '0' <= c <= '9' }

  /** The decimal digits of n, most significant first. */
  function Digits(n: nat): (s: string)
    ensures |s| > 0 && forall c <- s :: IsDigit(c)
    ensures n >= 10 ==> |s| > 1
  {
    if n < 10 then [DigitChar(n)] else Digits(n / 10) + [DigitChar(n % 10)]
  }

  function DigitChar(d: nat): (c: char)
    requires d < 10
    ensures IsDigit(c) && c as int - '0' as int == d
  {
    ('0' as int + d) as char
  }

  /** The number a string of digits stands for. */
  function Reading(s: string): nat
    requires forall c <- s :: IsDigit(c)
  {
    if s == [] then 0
    else
      assert s[|s| - 1] in s && IsDigit(s[|s| - 1]);
      assert s[|s| - 1] as int >= '0' as int;
      10 * Reading(s[..|s| - 1]) + (s[|s| - 1] as int - '0' as int)
  }

  /** Digits are read back as the number, and have no leading zero. */
  lemma {:induction false} DigitsReadBack(n: nat)
    ensures Reading(Digits(n)) == n
    ensures n > 0 ==> Digits(n)[0] != '0'
  {
    if n >= 10 {
      DigitsReadBack(n / 10);
      assert Digits(n)[..|Digits(n)| - 1] == Digits(n / 10);
    } else {
      assert Digits(n)[..0] == [];
    }
  }

  lemma {:induction false} DigitsInjective(m: nat, n: nat)
    requires Digits(m) == Digits(n)
    ensures m == n
  {
    var a, b := Digits(m), Digits(n);
    assert a[|a| - 1] == b[|b| - 1];
    if m >= 10 && n >= 10 {
      assert a[..|a| - 1] == Digits(m / 10);
      assert b[..|b| - 1] == Digits(n / 10);
      DigitsInjective(m / 10, n / 10);
    }
  }

  /** A counter written after an underscore can be read back, whatever precedes it. */
  lemma SuffixDeterminesCounter(x: string, m: nat, y: string, n: nat)
    requires x + "_" + Digits(m) == y + "_" + Digits(n)
    ensures m == n
  {
    var s, a, b := x + "_" + Digits(m), Digits(m), Digits(n);
    assert s[|x|] == '_' && s[|y|] == '_';
    assert !IsDigit('_');
    assert forall i | |x| < i < |s| :: s[i] == a[i - |x| - 1] && IsDigit(s[i]);
    assert forall i | |y| < i < |s| :: s[i] == b[i - |y| - 1] && IsDigit(s[i]);
    assert !(|x| < |y| < |s|) && !(|y| < |x| < |s|);
    assert s[|x| + 1..] == a && s[|y| + 1..] == b;
    DigitsInjective(m, n);
  }
}
