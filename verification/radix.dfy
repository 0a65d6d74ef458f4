/** Positional notation as produced by JavaScript's `Number.prototype.toString(radix)` on non-negative integers. */
module Radix {

  /** The digit characters, in value order: `"0123456789abcdefghijklmnopqrstuvwxyz"`. */
  function DigitChar(d: nat): (c: char)
    requires d < 36
    ensures ('0' <= c <= '9') || ('a' <= c <= 'z')
  {
    if d < 10 then ('0' as int + d) as char else ('a' as int + d - 10) as char
  }

  /** Inverse of DigitChar on digit characters; any other character reads as 0. */
  function DigitValue(c: char): nat {
    if '0' <= c <= '9' then c as int - '0' as int
    else if 'a' <= c <= 'z' then c as int - 'a' as int + 10
    else 0
  }

  predicate IsDigitOf(c: char, base: nat) {
    (('0' <= c <= '9') || ('a' <= c <= 'z')) && DigitValue(c) < base
  }

  lemma DigitRoundTrip(d: nat, base: nat)
    requires d < base <= 36
    ensures DigitValue(DigitChar(d)) == d
    ensures IsDigitOf(DigitChar(d), base)
  {
  }

  lemma DivModBase(n: nat, base: nat)
    requires 2 <= base && n >= base
    ensures n / base < n && n % base < base
    ensures n == (n / base) * base + n % base
  {
  }

  /** `n.toString(base)`: most significant digit first, no leading zero except for `n == 0`. */
  function ToRadix(n: nat, base: nat): (s: string)
    requires 2 <= base <= 36
    ensures |s| >= 1
    ensures forall i | 0 <= i < |s| :: IsDigitOf(s[i], base)
    ensures |s| > 1 ==> s[0] != '0'
    decreases n
  {
    if n < base then
      DigitRoundTrip(n, base);
      [DigitChar(n)]
    else
      DivModBase(n, base);
      DigitRoundTrip(n % base, base);
      ToRadix(n / base, base) + [DigitChar(n % base)]
  }

  /** The value of a digit string read in `base`. */
  function FromRadix(s: string, base: nat): nat {
    if |s| == 0 then 0 else FromRadix(s[..|s| - 1], base) * base + DigitValue(s[|s| - 1])
  }

  /** Reading back what ToRadix wrote gives the original number. */
  lemma {:induction false} FromToRadix(n: nat, base: nat)
    requires 2 <= base <= 36
    ensures FromRadix(ToRadix(n, base), base) == n
    decreases n
  {
    var s := ToRadix(n, base);
    if n < base {
      DigitRoundTrip(n, base);
      assert s[..0] == [];
    } else {
      DivModBase(n, base);
      DigitRoundTrip(n % base, base);
      FromToRadix(n / base, base);
      assert s[..|s| - 1] == ToRadix(n / base, base);
      assert s[|s| - 1] == DigitChar(n % base);
    }
  }

  /** Distinct numbers have distinct representations. */
  lemma ToRadixInjective(m: nat, n: nat, base: nat)
    requires 2 <= base <= 36
    requires ToRadix(m, base) == ToRadix(n, base)
    ensures m == n
  {
    FromToRadix(m, base);
    FromToRadix(n, base);
  }
}
