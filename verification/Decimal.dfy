/** Decimal printing and Rust's checked unsigned parsing (`str::parse::<uN>`). */
module Decimal {
  import opened Prelude

  predicate IsDigit(c: char) { '0' <= c <= '9' }

  function DigitValue(c: char): (d: nat)
    requires IsDigit(c)
    ensures d < 10
  {
    (c as int) - ('0' as int)
  }

  function DigitChar(d: nat): (c: char)
    requires d < 10
    ensures IsDigit(c) && DigitValue(c) == d
  {
    (('0' as int) + d) as char
  }

  predicate AllDigits(s: string) { forall i | 0 <= i < |s| :: IsDigit(s[i]) }

  function Value(s: string): nat
    requires AllDigits(s)
  {
    if s == "" then 0 else Value(s[..|s| - 1]) * 10 + DigitValue(s[|s| - 1])
  }

  /** The shortest decimal numeral of n, as `{}` prints it. */
  function Show(n: nat): (s: string)
    ensures |s| > 0
  {
    if n < 10 then [DigitChar(n)] else Show(n / 10) + [DigitChar(n % 10)]
  }

  /** One leading '+' is dropped, unless it stands alone. */
  function StripPlus(s: string): string { if |s| > 1 && s[0] == '+' then s[1..] else s }

  function ParseUnsigned(s: string, max: nat): (r: Option<nat>)
    ensures r.Some? ==> r.value <= max
  {
    var digits := StripPlus(s);
    if digits == "" || !AllDigits(digits) || Value(digits) > max then None else Some(Value(digits))
  }

  lemma {:induction false} ShowValue(n: nat)
    ensures AllDigits(Show(n)) && Value(Show(n)) == n
  {
    if n >= 10 {
      ShowValue(n / 10);
      assert Show(n)[..|Show(n)| - 1] == Show(n / 10);
    } else {
      assert Show(n)[..0] == "";
    }
  }

  lemma {:induction false} ParseShow(n: nat, max: nat)
    ensures ParseUnsigned(Show(n), max) == if n <= max then Some(n) else None
  {
    ShowValue(n);
    assert IsDigit(Show(n)[0]);
  }

  /**
   What is accepted: a numeral of at most max, leading zeros allowed, after at most one plus sign; nothing
   empty, no other sign, no other character.
   */
  lemma {:induction false} ParseUnsignedAccepts(s: string, max: nat, n: nat)
    ensures ParseUnsigned(s, max) == Some(n) <==>
            n <= max && exists digits :: AllDigits(digits) && digits != "" && Value(digits) == n
                                         && (s == digits || s == "+" + digits)
  {
    if ParseUnsigned(s, max) == Some(n) {
      var digits := StripPlus(s);
      assert s == digits || s == "+" + digits;
    }
    if digits :| AllDigits(digits) && digits != "" && Value(digits) == n && (s == digits || s == "+" + digits) {
      assert IsDigit(digits[0]);
      assert StripPlus(s) == digits;
    }
  }

  function Pow10(w: nat): (p: nat)
    ensures p > 0
  {
    if w == 0 then 1 else 10 * Pow10(w - 1)
  }

  function Zeros(k: nat): (s: string)
    ensures |s| == k
    ensures forall i | 0 <= i < k :: s[i] == '0'
  {
    seq(k, _ => '0')
  }

  /** `{:0w}`: padded with zeros up to w characters, never cut. */
  function ZeroPad(n: nat, w: nat): string
  {
    var s := Show(n);
    if |s| < w then Zeros(w - |s|) + s else s
  }

  /** The w low-order decimal digits of n. */
  function Fixed(n: nat, w: nat): (s: string)
    ensures |s| == w
  {
    if w == 0 then "" else Fixed(n / 10, w - 1) + [DigitChar(n % 10)]
  }

  lemma {:induction false} FixedZero(w: nat)
    ensures Fixed(0, w) == Zeros(w)
  {
    if w > 0 {
      FixedZero(w - 1);
      assert Zeros(w) == Zeros(w - 1) + ['0'];
    }
  }

  lemma {:induction false} ZeroPadIsFixed(n: nat, w: nat)
    requires n < Pow10(w)
    requires w > 0
    ensures ZeroPad(n, w) == Fixed(n, w)
    ensures |Show(n)| <= w
  {
    if n < 10 {
      FixedZero(w - 1);
      assert n / 10 == 0 && n % 10 == n;
    } else {
      ZeroPadIsFixed(n / 10, w - 1);
      var s := Show(n / 10);
      assert Show(n) == s + [DigitChar(n % 10)];
      if |s| < w - 1 {
        assert Zeros(w - 1 - |s|) + (s + [DigitChar(n % 10)]) == (Zeros(w - 1 - |s|) + s) + [DigitChar(n % 10)];
      }
    }
  }
}
