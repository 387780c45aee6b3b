/** Unsigned integers in decimal, as Rust prints and parses them. */
module Numbers {
  import opened Wrappers
  import opened Text

  const MAX_U16 := 0xFFFF
  const MAX_U64 := 0xFFFF_FFFF_FFFF_FFFF

  predicate IsDigit(c: char) {
    '0' <= c <= '9'
  }

  function Digit(n: nat): char
    requires n < 10
  {
    '0' + n as char
  }

  function ToDecimal(n: nat): (s: string)
    ensures s != []
  {
    if n < 10 then [Digit(n)] else ToDecimal(n / 10) + [Digit(n % 10)]
  }

  predicate AllDigits(s: string) {
    forall i :: 0 <= i < |s| ==> IsDigit(s[i])
  }

  function DigitsValue(s: string): nat
    requires AllDigits(s)
  {
    if s == [] then 0 else 10 * DigitsValue(s[..|s| - 1]) + (s[|s| - 1] - '0') as int
  }

  /** `str::parse` for an unsigned type: one optional plus sign, at least one digit, and no overflow. */
  function ParseUnsigned(s: string, max: nat): Option<nat> {
    var digits := if s != [] && s[0] == '+' then s[1..] else s;
    if digits == [] || !AllDigits(digits) || DigitsValue(digits) > max then None else Some(DigitsValue(digits))
  }

  lemma {:induction false} DecimalDigits(n: nat)
    ensures AllDigits(ToDecimal(n)) && DigitsValue(ToDecimal(n)) == n
  {
    if n >= 10 {
      DecimalDigits(n / 10);
      assert ToDecimal(n)[..|ToDecimal(n)| - 1] == ToDecimal(n / 10);
    }
  }

  /** A printed number in range is parsed back. */
  lemma DecimalReadsBack(n: nat, max: nat)
    ensures ParseUnsigned(ToDecimal(n), max) == if n <= max then Some(n) else None
  {
    DecimalDigits(n);
    assert IsDigit(ToDecimal(n)[0]);
  }

  lemma DecimalIsPlain(n: nat)
    ensures IsTrimmed(ToDecimal(n))
    ensures forall c :: !IsDigit(c) ==> c !in ToDecimal(n)
  {
    DecimalDigits(n);
    assert IsDigit(ToDecimal(n)[0]) && IsDigit(ToDecimal(n)[|ToDecimal(n)| - 1]);
  }

  // ----- What is read as a number -----

  function Zeros(k: nat): string {
    seq(k, _ => '0')
  }

  /** The decimal form of `n` with any number of zeros in front. */
  ghost predicate IsPadded(s: string, n: nat) {
    exists k: nat :: s == Zeros(k) + ToDecimal(n)
  }

  lemma {:induction false} PaddedDigits(k: nat, n: nat)
    ensures AllDigits(Zeros(k) + ToDecimal(n)) && DigitsValue(Zeros(k) + ToDecimal(n)) == n
    decreases n
  {
    var s := Zeros(k) + ToDecimal(n);
    DecimalDigits(n);
    if n < 10 {
      assert s[..|s| - 1] == Zeros(k);
      ZerosDigits(k);
    } else {
      assert s[..|s| - 1] == Zeros(k) + ToDecimal(n / 10);
      PaddedDigits(k, n / 10);
    }
  }

  lemma {:induction false} ZerosDigits(k: nat)
    ensures AllDigits(Zeros(k)) && DigitsValue(Zeros(k)) == 0
  {
    if k > 0 {
      assert Zeros(k)[..k - 1] == Zeros(k - 1);
      ZerosDigits(k - 1);
    }
  }

  lemma LastDigit(s: string)
    requires AllDigits(s) && s != []
    ensures exists d: nat :: d < 10 && s == s[..|s| - 1] + [Digit(d)]
                             && DigitsValue(s) == 10 * DigitsValue(s[..|s| - 1]) + d
  {
    assert IsDigit(s[|s| - 1]);
    var d := (s[|s| - 1] - '0') as nat;
    assert d < 10 && s == s[..|s| - 1] + [Digit(d)];
  }

  lemma OneDigitMore(front: string, n: nat, d: nat)
    requires IsPadded(front, n) && d < 10
    ensures IsPadded(front + [Digit(d)], 10 * n + d)
  {
    var k: nat :| front == Zeros(k) + ToDecimal(n);
    if n == 0 {
      assert front + [Digit(d)] == Zeros(k + 1) + ToDecimal(d);
    } else {
      assert (10 * n + d) / 10 == n && (10 * n + d) % 10 == d;
      assert front + [Digit(d)] == Zeros(k) + (ToDecimal(n) + [Digit(d)]);
    }
  }

  lemma {:induction false} DigitsArePadded(s: string)
    requires AllDigits(s) && s != []
    ensures IsPadded(s, DigitsValue(s))
  {
    hide Digit, ToDecimal, IsPadded;
    var front := s[..|s| - 1];
    LastDigit(s);
    var d: nat :| d < 10 && s == front + [Digit(d)] && DigitsValue(s) == 10 * DigitsValue(front) + d;
    if front == [] {
      OneDigit(d);
      assert s == [Digit(d)];
    } else {
      DigitsArePadded(front);
      OneDigitMore(front, DigitsValue(front), d);
    }
  }

  lemma OneDigit(d: nat)
    requires d < 10
    ensures IsPadded([Digit(d)], d)
  {
    assert [Digit(d)] == Zeros(0) + ToDecimal(d);
  }

  /** A text is read as `n` exactly if it is the decimal form of `n`, with zeros and one plus sign in front allowed, and
      `n` is in range. */
  lemma ParsesExactly(s: string, max: nat, n: nat)
    ensures ParseUnsigned(s, max) == Some(n)
            <==> n <= max && (IsPadded(s, n) || (s != [] && s[0] == '+' && IsPadded(s[1..], n)))
  {
    var digits := if s != [] && s[0] == '+' then s[1..] else s;
    if AllDigits(digits) && digits != [] { DigitsArePadded(digits); }
    if k: nat :| s == Zeros(k) + ToDecimal(n) {
      PaddedDigits(k, n);
      assert IsDigit(s[0]);
    }
    if s != [] && s[0] == '+' {
      if k: nat :| s[1..] == Zeros(k) + ToDecimal(n) { PaddedDigits(k, n); }
    }
  }
}
