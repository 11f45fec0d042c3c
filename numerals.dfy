/** Option, as the handlers and parsers below use it. */
module Wrappers {
  datatype Option<+T> = None | Some(value: T)
}

/**
 * Digit strings in base 10 and base 16: the decimal rendering JavaScript uses
 * for `"demo-session-" + Date.now()` and for the chain IDs written in hex in
 * the network table.
 */
module Numerals {
  import opened Wrappers

  function Pow(b: nat, k: nat): (r: nat)
    ensures b > 0 ==> r > 0
    ensures k > 0 ==> r == b * Pow(b, k - 1)
  {
    if k == 0 then 1 else b * Pow(b, k - 1)
  }

  /** The value of a digit character; letters count in either case. */
  function DigitValue(c: char): (r: Option<nat>)
    ensures r.Some? ==> r.value < 16
  {
    if '0' <= c <= '9' then Some(c as int - '0' as int)
    else if 'a' <= c <= 'f' then Some(c as int - 'a' as int + 10)
    else if 'A' <= c <= 'F' then Some(c as int - 'A' as int + 10)
    else None
  }

  /** The lower-case character of a digit below 16. */
  function DigitChar(d: nat): (c: char)
    requires d < 16
    ensures DigitValue(c) == Some(d)
    ensures c != '.' && c != '-'
  {
    if d < 10 then ('0' as int + d) as char else ('a' as int + d - 10) as char
  }

  predicate IsDigit(c: char, base: nat) {
    DigitValue(c).Some? && DigitValue(c).value < base
  }

  predicate AllDigits(s: string, base: nat) {
    forall i :: 0 <= i < |s| ==> IsDigit(s[i], base)
  }

  /** The value of a digit string, most significant digit first; "" is 0. */
  function DigitsValue(s: string, base: nat): nat
    requires AllDigits(s, base)
  {
    if s == [] then 0
    else DigitsValue(s[..|s| - 1], base) * base + DigitValue(s[|s| - 1]).value
  }

  /** A non-empty digit string read in `base`; anything else is refused. */
  function ParseNat(s: string, base: nat): (r: Option<nat>)
    ensures r.Some? <==> s != [] && AllDigits(s, base)
  {
    if s != [] && AllDigits(s, base) then Some(DigitsValue(s, base)) else None
  }

  /** The shortest digit string of `n` in `base` (no leading zeros, "0" for zero). */
  function ShowNat(n: nat, base: nat): (s: string)
    requires 2 <= base <= 16
    ensures s != [] && AllDigits(s, base)
    ensures |s| > 1 ==> s[0] != '0'
    decreases n
  {
    if n < base then [DigitChar(n)]
    else
      DivStep(n, base);
      var hi := ShowNat(n / base, base);
      AppendDigit(hi, n % base, base);
      hi + [DigitChar(n % base)]
  }

  /** The facts about `n / base` and `n % base` that the digit recursion needs. */
  lemma DivStep(n: nat, base: nat)
    requires 2 <= base && base <= n
    ensures 0 < n / base < n && n % base < base
    ensures n == n / base * base + n % base
  {
  }

  lemma AppendDigit(s: string, d: nat, base: nat)
    requires AllDigits(s, base) && d < base <= 16
    ensures AllDigits(s + [DigitChar(d)], base)
    ensures (s + [DigitChar(d)])[..|s|] == s
  {
    var t := s + [DigitChar(d)];
    forall i | 0 <= i < |t| ensures IsDigit(t[i], base) {
      if i < |s| { assert t[i] == s[i]; }
    }
  }

  function Zeros(k: nat): (s: string)
    ensures |s| == k && AllDigits(s, 10)
    ensures forall i :: 0 <= i < k ==> s[i] == '0'
  {
    seq(k, _ => '0')
  }

  lemma {:induction false} ShowNatRoundTrip(n: nat, base: nat)
    requires 2 <= base <= 16
    ensures DigitsValue(ShowNat(n, base), base) == n
    ensures ParseNat(ShowNat(n, base), base) == Some(n)
    decreases n
  {
    if n >= base {
      DivStep(n, base);
      var q, d := n / base, n % base;
      var s := ShowNat(n, base);
      var hi := ShowNat(q, base);
      assert s == hi + [DigitChar(d)];
      assert s[..|s| - 1] == hi;
      ShowNatRoundTrip(q, base);
      assert DigitsValue(s, base) == DigitsValue(hi, base) * base + d;
    }
  }

  /** Two digit strings in the same base concatenate to a digit string. */
  lemma AllDigitsConcat(a: string, b: string, base: nat)
    requires AllDigits(a, base) && AllDigits(b, base)
    ensures AllDigits(a + b, base)
  {
    var t := a + b;
    forall i | 0 <= i < |t| ensures IsDigit(t[i], base) {
      if i < |a| { assert t[i] == a[i]; } else { assert t[i] == b[i - |a|]; }
    }
  }

  lemma Regroup(x: int, p: int, y: int, base: int, d: int)
    ensures (x * p + y) * base + d == x * (p * base) + (y * base + d)
  {
  }

  lemma {:induction false} DigitsValueAppend(a: string, b: string, base: nat)
    requires AllDigits(a, base) && AllDigits(b, base)
    ensures AllDigits(a + b, base)
    ensures DigitsValue(a + b, base) == DigitsValue(a, base) * Pow(base, |b|) + DigitsValue(b, base)
    decreases |b|
  {
    AllDigitsConcat(a, b, base);
    if b == [] {
      assert a + b == a;
    } else {
      var b' := b[..|b| - 1];
      var d := DigitValue(b[|b| - 1]).value;
      assert (a + b)[..|a + b| - 1] == a + b';
      assert (a + b)[|a + b| - 1] == b[|b| - 1];
      DigitsValueAppend(a, b', base);
      var x, p, y := DigitsValue(a, base), Pow(base, |b'|), DigitsValue(b', base);
      assert DigitsValue(b, base) == y * base + d;
      assert DigitsValue(a + b, base) == DigitsValue(a + b', base) * base + d;
      assert Pow(base, |b|) == p * base;
      Regroup(x, p, y, base, d);
    }
  }

  /** Appending one digit multiplies by the base and adds the digit. */
  lemma DigitsValueSnoc(s: string, c: char, base: nat)
    requires AllDigits(s, base) && IsDigit(c, base)
    ensures AllDigits(s + [c], base)
    ensures DigitsValue(s + [c], base) == DigitsValue(s, base) * base + DigitValue(c).value
  {
    AllDigitsConcat(s, [c], base);
    assert (s + [c])[..|s|] == s;
  }

  lemma {:induction false} ZerosValue(k: nat)
    ensures DigitsValue(Zeros(k), 10) == 0
  {
    if k > 0 {
      assert Zeros(k)[..k - 1] == Zeros(k - 1);
      ZerosValue(k - 1);
    }
  }

  /** Leading zeros do not change the value of a decimal digit string. */
  lemma LeadingZeros(k: nat, s: string)
    requires AllDigits(s, 10)
    ensures AllDigits(Zeros(k) + s, 10)
    ensures DigitsValue(Zeros(k) + s, 10) == DigitsValue(s, 10)
  {
    DigitsValueAppend(Zeros(k), s, 10);
    ZerosValue(k);
  }

  /** A number below base^k has at most k digits. */
  lemma {:induction false} ShowNatLength(n: nat, base: nat, k: nat)
    requires 2 <= base <= 16 && 1 <= k
    requires n < Pow(base, k)
    ensures |ShowNat(n, base)| <= k
    decreases n
  {
    if n >= base {
      assert Pow(base, 1) == base;
      assert k != 1;
      DivStep(n, base);
      var q := n / base;
      var p := Pow(base, k - 1);
      assert Pow(base, k) == base * p;
      QuotientBound(n, base, p);
      ShowNatLength(q, base, k - 1);
      assert ShowNat(n, base) == ShowNat(q, base) + [DigitChar(n % base)];
    }
  }

  lemma QuotientBound(n: nat, base: nat, p: nat)
    requires 2 <= base && n < base * p
    ensures n / base < p
  {
    assert n / base * base <= n;
    MulCancel(n / base, p, base);
  }

  lemma MulCancel(a: nat, b: nat, c: nat)
    requires a * c < b * c
    ensures a < b
  {
  }

  /** Text of a number as JavaScript writes it with `String(n)` or `"" + n`. */
  function DecimalString(n: nat): (s: string)
    ensures ParseNat(s, 10) == Some(n)
  {
    ShowNatRoundTrip(n, 10);
    ShowNat(n, 10)
  }

  /** "0x" followed by hex digits, as chain IDs are written; anything else is refused. */
  function ParseHex(s: string): (r: Option<nat>)
    ensures r.Some? ==> |s| > 2 && s[..2] == "0x"
  {
    if |s| > 2 && s[..2] == "0x" then ParseNat(s[2..], 16) else None
  }

  /** Lower-case hex with the "0x" prefix and no leading zeros. */
  function ToHex(n: nat): (s: string)
  {
    "0x" + ShowNat(n, 16)
  }

  lemma HexRoundTrip(n: nat)
    ensures ParseHex(ToHex(n)) == Some(n)
  {
    var s := ToHex(n);
    assert s[..2] == "0x" && s[2..] == ShowNat(n, 16);
    ShowNatRoundTrip(n, 16);
  }
}
