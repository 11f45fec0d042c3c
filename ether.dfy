/**
 * Ether amounts as decimal text and as integer wei (10^18 wei to one ether),
 * the way the ethers library reads and writes them: `parseEther` turns the
 * entry-fee text into the wei value sent with `startGame`, and `formatEther`
 * renders a wei value back as text.
 */
module Ether {
  import opened Wrappers
  import opened Numerals

  const Decimals: nat := 18

  function WeiPerEther(): (r: nat)
    ensures r > 0
  {
    Pow(10, Decimals)
  }

  /** The position of the first occurrence of `c`, if any. */
  function IndexOf(s: string, c: char): (r: Option<nat>)
    ensures r.Some? ==> r.value < |s| && s[r.value] == c && c !in s[..r.value]
    ensures r.None? ==> c !in s
  {
    if s == [] then None
    else if s[0] == c then Some(0)
    else
      match IndexOf(s[1..], c)
      case None => None
      case Some(i) =>
        assert s[..i + 1] == [s[0]] + s[1..][..i];
        Some(i + 1)
  }

  /** The whole-number digits and the fraction digits of a decimal text. */
  function SplitPoint(s: string): (r: (string, string))
  {
    match IndexOf(s, '.')
    case None => (s, "")
    case Some(i) => (s[..i], s[i + 1..])
  }

  /** The fraction digits as exactly 18 digits: padded with zeros, or cut after the 18th. */
  function Fraction18(frac: string): (r: string)
    requires AllDigits(frac, 10)
    ensures |r| == Decimals && AllDigits(r, 10)
  {
    if |frac| <= Decimals then frac + Zeros(Decimals - |frac|) else frac[..Decimals]
  }

  /**
   * `parseEther`: digits, an optional point and more digits, with at least
   * one digit in all; digits past the 18th decimal place must be zeros.
   * Everything else (in ethers: an exception) is None.
   */
  function ParseEther(s: string): (r: Option<nat>)
  {
    var (whole, frac) := SplitPoint(s);
    if AllDigits(whole, 10) && AllDigits(frac, 10) && |whole| + |frac| > 0
       && (forall i :: Decimals <= i < |frac| ==> frac[i] == '0')
    then
      AllDigitsConcat(frac, Zeros(0), 10);
      Some(DigitsValue(whole, 10) * WeiPerEther() + DigitsValue(Fraction18(frac), 10))
    else None
  }

  /** Drops trailing zeros but keeps at least one digit. */
  function TrimTrailingZeros(t: string): (r: string)
    ensures |r| <= |t| && r == t[..|r|]
    ensures |t| >= 1 ==> |r| >= 1
    ensures forall i :: |r| <= i < |t| ==> t[i] == '0'
  {
    if |t| > 1 && t[|t| - 1] == '0' then TrimTrailingZeros(t[..|t| - 1]) else t
  }

  /** The 18-digit fraction of a wei value, with leading zeros. */
  function FractionDigits(w: nat): (t: string)
    ensures |t| == Decimals && AllDigits(t, 10)
    ensures DigitsValue(t, 10) == w % WeiPerEther()
  {
    var f := w % WeiPerEther();
    var digits := ShowNat(f, 10);
    ShowNatLength(f, 10, Decimals);
    ShowNatRoundTrip(f, 10);
    LeadingZeros(Decimals - |digits|, digits);
    Zeros(Decimals - |digits|) + digits
  }

  /**
   * `formatEther`: the whole ether without leading zeros, a point, and the
   * fraction without trailing zeros (at least one digit on either side).
   */
  function FormatEther(w: nat): (s: string)
  {
    ShowNat(w / WeiPerEther(), 10) + "." + TrimTrailingZeros(FractionDigits(w))
  }

  /** Reading back what formatEther wrote gives the same wei value. */
  lemma FormatParseRoundTrip(w: nat)
    ensures ParseEther(FormatEther(w)) == Some(w)
  {
    var whole := ShowNat(w / WeiPerEther(), 10);
    var full := FractionDigits(w);
    var frac := TrimTrailingZeros(full);
    PadTrimmed(full);
    ParseParts(whole, frac);
    ShowNatRoundTrip(w / WeiPerEther(), 10);
    WholeAndFraction(w, WeiPerEther());
  }

  lemma WholeAndFraction(w: nat, unit: nat)
    requires unit > 0
    ensures w / unit * unit + w % unit == w
  {
  }

  /** A point after whole digits is the first point. */
  lemma SplitAtPoint(whole: string, frac: string)
    requires AllDigits(whole, 10)
    ensures SplitPoint(whole + "." + frac) == (whole, frac)
  {
    var s := whole + "." + frac;
    assert '.' !in whole by {
      forall i | 0 <= i < |whole| ensures whole[i] != '.' { assert IsDigit(whole[i], 10); }
    }
    IndexOfFirst(whole, '.', frac);
    assert s[..|whole|] == whole && s[|whole| + 1..] == frac;
  }

  lemma {:induction false} IndexOfFirst(a: string, c: char, b: string)
    requires c !in a
    ensures IndexOf(a + [c] + b, c) == Some(|a|)
  {
    var s := a + [c] + b;
    if a == [] {
      assert s[0] == c;
    } else {
      assert s[0] == a[0];
      assert s[1..] == a[1..] + [c] + b;
      IndexOfFirst(a[1..], c, b);
    }
  }

  /** Padding a trimmed 18-digit fraction back to 18 digits restores it. */
  lemma PadTrimmed(full: string)
    requires |full| == Decimals && AllDigits(full, 10)
    ensures AllDigits(TrimTrailingZeros(full), 10)
    ensures Fraction18(TrimTrailingZeros(full)) == full
  {
    var frac := TrimTrailingZeros(full);
    assert AllDigits(frac, 10) by {
      forall i | 0 <= i < |frac| ensures IsDigit(frac[i], 10) { assert frac[i] == full[i]; }
    }
    var padded := frac + Zeros(Decimals - |frac|);
    forall i | 0 <= i < Decimals ensures padded[i] == full[i] {
      if i < |frac| { assert padded[i] == frac[i]; }
    }
  }

  /** "0." followed by at most 18 digits is that many units of the matching power of ten in wei. */
  lemma ParseFraction(d: string)
    requires AllDigits(d, 10) && 1 <= |d| <= Decimals
    ensures ParseEther("0." + d) == Some(DigitsValue(d, 10) * Pow(10, Decimals - |d|))
  {
    ZeroPoint(d);
    ZeroDigit();
    ParseNoWhole("0", d);
    Fraction18Value(d);
  }

  lemma ZeroPoint(d: string)
    ensures "0." + d == "0" + "." + d
  {
  }

  lemma ZeroDigit()
    ensures AllDigits("0", 10) && DigitsValue("0", 10) == 0
  {
    assert IsDigit('0', 10) && "0"[..0] == "";
  }

  /** A fraction after whole digits worth nothing is the fraction alone. */
  lemma ParseNoWhole(whole: string, frac: string)
    requires AllDigits(whole, 10) && AllDigits(frac, 10) && whole != [] && |frac| <= Decimals
    requires DigitsValue(whole, 10) == 0
    ensures ParseEther(whole + "." + frac) == Some(DigitsValue(Fraction18(frac), 10))
  {
    ParseParts(whole, frac);
  }

  /** Whole digits, a point and at most 18 fraction digits parse to their value in wei. */
  lemma ParseParts(whole: string, frac: string)
    requires AllDigits(whole, 10) && AllDigits(frac, 10) && whole != [] && |frac| <= Decimals
    ensures ParseEther(whole + "." + frac) ==
      Some(DigitsValue(whole, 10) * WeiPerEther() + DigitsValue(Fraction18(frac), 10))
  {
    SplitAtPoint(whole, frac);
  }

  lemma Fraction18Value(d: string)
    requires AllDigits(d, 10) && 1 <= |d| <= Decimals
    ensures DigitsValue(Fraction18(d), 10) == DigitsValue(d, 10) * Pow(10, Decimals - |d|)
  {
    var k := Decimals - |d|;
    DigitsValueAppend(d, Zeros(k), 10);
    ZerosValue(k);
  }

  /** Digits without a point are whole ether. */
  lemma ParseWhole(d: string)
    requires AllDigits(d, 10) && d != []
    ensures ParseEther(d) == Some(DigitsValue(d, 10) * WeiPerEther())
  {
    assert '.' !in d by {
      forall i | 0 <= i < |d| ensures d[i] != '.' { assert IsDigit(d[i], 10); }
    }
    assert SplitPoint(d) == (d, "");
    assert Fraction18("") == Zeros(Decimals);
    ZerosValue(Decimals);
  }
}
