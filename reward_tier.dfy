/**
 * The game-over screen's reward tier for a final score, the tier table it
 * duplicates, and the rules for the Claim and continue buttons.
 */
module RewardTier {
  import opened Wrappers
  import opened Numerals
  import opened ContractConfig
  import Ether

  /** The three texts the game-over screen shows for a final score. */
  datatype RewardInfo = RewardInfo(tier: string, multiplier: string, amount: string)

  /** `getRewardTier`: the first threshold from the top that the score reaches. */
  function GetRewardTier(score: int): RewardInfo
  {
    if score >= 5000 then RewardInfo("\U{1F48E} Diamond", "10x", "0.01 ETH")
    else if score >= 2000 then RewardInfo("\U{1F947} Gold", "5x", "0.005 ETH")
    else if score >= 1000 then RewardInfo("\U{1F948} Silver", "2x", "0.002 ETH")
    else if score >= 500 then RewardInfo("\U{1F949} Bronze", "1x", "0.001 ETH")
    else RewardInfo("\U{274C} No Reward", "0x", "0 ETH")
  }

  /** The number in a multiplier text such as "5x". */
  function MultiplierValue(text: string): Option<nat>
  {
    if |text| >= 2 && text[|text| - 1] == 'x' then ParseNat(text[..|text| - 1], 10) else None
  }

  /** The wei value of an amount text such as "0.005 ETH". */
  function AmountWei(text: string): Option<nat>
  {
    if |text| >= 4 && text[|text| - 4..] == " ETH" then Ether.ParseEther(text[..|text| - 4]) else None
  }

  /**
   * Resolution through a tier table: the multiplier of the last entry whose
   * threshold the score reaches, or 0 if it reaches none.
   */
  function TableMultiplier(t: seq<TierEntry>, score: int): nat
  {
    if t == [] then 0
    else if t[|t| - 1].score <= score then t[|t| - 1].multiplier
    else TableMultiplier(t[..|t| - 1], score)
  }

  ghost predicate HighestReached(t: seq<TierEntry>, score: int, i: int) {
    0 <= i < |t| && t[i].score <= score &&
    forall j :: 0 <= j < |t| && t[j].score <= score ==> t[j].score <= t[i].score
  }

  /**
   * On a table with increasing thresholds, TableMultiplier picks the entry with
   * the highest threshold not above the score, and 0 when the score is below
   * every threshold.
   */
  lemma {:induction false} TableMultiplierIsHighest(t: seq<TierEntry>, score: int)
    requires ThresholdsIncreasing(t)
    ensures (forall j :: 0 <= j < |t| ==> t[j].score > score) ==> TableMultiplier(t, score) == 0
    ensures forall i :: HighestReached(t, score, i) ==> TableMultiplier(t, score) == t[i].multiplier
  {
    NoneReachedGivesZero(t, score);
    HighestReachedResolves(t, score);
  }

  lemma {:induction false} NoneReachedGivesZero(t: seq<TierEntry>, score: int)
    ensures (forall j :: 0 <= j < |t| ==> t[j].score > score) ==> TableMultiplier(t, score) == 0
  {
    if forall j :: 0 <= j < |t| ==> t[j].score > score {
      NoneReached(t, score);
    }
  }

  lemma {:induction false} HighestReachedResolves(t: seq<TierEntry>, score: int)
    requires ThresholdsIncreasing(t)
    ensures forall i :: HighestReached(t, score, i) ==> TableMultiplier(t, score) == t[i].multiplier
  {
    forall i | HighestReached(t, score, i) ensures TableMultiplier(t, score) == t[i].multiplier {
      HighestResolves(t, score, i);
    }
  }

  lemma {:induction false} NoneReached(t: seq<TierEntry>, score: int)
    requires forall j :: 0 <= j < |t| ==> t[j].score > score
    ensures TableMultiplier(t, score) == 0
  {
    if t != [] {
      var p := t[..|t| - 1];
      forall j | 0 <= j < |p| ensures p[j].score > score { assert p[j] == t[j]; }
      NoneReached(p, score);
    }
  }

  lemma {:induction false} HighestResolves(t: seq<TierEntry>, score: int, i: int)
    requires ThresholdsIncreasing(t) && HighestReached(t, score, i)
    ensures TableMultiplier(t, score) == t[i].multiplier
  {
    var n := |t| - 1;
    if t[n].score <= score {
      HighestIsLast(t, score, i);
    } else {
      var p := t[..n];
      PrefixIncreasing(t);
      HighestInPrefix(t, score, i);
      HighestResolves(p, score, i);
      assert p[i] == t[i];
    }
  }

  lemma PrefixIncreasing(t: seq<TierEntry>)
    requires ThresholdsIncreasing(t) && t != []
    ensures ThresholdsIncreasing(t[..|t| - 1])
  {
    var p := t[..|t| - 1];
    forall i, j | 0 <= i < j < |p| ensures p[i].score < p[j].score {
      assert p[i] == t[i] && p[j] == t[j];
    }
  }

  lemma HighestIsLast(t: seq<TierEntry>, score: int, i: int)
    requires ThresholdsIncreasing(t) && HighestReached(t, score, i)
    requires t[|t| - 1].score <= score
    ensures i == |t| - 1
  {
    assert t[|t| - 1].score <= t[i].score;
  }

  lemma HighestInPrefix(t: seq<TierEntry>, score: int, i: int)
    requires HighestReached(t, score, i) && t[|t| - 1].score > score
    ensures HighestReached(t[..|t| - 1], score, i)
  {
    var p := t[..|t| - 1];
    forall j | 0 <= j < |p| && p[j].score <= score ensures p[j].score <= p[i].score {
      assert p[j] == t[j];
    }
  }

  ghost predicate MultipliersNonDecreasing(t: seq<TierEntry>) {
    forall i, j :: 0 <= i < j < |t| ==> t[i].multiplier <= t[j].multiplier
  }

  /** A higher score never resolves to a smaller multiplier. */
  lemma {:induction false} TableMultiplierMonotone(t: seq<TierEntry>, s1: int, s2: int)
    requires ThresholdsIncreasing(t) && MultipliersNonDecreasing(t)
    requires s1 <= s2
    ensures TableMultiplier(t, s1) <= TableMultiplier(t, s2)
  {
    if t != [] {
      var n := |t| - 1;
      var p := t[..n];
      assert ThresholdsIncreasing(p) && MultipliersNonDecreasing(p);
      TableMultiplierMonotone(p, s1, s2);
      if t[n].score > s1 && t[n].score <= s2 {
        TableMultiplierBound(p, s1, t[n].multiplier);
      }
    }
  }

  /** Every multiplier a table resolves to is at most a bound on its entries' multipliers. */
  lemma {:induction false} TableMultiplierBound(t: seq<TierEntry>, score: int, bound: nat)
    requires forall i :: 0 <= i < |t| ==> t[i].multiplier <= bound
    ensures TableMultiplier(t, score) <= bound
  {
    if t != [] {
      TableMultiplierBound(t[..|t| - 1], score, bound);
    }
  }

  /** TableMultiplier on the configured table, written out. */
  lemma RewardTiersResolve(score: int)
    ensures TableMultiplier(RewardTiers, score) ==
      if score >= 5000 then 10 else if score >= 2000 then 5 else if score >= 1000 then 2
      else if score >= 500 then 1 else 0
  {
    var t := RewardTiers;
    var t3, t2, t1 := t[..3], t[..3][..2], t[..3][..2][..1];
    assert t3 == [t[0], t[1], t[2]] && t2 == [t[0], t[1]] && t1 == [t[0]] && t1[..0] == [];
    assert TableMultiplier(t1, score) == if score >= 500 then 1 else 0;
    assert TableMultiplier(t2, score) == if score >= 1000 then 2 else TableMultiplier(t1, score);
    assert TableMultiplier(t3, score) == if score >= 2000 then 5 else TableMultiplier(t2, score);
    assert TableMultiplier(t, score) == if score >= 5000 then 10 else TableMultiplier(t3, score);
  }

  /** The tier the screen shows has the multiplier the tier table gives, for every score. */
  lemma GetRewardTierMatchesTable(score: int)
    ensures MultiplierValue(GetRewardTier(score).multiplier) == Some(TableMultiplier(RewardTiers, score))
  {
    RewardTiersResolve(score);
    var m := GetRewardTier(score).multiplier;
    assert m[..|m| - 1] == (if score >= 5000 then "10" else [m[0]]);
    if score >= 5000 {
      DigitsValueSnoc("1", '0', 10);
      assert DigitsValue("1", 10) == 1 by { assert "1"[..0] == ""; }
      assert "10" == "1" + ['0'];
    } else {
      assert DigitsValue([m[0]], 10) == DigitValue(m[0]).value by { assert [m[0]][..0] == ""; }
    }
  }

  /** The screen's multiplier never decreases as the score grows. */
  lemma GetRewardTierMonotone(s1: int, s2: int)
    requires s1 <= s2
    ensures MultiplierValue(GetRewardTier(s1).multiplier).Some?
    ensures MultiplierValue(GetRewardTier(s2).multiplier).Some?
    ensures MultiplierValue(GetRewardTier(s1).multiplier).value <= MultiplierValue(GetRewardTier(s2).multiplier).value
  {
    GetRewardTierMatchesTable(s1);
    GetRewardTierMatchesTable(s2);
    RewardTableOrdered();
    TableMultiplierMonotone(RewardTiers, s1, s2);
  }

  /** Thresholds are inclusive lower bounds, and the top tier has no upper bound. */
  lemma GetRewardTierBoundaries()
    ensures ShownMultiplier(499) == Some(0) && ShownMultiplier(500) == Some(1)
    ensures ShownMultiplier(999) == Some(1) && ShownMultiplier(1000) == Some(2)
    ensures ShownMultiplier(1999) == Some(2) && ShownMultiplier(2000) == Some(5)
    ensures ShownMultiplier(4999) == Some(5) && ShownMultiplier(5000) == Some(10)
    ensures forall s :: s >= 5000 ==> ShownMultiplier(s) == Some(10)
    ensures forall s :: s < 500 ==> ShownMultiplier(s) == Some(0)
  {
    forall s ensures ShownMultiplier(s) == Some(
      if s >= 5000 then 10 else if s >= 2000 then 5 else if s >= 1000 then 2 else if s >= 500 then 1 else 0)
    {
      RewardTiersResolve(s);
      GetRewardTierMatchesTable(s);
    }
  }

  /** The multiplier the game-over screen shows, read as a number. */
  function ShownMultiplier(score: int): Option<nat> {
    MultiplierValue(GetRewardTier(score).multiplier)
  }

  /** Each amount the screen shows is its multiplier times the entry fee, in wei. */
  lemma DisplayedAmountIsMultipleOfFee(score: int)
    ensures AmountWei(GetRewardTier(score).amount) == Some(TableMultiplier(RewardTiers, score) * EntryFeeInWei)
  {
    RewardTiersResolve(score);
    PowersOfTen();
    if score >= 5000 {
      DiamondAmount(score);
    } else if score >= 500 {
      PaidAmount(score);
    } else {
      NoAmount(score);
    }
  }

  lemma DiamondAmount(score: int)
    requires score >= 5000
    ensures AmountWei(GetRewardTier(score).amount) == Some(Pow(10, 16))
  {
    var d := "01";
    assert GetRewardTier(score).amount == "0." + d + " ETH";
    assert AllDigits(d, 10) && DigitsValue(d, 10) == 1 by {
      DigitsValueSnoc("0", '1', 10);
      assert d == "0" + ['1'];
    }
    UnitAmount(d);
  }

  /** Digits worth one, after the point, are one unit of the matching power of ten. */
  lemma UnitAmount(d: string)
    requires AllDigits(d, 10) && 1 <= |d| <= Ether.Decimals && DigitsValue(d, 10) == 1
    ensures AmountWei("0." + d + " ETH") == Some(Pow(10, Ether.Decimals - |d|))
  {
    AmountText(d);
  }

  /** Gold, Silver and Bronze: "0.00" and the multiplier digit. */
  lemma PaidAmount(score: int)
    requires 500 <= score < 5000
    ensures AmountWei(GetRewardTier(score).amount) == Some(TableMultiplier(RewardTiers, score) * Pow(10, 15))
  {
    RewardTiersResolve(score);
    var c := if score >= 2000 then '5' else if score >= 1000 then '2' else '1';
    assert GetRewardTier(score).amount == "0.00" + [c] + " ETH";
    AmountDigit(c);
  }

  lemma AmountDigit(c: char)
    requires '0' <= c <= '9'
    ensures AmountWei("0.00" + [c] + " ETH") == Some(DigitValue(c).value * Pow(10, 15))
  {
    var d := "00" + [c];
    assert "0.00" + [c] + " ETH" == "0." + d + " ETH";
    assert AllDigits(d, 10) && DigitsValue(d, 10) == DigitValue(c).value by {
      DigitsValueSnoc("00", c, 10);
      assert DigitsValue("00", 10) == 0 by {
        assert "00"[..1] == "0" && "0"[..0] == "";
      }
    }
    AmountText(d);
  }

  lemma NoAmount(score: int)
    requires score < 500
    ensures AmountWei(GetRewardTier(score).amount) == Some(0)
  {
    var amount := GetRewardTier(score).amount;
    assert amount[..|amount| - 4] == "0";
    assert amount[|amount| - 4..] == " ETH";
    assert DigitsValue("0", 10) == 0 by { assert "0"[..0] == ""; }
    Ether.ParseWhole("0");
  }

  lemma AmountText(d: string)
    requires AllDigits(d, 10) && 1 <= |d| <= Ether.Decimals
    ensures AmountWei("0." + d + " ETH") == Some(DigitsValue(d, 10) * Pow(10, Ether.Decimals - |d|))
  {
    var s := "0." + d + " ETH";
    assert s[..|s| - 4] == "0." + d;
    assert s[|s| - 4..] == " ETH";
    Ether.ParseFraction(d);
  }

  lemma PowersOfTen()
    ensures Pow(10, 15) == EntryFeeInWei
    ensures Pow(10, 16) == 10 * EntryFeeInWei
  {
    ContractConfig.EntryFeeInWeiIsPow();
  }

  // The buttons of the game-over screen.

  /** The Claim button is shown for an unclaimed reward of a score of at least 500. */
  predicate ShowClaimButton(rewardClaimed: bool, finalScore: int) {
    !rewardClaimed && finalScore >= 500
  }

  function ClaimButtonLabel(claiming: bool): string {
    if claiming then "Claiming..." else "Claim Reward"
  }

  /** The text of the button that always leads back to the menu. */
  function ContinueLabel(finalScore: int, rewardClaimed: bool): string {
    if finalScore < 500 then "Try Again" else if rewardClaimed then "Play Again" else "Back to Menu"
  }

  function ContinueClass(finalScore: int, rewardClaimed: bool): string {
    if finalScore < 500 || rewardClaimed then "play-again-button" else "exit-button"
  }

  /** The Claim button is shown exactly when the tier pays something and it has not been claimed. */
  lemma ClaimButtonIffReward(rewardClaimed: bool, finalScore: int)
    ensures ShowClaimButton(rewardClaimed, finalScore) <==>
      !rewardClaimed && MultiplierValue(GetRewardTier(finalScore).multiplier).value > 0
  {
    GetRewardTierMatchesTable(finalScore);
    RewardTiersResolve(finalScore);
  }

  /**
   * The continue button reads "Try Again" below 500, "Play Again" once claimed
   * and "Back to Menu" otherwise; it has the exit style, and reads "Back to
   * Menu", exactly while the Claim button is shown.
   */
  lemma ContinueButtonRules(finalScore: int, rewardClaimed: bool)
    ensures finalScore < 500 ==> ContinueLabel(finalScore, rewardClaimed) == "Try Again"
    ensures finalScore >= 500 && rewardClaimed ==> ContinueLabel(finalScore, rewardClaimed) == "Play Again"
    ensures ContinueLabel(finalScore, rewardClaimed) == "Back to Menu" <==> ShowClaimButton(rewardClaimed, finalScore)
    ensures ContinueClass(finalScore, rewardClaimed) == "exit-button" <==> ShowClaimButton(rewardClaimed, finalScore)
  {
  }
}
