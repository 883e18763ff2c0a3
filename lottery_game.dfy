/**
 * The game's spin and bonus rules: the prize table, the spin button's rules,
 * the two phases of a spin and the daily-bonus handler.
 */
module LotteryGame {
  import opened Wrappers
  import JsNumbers
  import Coins
  import DailyBonus

  /** What one spin costs. */
  const SpinCost: int := 10
  /** What the daily bonus pays. */
  const BonusCredits: int := 50

  datatype Prize = Prize(id: int, name: string, value: int)

  /** The wheel, in display order; a spin picks one entry uniformly. */
  const Prizes: seq<Prize> := [
    Prize(1, "جایزه طلایی", 1000),
    Prize(2, "جایزه نقره‌ای", 500),
    Prize(3, "جایزه برنزی", 250),
    Prize(4, "سکه طلا", 100),
    Prize(5, "امتیاز ویژه", 50),
    Prize(6, "تلاش مجدد", 0)
  ]

  /** Six entries numbered 1 to 6, with the values 1000, 500, 250, 100, 50 and
      0; only the last pays nothing. */
  lemma PrizeTable()
    ensures |Prizes| == 6
    ensures forall i :: 0 <= i < |Prizes| ==> Prizes[i].id == i + 1 && Prizes[i].value >= 0
    ensures forall i :: 0 <= i < |Prizes| ==> (Prizes[i].value == 0 <==> i == 5)
    ensures Prizes[0].value == 1000 && Prizes[1].value == 500 && Prizes[2].value == 250
    ensures Prizes[3].value == 100 && Prizes[4].value == 50 && Prizes[5].value == 0
  {
  }

  /** The spin button is disabled while spinning, below the cost, or while
      the location watch is off. */
  function SpinDisabled(isSpinning: bool, credits: int, isWatching: bool): (r: bool)
    ensures !r ==> credits >= SpinCost
  {
    isSpinning || credits < SpinCost || !isWatching
  }

  datatype ButtonLabel = SpinningLabel | NotEnoughCredits | SystemInactive | SpinPrompt

  /** The button's label: spinning first, then too few credits, then an
      inactive watch; the spin prompt exactly when the button is enabled. */
  function Label(isSpinning: bool, credits: int, isWatching: bool): (l: ButtonLabel)
    ensures l == SpinPrompt <==> !SpinDisabled(isSpinning, credits, isWatching)
    ensures l == SpinningLabel <==> isSpinning
    ensures l == NotEnoughCredits <==> !isSpinning && credits < SpinCost
    ensures l == SystemInactive <==> !isSpinning && credits >= SpinCost && !isWatching
  {
    if isSpinning then SpinningLabel
    else if credits < SpinCost then NotEnoughCredits
    else if !isWatching then SystemInactive
    else SpinPrompt
  }

  /** What a spin landing on `prize` pays: its value, when that is positive. */
  function Payout(prize: Prize): (r: int)
    ensures r >= 0 && r >= prize.value
    ensures r == 0 || r == prize.value
  {
    if prize.value > 0 then prize.value else 0
  }

  /**
   * The balance after a whole spin from balance `start`, as the code does it:
   * the payout is added to the balance captured when the spin began, so it
   * overwrites the deduction of the cost.
   */
  function SpinBalanceAsWritten(start: int, prize: Prize): (r: int)
    ensures start < SpinCost ==> r == start
    ensures start >= SpinCost && prize.value > 0 ==> r > start
    ensures start >= SpinCost && prize.value <= 0 ==> r == start - SpinCost
    ensures start >= 0 ==> r >= 0
  {
    if start < SpinCost then start
    else if prize.value > 0 then start + prize.value
    else start - SpinCost
  }

  /** The balance after a whole spin as the cost label promises: the cost is
      deducted and the payout added on top. */
  function SpinBalance(start: int, prize: Prize): (r: int)
    ensures start < SpinCost ==> r == start
    ensures start >= SpinCost ==> r < start + Payout(prize)
    ensures start >= 0 ==> r >= 0
  {
    if start < SpinCost then start else start - SpinCost + Payout(prize)
  }

  /** As written, every paying spin hands the cost back; only the prize that
      pays nothing ends where intended. */
  lemma SpinRefundsCostAsWritten(start: int, i: nat)
    requires start >= SpinCost && i < |Prizes|
    ensures SpinBalanceAsWritten(start, Prizes[i]) ==
      SpinBalance(start, Prizes[i]) + (if Prizes[i].value > 0 then SpinCost else 0)
  {
  }

  /** From 100 credits, landing on the 50-credit prize ends at 150 as written
      instead of 140. */
  lemma SpinRefundExample()
    ensures SpinBalanceAsWritten(100, Prizes[4]) == 150
    ensures SpinBalance(100, Prizes[4]) == 140
  {
  }

  /** The intended spin: a refused spin changes nothing; an accepted one
      changes the balance by exactly the payout minus the cost and never
      leaves it negative. */
  lemma SpinChargesCost(start: int, i: nat)
    requires i < |Prizes|
    ensures start < SpinCost ==> SpinBalance(start, Prizes[i]) == start
    ensures start >= SpinCost ==> SpinBalance(start, Prizes[i]) - start == Payout(Prizes[i]) - SpinCost
    ensures start >= 0 ==> SpinBalance(start, Prizes[i]) >= 0
  {
  }

  class Game {
    var isSpinning: bool
    /** The name of the last prize won; `None` is `null`. */
    var result: Option<string>
    var showResult: bool
    const coins: Coins.CoinLedger
    const bonus: DailyBonus.BonusGate

    constructor (coins: Coins.CoinLedger, bonus: DailyBonus.BonusGate)
      ensures !isSpinning && result == None && !showResult
      ensures this.coins == coins && this.bonus == bonus
    {
      isSpinning := false;
      result := None;
      showResult := false;
      this.coins := coins;
      this.bonus := bonus;
    }

    /**
     * The first phase of a spin. Below the cost nothing happens. Otherwise the
     * wheel starts, the last result is cleared and the cost is deducted.
     * `snapshot` is the balance the spin's later callbacks still see.
     */
    method BeginSpin(writeOk: bool) returns (accepted: bool, snapshot: int)
      modifies this, coins
      ensures snapshot == old(coins.credits)
      ensures accepted <==> old(coins.credits) >= SpinCost
      ensures !accepted ==> unchanged(this) && unchanged(coins)
      ensures accepted ==> isSpinning && result == None && !showResult
      ensures accepted ==> coins.credits == old(coins.credits) - SpinCost
      ensures accepted ==> coins.saved == if writeOk then Some(JsNumbers.IntToString(coins.credits)) else old(coins.saved)
    {
      snapshot := coins.credits;
      if coins.credits < SpinCost {
        return false, snapshot;
      }
      accepted := true;
      isSpinning := true;
      result := None;
      showResult := false;
      coins.SubtractCredits(snapshot, SpinCost, writeOk);
    }

    /**
     * The second phase, when the wheel stops on entry `index` (the random
     * choice, in [0, 6)): the prize's name becomes the result, the wheel
     * stops, and a positive value is added to the spin's `snapshot`.
     */
    method SettleSpin(snapshot: int, index: nat, writeOk: bool)
      requires index < |Prizes|
      modifies this, coins
      ensures result == Some(Prizes[index].name) && !isSpinning && showResult == old(showResult)
      ensures Prizes[index].value > 0 ==> coins.credits == snapshot + Prizes[index].value
      ensures Prizes[index].value > 0 ==>
        coins.saved == if writeOk then Some(JsNumbers.IntToString(coins.credits)) else old(coins.saved)
      ensures Prizes[index].value <= 0 ==> unchanged(coins)
    {
      var prize := Prizes[index];
      result := Some(prize.name);
      isSpinning := false;
      if prize.value > 0 {
        coins.AddCredits(snapshot, prize.value, writeOk);
      }
    }

    /** The corrected second phase: the payout is added to the current balance. */
    method SettleSpinIntended(index: nat, writeOk: bool)
      requires index < |Prizes|
      modifies this, coins
      ensures result == Some(Prizes[index].name) && !isSpinning && showResult == old(showResult)
      ensures coins.credits == old(coins.credits) + Payout(Prizes[index])
      ensures coins.saved ==
        if Prizes[index].value > 0 && writeOk then Some(JsNumbers.IntToString(coins.credits)) else old(coins.saved)
      ensures old(coins.Valid()) ==> coins.Valid()
    {
      var prize := Prizes[index];
      result := Some(prize.name);
      isSpinning := false;
      if prize.value > 0 {
        coins.AddCredits(coins.credits, prize.value, writeOk);
      }
    }

    /** The last phase, half a second later: the result is shown. */
    method RevealResult()
      modifies this`showResult
      ensures showResult
    {
      showResult := true;
    }

    /** A whole spin landing on entry `index`, as the code runs it. */
    method Spin(index: nat, writeOk: bool)
      requires index < |Prizes|
      modifies this, coins
      ensures coins.credits == SpinBalanceAsWritten(old(coins.credits), Prizes[index])
      ensures coins.saved ==
        if old(coins.credits) >= SpinCost && writeOk then Some(JsNumbers.IntToString(coins.credits)) else old(coins.saved)
      ensures old(coins.credits) >= SpinCost ==>
        result == Some(Prizes[index].name) && !isSpinning && showResult
      ensures old(coins.credits) < SpinCost ==> unchanged(this)
      ensures old(coins.Valid()) ==> coins.Valid()
    {
      var accepted, snapshot := BeginSpin(writeOk);
      if accepted {
        SettleSpin(snapshot, index, writeOk);
        RevealResult();
      }
    }

    /** A whole spin as intended: cost deducted, payout added on top. */
    method SpinIntended(index: nat, writeOk: bool)
      requires index < |Prizes|
      modifies this, coins
      ensures coins.credits == SpinBalance(old(coins.credits), Prizes[index])
      ensures coins.saved ==
        if old(coins.credits) >= SpinCost && writeOk then Some(JsNumbers.IntToString(coins.credits)) else old(coins.saved)
      ensures old(coins.credits) >= SpinCost ==>
        result == Some(Prizes[index].name) && !isSpinning && showResult
      ensures old(coins.credits) < SpinCost ==> unchanged(this)
      ensures old(coins.Valid()) ==> coins.Valid()
    {
      var accepted, snapshot := BeginSpin(writeOk);
      if accepted {
        SettleSpinIntended(index, writeOk);
        RevealResult();
      }
    }

    /**
     * The daily-bonus button at local time `now`: when the gate is open, 50
     * credits are added to the current balance and the claim is made;
     * otherwise neither the balance nor the gate changes. The credits are
     * added before the claim, so a claim whose write fails leaves the gate
     * open with the bonus already paid.
     */
    method HandleClaimDailyBonus(now: int, coinsWriteOk: bool, bonusWriteOk: bool)
      modifies coins, bonus
      ensures old(bonus.canClaim) ==> coins.credits == old(coins.credits) + BonusCredits
      ensures coins.saved ==
        if old(bonus.canClaim) && coinsWriteOk then Some(JsNumbers.IntToString(coins.credits)) else old(coins.saved)
      ensures old(bonus.canClaim) && bonusWriteOk ==>
        !bonus.canClaim && bonus.lastClaim == Some(DailyBonus.OnDay(DailyBonus.DayOf(now))) &&
        bonus.saved == DailyBonus.Present(DailyBonus.OnDay(DailyBonus.DayOf(now)))
      ensures old(bonus.canClaim) && !bonusWriteOk ==> unchanged(bonus)
      ensures !old(bonus.canClaim) ==> unchanged(coins) && unchanged(bonus)
      ensures old(coins.Valid()) ==> coins.Valid()
    {
      if bonus.canClaim {
        coins.AddCredits(coins.credits, BonusCredits, coinsWriteOk);
        bonus.Claim(now, bonusWriteOk);
      }
    }
  }
}
