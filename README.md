# Lottery credit economy

A model of the credit economy of a browser prize-wheel game. It has three parts:

- **Credit ledger** (`useCoins`, module `Coins`, class `CoinLedger`). One integer balance. It starts at 100. On mount it is restored from a storage entry, but only when that entry parses to an integer of at least 0. `setCredits` overwrites the balance and writes its text to storage. `addCredits`, `subtractCredits` (clamped at 0) and `resetCredits` go through `setCredits`. The two conversions this relies on, `parseInt(s, 10)` and `toString()`, are modelled in module `JsNumbers`, and their round trip is proved.
- **Daily-bonus gate** (`useDailyBonus`, module `DailyBonus`, class `BonusGate`). The bonus can be claimed unless storage holds a date on today's local day. A claim writes today and closes the gate. The countdown text is `Ready`, a `NaN` text (`NotANumber`), or whole hours and minutes until the midnight after the last claim.
- **Spin and bonus rules** (`LotteryGame`, module `LotteryGame`, class `Game`). These are the six-entry prize table, the spin button's disabled and label rules, the spin in its three timed phases (`BeginSpin`, `SettleSpin`, `RevealResult`) and the daily-bonus handler.

Design decisions:

- **Stale closures.** The ledger's add and subtract compute from the balance captured by the render that created them. So `AddCredits` and `SubtractCredits` take that captured balance as a parameter. A caller that uses a fresh render passes `coins.credits`. `Game.BeginSpin` returns the spin-start `snapshot`, and `Game.SettleSpin` adds the prize to it, as the code's timer callback does.
- **Storage failures.** A storage read or write that throws is a boolean parameter (`readOk`, `writeOk`).
- **Random choice.** The prize index is a parameter `index < 6`.
- **Time.** Times are integer milliseconds on the local clock. The local day of a moment is `now / 86400000`.
- **Stored dates.** A stored date text is abstracted to the local day `new Date` reads from it (`OnDay(d)`) or to an invalid date (`Unparsable`). The empty text is kept apart (`Blank`), because the load treats it as missing.
- **Countdown past midnight.** The gate is only re-checked on mount. If the page stays open past the midnight after a claim, the countdown goes negative. `DailyBonus.CountdownOverdue` shows the hours are then negative and the minutes lie between -60 and 0. This is because `%` in JavaScript takes the dividend's sign, while the hours are floored.

## Model

| member | source | states |
|---|---|---|
| JsNumbers.ParseInt | src/hooks/useCoins.ts:22 | `parseInt(s, 10)`: skips JavaScript white space, takes one optional sign and the longest digit run, and ignores the rest. There is no result unless the text contains a digit. |
| JsNumbers.SkipWhitespace | src/hooks/useCoins.ts:22 | The result is a suffix with no leading white space, and everything removed was white space. |
| JsNumbers.DigitRun | src/hooks/useCoins.ts:22 | It is the longest all-digit prefix: every character in it is a digit and the next one is not. |
| JsNumbers.IntToString | src/hooks/useCoins.ts:36 | `n.toString()` is a non-empty text. It starts with `-` exactly when `n` is negative, and the rest is all decimal digits. |
| JsNumbers.NatToString | src/hooks/useCoins.ts:36 | The decimal text of a natural number is non-empty and made only of digits. |
| JsNumbers.DigitsValueOfNatToString | src/hooks/useCoins.ts:36 | The digits `toString` writes have the value of the number written. |
| JsNumbers.ParseIntOfToString | src/hooks/useCoins.ts:22-36 | `parseInt` of an integer's `toString` gives back that integer, for every integer. |
| Coins.StoredCredits | src/hooks/useCoins.ts:20-25 | The stored entry restores a balance iff it is present, non-empty and parses to a number of at least 0. The restored balance is that number. |
| Coins.SaveThenLoad | src/hooks/useCoins.ts:20-36 | Saving then reloading gives back a non-negative balance. A negative written balance is refused on reload. |
| Coins.NonNumericTextIgnored | src/hooks/useCoins.ts:21-25 | A text starting with anything but white space, a sign or a digit never replaces the balance. |
| Coins.CoinLedger.constructor | src/hooks/useCoins.ts:12-15 | Before any load the balance is the default 100. |
| Coins.CoinLedger.Load | src/hooks/useCoins.ts:18-30 | The balance becomes the stored one only when the read succeeds and the entry is valid. Otherwise it is unchanged. Non-negativity is preserved. |
| Coins.CoinLedger.SetCredits | src/hooks/useCoins.ts:33-40 | The balance becomes `n`. Storage holds `n`'s text unless the write throws, in which case it is unchanged. A successful non-negative write reloads as `n`. |
| Coins.CoinLedger.AddCredits | src/hooks/useCoins.ts:42-44 | The balance becomes the captured balance plus the amount. It is non-negative when both are. |
| Coins.CoinLedger.SubtractCredits | src/hooks/useCoins.ts:46-49 | The balance becomes max(0, captured - amount). It is never negative. |
| Coins.CoinLedger.ResetCredits | src/hooks/useCoins.ts:51-53 | The balance becomes 100 whatever it was, so repeating the reset changes nothing further. A successful write reloads as 100. |
| DailyBonus.CanClaimOn | src/hooks/useDailyBonus.ts:32-36 | Claimable iff the last-claim date is not on today's day. An invalid date is always claimable. |
| DailyBonus.DayOf | src/hooks/useDailyBonus.ts:33-34 | The local calendar day that `toDateString` names: the day whose 86400000-ms span contains the moment. |
| DailyBonus.JsRemainder | src/hooks/useDailyBonus.ts:64 | JavaScript `%`: the remainder is less than the divisor in magnitude and has the dividend's sign. |
| DailyBonus.MsUntilNextDay | src/hooks/useDailyBonus.ts:56-62 | The milliseconds from now to the midnight after the last-claim day. They are positive iff now is not past that day. On the claim day itself they are at most one day. |
| DailyBonus.TimeUntilNextBonus | src/hooks/useDailyBonus.ts:51-67 | `Ready` iff claimable or there is no last claim. `NaN` iff the gate is closed on an invalid date. Otherwise it gives hours and minutes. |
| DailyBonus.CountdownSplitsWait | src/hooks/useDailyBonus.ts:58-64 | Before the midnight after the last claim: hours ≥ 0 and minutes in [0, 59]. Also hours·3600000 + minutes·60000 ≤ wait < that + 60000. |
| DailyBonus.CountdownOverdue | src/hooks/useDailyBonus.ts:62-64 | Past that midnight the hours are the negative wait rounded down, and the minutes are JavaScript's truncated remainder rounded down to whole minutes. So the hours are negative and the minutes lie in [-60, 0]. |
| DailyBonus.CountdownAfterClaim | src/hooks/useDailyBonus.ts:43-64 | Right after a claim the countdown is between 0 and 24 hours, with minutes in [0, 59]. It shows 24 hours only with 0 minutes. |
| DailyBonus.ConsistentCountdownIsNumeric | src/hooks/useDailyBonus.ts:51-64 | For a gate satisfying `BonusGate.Consistent()` (set up by the load and kept by claims), the countdown is never the `NaN` text. |
| DailyBonus.BonusGate.constructor | src/hooks/useDailyBonus.ts:14-15 | Before the load there is no last claim and the gate is closed. |
| DailyBonus.BonusGate.Load | src/hooks/useDailyBonus.ts:17-30 | The gate opens iff the read does not succeed with a date on today's day. This covers a missing entry, an empty entry and a read that throws. A stored non-empty date becomes the last claim. Afterwards a closed gate always has a valid last-claim day. |
| DailyBonus.BonusGate.Claim | src/hooks/useDailyBonus.ts:38-49 | A closed gate changes nothing, so a second claim on the same day is a no-op. A failing write changes nothing either. Otherwise storage and the last claim become today and the gate closes. |
| LotteryGame.PrizeTable | src/components/LotteryGame.tsx:51-94 | Six prizes numbered 1 to 6, with values 1000, 500, 250, 100, 50 and 0. Only the last pays nothing. |
| LotteryGame.SpinDisabled | src/components/LotteryGame.tsx:230 | The button is enabled only with at least the 10-credit cost. |
| LotteryGame.Label | src/components/LotteryGame.tsx:237-255 | Priority is spinning > not enough credits > inactive > prompt. The prompt shows exactly when the button is enabled. |
| LotteryGame.Payout | src/components/LotteryGame.tsx:118-120 | A spin pays the prize's value when it is positive, and nothing otherwise. |
| LotteryGame.SpinBalanceAsWritten | src/components/LotteryGame.tsx:96-124 | The balance after a whole spin as the code does it. Below 10 credits it is unchanged. A paying spin ends above the start balance, so it costs nothing. The prize that pays nothing ends at start - 10. It is never negative from a non-negative start. |
| LotteryGame.SpinBalance | src/components/LotteryGame.tsx:96-124 | The balance after a whole spin as intended. Below 10 credits it is unchanged. An accepted spin ends below start plus payout, because the cost is charged. It is never negative from a non-negative start. |
| LotteryGame.SpinRefundsCostAsWritten | src/components/LotteryGame.tsx:97-123 | As written, every accepted spin ends at the intended balance plus 10 when the prize pays, and exactly at the intended balance when it pays nothing. |
| LotteryGame.SpinRefundExample | src/components/LotteryGame.tsx:102-119 | From 100 credits, the 50-credit prize ends at 150 as written, where 140 was intended. |
| LotteryGame.SpinChargesCost | src/components/LotteryGame.tsx:97-120 | The intended spin: a refused spin leaves the balance alone. An accepted one changes it by exactly payout - 10 and keeps it non-negative. |
| LotteryGame.Game.constructor | src/components/LotteryGame.tsx:43-45 | Not spinning, no result, result hidden. |
| LotteryGame.Game.BeginSpin | src/components/LotteryGame.tsx:96-102 | Below 10 credits nothing changes. Otherwise spinning starts, the result is cleared and hidden, and exactly 10 is deducted. The spin-start balance is returned as `snapshot`. |
| LotteryGame.Game.SettleSpin | src/components/LotteryGame.tsx:113-121 | The result is the chosen prize's name and spinning stops. A positive value is added to the spin-start snapshot. A zero value leaves the ledger unchanged. |
| LotteryGame.Game.SettleSpinIntended | src/components/LotteryGame.tsx:113-121 | The result is the chosen prize's name and spinning stops. The payout is added to the current balance. Storage holds the new balance's text when the prize pays and the write succeeds; otherwise it is unchanged. |
| LotteryGame.Game.RevealResult | src/components/LotteryGame.tsx:122 | The result is shown. |
| LotteryGame.Game.Spin | src/components/LotteryGame.tsx:96-124 | A whole spin as written ends at `SpinBalanceAsWritten` of the start balance. Storage holds the final balance's text after an accepted spin whose writes succeed. A spin below 10 credits changes neither the game, the balance nor storage. Non-negativity is kept. |
| LotteryGame.Game.SpinIntended | src/components/LotteryGame.tsx:96-124 | A whole spin as intended ends at `SpinBalance` of the start balance. Storage holds the final balance's text after an accepted spin whose writes succeed; otherwise it is unchanged. |
| LotteryGame.Game.HandleClaimDailyBonus | src/components/LotteryGame.tsx:126-131 | With the gate open: +50 credits and a claim, and storage holds the new balance's text when its write succeeds. With the gate closed: the ledger, its storage and the gate are unchanged. A claim whose write fails leaves the gate open with the 50 paid. |

## Findings

| source | as written | input that shows it | evidently intended | confidence | as-written member | corrected member |
|---|---|---|---|---|---|---|
| src/components/LotteryGame.tsx:102-119 | The payout `addCredits(value)` runs in a callback created by the spin's starting render. It adds to the balance from before `subtractCredits(10)`, so a paying spin costs nothing. | 100 credits, prize index 4 (value 50): the balance ends at 150. | The 10-credit cost is deducted and the payout added on top: 140. | high, not executed | LotteryGame.SpinRefundsCostAsWritten | LotteryGame.SpinChargesCost |

## Left out

- The location and device-fingerprint collection, the VPN screening, the admin dashboard and the application's permission gate are not part of this model. Nor are the presentational components, the service worker and the test and build scripts.
- Rendering itself is left out: React re-renders, the `await` of the location report inside `spinWheel`, and the 3000 ms and 500 ms timers. The timed phases are separate methods called in order.
- `Math.random` is not modelled; the prize index is a parameter.
- Locale formatting (`toLocaleString("fa-IR")`) and the Persian countdown text are not modelled. The countdown is a datatype.
- Real `Date` semantics are not modelled: time zones, daylight-saving days that are not 24 hours long, and `toDateString`. Days are `now / 86400000` on a local millisecond clock.
- JavaScript numbers are floating point. The model uses unbounded integers. The conversions `parseInt` and `toString` are modelled only for integral values: no exponent notation from `toString(1e21)` and no precision loss.
- `DAILY_BONUS_AMOUNT` (src/hooks/useDailyBonus.ts:11) is declared and never used. The handler's literal 50 is `LotteryGame.BonusCredits`.
- DailyBonus.JsRemainder: its contract gives the sign and size of the remainder. It does not state that the dividend minus the remainder is a multiple of the divisor.
- `spinWheel` itself checks only the balance, not `isSpinning` or `isWatching`; that is left to the button. `Game.BeginSpin` follows the code in this.
