/**
 * The credit ledger: one integer balance, mirrored into a single storage
 * entry that holds its decimal text.
 */
module Coins {
  import opened Wrappers
  import opened JsNumbers

  const DefaultCredits: int := 100

  /**
   * The balance a stored entry restores on mount: only a present, non-empty
   * text whose `parseInt` is a number of at least 0.
   */
  function StoredCredits(saved: Option<string>): (r: Option<int>)
    ensures r.Some? <==>
      saved.Some? && saved.value != "" && ParseInt(saved.value).Some? && ParseInt(saved.value).value >= 0
    ensures r.Some? ==> r.value >= 0 && ParseInt(saved.value) == r
  {
    match saved
    case None => None
    case Some(text) =>
      if text == "" then None
      else match ParseInt(text)
        case None => None
        case Some(n) => if n >= 0 then Some(n) else None
  }

  /** What the ledger writes is what it reads back: a non-negative balance
      survives a save and a reload, a negative one is refused on reload. */
  lemma SaveThenLoad(n: int)
    ensures StoredCredits(Some(IntToString(n))) == if n >= 0 then Some(n) else None
  {
    ParseIntOfToString(n);
  }

  /** Text that does not start with a digit, a sign or white space never
      replaces the balance. */
  lemma NonNumericTextIgnored(text: string)
    requires |text| > 0 && !IsDigit(text[0]) && !IsJsWhitespace(text[0])
    requires text[0] != '-' && text[0] != '+'
    ensures StoredCredits(Some(text)) == None
  {
  }

  class CoinLedger {
    /** The balance shown to the player. */
    var credits: int
    /** The storage entry under the ledger's key; `None` when nothing is stored. */
    var saved: Option<string>

    /** The ledger's invariant: the balance is never negative. */
    ghost predicate Valid()
      reads this
    {
      credits >= 0
    }

    /** Before the mount-time load, the balance is the default. */
    constructor (storage: Option<string>)
      ensures credits == DefaultCredits && saved == storage
      ensures Valid()
    {
      credits := DefaultCredits;
      saved := storage;
    }

    /**
     * The mount-time load. `readOk` is false when reading storage throws;
     * then, as when the entry is missing or does not parse to a number of at
     * least 0, the balance stays as it was.
     */
    method Load(readOk: bool)
      modifies this`credits
      ensures credits == if readOk && StoredCredits(saved).Some? then StoredCredits(saved).value else old(credits)
      ensures old(Valid()) ==> Valid()
    {
      if readOk {
        var restored := StoredCredits(saved);
        if restored.Some? {
          credits := restored.value;
        }
      }
    }

    /**
     * Sets the balance, then writes its text to storage. The balance is set
     * first, so a write that throws (`writeOk` false) leaves the storage entry
     * as it was but the balance changed.
     */
    method SetCredits(n: int, writeOk: bool)
      modifies this
      ensures credits == n
      ensures saved == if writeOk then Some(IntToString(n)) else old(saved)
      ensures writeOk && n >= 0 ==> StoredCredits(saved) == Some(credits)
    {
      credits := n;
      if writeOk {
        saved := Some(IntToString(n));
        SaveThenLoad(n);
      }
    }

    /**
     * Adds `amount` to `captured`, the balance of the render that created the
     * call; that is the current balance only when no update has intervened.
     */
    method AddCredits(captured: int, amount: int, writeOk: bool)
      modifies this
      ensures credits == captured + amount
      ensures saved == if writeOk then Some(IntToString(captured + amount)) else old(saved)
      ensures captured >= 0 && amount >= 0 ==> Valid()
    {
      SetCredits(captured + amount, writeOk);
    }

    /** Subtracts `amount` from the captured balance, clamping at 0: the result
        is the least number that is both at least 0 and at least the difference. */
    method SubtractCredits(captured: int, amount: int, writeOk: bool)
      modifies this
      ensures credits >= 0 && credits >= captured - amount
      ensures credits == 0 || credits == captured - amount
      ensures saved == if writeOk then Some(IntToString(credits)) else old(saved)
      ensures Valid()
    {
      var newAmount := if captured - amount > 0 then captured - amount else 0;
      SetCredits(newAmount, writeOk);
    }

    /** Puts the balance back to the default whatever it was, so a second reset
        leaves the state the first one made. */
    method ResetCredits(writeOk: bool)
      modifies this
      ensures credits == DefaultCredits && Valid()
      ensures saved == if writeOk then Some(IntToString(DefaultCredits)) else old(saved)
      ensures writeOk ==> StoredCredits(saved) == Some(DefaultCredits)
    {
      SetCredits(DefaultCredits, writeOk);
    }
  }
}
