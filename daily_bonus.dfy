/**
 * The daily-bonus gate. Times are integer milliseconds on the local clock
 * (epoch milliseconds shifted by the zone offset), so the local calendar day
 * of a moment is its millisecond count divided by the length of a day.
 */
module DailyBonus {
  import opened Wrappers

  const MsPerMinute: int := 60000
  const MsPerHour: int := 3600000
  const MsPerDay: int := 86400000

  /** The local calendar day a moment falls on. */
  function DayOf(now: int): (d: int)
    ensures d * MsPerDay <= now < (d + 1) * MsPerDay
  {
    now / MsPerDay
  }

  /** A non-empty stored date text, as `new Date(text)` reads it: a moment on
      local day `day`, or an invalid date. */
  datatype Stamp = OnDay(day: int) | Unparsable

  /** The storage entry under the gate's key: missing, the empty text, or a
      non-empty text. */
  datatype SavedDate = Absent | Blank | Present(stamp: Stamp)

  /** The day comparison of the claim check: an invalid date never equals today. */
  function CanClaimOn(last: Stamp, today: int): (r: bool)
    ensures r <==> last != OnDay(today)
  {
    match last
    case OnDay(d) => d != today
    case Unparsable => true
  }

  /** The countdown's two results besides the hour/minute text; `NotANumber` is
      the text built from `NaN` when the last-claim date is invalid. */
  datatype Countdown = Ready | Remaining(hours: int, minutes: int) | NotANumber

  /** JavaScript's `%`: the remainder takes the sign of the dividend. */
  function JsRemainder(a: int, b: int): (r: int)
    requires b > 0
    ensures a >= 0 ==> 0 <= r < b
    ensures a < 0 ==> -b < r <= 0
  {
    if a >= 0 then a % b else -((-a) % b)
  }

  /** Milliseconds from `now` to the local midnight that ends day `lastDay`. */
  function MsUntilNextDay(lastDay: int, now: int): (r: int)
    ensures r > 0 <==> DayOf(now) <= lastDay
    ensures DayOf(now) == lastDay ==> r <= MsPerDay
  {
    (lastDay + 1) * MsPerDay - now
  }

  /**
   * The countdown to the next bonus: ready while the bonus can be claimed or
   * nothing was ever claimed; otherwise whole hours and remaining whole
   * minutes until the midnight after the last claim.
   */
  function TimeUntilNextBonus(canClaim: bool, lastClaim: Option<Stamp>, now: int): (c: Countdown)
    ensures c == Ready <==> canClaim || lastClaim == None
    ensures c == NotANumber <==> !canClaim && lastClaim == Some(Unparsable)
  {
    if canClaim then Ready
    else match lastClaim
      case None => Ready
      case Some(Unparsable) => NotANumber
      case Some(OnDay(d)) =>
        var diff := MsUntilNextDay(d, now);
        Remaining(diff / MsPerHour, JsRemainder(diff, MsPerHour) / MsPerMinute)
  }

  /** Before the midnight after the last claim, the countdown splits the wait
      into whole hours and 0 to 59 further whole minutes, rounding down. */
  lemma CountdownSplitsWait(lastDay: int, now: int)
    requires MsUntilNextDay(lastDay, now) >= 0
    ensures var c := TimeUntilNextBonus(false, Some(OnDay(lastDay)), now);
      var diff := MsUntilNextDay(lastDay, now);
      c.Remaining? && c.hours >= 0 && 0 <= c.minutes <= 59 &&
      c.hours * MsPerHour + c.minutes * MsPerMinute <= diff < c.hours * MsPerHour + (c.minutes + 1) * MsPerMinute
  {
  }

  /** Once that midnight has passed (the gate is only re-checked on mount), the
      hours turn negative and the minutes lie between -60 and 0: the hours are
      the wait rounded down, the minutes the truncated remainder rounded down. */
  lemma CountdownOverdue(lastDay: int, now: int)
    requires MsUntilNextDay(lastDay, now) < 0
    ensures var c := TimeUntilNextBonus(false, Some(OnDay(lastDay)), now);
      var diff := MsUntilNextDay(lastDay, now);
      c.Remaining? && c.hours < 0 && -60 <= c.minutes <= 0 &&
      c.hours * MsPerHour <= diff < (c.hours + 1) * MsPerHour &&
      c.minutes * MsPerMinute <= JsRemainder(diff, MsPerHour) < (c.minutes + 1) * MsPerMinute
  {
  }

  /** Right after a claim at `now`, the wait is more than nothing and at most
      one day: at most 24 hours, and exactly 24 hours only at midnight. */
  lemma CountdownAfterClaim(now: int)
    ensures var c := TimeUntilNextBonus(false, Some(OnDay(DayOf(now))), now);
      c.Remaining? && 0 <= c.hours <= 24 && 0 <= c.minutes <= 59 &&
      (c.hours == 24 ==> c.minutes == 0)
  {
  }

  /** A gate in the state the load and claims keep it in never counts down
      to `NaN`. */
  lemma ConsistentCountdownIsNumeric(g: BonusGate, now: int)
    requires g.Consistent()
    ensures TimeUntilNextBonus(g.canClaim, g.lastClaim, now) != NotANumber
  {
  }

  class BonusGate {
    /** The last-claim date text held in memory; `None` is `null`. */
    var lastClaim: Option<Stamp>
    /** Whether the bonus can be claimed now. */
    var canClaim: bool
    /** The storage entry under the gate's key. */
    var saved: SavedDate

    /** Holds once the mount-time load has run: a closed gate always knows the
        valid day of its last claim, so its countdown is never `NaN`. */
    ghost predicate Consistent()
      reads this
    {
      !canClaim ==> lastClaim.Some? && lastClaim.value.OnDay?
    }

    /** Before the load: no last claim and a closed gate. */
    constructor (storage: SavedDate)
      ensures lastClaim == None && !canClaim && saved == storage
    {
      lastClaim := None;
      canClaim := false;
      saved := storage;
    }

    /**
     * The mount-time load at local time `now`. `readOk` is false when reading
     * storage throws. The gate opens unless the read succeeds and finds a
     * date on today's day; a non-empty stored text becomes the last claim.
     */
    method Load(now: int, readOk: bool)
      modifies this`lastClaim, this`canClaim
      ensures canClaim <==> !(readOk && saved == Present(OnDay(DayOf(now))))
      ensures lastClaim == if readOk && saved.Present? then Some(saved.stamp) else old(lastClaim)
      ensures Consistent()
    {
      if !readOk {
        canClaim := true;
      } else {
        match saved
        case Present(stamp) =>
          lastClaim := Some(stamp);
          canClaim := CanClaimOn(stamp, DayOf(now));
        case _ =>
          canClaim := true;
      }
    }

    /**
     * Claims the bonus at local time `now`. A closed gate changes nothing, so
     * a second claim on the same day is a no-op. Otherwise today's date is
     * written first; if that write throws (`writeOk` false) nothing changes,
     * else the last claim becomes today and the gate closes.
     */
    method Claim(now: int, writeOk: bool)
      modifies this
      ensures if old(canClaim) && writeOk then
          saved == Present(OnDay(DayOf(now))) && lastClaim == Some(OnDay(DayOf(now))) && !canClaim
        else
          unchanged(this)
      ensures old(Consistent()) ==> Consistent()
    {
      if !canClaim {
        return;
      }
      if writeOk {
        saved := Present(OnDay(DayOf(now)));
        lastClaim := Some(OnDay(DayOf(now)));
        canClaim := false;
      }
    }
  }
}
