/**
 * The streak card of src/components/DailyStreak.tsx: the bonus tiers, the
 * next milestone, whether today's bonus was already claimed, and the claim
 * handler with its notifications. The `check_daily_streak` procedure itself
 * runs in the database and is represented only by its reply.
 */
module DailyStreak {
  import opened Wrappers

  /** `getStreakBonus`: the tokens a streak of this length earns. */
  function StreakBonus(streak: int): (bonus: nat)
    ensures bonus in {5, 15, 50}
  {
    if streak >= 7 then 50
    else if streak >= 3 then 15
    else 5
  }

  /** The three tiers, and a longer streak never earns less. */
  lemma StreakBonusTiers(s: int, t: int)
    ensures StreakBonus(s) == 50 <==> s >= 7
    ensures StreakBonus(s) == 15 <==> 3 <= s < 7
    ensures StreakBonus(s) == 5 <==> s < 3
    ensures s <= t ==> StreakBonus(s) <= StreakBonus(t)
  {
  }

  /** `getNextMilestone`: 3, then 7, then `Math.ceil((streak + 1) / 7) * 7`. */
  function NextMilestone(streak: int): (m: int)
    ensures m > streak && m >= 3
    ensures streak >= 7 ==> m % 7 == 0 && m - 7 <= streak
  {
    if streak < 3 then 3
    else if streak < 7 then 7
    else (streak + 1 + 6) / 7 * 7
  }

  /** From 7 on, the milestone is the smallest multiple of 7 above the streak. */
  lemma NextMilestoneIsSmallestMultiple(streak: int, k: int)
    requires streak >= 7 && k % 7 == 0 && k > streak
    ensures NextMilestone(streak) <= k
  {
    var m := NextMilestone(streak);
    assert k == (k / 7) * 7;
    assert m == (m / 7) * 7;
    assert m / 7 <= k / 7;
  }

  /** "Next bonus": reaching the next milestone always pays at least 15, and 50 once the streak is 3 or more. */
  lemma NextBonus(streak: int)
    ensures StreakBonus(NextMilestone(streak)) == (if streak < 3 then 15 else 50)
  {
  }

  // ---------------------------------------------------------------------
  // Calendar days

  const MsPerMinute: int := 60000
  const MsPerDay: int := 86400000
  const MinutesPerDay: int := 1440

  /**
   * The local calendar day (days since 1970-01-01) of an instant given in
   * milliseconds, as `toDateString` renders it; `offset` is
   * `getTimezoneOffset()`, the minutes local time is behind UTC.
   */
  function LocalDay(instant: int, offset: int): int
  {
    (instant - offset * MsPerMinute) / MsPerDay
  }

  /** `new Date("YYYY-MM-DD")`: a date-only string denotes UTC midnight of that day. */
  function DateOnlyInstant(day: int): int
  {
    day * MsPerDay
  }

  /** The claimed-today test as written: both sides go through `toDateString`. */
  function ClaimedTodayAsWritten(now: int, offset: int, lastLoginDay: int): bool
  {
    LocalDay(now, offset) == LocalDay(DateOnlyInstant(lastLoginDay), offset)
  }

  lemma DayOfShiftedMidnight(day: int, shift: int)
    requires 0 <= shift < MsPerDay
    ensures (day * MsPerDay + shift) / MsPerDay == day
  {
  }

  /**
   * West of UTC (a positive offset below a day) a stored date is read as the
   * day before it, so a bonus claimed on today's local date does not count
   * as claimed today.
   */
  lemma StoredDateShiftedWestOfUtc(now: int, offset: int, lastLoginDay: int)
    requires 0 < offset < MinutesPerDay
    ensures LocalDay(DateOnlyInstant(lastLoginDay), offset) == lastLoginDay - 1
    ensures LocalDay(now, offset) == lastLoginDay ==> !ClaimedTodayAsWritten(now, offset, lastLoginDay)
  {
    DayOfShiftedMidnight(lastLoginDay - 1, MsPerDay - offset * MsPerMinute);
    assert DateOnlyInstant(lastLoginDay) - offset * MsPerMinute
        == (lastLoginDay - 1) * MsPerDay + (MsPerDay - offset * MsPerMinute);
  }

  /** The comparison the card means: the stored date is today's local date. */
  function ClaimedToday(now: int, offset: int, lastLoginDay: int): bool
  {
    lastLoginDay == LocalDay(now, offset)
  }

  /** At UTC and east of it the written test already is the intended one. */
  lemma ClaimedTodayAgreesEastOfUtc(now: int, offset: int, lastLoginDay: int)
    requires -MinutesPerDay < offset <= 0
    ensures ClaimedTodayAsWritten(now, offset, lastLoginDay) == ClaimedToday(now, offset, lastLoginDay)
  {
    DayOfShiftedMidnight(lastLoginDay, -offset * MsPerMinute);
    assert DateOnlyInstant(lastLoginDay) - offset * MsPerMinute == lastLoginDay * MsPerDay + -offset * MsPerMinute;
  }

  // ---------------------------------------------------------------------
  // The card's state

  /** The `StreakData` the card shows. */
  datatype StreakData = StreakData(tokensAwarded: int, currentStreak: int, longestStreak: int, isNewRecord: bool)

  /** A `daily_streaks` row; `lastLoginDay` is `last_login_date` as a day number. */
  datatype StreakRow = StreakRow(currentStreak: int, longestStreak: int, lastLoginDay: int)

  /** The answer of the `daily_streaks` read: an error with its code, no row, or the caller's row. */
  datatype FetchReply = FetchFailed(code: string) | NoRow | Found(row: StreakRow)

  /** The answer of the `check_daily_streak` call: an error, a rejection, or its result (`null` as `None`). */
  datatype ClaimReply = RpcError | Rejected | Returned(result: Option<StreakData>)

  datatype Notice =
    | BonusClaimed(tokens: int, streak: int)   // "Daily Bonus Claimed!"
    | NewRecord(streak: int)                   // "New Record!"
    | AlreadyClaimed
    | ClaimFailed                              // "Failed to claim daily bonus. Please try again."
    | SomethingWentWrong

  /** What a fetched row shows: no tokens awarded yet, and a record when current equals longest. */
  function FetchedData(row: StreakRow): (d: StreakData)
    ensures d.tokensAwarded == 0
    ensures d.currentStreak == row.currentStreak && d.longestStreak == row.longestStreak
    ensures d.isNewRecord <==> row.currentStreak == row.longestStreak
  {
    StreakData(0, row.currentStreak, row.longestStreak, row.currentStreak == row.longestStreak)
  }

  /** The notifications a claim result raises. */
  function ClaimNotices(d: StreakData): seq<Notice>
  {
    if d.tokensAwarded > 0 then
      [BonusClaimed(d.tokensAwarded, d.currentStreak)] + (if d.isNewRecord then [NewRecord(d.currentStreak)] else [])
    else [AlreadyClaimed]
  }

  /** A positive award is announced, with a record notice when it is one; anything else reads "Already Claimed". */
  lemma ClaimNoticesMatchAward(d: StreakData)
    ensures BonusClaimed(d.tokensAwarded, d.currentStreak) in ClaimNotices(d) <==> d.tokensAwarded > 0
    ensures AlreadyClaimed in ClaimNotices(d) <==> d.tokensAwarded <= 0
    ensures NewRecord(d.currentStreak) in ClaimNotices(d) <==> d.tokensAwarded > 0 && d.isNewRecord
    ensures ClaimFailed !in ClaimNotices(d) && SomethingWentWrong !in ClaimNotices(d)
  {
  }

  class StreakWidget {
    var streakData: Option<StreakData>
    var loading: bool
    var hasClaimedToday: bool
    var notices: seq<Notice>

    constructor ()
      ensures streakData.None? && !loading && !hasClaimedToday && notices == []
    {
      streakData := None;
      loading := false;
      hasClaimedToday := false;
      notices := [];
    }

    /** The claim button is enabled. */
    predicate CanClaim()
      reads this
    {
      !loading && !hasClaimedToday
    }

    /**
     * `fetchStreakData`. Only a returned row changes the card; any failure,
     * `PGRST116` (no row) included, leaves it as it was. `now` and `offset`
     * stand for the clock and the local timezone.
     */
    method FetchStreakData(signedIn: bool, reply: FetchReply, now: int, offset: int)
      modifies this
      ensures signedIn && reply.Found? ==>
        streakData == Some(FetchedData(reply.row)) &&
        hasClaimedToday == ClaimedToday(now, offset, reply.row.lastLoginDay)
      ensures !(signedIn && reply.Found?) ==>
        streakData == old(streakData) && hasClaimedToday == old(hasClaimedToday)
      ensures loading == old(loading) && notices == old(notices)
    {
      if !signedIn {
        return;
      }
      match reply {
        case FetchFailed(code) =>
          return;
        case NoRow =>
        case Found(row) =>
          hasClaimedToday := ClaimedToday(now, offset, row.lastLoginDay);
          streakData := Some(FetchedData(row));
      }
    }

    /** `claimDailyBonus`. */
    method ClaimDailyBonus(signedIn: bool, reply: ClaimReply)
      modifies this
      ensures !signedIn || old(loading) ==>
        streakData == old(streakData) && hasClaimedToday == old(hasClaimedToday) &&
        loading == old(loading) && notices == old(notices)
      ensures signedIn && !old(loading) ==> !loading
      ensures signedIn && !old(loading) && reply.Returned? ==>
        streakData == reply.result && hasClaimedToday &&
        notices == old(notices) + (if reply.result.Some? then ClaimNotices(reply.result.value) else [SomethingWentWrong])
      ensures signedIn && !old(loading) && reply.RpcError? ==>
        streakData == old(streakData) && hasClaimedToday == old(hasClaimedToday) && notices == old(notices) + [ClaimFailed]
      ensures signedIn && !old(loading) && reply.Rejected? ==>
        streakData == old(streakData) && hasClaimedToday == old(hasClaimedToday) && notices == old(notices) + [SomethingWentWrong]
    {
      if !signedIn || loading {
        return;
      }
      loading := true;
      match reply {
        case RpcError =>
          notices := notices + [ClaimFailed];
        case Rejected =>
          notices := notices + [SomethingWentWrong];
        case Returned(result) =>
          streakData := result;
          hasClaimedToday := true;
          if result.None? {
            // reading `tokens_awarded` of null throws into the catch
            notices := notices + [SomethingWentWrong];
          } else {
            notices := notices + ClaimNotices(result.value);
          }
      }
      loading := false;
    }
  }

  /** A claim that returns a result, even a null one, leaves the claim button disabled. */
  method ClaimDisablesButton(w: StreakWidget, reply: ClaimReply)
    requires !w.loading && reply.Returned?
    modifies w
    ensures !w.CanClaim()
  {
    w.ClaimDailyBonus(true, reply);
  }
}
