/**
 * The creator's video list of src/components/VideoEngagementList.tsx: the
 * per-video earnings sum, the duration, status colour, ROI and net labels,
 * and the loading of the list.
 */
module VideoEngagement {
  import opened Wrappers
  import opened Decimal
  import Folds

  // ---------------------------------------------------------------------
  // formatDuration

  const NotAvailable: string := "N/A"

  /** The quotient of division truncated toward zero, which JavaScript's `%` pairs with. */
  function JsQuot(a: int, b: int): int
    requires b > 0
  {
    if a >= 0 then a / b else -((-a) / b)
  }

  /**
   * JavaScript's `%`: the remainder of division truncated toward zero. It
   * completes the truncated quotient to the dividend, is smaller than the
   * divisor in magnitude and has the dividend's sign.
   */
  function JsRem(a: int, b: int): (r: int)
    requires b > 0
    ensures a == b * JsQuot(a, b) + r
    ensures -b < r < b
    ensures a >= 0 ==> r >= 0
    ensures a <= 0 ==> r <= 0
    ensures a >= 0 ==> r == a % b
  {
    if a >= 0 then a % b
    else
      var q, m := (-a) / b, (-a) % b;
      NegatedProduct(b, q);
      -m
  }

  lemma NegatedProduct(b: int, q: int)
    ensures b * -q == -(b * q)
  {
  }

  /**
   * The contract of `JsRem` leaves one value: any quotient and remainder
   * with those properties are `JsQuot` and `JsRem`.
   */
  lemma JsRemUnique(a: int, b: int, q: int, r: int)
    requires b > 0 && a == b * q + r && -b < r < b
    requires (a >= 0 ==> r >= 0) && (a <= 0 ==> r <= 0)
    ensures r == JsRem(a, b) && q == JsQuot(a, b)
  {
    var q0, r0 := JsQuot(a, b), JsRem(a, b);
    assert b * q - b * q0 == r0 - r;
    DistributeDifference(b, q, q0);
    assert -b < r0 - r < b;
    SmallProductHasZeroFactor(b, q - q0);
  }

  lemma DistributeDifference(b: int, x: int, y: int)
    ensures b * x - b * y == b * (x - y)
  {
  }

  lemma SmallProductHasZeroFactor(b: int, k: int)
    requires b > 0 && -b < b * k < b
    ensures k == 0
  {
    if k >= 1 {
      ProductAtLeast(b, k);
    } else if k <= -1 {
      ProductAtLeast(b, -k);
      NegatedProduct(b, -k);
    }
  }

  lemma ProductAtLeast(b: int, k: int)
    requires b > 0 && k >= 1
    ensures b * k >= b
  {
    assert b * k == b * (k - 1) + b;
  }

  /** `padStart(2, '0')`. */
  function PadTwo(s: string): (p: string)
    ensures |p| >= 2
  {
    if |s| == 0 then "00" else if |s| == 1 then "0" + s else s
  }

  /**
   * `formatDuration`: `N/A` for a missing or zero duration, otherwise
   * `Math.floor(s / 60)`, a colon, and `s % 60` padded to two characters.
   */
  function FormatDuration(seconds: Option<int>): string
  {
    if seconds.None? || seconds.value == 0 then NotAvailable
    else
      var s := seconds.value;
      IntToString(s / 60) + ":" + PadTwo(IntToString(JsRem(s, 60)))
  }

  /** Reads `m:ss` back: digits, a colon, then exactly two digits. */
  function ParseClock(t: string): Option<nat>
  {
    if |t| < 4 || t[|t| - 3] != ':' then None
    else
      var m, ss := t[..|t| - 3], t[|t| - 2..];
      if IsDigits(m) && IsDigits(ss) then Some(ParseDigits(m) * 60 + ParseDigits(ss)) else None
  }

  lemma TwoDigits(r: nat)
    requires r < 60
    ensures |PadTwo(NatToString(r))| == 2 && IsDigits(PadTwo(NatToString(r)))
    ensures ParseDigits(PadTwo(NatToString(r))) == r
  {
    ParseNatToString(r);
    var s := NatToString(r);
    if r < 10 {
      assert PadTwo(s) == "0" + s;
      assert ParseDigits(PadTwo(s)[..1]) == 0;
    } else {
      assert s == NatToString(r / 10) + [DigitChar(r % 10)];
    }
  }

  /** Digits, a colon and two digits read back as minutes and seconds. */
  lemma ParseClockOf(m: string, ss: string)
    requires |m| >= 1 && IsDigits(m) && |ss| == 2 && IsDigits(ss)
    ensures ParseClock(m + ":" + ss) == Some(ParseDigits(m) * 60 + ParseDigits(ss))
  {
    ClockParts(m, ss);
  }

  lemma ClockParts(m: string, ss: string)
    requires |m| >= 1 && |ss| == 2
    ensures var t := m + ":" + ss; |t| >= 4 && t[|t| - 3] == ':' && t[..|t| - 3] == m && t[|t| - 2..] == ss
  {
    var t := m + ":" + ss;
    assert t[..|t| - 3] == m;
    assert t[|t| - 2..] == ss;
  }

  /**
   * A positive duration prints as minutes, a colon and two second digits,
   * and reading that back gives the seconds: `m * 60 + ss == s` with
   * `ss < 60`.
   */
  lemma FormatDurationRoundTrip(s: int)
    requires s > 0
    ensures ParseClock(FormatDuration(Some(s))) == Some(s)
    ensures FormatDuration(Some(s)) == NatToString(s / 60) + ":" + PadTwo(NatToString(s % 60))
  {
    var q, r := s / 60, s % 60;
    assert q * 60 + r == s;
    FormatPositive(s);
    TwoDigits(r);
    ParseNatToString(q);
    ParseClockOf(NatToString(q), PadTwo(NatToString(r)));
  }

  lemma FormatPositive(s: int)
    requires s > 0
    ensures FormatDuration(Some(s)) == NatToString(s / 60) + ":" + PadTwo(NatToString(s % 60))
  {
  }

  /** A negative duration keeps JavaScript's signs: -5 seconds prints as `-1:-5`. */
  lemma NegativeDurationPrintsBothSigns()
    ensures FormatDuration(Some(-5)) == "-1:-5"
  {
    assert -5 / 60 == -1 && JsRem(-5, 60) == -5;
    assert IntToString(-1) == "-1" && IntToString(-5) == "-5";
  }

  // ---------------------------------------------------------------------
  // getStatusColor

  const ApprovedColor: string := "bg-success text-white"
  const PendingColor: string := "bg-warning text-white"
  const RejectedColor: string := "bg-destructive text-white"
  const DefaultColor: string := "bg-muted text-muted-foreground"

  function StatusColor(status: string): string
  {
    if status == "approved" then ApprovedColor
    else if status == "pending" then PendingColor
    else if status == "rejected" then RejectedColor
    else DefaultColor
  }

  /** The three known statuses get three distinct classes; every other string gets the muted default. */
  lemma StatusColorsDistinct(status: string)
    ensures StatusColor(status) == DefaultColor <==> status !in {"approved", "pending", "rejected"}
    ensures StatusColor("approved") != StatusColor("pending")
    ensures StatusColor("approved") != StatusColor("rejected")
    ensures StatusColor("pending") != StatusColor("rejected")
  {
  }

  // ---------------------------------------------------------------------
  // Earnings, ROI and net

  /** `viewsData?.reduce((sum, v) => sum + v.tokens_earned, 0) || 0`; a failed read (`None`) gives 0. */
  function EarnedTokens(views: Option<seq<int>>): int
  {
    if views.None? then 0 else Folds.FoldSum(0, views.value)
  }

  lemma EarnedTokensIsSum(views: Option<seq<int>>)
    ensures EarnedTokens(views) == (if views.Some? then Folds.Sum(views.value) else 0)
    ensures views.Some? && (forall i :: 0 <= i < |views.value| ==> views.value[i] >= 0) ==> EarnedTokens(views) >= 0
  {
    if views.Some? {
      Folds.FoldSumIsSum(0, views.value);
      if forall i :: 0 <= i < |views.value| ==> views.value[i] >= 0 {
        Folds.SumNonNegative(views.value);
      }
    }
  }

  /**
   * `Math.round(earned / spent * 100)` for `spent > 0`, in exact arithmetic:
   * the integer nearest the percentage, halves rounded up, that is
   * `r - 1/2 <= 100 * earned / spent < r + 1/2` multiplied through by `2 * spent`.
   */
  function Roi(earned: int, spent: int): (r: int)
    requires spent > 0
    ensures 2 * spent * r - spent <= 200 * earned < 2 * spent * r + spent
  {
    var a, b := 200 * earned + spent, 2 * spent;
    var r := a / b;
    assert a == b * r + a % b && 0 <= a % b < b;
    r
  }

  function RoiLabel(earned: int, spent: int): string
  {
    if spent > 0 then IntToString(Roi(earned, spent)) + "%" else NotAvailable
  }

  /** The net line: `+` only for a strictly positive difference. */
  function NetLabel(earned: int, spent: int): string
  {
    SignedAmount(earned - spent) + " tokens"
  }

  function SignedAmount(n: int): (s: string)
    ensures |s| >= 1
  {
    (if n > 0 then "+" else "") + IntToString(n)
  }

  lemma SignedAmountSign(n: int)
    ensures SignedAmount(n)[0] == '+' <==> n > 0
    ensures SignedAmount(n)[0] == '-' <==> n < 0
    ensures n > 0 ==> SignedAmount(n)[1..] == IntToString(n)
    ensures n <= 0 ==> SignedAmount(n) == IntToString(n)
  {
  }

  /** The net label's sign says which of earned and spent is larger, and the label determines the difference. */
  lemma NetLabelSign(earned: int, spent: int, earned2: int, spent2: int)
    ensures NetLabel(earned, spent)[0] == '+' <==> earned > spent
    ensures NetLabel(earned, spent)[0] == '-' <==> earned < spent
    ensures NetLabel(earned, spent) == NetLabel(earned2, spent2) ==> earned - spent == earned2 - spent2
  {
    var n, n2 := earned - spent, earned2 - spent2;
    SignedAmountSign(n);
    SignedAmountSign(n2);
    assert NetLabel(earned, spent)[0] == SignedAmount(n)[0];
    assert NetLabel(earned2, spent2)[0] == SignedAmount(n2)[0];
    if NetLabel(earned, spent) == NetLabel(earned2, spent2) {
      var u, v := SignedAmount(n), SignedAmount(n2);
      assert u + " tokens" == v + " tokens";
      assert u == (u + " tokens")[..|u|];
      assert v == (v + " tokens")[..|v|];
      assert |u| == |v|;
      assert u == v;
      if n > 0 {
        assert IntToString(n) == u[1..] == v[1..] == IntToString(n2);
      } else {
        assert IntToString(n) == u == v == IntToString(n2);
      }
      IntToStringInjective(n, n2);
    }
  }

  /** A spend with no earnings shows 0% and the whole spend as the loss. */
  lemma NothingEarned(spent: int)
    requires spent > 0
    ensures Roi(0, spent) == 0
    ensures NetLabel(0, spent) == IntToString(-spent) + " tokens"
  {
    SmallQuotient(200 * 0 + spent, 2 * spent);
  }

  lemma SmallQuotient(a: int, b: int)
    requires 0 <= a < b
    ensures a / b == 0
  {
  }

  // ---------------------------------------------------------------------
  // fetchUserVideos

  /** A `videos` row as the list reads it. */
  datatype Video = Video(id: string, title: string, status: string, totalViews: int, tokensSpent: int, duration: Option<int>)

  /** A row with its `earned_tokens`. */
  datatype Engagement = Engagement(video: Video, earnedTokens: int)

  /** The list query: a failure, or the rows (`null` as `None`). */
  datatype VideosReply = VideosFailed | VideosReturned(rows: Option<seq<Video>>)

  /** The earnings of one video, from its `video_views` read (`None` when it failed or is missing). */
  function EngagementOf(v: Video, views: map<string, Option<seq<int>>>): Engagement
  {
    Engagement(v, EarnedTokens(if v.id in views then views[v.id] else None))
  }

  class EngagementWidget {
    var videos: seq<Engagement>
    var loading: bool
    var failedNotices: nat

    constructor ()
      ensures videos == [] && loading && failedNotices == 0
    {
      videos := [];
      loading := true;
      failedNotices := 0;
    }

    /**
     * `fetchUserVideos`: every returned row, in order, with the sum of its
     * views' tokens; a failed list query only raises the error notice.
     * `views` holds each video's `video_views` read.
     */
    method FetchUserVideos(signedIn: bool, reply: VideosReply, views: map<string, Option<seq<int>>>)
      modifies this
      ensures !signedIn ==> videos == old(videos) && loading == old(loading) && failedNotices == old(failedNotices)
      ensures signedIn ==> !loading
      ensures signedIn && reply.VideosFailed? ==> videos == old(videos) && failedNotices == old(failedNotices) + 1
      ensures signedIn && reply.VideosReturned? ==>
        failedNotices == old(failedNotices) &&
        var rows := reply.rows.GetOr([]);
        |videos| == |rows| &&
        forall i :: 0 <= i < |rows| ==> videos[i] == EngagementOf(rows[i], views)
    {
      if !signedIn {
        return;
      }
      if reply.VideosFailed? {
        failedNotices := failedNotices + 1;
      } else {
        var rows := reply.rows.GetOr([]);
        var withEarnings: seq<Engagement> := [];
        var i := 0;
        while i < |rows|
          invariant 0 <= i <= |rows|
          invariant |withEarnings| == i
          invariant forall k :: 0 <= k < i ==> withEarnings[k] == EngagementOf(rows[k], views)
        {
          var v := rows[i];
          var viewsData := if v.id in views then views[v.id] else None;
          var total := 0;
          if viewsData.Some? {
            total := Folds.FoldSum(0, viewsData.value);
          }
          withEarnings := withEarnings + [Engagement(v, total)];
          i := i + 1;
        }
        videos := withEarnings;
      }
      loading := false;
    }
  }
}
