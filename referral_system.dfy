/**
 * The referral card of src/components/ReferralSystem.tsx: the statistics
 * `reduce` over the caller's referral rows, the referral link, and the code,
 * copy and share handlers with their empty-code guards. The
 * `generate_referral_code` procedure is represented only by its reply.
 */
module ReferralSystem {
  import opened Wrappers
  import Folds

  /** A `referrals` row as the fold reads it. */
  datatype Referral = Referral(status: string, tokensAwarded: int)

  datatype ReferralStats = ReferralStats(total: int, pending: int, completed: int, tokensEarned: int)

  const NoStats: ReferralStats := ReferralStats(0, 0, 0, 0)
  const PendingStatus: string := "pending"
  const CompletedStatus: string := "completed"

  /** The reducer: one more row, counted under its exact status. */
  function Step(acc: ReferralStats, r: Referral): ReferralStats
  {
    ReferralStats(
      acc.total + 1,
      acc.pending + (if r.status == PendingStatus then 1 else 0),
      acc.completed + (if r.status == CompletedStatus then 1 else 0),
      acc.tokensEarned + r.tokensAwarded)
  }

  /** `data.reduce(step, acc)`. */
  function FoldStats(acc: ReferralStats, rows: seq<Referral>): ReferralStats
    decreases rows
  {
    if rows == [] then acc else FoldStats(Step(acc, rows[0]), rows[1..])
  }

  /** The number of rows whose status is exactly `status`. */
  function CountStatus(rows: seq<Referral>, status: string): (n: nat)
    ensures n <= |rows|
  {
    if rows == [] then 0
    else (if rows[0].status == status then 1 else 0) + CountStatus(rows[1..], status)
  }

  function Awards(rows: seq<Referral>): (xs: seq<int>)
    ensures |xs| == |rows| && forall i :: 0 <= i < |rows| ==> xs[i] == rows[i].tokensAwarded
  {
    if rows == [] then [] else [rows[0].tokensAwarded] + Awards(rows[1..])
  }

  /** The fold computes the four counts independently of its starting point. */
  lemma {:induction false} FoldStatsCounts(acc: ReferralStats, rows: seq<Referral>)
    ensures FoldStats(acc, rows) == ReferralStats(
      acc.total + |rows|,
      acc.pending + CountStatus(rows, PendingStatus),
      acc.completed + CountStatus(rows, CompletedStatus),
      acc.tokensEarned + Folds.Sum(Awards(rows)))
    decreases rows
  {
    if rows != [] {
      FoldStatsCounts(Step(acc, rows[0]), rows[1..]);
      assert Awards(rows)[1..] == Awards(rows[1..]);
    }
  }

  /** Rows counted under two different statuses are different rows. */
  lemma {:induction false} TwoStatusesFitInTotal(rows: seq<Referral>, a: string, b: string)
    requires a != b
    ensures CountStatus(rows, a) + CountStatus(rows, b) <= |rows|
  {
    if rows != [] {
      TwoStatusesFitInTotal(rows[1..], a, b);
    }
  }

  /** The statistics `fetchReferralStats` sets: the fold from all zeros. */
  function Stats(rows: seq<Referral>): ReferralStats
  {
    FoldStats(NoStats, rows)
  }

  /**
   * `total_referrals` is the number of rows, `pending` and `completed` count
   * exact status matches and together never exceed the total, and
   * `tokens_earned` is the sum of every row's award; no rows give all zeros.
   */
  lemma StatsMeaning(rows: seq<Referral>)
    ensures Stats(rows).total == |rows|
    ensures Stats(rows).pending == CountStatus(rows, PendingStatus)
    ensures Stats(rows).completed == CountStatus(rows, CompletedStatus)
    ensures Stats(rows).pending + Stats(rows).completed <= Stats(rows).total
    ensures Stats(rows).tokensEarned == Folds.Sum(Awards(rows))
    ensures rows == [] ==> Stats(rows) == NoStats
  {
    FoldStatsCounts(NoStats, rows);
    TwoStatusesFitInTotal(rows, PendingStatus, CompletedStatus);
  }

  // ---------------------------------------------------------------------
  // The referral link

  const RefQuery: string := "?ref="

  /** `${window.location.origin}?ref=${referralCode}`. */
  function ReferralLink(origin: string, code: string): string
  {
    origin + RefQuery + code
  }

  /** The position of the first `?`, if any. */
  function QueryStart(s: string): (r: Option<nat>)
    ensures r.None? <==> '?' !in s
    ensures r.Some? ==> r.value < |s| && s[r.value] == '?' && '?' !in s[..r.value]
  {
    if |s| == 0 then None
    else if s[0] == '?' then Some(0)
    else match QueryStart(s[1..])
      case None => None
      case Some(i) => assert s[..i + 1] == [s[0]] + s[1..][..i]; Some(i + 1)
  }

  /** Reads a link back: the origin before the first `?`, and the code after `?ref=`. */
  function ParseReferralLink(link: string): Option<(string, string)>
  {
    match QueryStart(link)
    case None => None
    case Some(i) =>
      if |link| - i >= |RefQuery| && link[i..][..|RefQuery|] == RefQuery then Some((link[..i], link[i + |RefQuery|..]))
      else None
  }

  /** An origin (scheme, host and port) has no `?`, so the link gives back both the origin and the code. */
  lemma ParseReferralLinkInverts(origin: string, code: string)
    requires '?' !in origin
    ensures ParseReferralLink(ReferralLink(origin, code)) == Some((origin, code))
  {
    var link := ReferralLink(origin, code);
    var n := |origin|;
    assert link[n] == '?' && link[..n] == origin;
    var r := QueryStart(link);
    assert r.value == n;
    assert link[n..][..|RefQuery|] == RefQuery;
    assert link[n + |RefQuery|..] == code;
  }

  const ShareTitle: string := "Join the Creator Platform"
  const SharePrefix: string := "Join me on this amazing creator platform and we both get bonus tokens! Use my referral link: "

  datatype Notice = Copied | CopyFailed

  /** A `navigator.share` request. */
  datatype ShareRequest = ShareRequest(title: string, text: string, url: string)

  /** The answer of `generate_referral_code`: an error, a rejection, or the code (`null` as `None`). */
  datatype CodeReply = RpcError | Rejected | Returned(code: Option<string>)

  class ReferralWidget {
    var referralCode: string
    var stats: ReferralStats
    var copied: bool
    /** What was written to the clipboard, in order. */
    var clipboard: seq<string>
    var shares: seq<ShareRequest>
    var notices: seq<Notice>

    constructor ()
      ensures referralCode == "" && stats == NoStats && !copied
      ensures clipboard == [] && shares == [] && notices == []
    {
      referralCode := "";
      stats := NoStats;
      copied := false;
      clipboard := [];
      shares := [];
      notices := [];
    }

    /** `generateReferralCode`: a returned `null` becomes the empty code; errors change nothing. */
    method GenerateReferralCode(signedIn: bool, reply: CodeReply)
      modifies this
      ensures signedIn && reply.Returned? ==> referralCode == reply.code.GetOr("")
      ensures !(signedIn && reply.Returned?) ==> referralCode == old(referralCode)
      ensures stats == old(stats) && copied == old(copied) && clipboard == old(clipboard)
      ensures shares == old(shares) && notices == old(notices)
    {
      if signedIn && reply.Returned? {
        referralCode := reply.code.GetOr("");
      }
    }

    /** `fetchReferralStats`: the rows' statistics, or no change when the read fails (`None`). */
    method FetchReferralStats(signedIn: bool, rows: Option<seq<Referral>>)
      modifies this
      ensures signedIn && rows.Some? ==> stats == Stats(rows.value)
      ensures !(signedIn && rows.Some?) ==> stats == old(stats)
      ensures referralCode == old(referralCode) && copied == old(copied) && clipboard == old(clipboard)
      ensures shares == old(shares) && notices == old(notices)
    {
      if signedIn && rows.Some? {
        stats := Stats(rows.value);
      }
    }

    /**
     * `copyReferralLink`: nothing at all without a code; otherwise write the
     * link and report whether the clipboard accepted it. `origin` is
     * `window.location.origin`.
     */
    method CopyReferralLink(origin: string, clipboardAccepts: bool)
      modifies this
      ensures old(referralCode) == "" ==>
        copied == old(copied) && clipboard == old(clipboard) && notices == old(notices)
      ensures old(referralCode) != "" && clipboardAccepts ==>
        clipboard == old(clipboard) + [ReferralLink(origin, referralCode)] && copied && notices == old(notices) + [Copied]
      ensures old(referralCode) != "" && !clipboardAccepts ==>
        clipboard == old(clipboard) && copied == old(copied) && notices == old(notices) + [CopyFailed]
      ensures referralCode == old(referralCode) && stats == old(stats) && shares == old(shares)
    {
      if referralCode == "" {
        return;
      }
      var link := ReferralLink(origin, referralCode);
      if clipboardAccepts {
        clipboard := clipboard + [link];
        copied := true;
        notices := notices + [Copied];
      } else {
        notices := notices + [CopyFailed];
      }
    }

    /** `shareReferralLink`: nothing without a code; the share sheet when there is one, else the copy path. */
    method ShareReferralLink(origin: string, canShare: bool, clipboardAccepts: bool)
      modifies this
      ensures old(referralCode) == "" ==>
        shares == old(shares) && clipboard == old(clipboard) && copied == old(copied) && notices == old(notices)
      ensures old(referralCode) != "" && canShare ==>
        shares == old(shares) + [ShareRequest(ShareTitle, SharePrefix + ReferralLink(origin, referralCode), ReferralLink(origin, referralCode))] &&
        clipboard == old(clipboard) && copied == old(copied) && notices == old(notices)
      ensures old(referralCode) != "" && !canShare ==>
        shares == old(shares) && clipboard == old(clipboard) + (if clipboardAccepts then [ReferralLink(origin, referralCode)] else []) &&
        copied == (old(copied) || clipboardAccepts) && notices == old(notices) + [if clipboardAccepts then Copied else CopyFailed]
      ensures referralCode == old(referralCode) && stats == old(stats)
    {
      if referralCode == "" {
        return;
      }
      var link := ReferralLink(origin, referralCode);
      if canShare {
        shares := shares + [ShareRequest(ShareTitle, SharePrefix + link, link)];
      } else {
        CopyReferralLink(origin, clipboardAccepts);
      }
    }
  }
}
