/**
 * The request handler of supabase/functions/youtube-stats/index.ts as a pure
 * decision over the outcomes of its awaited calls: who is signed in, what
 * the body parses to, the caller's own videos, the API key, and the
 * platform's reply.
 */
module YouTubeStats {
  import opened Wrappers
  import opened Decimal
  import YouTubeId

  /** `extractYouTubeId`: the same pattern as the upload form's `extractVideoId`. */
  function ExtractYouTubeId(url: string): (r: Option<string>)
    ensures r.Some? ==> YouTubeId.IsVideoId(r.value)
    ensures r.Some? ==> YouTubeId.MentionsHost(url)
  {
    if YouTubeId.MentionsHost(url) then YouTubeId.Extract(url)
    else YouTubeId.NoHostNoId(url); YouTubeId.Extract(url)
  }

  predicate IsHexDigit(c: char)
  {
    '0' <= c <= '9' || 'a' <= c <= 'f' || 'A' <= c <= 'F'
  }

  /** `z.string().uuid()`: five groups of 8, 4, 4, 4 and 12 hex digits joined by `-` (section 3 of RFC 4122), either case. */
  predicate IsUuid(s: string)
  {
    |s| == 36 &&
    forall i :: 0 <= i < 36 ==>
      if i == 8 || i == 13 || i == 18 || i == 23 then s[i] == '-' else IsHexDigit(s[i])
  }

  /** What `await req.json()` gives the schema: a parse failure, or an object whose `video_id` is a string or is not. */
  datatype Body = Unparsable(parseError: string) | Json(videoId: Option<string>)

  /** The platform's counters; `None` where the field is missing or empty. */
  datatype Statistics = Statistics(viewCount: Option<nat>, likeCount: Option<nat>, commentCount: Option<nat>)

  datatype Snippet = Snippet(title: string, publishedAt: string)

  /** An entry of `items`; `None` where the object is missing. */
  datatype Item = Item(statistics: Option<Statistics>, snippet: Option<Snippet>)

  /** What `youtubeResponse.json()` gives: a parse failure, or the `items` field (`None` where it is missing). */
  datatype Payload = NotJson(parseError: string) | Parsed(items: Option<seq<Item>>)

  /** The platform request: `fetch` throwing, or a reply with its status and its body. */
  datatype Upstream = FetchFailed(message: string) | Reply(ok: bool, status: nat, payload: Payload)

  datatype Outcomes = Outcomes(
    authenticated: bool,              // getUser() returned a user and no error
    body: Body,
    ownVideos: map<string, string>,   // the caller's videos: id -> youtube_url
    apiKey: Option<string>,           // Deno.env.get("YOUTUBE_API_KEY")
    upstream: Upstream,
    updateSucceeds: bool,             // the total_views update reported no error
    now: string)                      // new Date().toISOString()

  datatype VideoStats = VideoStats(
    youtubeId: string, title: string,
    viewCount: nat, likeCount: nat, commentCount: nat,
    publishedAt: string, updatedAt: string)

  datatype ResponseBody =
    | NoBody                        // the preflight reply
    | InvalidInput                  // { error: "Invalid input", details }
    | ErrorMessage(message: string) // { error: message }
    | Result(stats: VideoStats)

  /** Every reply carries the CORS headers; only the status and body vary. */
  datatype Response = Response(status: nat, body: ResponseBody)

  /** The reply, and the `total_views` value written to the caller's video row, if any. */
  datatype Outcome = Outcome(response: Response, storedViews: Option<nat>)

  const NotAuthenticated: string := "User not authenticated"
  const NotFoundOrDenied: string := "Video not found or access denied"
  const InvalidUrl: string := "Invalid YouTube URL"
  const MissingApiKey: string := "YouTube API key not configured"
  const NotOnPlatform: string := "Video not found on YouTube"

  /** The message of the `TypeError` a property read on `undefined` throws in the Deno runtime. */
  function ReadOfUndefined(property: string): string
  {
    "Cannot read properties of undefined (reading '" + property + "')"
  }

  function ApiError(status: nat): string
  {
    "YouTube API error: " + NatToString(status)
  }

  function Fail(message: string): Outcome
  {
    Outcome(Response(500, ErrorMessage(message)), None)
  }

  /** The `serve` handler. */
  function Handle(isOptions: bool, o: Outcomes): (out: Outcome)
    ensures isOptions ==> out == Outcome(Response(200, NoBody), None)
    ensures !isOptions && !o.authenticated ==> out == Fail(NotAuthenticated)
    ensures out.response.status in {200, 400, 500}
    ensures out.response.status == 500 <==> out.response.body.ErrorMessage?
    ensures out.response.status == 400 <==>
      !isOptions && o.authenticated && o.body.Json? &&
      (o.body.videoId.None? || !IsUuid(o.body.videoId.value))
    ensures out.response.status == 400 ==> out.response.body == InvalidInput
    ensures out.storedViews.Some? ==>
      o.updateSucceeds &&
      (out.response.status == 200 || out.response.body == ErrorMessage(ReadOfUndefined("title")))
  {
    if isOptions then Outcome(Response(200, NoBody), None)
    else if !o.authenticated then Fail(NotAuthenticated)
    else match o.body
      case Unparsable(message) => Fail(message)
      case Json(videoId) =>
        if videoId.None? || !IsUuid(videoId.value) then Outcome(Response(400, InvalidInput), None)
        else if videoId.value !in o.ownVideos then Fail(NotFoundOrDenied)
        else
          var youtubeId := ExtractYouTubeId(o.ownVideos[videoId.value]);
          if youtubeId.None? then Fail(InvalidUrl)
          else if o.apiKey.None? || o.apiKey.value == "" then Fail(MissingApiKey)
          else match o.upstream
            case FetchFailed(message) => Fail(message)
            case Reply(ok, status, payload) =>
              if !ok then Fail(ApiError(status))
              else match payload
                case NotJson(message) => Fail(message)
                case Parsed(items) =>
                  if items.None? || |items.value| == 0 then Fail(NotOnPlatform)
                  else
                    var item := items.value[0];
                    if item.statistics.None? then Fail(ReadOfUndefined("viewCount"))
                    else
                      var counts := item.statistics.value;
                      var views := counts.viewCount.GetOr(0);
                      // The update runs before the result object reads `snippet`.
                      var stored := if o.updateSucceeds then Some(views) else None;
                      if item.snippet.None? then
                        Outcome(Response(500, ErrorMessage(ReadOfUndefined("title"))), stored)
                      else
                        var stats := VideoStats(
                          youtubeId.value, item.snippet.value.title,
                          views, counts.likeCount.GetOr(0), counts.commentCount.GetOr(0),
                          item.snippet.value.publishedAt, o.now);
                        Outcome(Response(200, Result(stats)), stored)
  }

  /** The caller passed every check and the request is well-formed. */
  predicate Authorised(o: Outcomes)
  {
    o.authenticated && o.body.Json? && o.body.videoId.Some? &&
    IsUuid(o.body.videoId.value) && o.body.videoId.value in o.ownVideos
  }

  /** The caller is authorised, the stored url has an id and the API key is set: the platform is asked. */
  predicate ReachesPlatform(o: Outcomes)
  {
    Authorised(o) && ExtractYouTubeId(o.ownVideos[o.body.videoId.value]).Some? &&
    o.apiKey.Some? && o.apiKey.value != ""
  }

  /** The platform answered with JSON whose first item has both `statistics` and `snippet`. */
  predicate UsableReply(u: Upstream)
  {
    u.Reply? && u.ok && u.payload.Parsed? && u.payload.items.Some? && |u.payload.items.value| > 0 &&
    u.payload.items.value[0].statistics.Some? && u.payload.items.value[0].snippet.Some?
  }

  /**
   * A 200 with counts means every check passed, for a video the caller owns;
   * the counts are the first item's, missing ones read as 0, and the stored
   * `total_views` (when the update succeeded) is the returned view count.
   */
  lemma SuccessMeansEveryCheckPassed(isOptions: bool, o: Outcomes)
    requires Handle(isOptions, o).response.body.Result?
    ensures !isOptions && ReachesPlatform(o) && UsableReply(o.upstream)
    ensures var stats := Handle(isOptions, o).response.body.stats;
            var counts := o.upstream.payload.items.value[0].statistics.value;
            && Some(stats.youtubeId) == ExtractYouTubeId(o.ownVideos[o.body.videoId.value])
            && stats.viewCount == counts.viewCount.GetOr(0)
            && stats.likeCount == counts.likeCount.GetOr(0)
            && stats.commentCount == counts.commentCount.GetOr(0)
            && Handle(isOptions, o).storedViews == (if o.updateSucceeds then Some(stats.viewCount) else None)
  {
  }

  /**
   * The converse: a request that passes every check and gets a usable reply
   * is answered with 200 and the first item's counts (missing ones as 0),
   * title and publication time, and `total_views` is set to the returned
   * view count exactly when the update succeeds.
   */
  lemma SuccessWhenEveryCheckPasses(o: Outcomes)
    requires ReachesPlatform(o) && UsableReply(o.upstream)
    ensures var item := o.upstream.payload.items.value[0];
            var counts := item.statistics.value;
            var views := counts.viewCount.GetOr(0);
            Handle(false, o) == Outcome(
              Response(200, Result(VideoStats(
                ExtractYouTubeId(o.ownVideos[o.body.videoId.value]).value, item.snippet.value.title,
                views, counts.likeCount.GetOr(0), counts.commentCount.GetOr(0),
                item.snippet.value.publishedAt, o.now))),
              if o.updateSucceeds then Some(views) else None)
  {
  }

  /** A failed `total_views` update is only logged: the reply is the same either way. */
  lemma UpdateFailureDoesNotChangeResponse(isOptions: bool, o: Outcomes)
    ensures Handle(isOptions, o).response == Handle(isOptions, o.(updateSucceeds := !o.updateSucceeds)).response
  {
  }

  /**
   * The failures after validation are reported in source order: ownership,
   * then the id in the stored url, then the API key, then the request
   * itself, the platform's status, a body that is not JSON, an empty item
   * list and a missing `statistics`; each one masks every later outcome. A
   * missing `snippet` fails only after `total_views` was written.
   */
  lemma FailureOrder(o: Outcomes)
    requires o.authenticated && o.body.Json? && o.body.videoId.Some? && IsUuid(o.body.videoId.value)
    ensures o.body.videoId.value !in o.ownVideos ==>
      Handle(false, o) == Fail(NotFoundOrDenied)
    ensures o.body.videoId.value in o.ownVideos && ExtractYouTubeId(o.ownVideos[o.body.videoId.value]).None? ==>
      Handle(false, o) == Fail(InvalidUrl)
    ensures Authorised(o) && ExtractYouTubeId(o.ownVideos[o.body.videoId.value]).Some? &&
            (o.apiKey.None? || o.apiKey.value == "") ==>
      Handle(false, o) == Fail(MissingApiKey)
    ensures ReachesPlatform(o) && o.upstream.FetchFailed? ==>
      Handle(false, o) == Fail(o.upstream.message)
    ensures ReachesPlatform(o) && o.upstream.Reply? && !o.upstream.ok ==>
      Handle(false, o) == Fail(ApiError(o.upstream.status))
    ensures ReachesPlatform(o) && o.upstream.Reply? && o.upstream.ok && o.upstream.payload.NotJson? ==>
      Handle(false, o) == Fail(o.upstream.payload.parseError)
    ensures ReachesPlatform(o) && o.upstream.Reply? && o.upstream.ok && o.upstream.payload.Parsed? &&
            (o.upstream.payload.items.None? || o.upstream.payload.items.value == []) ==>
      Handle(false, o) == Fail(NotOnPlatform)
    ensures ReachesPlatform(o) && o.upstream.Reply? && o.upstream.ok && o.upstream.payload.Parsed? &&
            o.upstream.payload.items.Some? && o.upstream.payload.items.value != [] &&
            o.upstream.payload.items.value[0].statistics.None? ==>
      Handle(false, o) == Fail(ReadOfUndefined("viewCount"))
    ensures ReachesPlatform(o) && o.upstream.Reply? && o.upstream.ok && o.upstream.payload.Parsed? &&
            o.upstream.payload.items.Some? && o.upstream.payload.items.value != [] &&
            o.upstream.payload.items.value[0].statistics.Some? &&
            o.upstream.payload.items.value[0].snippet.None? ==>
      Handle(false, o) == Outcome(
        Response(500, ErrorMessage(ReadOfUndefined("title"))),
        if o.updateSucceeds then Some(o.upstream.payload.items.value[0].statistics.value.viewCount.GetOr(0)) else None)
  {
  }

  /** A body that is not JSON fails with the parser's own message, before any validation. */
  lemma UnparsableBodyFails(o: Outcomes)
    requires o.authenticated && o.body.Unparsable?
    ensures Handle(false, o) == Fail(o.body.parseError)
  {
  }

  /** An unauthenticated request fails the same way whatever its body and every later outcome. */
  lemma UnauthenticatedIgnoresEverythingElse(o1: Outcomes, o2: Outcomes)
    requires !o1.authenticated && !o2.authenticated
    ensures Handle(false, o1) == Handle(false, o2)
  {
  }
}
