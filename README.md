# channel-boost-tokens, modelled in Dafny

This is a Dafny model of the rules inside the channel-boost-tokens web app. Creators spend tokens to promote YouTube videos, viewers earn tokens, and an admin screen moderates the videos. Most of the app is React UI over a hosted database. The logic modelled here is the part that can be stated exactly:

- **Browser identifiers** (`src/lib/deviceFingerprint.ts`). The device fingerprint is built from seven environment values, joined with `|`, encoded in base64 (RFC 4648, section 4) and cut to 32 characters. The per-tab session id is got or created in `sessionStorage`.
- **YouTube id recogniser.** One regular expression appears twice, character for character: `extractVideoId` in `src/components/VideoUploadModal.tsx` and `extractYouTubeId` in `supabase/functions/youtube-stats/index.ts`. It is modelled once, as a leftmost-match search over its alternatives (`youtube.com/` followed by `x/…/`, `v/`, `e/`, `embed/` or `…?v=`/`…&v=`, and `youtu.be/`), each followed by 11 characters that are not `"`, `&`, `?`, `/` or whitespace. Both copies use that one function, so they accept and reject the same urls by construction.
- **Promotion form** (`VideoUploadModal.tsx`). `handleSubmit` is a class whose state is the form's fields. It emits a log of external effects in order: the video insert, the token debit, the toasts and the callbacks.
- **Statistics function** (`youtube-stats/index.ts`). The `serve` handler is a pure decision over the outcomes of its awaited calls. It produces the HTTP status, the body and the `total_views` value it writes.
- **Gamification.**
  - The streak bonus tiers, the next milestone, the claimed-today test and the claim handler (`DailyStreak.tsx`).
  - The creator-level table, the next tier, the progress bar and the lazy creation of the first level row (`UserLevel.tsx`).
- **Aggregations and tables.**
  - The referral statistics fold and the referral link (`ReferralSystem.tsx`).
  - The per-video earnings, the duration, the ROI and the net labels (`VideoEngagementList.tsx`).
  - The admin counts, the badge maps, the offered actions, and the update-by-id and delete-by-id on the `videos` table (`AdminPanel.tsx`). Here the table is a sequence of rows that the admin's methods rewrite in place.

Each component file is one module with the same name. Datatypes hold the values and classes hold each component's `useState` fields. Methods stand for the handlers. Each handler takes the answers of its database calls, its clock and its random draws as parameters. The helper modules are:

- `Wrappers`: `Option`;
- `Decimal`: JavaScript's rendering of integers, and parsing it back;
- `Folds`: `reduce` of a sum;
- `Base64`: `btoa`, with a decoder;
- `Enums`: the enums of `src/integrations/supabase/types.ts`.

## Model

| member | source | states |
|---|---|---|
| Enums.ParseVideoStatus | src/integrations/supabase/types.ts:344 | a stored string names a `video_status` value exactly when it is that value's name; any other string names none |
| Enums.ParseTransactionType | src/integrations/supabase/types.ts:343 | the same for `transaction_type` |
| Enums.ParseAppRole | src/integrations/supabase/types.ts:342 | the same for `app_role` |
| Base64.Encode | src/lib/deviceFingerprint.ts:17 | `btoa` of n bytes has 4·⌈n/3⌉ characters, all from the RFC 4648 alphabet or `=` |
| Base64.DecodeEncode | src/lib/deviceFingerprint.ts:17 | decoding the encoding gives the bytes back, so the encoding is injective |
| Base64.EncodeAppend | src/lib/deviceFingerprint.ts:17 | an input cut at a multiple of three bytes encodes piece by piece |
| DeviceFingerprint.Components | src/lib/deviceFingerprint.ts:5-13 | the components array has seven entries, in source order |
| DeviceFingerprint.SplitJoin | src/lib/deviceFingerprint.ts:16 | splitting on the separator undoes the join on parts that do not contain it |
| DeviceFingerprint.ComponentsRecoverable | src/lib/deviceFingerprint.ts:5-16 | the order is fixed: splitting the joined string gives userAgent, language, colorDepth, `WxH`, timezone offset and the two storage flags, when the two free-text values do not contain the separator |
| DeviceFingerprint.FingerprintOf | src/lib/deviceFingerprint.ts:16-17 | a fingerprint exists exactly when `btoa` accepts the string (every character ≤ U+00FF); it has at most 32 base64 characters, exactly 32 once the joined string has 22 characters |
| DeviceFingerprint.FingerprintEncodesFirst24 | src/lib/deviceFingerprint.ts:17 | from 24 characters on, the fingerprint is the encoding of exactly the first 24 |
| DeviceFingerprint.FingerprintDecodes | src/lib/deviceFingerprint.ts:17 | the fingerprint decodes back to the first 24 characters of the joined string |
| DeviceFingerprint.SameFingerprintIffSharedPrefix | src/lib/deviceFingerprint.ts:4-18 | two environments get the same fingerprint exactly when their joined strings share the first 24 characters; equal environments always agree |
| DeviceFingerprint.NewSessionId | src/lib/deviceFingerprint.ts:28 | a new id starts with `session_` and continues past it |
| DeviceFingerprint.SessionStorage.GenerateSessionId | src/lib/deviceFingerprint.ts:20-33 | a stored non-empty `viewer_session_id` is returned and nothing is written; otherwise a new `session_…` id is stored under that key and returned; no other key changes |
| DeviceFingerprint.GenerateSessionIdIsIdempotent | src/lib/deviceFingerprint.ts:24-32 | a second call returns the first call's id, whatever its clock and random inputs |
| YouTubeId.SearchLeftmost | src/components/VideoUploadModal.tsx:35-36 | a found id comes from the leftmost position where an alternative matches; no earlier position matches |
| YouTubeId.SearchNoneMeansNoMatch | src/components/VideoUploadModal.tsx:35-37 | when the search finds nothing, no position from the start onwards matches |
| YouTubeId.Extract | src/components/VideoUploadModal.tsx:34-38 | the result is null or 11 characters that are not `"&?/` or whitespace, taken verbatim from the url |
| YouTubeId.NoHostNoId | src/components/VideoUploadModal.tsx:35 | a url that contains neither `youtube.com/` nor `youtu.be/` (matched case-sensitively) yields null |
| YouTubeId.ExtractIffSomeMatch | src/components/VideoUploadModal.tsx:35-37 | an id comes back exactly when some position of the url matches |
| YouTubeId.ShortLinkYieldsId | src/components/VideoUploadModal.tsx:35 | `https://youtu.be/X…` yields X for any 11 allowed characters X, whatever follows them (no end anchor) |
| YouTubeId.WatchLinkYieldsId | src/components/VideoUploadModal.tsx:35 | `https://www.youtube.com/watch?v=X…` yields X, whatever follows it, as long as no `/` and no later `v=` follows |
| YouTubeId.EmbedLinkYieldsId | src/components/VideoUploadModal.tsx:35 | `https://www.youtube.com/embed/X` yields X |
| YouTubeStats.ExtractYouTubeId | supabase/functions/youtube-stats/index.ts:149-153 | the function's copy of the pattern: an 11-character id, only for urls naming a host |
| YouTubeStats.Handle | supabase/functions/youtube-stats/index.ts:22-147 | OPTIONS gets 200 and no body before any check; no user gives "User not authenticated"; the status is always 200, 400 or 500; 400 with "Invalid input" exactly for a JSON body whose `video_id` is missing or not a UUID; 500 exactly with an `{error}` body; `total_views` is written only on a 200, or on the 500 of a missing `snippet`, which is read after the write |
| YouTubeStats.SuccessMeansEveryCheckPassed | supabase/functions/youtube-stats/index.ts:62-137 | a 200 with counts means the caller owns the video, the stored url has an id, the key is set and the platform answered with JSON whose first item has `statistics` and `snippet`; missing counts read as 0; the stored `total_views` is the returned `view_count` |
| YouTubeStats.SuccessWhenEveryCheckPasses | supabase/functions/youtube-stats/index.ts:62-137 | conversely, a request that passes every check and gets such a reply is answered 200 with the first item's counts (missing as 0), title and publication time, and `total_views` is set to the returned view count exactly when the update succeeds |
| YouTubeStats.UpdateFailureDoesNotChangeResponse | supabase/functions/youtube-stats/index.ts:107-120 | a failed `total_views` update leaves the response unchanged |
| YouTubeStats.FailureOrder | supabase/functions/youtube-stats/index.ts:62-130 | after validation the 500 errors come in source order (ownership, url id, API key, the thrown `fetch` message, upstream status, the JSON parser's message, no items, missing `statistics`), each one masking the later ones; a missing `snippet` fails after `total_views` was written |
| YouTubeStats.UnparsableBodyFails | supabase/functions/youtube-stats/index.ts:46-145 | for a signed-in caller, a request body that is not JSON gives a 500 with the parser's message before any validation |
| YouTubeStats.UnauthenticatedIgnoresEverythingElse | supabase/functions/youtube-stats/index.ts:41-44 | an unauthenticated request fails the same way whatever its body and every later outcome |
| VideoUpload.TokenAmount | src/components/VideoUploadModal.tsx:183-186 | the chosen amount is 10, 25, 50 or 100, and it prints as the choice |
| VideoUpload.ThumbnailUrl | src/components/VideoUploadModal.tsx:52 | the thumbnail is `https://img.youtube.com/vi/` + id + `/maxresdefault.jpg`, with the id at a known position |
| VideoUpload.InvalidUrlWritesNothing | src/components/VideoUploadModal.tsx:47-50 | a url without an id gives "Please enter a valid YouTube URL" before any database access |
| VideoUpload.InsufficientBalanceWritesNothing | src/components/VideoUploadModal.tsx:55-63 | a missing profile or a balance below the amount gives "Insufficient token balance" and writes nothing |
| VideoUpload.SpendFollowsInsert | src/components/VideoUploadModal.tsx:66-88 | the debit comes right after a successful insert, for the amount the row records, which is one of the offered choices and covered by the balance |
| VideoUpload.InsertedRowDescribesVideo | src/components/VideoUploadModal.tsx:52-76 | the inserted row holds the caller, the url as typed and a thumbnail around the recognised id |
| VideoUpload.FailedDebitKeepsRow | src/components/VideoUploadModal.tsx:78-88 | a failed debit after a successful insert leaves the row inserted, and the submission does not succeed |
| VideoUpload.SuccessIffEveryStepSucceeded | src/components/VideoUploadModal.tsx:90-102 | the success toast and the close callback happen exactly when every step succeeded |
| VideoUpload.UploadForm.SelectTokens | src/components/VideoUploadModal.tsx:183-186 | the select only ever holds an offered amount |
| VideoUpload.RunSubmission | src/components/VideoUploadModal.tsx:46-108 | the try block runs the steps in order and stops at the first failure, which becomes its error toast; the effects and the success flag are those of the submit specification |
| VideoUpload.UploadForm.Submit | src/components/VideoUploadModal.tsx:40-112 | the effects are those of the submit specification, in order; the five fields reset to their initial values (amount "10") exactly on success; loading ends |
| DailyStreak.StreakBonus | src/components/DailyStreak.tsx:123-127 | the bonus is 5, 15 or 50 |
| DailyStreak.StreakBonusTiers | src/components/DailyStreak.tsx:123-127 | 50 iff streak ≥ 7, 15 iff 3 ≤ streak < 7, 5 otherwise; never decreasing in the streak |
| DailyStreak.NextMilestone | src/components/DailyStreak.tsx:129-133 | the milestone is above the streak and at least 3; from 7 on it is a multiple of 7 at most 7 above the streak |
| DailyStreak.NextMilestoneIsSmallestMultiple | src/components/DailyStreak.tsx:132 | from 7 on, no multiple of 7 above the streak is smaller than the milestone |
| DailyStreak.NextBonus | src/components/DailyStreak.tsx:175 | "Next bonus" is 15 below a streak of 3 and 50 from there on |
| DailyStreak.StoredDateShiftedWestOfUtc | src/components/DailyStreak.tsx:53-55 | as written, west of UTC the stored date reads as the day before, so a claim made today does not count as today's |
| DailyStreak.ClaimedTodayAgreesEastOfUtc | src/components/DailyStreak.tsx:53-55 | at UTC and east of it, the written test and the intended one agree |
| DailyStreak.FetchedData | src/components/DailyStreak.tsx:57-62 | a fetched row shows no tokens awarded, its two streaks, and a record exactly when current equals longest |
| DailyStreak.ClaimNoticesMatchAward | src/components/DailyStreak.tsx:93-110 | a positive award gives the bonus notice, plus the record notice for a record; otherwise "Already Claimed" |
| DailyStreak.StreakWidget.FetchStreakData | src/components/DailyStreak.tsx:37-67 | only a returned row changes the card: it sets the data and claimed-today from the local calendar date; any error, "no row" included, changes nothing |
| DailyStreak.StreakWidget.ClaimDailyBonus | src/components/DailyStreak.tsx:69-121 | nothing happens without a user or while loading; an rpc error gives the failure notice; a result marks today claimed and raises its notices; loading ends |
| DailyStreak.ClaimDisablesButton | src/components/DailyStreak.tsx:90-91 | after a claim that returns, the claim button is disabled |
| UserLevel.TierOfKey | src/components/UserLevel.tsx:31-72 | a stored level names a tier exactly when it is one of the five keys |
| UserLevel.TierTableIsLadder | src/components/UserLevel.tsx:31-72 | `minXP` strictly increases in key order; each `maxXP` is one below the next `minXP`; only diamond is unbounded; every XP from 0 up lies in exactly one tier |
| UserLevel.CurrentLevelIgnoresXp | src/components/UserLevel.tsx:123-126 | the current tier comes from the stored key alone: bronze without data or for an unknown key |
| UserLevel.IndexOf | src/components/UserLevel.tsx:132 | `indexOf` gives the first position of the key, or -1 exactly when it is absent |
| UserLevel.UnknownLevelAimsAtBronze | src/components/UserLevel.tsx:128-150 | as written, an unknown key makes the next level bronze, so the progress is NaN at 0 XP, 100 for positive XP and -Infinity for negative XP |
| UserLevel.NextTier | src/components/UserLevel.tsx:128-137 | the next tier is the one after the current tier, and there is none exactly at diamond |
| UserLevel.NextLevelAgreesOnKnownKeys | src/components/UserLevel.tsx:128-137 | for every key in the table, the written lookup is the intended one (silver without data) |
| UserLevel.ProgressIsPercentage | src/components/UserLevel.tsx:139-151 | the corrected progress is a finite percentage capped at 100: 0 without data, 100 at diamond, 100 exactly when no XP is needed, and not negative from the tier's floor up |
| UserLevel.ProgressNotFlooredBelowZero | src/components/UserLevel.tsx:147-150 | the cap is one-sided: silver with 50 XP gives -12.5 |
| UserLevel.LevelWidget.FetchUserLevel | src/components/UserLevel.tsx:85-121 | a found row is shown; on `PGRST116` bronze with 0 XP is inserted, and shown if the insert succeeds; other errors change nothing; loading ends |
| UserLevel.FirstVisitStartsAtBronze | src/components/UserLevel.tsx:100-114 | a first visit shows bronze at 0 XP, aiming at silver with 0 % progress |
| ReferralSystem.FoldStatsCounts | src/components/ReferralSystem.tsx:78-88 | the reduce adds the row count, the exact-status counts and the award sum to its start value |
| ReferralSystem.StatsMeaning | src/components/ReferralSystem.tsx:78-90 | `total_referrals` is the row count; pending and completed count exact matches and together never exceed it; `tokens_earned` is the award sum; no rows give all zeros |
| ReferralSystem.ParseReferralLinkInverts | src/components/ReferralSystem.tsx:99 | the link is origin + `?ref=` + code, and both parts can be read back |
| ReferralSystem.ReferralWidget.GenerateReferralCode | src/components/ReferralSystem.tsx:45-62 | a returned code is stored, `null` as empty; errors change nothing |
| ReferralSystem.ReferralWidget.FetchReferralStats | src/components/ReferralSystem.tsx:64-94 | a successful read sets the fold's statistics; a failed one changes nothing |
| ReferralSystem.ReferralWidget.CopyReferralLink | src/components/ReferralSystem.tsx:96-118 | without a code nothing happens; otherwise the link is written and "Copied", or the failure is announced |
| ReferralSystem.ReferralWidget.ShareReferralLink | src/components/ReferralSystem.tsx:120-140 | without a code nothing happens; otherwise the share sheet gets title, text and link, or the copy path runs with all its effects: the link written and `copied` set with "Copied", or only the failure notice |
| VideoEngagement.JsRem | src/components/VideoEngagementList.tsx:102 | `%` is the remainder of division truncated toward zero: it completes the truncated quotient to the dividend, is smaller than the divisor in magnitude and has the dividend's sign; for non-negative dividends it is the mathematical remainder |
| VideoEngagement.JsRemUnique | src/components/VideoEngagementList.tsx:102 | those properties admit exactly one quotient and remainder, so the contract of `JsRem` fixes its value |
| VideoEngagement.FormatDurationRoundTrip | src/components/VideoEngagementList.tsx:99-104 | a positive duration prints as `m:ss` with m = s div 60 and two second digits, and reading it back gives s |
| VideoEngagement.NegativeDurationPrintsBothSigns | src/components/VideoEngagementList.tsx:101-103 | -5 seconds prints as `-1:-5` |
| VideoEngagement.StatusColorsDistinct | src/components/VideoEngagementList.tsx:86-97 | the three statuses get three distinct classes and every other string gets the muted default |
| VideoEngagement.EarnedTokensIsSum | src/components/VideoEngagementList.tsx:65 | earned tokens are the sum of the views' `tokens_earned`, or 0 when the read failed, and not negative for non-negative views |
| VideoEngagement.Roi | src/components/VideoEngagementList.tsx:234-237 | the ROI is the integer nearest 100·earned/spent, halves rounded up |
| VideoEngagement.NetLabelSign | src/components/VideoEngagementList.tsx:240-241 | the net starts with `+` exactly when earned exceeds spent, with `-` exactly when it is below, and the label determines the difference |
| VideoEngagement.NothingEarned | src/components/VideoEngagementList.tsx:234-241 | a spend with no earnings shows 0 % and the whole spend as the loss |
| VideoEngagement.EngagementWidget.FetchUserVideos | src/components/VideoEngagementList.tsx:44-84 | every returned row is kept, in order, with its views' sum; a failed list read raises one error notice and changes nothing else; loading ends |
| AdminPanel.BadgeMapsCoverEnums | src/components/AdminPanel.tsx:150-166 | the badge maps cover exactly the status and transaction enums, each value with its own variant |
| AdminPanel.OfferedActionsByStatus | src/components/AdminPanel.tsx:262-285 | approve and reject are offered exactly for pending videos; delete for every video |
| AdminPanel.PendingVideos | src/components/AdminPanel.tsx:198 | the pending list holds exactly the pending videos |
| AdminPanel.PendingVideosCounts | src/components/AdminPanel.tsx:198 | the filter keeps each pending video exactly as often as it occurs and no other video, so its length is the number of pending videos |
| AdminPanel.PendingCountBound | src/components/AdminPanel.tsx:198-209 | the pending count never exceeds the video count, and equals it exactly when every video is pending |
| AdminPanel.TotalTokensIsSum | src/components/AdminPanel.tsx:220 | Total Tokens is the sum of all balances and adds up over any split of the users |
| AdminPanel.SortNewestFirst | src/components/AdminPanel.tsx:65-81 | a read ordered by `created_at` descending is a newest-first permutation of the table |
| AdminPanel.RecentTransactionsShape | src/components/AdminPanel.tsx:77-81 | the transactions read holds at most 50 stored rows, newest first, and exactly 50 when there are that many |
| AdminPanel.RecentTransactionsAreNewest | src/components/AdminPanel.tsx:77-81 | no stored transaction left out is newer than one shown |
| AdminPanel.WithStatus | src/components/AdminPanel.tsx:100-103 | the update gives every row with the id the new status and leaves every other row as it was, in place |
| AdminPanel.WithoutId | src/components/AdminPanel.tsx:128-131 | the delete shortens the table by exactly the number of rows with the id |
| AdminPanel.WithoutIdMembers | src/components/AdminPanel.tsx:128-131 | a row survives the delete exactly when it was in the table and has a different id |
| AdminPanel.WithoutAbsentId | src/components/AdminPanel.tsx:128-131 | deleting an id that no row has changes nothing |
| AdminPanel.ApprovalShrinksPending | src/components/AdminPanel.tsx:98-103 | approving a pending video with a unique id lowers the pending count by one and keeps the total |
| AdminPanel.Backend.UpdateStatus | src/components/AdminPanel.tsx:100-103 | the table becomes the updated table; the other tables are unchanged |
| AdminPanel.Backend.DeleteVideo | src/components/AdminPanel.tsx:128-131 | the table loses exactly the rows with the id; the other tables are unchanged |
| AdminPanel.Panel.Summary | src/components/AdminPanel.tsx:187-220 | the cards show the user count, the length of the pending filter (between 0 and the video count, equal to it exactly when every video is pending), the video count and the Total Tokens reduce |
| AdminPanel.Panel.FetchData | src/components/AdminPanel.tsx:62-96 | each list is its table newest first (transactions cut to 50), or empty when its read returned no data; loading ends |
| AdminPanel.Panel.HandleVideoAction | src/components/AdminPanel.tsx:98-120 | on success the status of exactly the rows with the id changes, "Video approved/rejected successfully" is announced, and the lists are reloaded as `fetchData` leaves them with loading ended; an error is announced and changes nothing else |
| AdminPanel.Panel.HandleDeleteVideo | src/components/AdminPanel.tsx:122-148 | a declined confirmation changes nothing; otherwise exactly the rows with the id are deleted, the success is announced and the lists are reloaded as `fetchData` leaves them with loading ended, or the error is announced and nothing else changes |

## Left out

- Strings are sequences of characters, and JavaScript's UTF-16 code units are not modelled separately. `btoa` is taken to reject exactly the characters above U+00FF.
- Floating point. The progress bar uses exact `real` division, with NaN and ±Infinity written out only where the source can divide by zero. The ROI uses exact rounding to nearest with halves up (`Math.round`).
- Time and randomness are parameters: `Date.now()`, `Math.random()`, `new Date().toISOString()`, the timezone offset and the current instant. The local timezone is a single fixed offset in minutes, so daylight-saving changes are not modelled.
- Database behaviour is given, not modelled:
  - row-level security;
  - ties in `created_at` ordering, where the model picks one newest-first order;
  - the `update_token_balance`, `check_daily_streak`, `generate_referral_code` and `has_role` procedures, which are represented only by their replies.
- The admin update and delete are modelled as succeeding or failing as a whole: a reported error leaves the table unchanged.
- The `fetchData()` reload after an admin action is not awaited in the source. The model runs it right after the write. The `catch` in `fetchData` cannot be reached from the query results, which never throw, so it is not modelled.
- `parseInt` of the platform's counters is abstracted: each counter is a natural number, or missing/empty, in which case it reads as 0. Counters that do not parse (NaN) are not modelled.
- The platform reply's shape is modelled only as far as the handler reads it: a body that is not JSON, a missing `items`, and a first item without `statistics` or `snippet`. The `TypeError`s of the last two carry the runtime's "Cannot read properties of undefined" text. An item that is `null` or not an object is not modelled.
- `LEVELS[key]` is modelled over the five keys only. Keys that JavaScript finds on the object prototype (such as `constructor`) are not modelled.
- `formatDuration` is modelled for integer durations. Fractional seconds are not modelled.
- VideoEngagement.EarnedTokens: `|| 0` is applied only to a failed read. A sum that is itself 0 already gives 0, so the result is the same.
- The toasts are not modelled beyond which notice is raised. Also not modelled: the 2-second reset of `copied`, errors inside `navigator.share`, and the rendering.
- DailyStreak.StreakWidget.FetchStreakData: the model uses the corrected claimed-today test, not the one as written (see Findings).
- The watch-to-earn flow, the payment function, the price tables, and the profile, dashboard and navigation screens have no logic to model.

## Findings

| source | as written | input that shows it | evidently intended | confidence | as-written member | corrected member |
|---|---|---|---|---|---|---|
| src/components/DailyStreak.tsx:53-55 | `new Date(last_login_date)` reads the date-only string as UTC midnight, and `toDateString()` renders it in local time; west of UTC this is the previous day, so `hasClaimedToday` is false on the day of the claim | timezone offset 240 (UTC-4), `last_login_date` equal to today's local date | compare the stored date with today's local date | not executed; assumes the column holds a plain date | DailyStreak.StoredDateShiftedWestOfUtc | DailyStreak.ClaimedTodayAgreesEastOfUtc |
| src/components/UserLevel.tsx:128-150 | for a stored `level` outside `LEVELS`, `indexOf` gives -1, so the next level is bronze, the level the card already shows; the range is 0 and the progress is NaN or a full bar | `level` "legend" with 0 XP | aim at the tier after the shown one (silver) | not executed | UserLevel.UnknownLevelAimsAtBronze | UserLevel.ProgressIsPercentage |
