/**
 * The promotion form of src/components/VideoUploadModal.tsx: its fields, the
 * token amount chosen from a fixed list, and `handleSubmit`, which checks the
 * url and the balance, inserts the video row, then debits the tokens.
 */
module VideoUpload {
  import opened Wrappers
  import opened Decimal
  import YouTubeId

  /** The amounts the select offers; the form starts on the first. */
  const TokenChoices: seq<string> := ["10", "25", "50", "100"]
  const DefaultTokens: string := "10"

  const InvalidUrlMessage: string := "Please enter a valid YouTube URL"
  const InsufficientMessage: string := "Insufficient token balance"
  const ThumbnailPrefix: string := "https://img.youtube.com/vi/"
  const ThumbnailSuffix: string := "/maxresdefault.jpg"
  const SpendPrefix: string := "Promoted video: "

  /** `parseInt(tokensToSpend)` on a value the select can hold. */
  function TokenAmount(choice: string): (n: nat)
    requires choice in TokenChoices
    ensures n in {10, 25, 50, 100}
    ensures NatToString(n) == choice
  {
    if choice == "10" then 10
    else if choice == "25" then 25
    else if choice == "50" then 50
    else 100
  }

  /** The thumbnail the row stores, and where the id sits inside it. */
  function ThumbnailUrl(videoId: string): (u: string)
    ensures |u| == |ThumbnailPrefix| + |videoId| + |ThumbnailSuffix|
    ensures u[..|ThumbnailPrefix|] == ThumbnailPrefix
    ensures u[|ThumbnailPrefix|..|ThumbnailPrefix| + |videoId|] == videoId
    ensures u[|ThumbnailPrefix| + |videoId|..] == ThumbnailSuffix
  {
    ThumbnailPrefix + videoId + ThumbnailSuffix
  }

  /** The form's editable state. */
  datatype Fields = Fields(youtubeUrl: string, title: string, description: string, category: string, tokensToSpend: string)

  const InitialFields: Fields := Fields("", "", "", "", DefaultTokens)

  /** The `videos` row the form inserts. */
  datatype VideoRow = VideoRow(
    userId: string, youtubeUrl: string, title: string, description: string,
    category: string, thumbnailUrl: string, tokensSpent: nat)

  /** What the submit handler does outside its own state, in order. */
  datatype Effect =
    | InsertVideo(row: VideoRow)
    | SpendTokens(userId: string, amount: nat, description: string)   // rpc update_token_balance, _type 'spent'
    | SuccessToast
    | ErrorToast(message: string)
    | VideoUploaded                                                    // onVideoUploaded()
    | Closed                                                           // onClose()

  /**
   * The database's answers: the caller's `token_balance` (`None` when no
   * profile row comes back) and the error each write reports, if any.
   */
  datatype Backend = Backend(balance: Option<int>, insertError: Option<string>, updateError: Option<string>)

  /** The row `handleSubmit` inserts for a recognised url. */
  function RowFor(userId: string, f: Fields, videoId: string): VideoRow
    requires f.tokensToSpend in TokenChoices
  {
    VideoRow(userId, f.youtubeUrl, f.title, f.description, f.category, ThumbnailUrl(videoId), TokenAmount(f.tokensToSpend))
  }

  /** The balance check: a missing profile counts as too poor. */
  predicate CanAfford(f: Fields, b: Backend)
    requires f.tokensToSpend in TokenChoices
  {
    b.balance.Some? && b.balance.value >= TokenAmount(f.tokensToSpend)
  }

  /** Every step of `handleSubmit` succeeded. */
  predicate Submitted(user: Option<string>, f: Fields, b: Backend)
    requires f.tokensToSpend in TokenChoices
  {
    user.Some? && YouTubeId.Extract(f.youtubeUrl).Some? && CanAfford(f, b) &&
    b.insertError.None? && b.updateError.None?
  }

  /** The effects of one `handleSubmit`, the specification of `UploadForm.Submit`. */
  function SubmitEffects(user: Option<string>, f: Fields, b: Backend): seq<Effect>
    requires f.tokensToSpend in TokenChoices
  {
    if user.None? then []
    else match YouTubeId.Extract(f.youtubeUrl)
      case None => [ErrorToast(InvalidUrlMessage)]
      case Some(videoId) =>
        if !CanAfford(f, b) then [ErrorToast(InsufficientMessage)]
        else
          var insert := InsertVideo(RowFor(user.value, f, videoId));
          if b.insertError.Some? then [insert, ErrorToast(b.insertError.value)]
          else
            var spend := SpendTokens(user.value, TokenAmount(f.tokensToSpend), SpendPrefix + f.title);
            if b.updateError.Some? then [insert, spend, ErrorToast(b.updateError.value)]
            else [insert, spend, SuccessToast, VideoUploaded, Closed]
  }

  predicate WritesDatabase(e: Effect)
  {
    e.InsertVideo? || e.SpendTokens?
  }

  /** A url without a recognisable id ends in the url error and writes nothing. */
  lemma InvalidUrlWritesNothing(user: Option<string>, f: Fields, b: Backend)
    requires f.tokensToSpend in TokenChoices
    requires user.Some? && YouTubeId.Extract(f.youtubeUrl).None?
    ensures SubmitEffects(user, f, b) == [ErrorToast(InvalidUrlMessage)]
    ensures forall e :: e in SubmitEffects(user, f, b) ==> !WritesDatabase(e)
  {
  }

  /** A balance below the chosen amount, or no profile, stops the submission before any write. */
  lemma InsufficientBalanceWritesNothing(user: Option<string>, f: Fields, b: Backend)
    requires f.tokensToSpend in TokenChoices
    requires user.Some? && YouTubeId.Extract(f.youtubeUrl).Some? && !CanAfford(f, b)
    ensures SubmitEffects(user, f, b) == [ErrorToast(InsufficientMessage)]
    ensures forall e :: e in SubmitEffects(user, f, b) ==> !WritesDatabase(e)
  {
  }

  /**
   * Tokens are debited only after the video row was inserted, for the amount
   * the row records, which is positive and one of the offered choices, and
   * only when the balance covered it.
   */
  lemma SpendFollowsInsert(user: Option<string>, f: Fields, b: Backend, i: nat)
    requires f.tokensToSpend in TokenChoices
    requires i < |SubmitEffects(user, f, b)| && SubmitEffects(user, f, b)[i].SpendTokens?
    ensures i == 1 && SubmitEffects(user, f, b)[0].InsertVideo?
    ensures var spend, insert := SubmitEffects(user, f, b)[i], SubmitEffects(user, f, b)[0];
            && spend.amount == insert.row.tokensSpent
            && spend.amount in {10, 25, 50, 100}
            && NatToString(spend.amount) == f.tokensToSpend
            && b.balance.Some? && b.balance.value >= spend.amount
            && b.insertError.None?
  {
  }

  /** The inserted row carries the recognised id in its thumbnail and the url as typed. */
  lemma InsertedRowDescribesVideo(user: Option<string>, f: Fields, b: Backend)
    requires f.tokensToSpend in TokenChoices
    requires |SubmitEffects(user, f, b)| > 0 && SubmitEffects(user, f, b)[0].InsertVideo?
    ensures var row := SubmitEffects(user, f, b)[0].row;
            && user == Some(row.userId)
            && row.youtubeUrl == f.youtubeUrl
            && YouTubeId.Extract(f.youtubeUrl).Some?
            && row.thumbnailUrl == ThumbnailUrl(YouTubeId.Extract(f.youtubeUrl).value)
            && YouTubeId.IsVideoId(row.thumbnailUrl[|ThumbnailPrefix|..|ThumbnailPrefix| + YouTubeId.IdLength])
  {
    var videoId := YouTubeId.Extract(f.youtubeUrl).value;
    assert |videoId| == YouTubeId.IdLength;
  }

  /**
   * The two writes are not atomic: a failed debit leaves the inserted row in
   * place, so a video can be listed without its tokens having been spent.
   */
  lemma FailedDebitKeepsRow(user: Option<string>, f: Fields, b: Backend)
    requires f.tokensToSpend in TokenChoices
    requires user.Some? && YouTubeId.Extract(f.youtubeUrl).Some? && CanAfford(f, b)
    requires b.insertError.None? && b.updateError.Some?
    ensures exists e :: e in SubmitEffects(user, f, b) && e.InsertVideo?
    ensures !Submitted(user, f, b)
  {
    assert SubmitEffects(user, f, b)[0].InsertVideo?;
  }

  /** The success toast, and the callbacks, come exactly when every step succeeded. */
  lemma SuccessIffEveryStepSucceeded(user: Option<string>, f: Fields, b: Backend)
    requires f.tokensToSpend in TokenChoices
    ensures SuccessToast in SubmitEffects(user, f, b) <==> Submitted(user, f, b)
    ensures Closed in SubmitEffects(user, f, b) <==> Submitted(user, f, b)
  {
  }

  /**
   * The `try`/`catch` of `handleSubmit` for a signed-in user: the profile
   * read, the insert and the rpc in order, the first failure turned into its
   * error toast. `ok` says whether the form is reset and the callbacks run.
   */
  method RunSubmission(userId: string, f: Fields, b: Backend) returns (log: seq<Effect>, ok: bool)
    requires f.tokensToSpend in TokenChoices
    ensures log == SubmitEffects(Some(userId), f, b)
    ensures ok == Submitted(Some(userId), f, b)
  {
    log, ok := [], false;
    var error: Option<string> := None;
    var videoId := YouTubeId.Extract(f.youtubeUrl);
    if videoId.None? {
      error := Some(InvalidUrlMessage);
    } else {
      var amount := TokenAmount(f.tokensToSpend);
      if b.balance.None? || b.balance.value < amount {
        error := Some(InsufficientMessage);
      } else {
        log := [InsertVideo(RowFor(userId, f, videoId.value))];
        if b.insertError.Some? {
          error := b.insertError;
        } else {
          log := log + [SpendTokens(userId, amount, SpendPrefix + f.title)];
          if b.updateError.Some? {
            error := b.updateError;
          } else {
            log := log + [SuccessToast, VideoUploaded, Closed];
            ok := true;
          }
        }
      }
    }
    if error.Some? {
      log := log + [ErrorToast(error.value)];
    }
  }

  /** The form: one field per `useState`, and the effects it has produced so far. */
  class UploadForm {
    var youtubeUrl: string
    var title: string
    var description: string
    var category: string
    var tokensToSpend: string
    var isLoading: bool
    var effects: seq<Effect>

    /** The select only ever holds one of the offered amounts. */
    predicate Valid()
      reads this
    {
      tokensToSpend in TokenChoices
    }

    function CurrentFields(): Fields
      reads this
    {
      Fields(youtubeUrl, title, description, category, tokensToSpend)
    }

    constructor ()
      ensures Valid()
      ensures CurrentFields() == InitialFields && !isLoading && effects == []
    {
      youtubeUrl, title, description, category := "", "", "", "";
      tokensToSpend := DefaultTokens;
      isLoading := false;
      effects := [];
    }

    /** `onValueChange` of the token select. */
    method SelectTokens(choice: string)
      requires choice in TokenChoices
      modifies this
      ensures Valid()
      ensures CurrentFields() == old(CurrentFields()).(tokensToSpend := choice)
      ensures isLoading == old(isLoading) && effects == old(effects)
    {
      tokensToSpend := choice;
    }

    /**
     * `handleSubmit`. `user` is the signed-in user's id; `b` stands for the
     * answers of the profile read, the insert and the rpc.
     */
    method Submit(user: Option<string>, b: Backend)
      requires Valid()
      modifies this
      ensures Valid()
      ensures effects == old(effects) + SubmitEffects(user, old(CurrentFields()), b)
      ensures CurrentFields() == (if Submitted(user, old(CurrentFields()), b) then InitialFields else old(CurrentFields()))
      ensures isLoading == (old(isLoading) && user.None?)
    {
      if user.None? {
        return;
      }
      isLoading := true;
      var log, ok := RunSubmission(user.value, CurrentFields(), b);
      if ok {
        youtubeUrl, title, description, category := "", "", "", "";
        tokensToSpend := DefaultTokens;
      }
      effects := effects + log;
      isLoading := false;
    }
  }
}
