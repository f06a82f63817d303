/**
 * The moderation screen of src/components/AdminPanel.tsx: its summary
 * counts, the badge maps, the actions offered per video, and the handlers
 * that approve, reject or delete a video in the remote `videos` table and
 * reload the screen.
 */
module AdminPanel {
  import opened Wrappers
  import opened Enums
  import Folds

  datatype Video = Video(id: string, title: string, status: string, tokensSpent: int, totalViews: int, createdAt: int)
  datatype Profile = Profile(id: string, displayName: string, tokenBalance: int, createdAt: int)
  datatype Transaction = Transaction(id: string, kind: string, amount: int, createdAt: int)

  // ---------------------------------------------------------------------
  // Badges and actions

  datatype BadgeVariant = DefaultBadge | SecondaryBadge | DestructiveBadge

  /** `getStatusBadge`'s `variants[status]`; `None` (undefined) for a status outside the map. */
  function StatusBadge(status: string): Option<BadgeVariant>
  {
    if status == "pending" then Some(SecondaryBadge)
    else if status == "approved" then Some(DefaultBadge)
    else if status == "rejected" then Some(DestructiveBadge)
    else None
  }

  /** `getTransactionBadge`'s `variants[type]`. */
  function TransactionBadge(kind: string): Option<BadgeVariant>
  {
    if kind == "earned" then Some(DefaultBadge)
    else if kind == "spent" then Some(DestructiveBadge)
    else if kind == "purchased" then Some(SecondaryBadge)
    else None
  }

  /**
   * The maps cover exactly the `video_status` and `transaction_type` enums,
   * each value with its own variant.
   */
  lemma BadgeMapsCoverEnums(status: string, kind: string, v: VideoStatus, w: VideoStatus, t: TransactionType, u: TransactionType)
    ensures StatusBadge(status).Some? <==> ParseVideoStatus(status).Some?
    ensures TransactionBadge(kind).Some? <==> ParseTransactionType(kind).Some?
    ensures v != w ==> StatusBadge(VideoStatusName(v)) != StatusBadge(VideoStatusName(w))
    ensures t != u ==> TransactionBadge(TransactionTypeName(t)) != TransactionBadge(TransactionTypeName(u))
  {
  }

  datatype Action = Approve | Reject | Delete

  /** The buttons in a video's row. */
  function OfferedActions(v: Video): seq<Action>
  {
    (if v.status == "pending" then [Approve, Reject] else []) + [Delete]
  }

  /** Approve and reject only for a pending video; delete for every video. */
  lemma OfferedActionsByStatus(v: Video)
    ensures Delete in OfferedActions(v)
    ensures Approve in OfferedActions(v) <==> v.status == "pending"
    ensures Reject in OfferedActions(v) <==> v.status == "pending"
  {
  }

  // ---------------------------------------------------------------------
  // Summary counts

  /** `videos.filter(v => v.status === 'pending')`. */
  function PendingVideos(videos: seq<Video>): (r: seq<Video>)
    ensures |r| <= |videos|
    ensures forall v :: v in r ==> v in videos && v.status == "pending"
    ensures forall v :: v in videos && v.status == "pending" ==> v in r
  {
    if videos == [] then []
    else (if videos[0].status == "pending" then [videos[0]] else []) + PendingVideos(videos[1..])
  }

  /** The filter keeps every pending video as often as it occurs and nothing else, so its length is the pending count. */
  lemma {:induction false} PendingVideosCounts(videos: seq<Video>)
    ensures forall v :: multiset(PendingVideos(videos))[v] == (if v.status == "pending" then multiset(videos)[v] else 0)
  {
    if videos != [] {
      PendingVideosCounts(videos[1..]);
      assert videos == [videos[0]] + videos[1..];
    }
  }

  /** "Pending Videos": never more than "Total Videos", and equal exactly when every video is pending. */
  lemma {:induction false} PendingCountBound(videos: seq<Video>)
    ensures |PendingVideos(videos)| <= |videos|
    ensures |PendingVideos(videos)| == |videos| <==> forall i :: 0 <= i < |videos| ==> videos[i].status == "pending"
  {
    if videos != [] {
      PendingCountBound(videos[1..]);
      assert forall i :: 1 <= i < |videos| ==> videos[i] == videos[1..][i - 1];
    }
  }

  function Balances(users: seq<Profile>): (xs: seq<int>)
    ensures |xs| == |users| && forall i :: 0 <= i < |users| ==> xs[i] == users[i].tokenBalance
  {
    if users == [] then [] else [users[0].tokenBalance] + Balances(users[1..])
  }

  /** "Total Tokens": `users.reduce((sum, u) => sum + u.token_balance, 0)`. */
  function TotalTokens(users: seq<Profile>): int
  {
    Folds.FoldSum(0, Balances(users))
  }

  /** The total is the sum of every user's balance, and it adds up over any split of the list. */
  lemma TotalTokensIsSum(users: seq<Profile>, more: seq<Profile>)
    ensures TotalTokens(users) == Folds.Sum(Balances(users))
    ensures TotalTokens(users + more) == TotalTokens(users) + TotalTokens(more)
  {
    Folds.FoldSumIsSum(0, Balances(users));
    Folds.FoldSumIsSum(0, Balances(more));
    Folds.FoldSumIsSum(0, Balances(users + more));
    BalancesAppend(users, more);
    Folds.SumAppend(Balances(users), Balances(more));
  }

  lemma BalancesAppend(users: seq<Profile>, more: seq<Profile>)
    ensures Balances(users + more) == Balances(users) + Balances(more)
  {
    assert Balances(users + more) == Balances(users) + Balances(more);
  }

  // ---------------------------------------------------------------------
  // Ordering and limit of the reads

  predicate NewestFirst<T>(s: seq<T>, key: T -> int)
  {
    forall i, j :: 0 <= i < j < |s| ==> key(s[i]) >= key(s[j])
  }

  function InsertNewestFirst<T>(x: T, s: seq<T>, key: T -> int): (r: seq<T>)
    requires NewestFirst(s, key)
    ensures NewestFirst(r, key)
    ensures multiset(r) == multiset(s) + multiset{x}
    ensures |r| == |s| + 1
  {
    if s == [] then [x]
    else if key(x) >= key(s[0]) then [x] + s
    else
      var rest := InsertNewestFirst(x, s[1..], key);
      assert s == [s[0]] + s[1..];
      NoneNewerThanHead(x, s, rest, key);
      [s[0]] + rest
  }

  /** Inserting an older row into the tail leaves nothing newer than the head. */
  lemma NoneNewerThanHead<T>(x: T, s: seq<T>, rest: seq<T>, key: T -> int)
    requires s != [] && NewestFirst(s, key) && key(x) < key(s[0])
    requires multiset(rest) == multiset(s[1..]) + multiset{x}
    ensures forall k :: 0 <= k < |rest| ==> key(rest[k]) <= key(s[0])
  {
    forall k | 0 <= k < |rest|
      ensures key(rest[k]) <= key(s[0])
    {
      assert rest[k] in multiset(rest);
      if rest[k] != x {
        assert rest[k] in multiset(s[1..]);
        var j :| 0 <= j < |s[1..]| && s[1..][j] == rest[k];
        assert s[j + 1] == rest[k];
      }
    }
  }

  /** `.order('created_at', { ascending: false })`: a newest-first permutation. */
  function SortNewestFirst<T>(s: seq<T>, key: T -> int): (r: seq<T>)
    ensures NewestFirst(r, key)
    ensures multiset(r) == multiset(s)
    ensures |r| == |s|
  {
    if s == [] then []
    else
      assert s == [s[0]] + s[1..];
      InsertNewestFirst(s[0], SortNewestFirst(s[1..], key), key)
  }

  const TransactionLimit: nat := 50

  function CreatedAt(t: Transaction): int
  {
    t.createdAt
  }

  /** The transactions read: newest first, `.limit(50)`. */
  function RecentTransactions(all: seq<Transaction>): seq<Transaction>
  {
    var sorted := SortNewestFirst(all, CreatedAt);
    sorted[..if |sorted| < TransactionLimit then |sorted| else TransactionLimit]
  }

  /** In a newest-first list nothing after position `n` is newer than anything before it. */
  lemma PrefixIsNewest<T>(s: seq<T>, n: nat, key: T -> int)
    requires NewestFirst(s, key) && n <= |s|
    ensures forall t, r :: t in multiset(s[n..]) && r in s[..n] ==> key(r) >= key(t)
  {
    forall t, r | t in multiset(s[n..]) && r in s[..n]
      ensures key(r) >= key(t)
    {
      var i :| 0 <= i < n && s[..n][i] == r;
      var j :| 0 <= j < |s| - n && s[n..][j] == t;
      assert s[i] == r && s[n + j] == t;
    }
  }

  /** The prefix `RecentTransactions` takes of the newest-first order. */
  lemma RecentIsPrefix(all: seq<Transaction>) returns (sorted: seq<Transaction>, n: nat)
    ensures sorted == SortNewestFirst(all, CreatedAt) && n <= |sorted|
    ensures n == if |all| < TransactionLimit then |all| else TransactionLimit
    ensures RecentTransactions(all) == sorted[..n]
    ensures multiset(all) == multiset(sorted[..n]) + multiset(sorted[n..])
  {
    sorted := SortNewestFirst(all, CreatedAt);
    n := if |sorted| < TransactionLimit then |sorted| else TransactionLimit;
    assert sorted == sorted[..n] + sorted[n..];
  }

  /**
   * At most 50 rows, newest first, all of them stored transactions, and
   * exactly 50 when there are that many.
   */
  lemma RecentTransactionsShape(all: seq<Transaction>)
    ensures |RecentTransactions(all)| <= TransactionLimit
    ensures |all| >= TransactionLimit ==> |RecentTransactions(all)| == TransactionLimit
    ensures NewestFirst(RecentTransactions(all), CreatedAt)
    ensures multiset(RecentTransactions(all)) <= multiset(all)
  {
    var sorted, n := RecentIsPrefix(all);
    var shown := sorted[..n];
    forall i, j | 0 <= i < j < |shown|
      ensures CreatedAt(shown[i]) >= CreatedAt(shown[j])
    {
      assert shown[i] == sorted[i] && shown[j] == sorted[j];
    }
  }

  /** No stored transaction left out of the list is newer than one shown. */
  lemma RecentTransactionsAreNewest(all: seq<Transaction>)
    ensures forall t: Transaction, r: Transaction :: t in multiset(all) - multiset(RecentTransactions(all)) && r in RecentTransactions(all) ==>
      r.createdAt >= t.createdAt
  {
    var sorted, n := RecentIsPrefix(all);
    assert multiset(all) - multiset(sorted[..n]) == multiset(sorted[n..]);
    PrefixIsNewest(sorted, n, CreatedAt);
  }

  // ---------------------------------------------------------------------
  // The remote tables

  /** `.update({ status }).eq('id', id)`: the new status on every row with that id, nothing else changed. */
  function WithStatus(rows: seq<Video>, id: string, status: string): (r: seq<Video>)
    ensures |r| == |rows|
    ensures forall i :: 0 <= i < |rows| ==>
      r[i] == (if rows[i].id == id then rows[i].(status := status) else rows[i])
  {
    if rows == [] then []
    else
      var n := |rows| - 1;
      WithStatus(rows[..n], id, status) + [if rows[n].id == id then rows[n].(status := status) else rows[n]]
  }

  function CountId(rows: seq<Video>, id: string): (n: nat)
    ensures n <= |rows|
  {
    if rows == [] then 0
    else CountId(rows[..|rows| - 1], id) + (if rows[|rows| - 1].id == id then 1 else 0)
  }

  /** `.delete().eq('id', id)`: every row with that id gone, every other row kept in order. */
  function WithoutId(rows: seq<Video>, id: string): (r: seq<Video>)
    ensures |r| + CountId(rows, id) == |rows|
  {
    if rows == [] then []
    else
      var n := |rows| - 1;
      WithoutId(rows[..n], id) + (if rows[n].id == id then [] else [rows[n]])
  }

  /** The rows left are exactly the rows whose id differs. */
  lemma {:induction false} WithoutIdMembers(rows: seq<Video>, id: string)
    ensures forall v :: v in WithoutId(rows, id) <==> v in rows && v.id != id
  {
    if rows != [] {
      var n := |rows| - 1;
      WithoutIdMembers(rows[..n], id);
      assert rows == rows[..n] + [rows[n]];
    }
  }

  lemma WithoutIdStep(rows: seq<Video>, i: nat, id: string)
    requires i < |rows|
    ensures WithoutId(rows[..i + 1], id) == WithoutId(rows[..i], id) + (if rows[i].id == id then [] else [rows[i]])
  {
    assert rows[..i + 1][..i] == rows[..i];
  }

  /** A delete of an id no row has changes nothing. */
  lemma {:induction false} WithoutAbsentId(rows: seq<Video>, id: string)
    requires forall v :: v in rows ==> v.id != id
    ensures WithoutId(rows, id) == rows
  {
    if rows != [] {
      var n := |rows| - 1;
      WithoutAbsentId(rows[..n], id);
      assert rows == rows[..n] + [rows[n]];
    }
  }

  /** The tables the screen reads and writes. */
  class Backend {
    var videos: seq<Video>
    var profiles: seq<Profile>
    var transactions: seq<Transaction>

    constructor (videos: seq<Video>, profiles: seq<Profile>, transactions: seq<Transaction>)
      ensures this.videos == videos && this.profiles == profiles && this.transactions == transactions
    {
      this.videos := videos;
      this.profiles := profiles;
      this.transactions := transactions;
    }

    method UpdateStatus(id: string, status: string)
      modifies this
      ensures videos == WithStatus(old(videos), id, status)
      ensures profiles == old(profiles) && transactions == old(transactions)
    {
      var updated: seq<Video> := [];
      var i := 0;
      while i < |videos|
        invariant 0 <= i <= |videos|
        invariant updated == WithStatus(videos[..i], id, status)
      {
        var v := videos[i];
        assert videos[..i + 1][..i] == videos[..i];
        updated := updated + [if v.id == id then v.(status := status) else v];
        i := i + 1;
      }
      assert videos[..|videos|] == videos;
      videos := updated;
    }

    method DeleteVideo(id: string)
      modifies this
      ensures videos == WithoutId(old(videos), id)
      ensures profiles == old(profiles) && transactions == old(transactions)
    {
      var kept: seq<Video> := [];
      var i := 0;
      while i < |videos|
        invariant 0 <= i <= |videos|
        invariant kept == WithoutId(videos[..i], id)
        invariant unchanged(this)
      {
        var v := videos[i];
        WithoutIdStep(videos, i, id);
        if v.id != id {
          kept := kept + [v];
        }
        i := i + 1;
      }
      assert videos[..|videos|] == videos;
      videos := kept;
    }
  }

  function VideoCreatedAt(v: Video): int
  {
    v.createdAt
  }

  function ProfileCreatedAt(p: Profile): int
  {
    p.createdAt
  }

  /** Which of the three reads returned data; a read without data shows an empty list. */
  datatype Reads = Reads(videosOk: bool, profilesOk: bool, transactionsOk: bool)

  datatype Notice = Success(message: string) | ErrorNotice(message: string)

  function ActionMessage(action: VideoStatus): string
  {
    "Video " + VideoStatusName(action) + " successfully"
  }

  const DeletedMessage: string := "Video deleted successfully"

  class Panel {
    var videos: seq<Video>
    var users: seq<Profile>
    var transactions: seq<Transaction>
    var isLoading: bool
    var notices: seq<Notice>
    const backend: Backend

    constructor (backend: Backend)
      ensures this.backend == backend
      ensures videos == [] && users == [] && transactions == [] && isLoading && notices == []
    {
      this.backend := backend;
      videos, users, transactions := [], [], [];
      isLoading := true;
      notices := [];
    }

    /** The summary cards: total users, pending videos, total videos, total tokens. */
    function Summary(): (s: (int, int, int, int))
      reads this
      ensures s.0 == |users| && s.2 == |videos|
      ensures s.1 == |PendingVideos(videos)| && s.3 == TotalTokens(users)
      ensures 0 <= s.1 <= s.2
      ensures s.1 == s.2 <==> forall i :: 0 <= i < |videos| ==> videos[i].status == "pending"
    {
      PendingCountBound(videos);
      (|users|, |PendingVideos(videos)|, |videos|, TotalTokens(users))
    }

    /** The screen shows what the tables hold, each list newest first, the transactions cut to 50. */
    predicate ShowsBackend()
      reads this, backend
    {
      videos == SortNewestFirst(backend.videos, VideoCreatedAt) &&
      users == SortNewestFirst(backend.profiles, ProfileCreatedAt) &&
      transactions == RecentTransactions(backend.transactions)
    }

    /** The lists as `fetchData` leaves them: each read's rows, or empty when the read returned no data. */
    predicate ShowsReads(loads: Reads)
      reads this, backend
    {
      videos == (if loads.videosOk then SortNewestFirst(backend.videos, VideoCreatedAt) else []) &&
      users == (if loads.profilesOk then SortNewestFirst(backend.profiles, ProfileCreatedAt) else []) &&
      transactions == (if loads.transactionsOk then RecentTransactions(backend.transactions) else [])
    }

    /** `fetchData`. */
    method FetchData(loads: Reads)
      modifies this
      ensures videos == (if loads.videosOk then SortNewestFirst(backend.videos, VideoCreatedAt) else [])
      ensures users == (if loads.profilesOk then SortNewestFirst(backend.profiles, ProfileCreatedAt) else [])
      ensures transactions == (if loads.transactionsOk then RecentTransactions(backend.transactions) else [])
      ensures !isLoading && notices == old(notices)
    {
      videos := if loads.videosOk then SortNewestFirst(backend.videos, VideoCreatedAt) else [];
      users := if loads.profilesOk then SortNewestFirst(backend.profiles, ProfileCreatedAt) else [];
      transactions := if loads.transactionsOk then RecentTransactions(backend.transactions) else [];
      isLoading := false;
    }

    /**
     * `handleVideoAction`: set the status of exactly the rows with that id,
     * announce it and reload; a reported error leaves the table as it was.
     */
    method HandleVideoAction(id: string, action: VideoStatus, updateError: Option<string>, loads: Reads)
      requires action == Approved || action == Rejected
      modifies this, backend
      ensures updateError.None? ==>
        backend.videos == WithStatus(old(backend.videos), id, VideoStatusName(action)) &&
        notices == old(notices) + [Success(ActionMessage(action))]
      ensures updateError.None? ==> ShowsReads(loads) && !isLoading
      ensures updateError.None? && loads == Reads(true, true, true) ==> ShowsBackend()
      ensures updateError.Some? ==>
        backend.videos == old(backend.videos) && notices == old(notices) + [ErrorNotice(updateError.value)] &&
        videos == old(videos) && users == old(users) && transactions == old(transactions) && isLoading == old(isLoading)
      ensures backend.profiles == old(backend.profiles) && backend.transactions == old(backend.transactions)
    {
      if updateError.Some? {
        notices := notices + [ErrorNotice(updateError.value)];
        return;
      }
      backend.UpdateStatus(id, VideoStatusName(action));
      notices := notices + [Success(ActionMessage(action))];
      FetchData(loads);
    }

    /**
     * `handleDeleteVideo`: nothing at all unless confirmed; then remove
     * exactly the rows with that id, announce it and reload.
     */
    method HandleDeleteVideo(id: string, confirmed: bool, deleteError: Option<string>, loads: Reads)
      modifies this, backend
      ensures !confirmed ==>
        backend.videos == old(backend.videos) && notices == old(notices) &&
        videos == old(videos) && users == old(users) && transactions == old(transactions) && isLoading == old(isLoading)
      ensures confirmed && deleteError.None? ==>
        backend.videos == WithoutId(old(backend.videos), id) && notices == old(notices) + [Success(DeletedMessage)]
      ensures confirmed && deleteError.None? ==> ShowsReads(loads) && !isLoading
      ensures confirmed && deleteError.None? && loads == Reads(true, true, true) ==> ShowsBackend()
      ensures confirmed && deleteError.Some? ==>
        backend.videos == old(backend.videos) && notices == old(notices) + [ErrorNotice(deleteError.value)] &&
        videos == old(videos) && users == old(users) && transactions == old(transactions) && isLoading == old(isLoading)
      ensures backend.profiles == old(backend.profiles) && backend.transactions == old(backend.transactions)
    {
      if !confirmed {
        return;
      }
      if deleteError.Some? {
        notices := notices + [ErrorNotice(deleteError.value)];
        return;
      }
      backend.DeleteVideo(id);
      notices := notices + [Success(DeletedMessage)];
      FetchData(loads);
    }
  }

  /** Approving a pending video takes it out of the pending count and keeps the total. */
  lemma ApprovalShrinksPending(rows: seq<Video>, i: nat)
    requires i < |rows| && rows[i].status == "pending"
    requires forall j :: 0 <= j < |rows| && j != i ==> rows[j].id != rows[i].id
    ensures |WithStatus(rows, rows[i].id, "approved")| == |rows|
    ensures |PendingVideos(WithStatus(rows, rows[i].id, "approved"))| + 1 == |PendingVideos(rows)|
  {
    PendingAfterChange(rows, rows[i].id, "approved", i);
  }

  lemma {:induction false} PendingAfterChange(rows: seq<Video>, id: string, status: string, i: nat)
    requires i < |rows| && rows[i].status == "pending" && rows[i].id == id && status != "pending"
    requires forall j :: 0 <= j < |rows| && j != i ==> rows[j].id != id
    ensures |PendingVideos(WithStatus(rows, id, status))| + 1 == |PendingVideos(rows)|
  {
    var r := WithStatus(rows, id, status);
    if i == 0 {
      assert r[1..] == rows[1..] by {
        forall k | 0 <= k < |rows| - 1
          ensures r[1..][k] == rows[1..][k]
        {
          assert rows[k + 1].id != id;
        }
      }
    } else {
      assert r[0] == rows[0];
      assert r[1..] == WithStatus(rows[1..], id, status);
      PendingAfterChange(rows[1..], id, status, i - 1);
    }
  }
}
