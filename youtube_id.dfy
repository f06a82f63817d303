/**
 * The YouTube video-id pattern shared by the upload form
 * (src/components/VideoUploadModal.tsx) and the statistics function
 * (supabase/functions/youtube-stats/index.ts):
 *
 *   (?:youtube\.com\/(?:[^\/]+\/.+\/|(?:v|e(?:mbed)?)\/|.*[?&]v=)|youtu\.be\/)([^"&?\/\s]{11})
 *
 * applied with `String.prototype.match` (no `g` flag), i.e. a leftmost,
 * first-alternative-wins backtracking search whose first group is the id.
 * The language is stated directly: at each start position the alternatives
 * are tried in source order, and the greedy `.+` / `.*` take the LAST
 * position from which the rest of the pattern matches.
 */
module YouTubeId {
  import opened Wrappers

  const IdLength: nat := 11
  const LongHost: string := "youtube.com/"
  const ShortHost: string := "youtu.be/"

  /** JavaScript's `\s`: the white-space and line-terminator characters. */
  predicate IsWhitespace(c: char)
  {
    var n := c as int;
    n == 0x09 || n == 0x0A || n == 0x0B || n == 0x0C || n == 0x0D || n == 0x20 ||
    n == 0xA0 || n == 0x1680 || (0x2000 <= n <= 0x200A) || n == 0x2028 || n == 0x2029 ||
    n == 0x202F || n == 0x205F || n == 0x3000 || n == 0xFEFF
  }

  /** The characters JavaScript's `.` does not match. */
  predicate IsLineTerminator(c: char)
  {
    var n := c as int;
    n == 0x0A || n == 0x0D || n == 0x2028 || n == 0x2029
  }

  /** `[^"&?\/\s]` */
  predicate IsIdChar(c: char)
  {
    c != '"' && c != '&' && c != '?' && c != '/' && !IsWhitespace(c)
  }

  /** An 11-character video id. */
  predicate IsVideoId(id: string)
  {
    |id| == IdLength && forall j :: 0 <= j < |id| ==> IsIdChar(id[j])
  }

  /** `([^"&?\/\s]{11})` matches at position `k`. */
  predicate IdAt(s: string, k: nat)
  {
    k + IdLength <= |s| && forall j :: k <= j < k + IdLength ==> IsIdChar(s[j])
  }

  /** The literal `w` occurs at position `i`. */
  predicate HasAt(s: string, i: nat, w: string)
  {
    i + |w| <= |s| && s[i..i + |w|] == w
  }

  /** The first `/` at or after `p`: where `[^\/]+` must stop. */
  function FirstSlash(s: string, p: nat): (r: Option<nat>)
    requires p <= |s|
    ensures r.Some? ==> p <= r.value < |s| && s[r.value] == '/'
    decreases |s| - p
  {
    if p == |s| then None
    else if s[p] == '/' then Some(p)
    else FirstSlash(s, p + 1)
  }

  /** No `/` comes before the one `FirstSlash` finds, and there is none at all when it finds none. */
  lemma {:induction false} FirstSlashIsFirst(s: string, p: nat)
    requires p <= |s|
    ensures FirstSlash(s, p).Some? ==> forall j :: p <= j < FirstSlash(s, p).value ==> s[j] != '/'
    ensures FirstSlash(s, p).None? ==> forall j :: p <= j < |s| ==> s[j] != '/'
    decreases |s| - p
  {
    if p < |s| && s[p] != '/' {
      FirstSlashIsFirst(s, p + 1);
    }
  }

  /** The first line terminator at or after `p` (or the end): how far `.` can reach. */
  function LineEnd(s: string, p: nat): (e: nat)
    requires p <= |s|
    ensures p <= e <= |s|
    ensures e < |s| ==> IsLineTerminator(s[e])
    decreases |s| - p
  {
    if p == |s| || IsLineTerminator(s[p]) then p else LineEnd(s, p + 1)
  }

  /** No line terminator comes before the one `LineEnd` stops at. */
  lemma {:induction false} LineEndIsFirst(s: string, p: nat)
    requires p <= |s|
    ensures forall j :: p <= j < LineEnd(s, p) ==> !IsLineTerminator(s[j])
    decreases |s| - p
  {
    if p < |s| && !IsLineTerminator(s[p]) {
      LineEndIsFirst(s, p + 1);
    }
  }

  /** `\/` followed by the id, at `j`. */
  predicate PathCandidate(s: string, j: nat)
  {
    j < |s| && s[j] == '/' && IdAt(s, j + 1)
  }

  /** `[?&]v=` followed by the id, at `j`. */
  predicate QueryCandidate(s: string, j: nat)
  {
    j + 3 <= |s| && (s[j] == '?' || s[j] == '&') && s[j + 1] == 'v' && s[j + 2] == '=' && IdAt(s, j + 3)
  }

  /** The last path candidate in `[lo, hi)`: greedy `.+` backtracking from the right. */
  function LastPathCandidate(s: string, lo: nat, hi: nat): (r: Option<nat>)
    requires lo <= hi <= |s|
    ensures r.Some? ==> lo <= r.value < hi && PathCandidate(s, r.value)
    decreases hi
  {
    if hi == lo then None
    else if PathCandidate(s, hi - 1) then Some(hi - 1)
    else LastPathCandidate(s, lo, hi - 1)
  }

  /** The last query candidate in `[lo, hi)`: greedy `.*` backtracking from the right. */
  function LastQueryCandidate(s: string, lo: nat, hi: nat): (r: Option<nat>)
    requires lo <= hi <= |s|
    ensures r.Some? ==> lo <= r.value < hi && QueryCandidate(s, r.value)
    decreases hi
  {
    if hi == lo then None
    else if QueryCandidate(s, hi - 1) then Some(hi - 1)
    else LastQueryCandidate(s, lo, hi - 1)
  }

  /** The path candidate found is the last in the range, and none is found only when the range has none. */
  lemma {:induction false} LastPathCandidateIsLast(s: string, lo: nat, hi: nat)
    requires lo <= hi <= |s|
    ensures LastPathCandidate(s, lo, hi).Some? ==> forall j :: LastPathCandidate(s, lo, hi).value < j < hi ==> !PathCandidate(s, j)
    ensures LastPathCandidate(s, lo, hi).None? ==> forall j :: lo <= j < hi ==> !PathCandidate(s, j)
    decreases hi
  {
    if hi > lo && !PathCandidate(s, hi - 1) {
      LastPathCandidateIsLast(s, lo, hi - 1);
    }
  }

  /** The query candidate found is the last in the range, and none is found only when the range has none. */
  lemma {:induction false} LastQueryCandidateIsLast(s: string, lo: nat, hi: nat)
    requires lo <= hi <= |s|
    ensures LastQueryCandidate(s, lo, hi).Some? ==> forall j :: LastQueryCandidate(s, lo, hi).value < j < hi ==> !QueryCandidate(s, j)
    ensures LastQueryCandidate(s, lo, hi).None? ==> forall j :: lo <= j < hi ==> !QueryCandidate(s, j)
    decreases hi
  {
    if hi > lo && !QueryCandidate(s, hi - 1) {
      LastQueryCandidateIsLast(s, lo, hi - 1);
    }
  }

  /** `[^\/]+\/.+\/` then the id, right after the host ending at `p`; yields where the id starts. */
  function PathForm(s: string, p: nat): (r: Option<nat>)
    requires p <= |s|
    ensures r.Some? ==> IdAt(s, r.value) && r.value > p
  {
    match FirstSlash(s, p)
    case None => None
    case Some(slash) =>
      if slash == p then None
      else
        var e := LineEnd(s, slash + 1);
        if e < slash + 2 then None
        else match LastPathCandidate(s, slash + 2, e)
          case None => None
          case Some(j) => Some(j + 1)
  }

  /** `(?:v|e(?:mbed)?)\/` then the id: tried as `v/`, then `embed/`, then `e/`. */
  function EmbedForm(s: string, p: nat): (r: Option<nat>)
    requires p <= |s|
    ensures r.Some? ==> IdAt(s, r.value) && r.value > p
  {
    if p + 2 <= |s| && s[p] == 'v' && s[p + 1] == '/' && IdAt(s, p + 2) then Some(p + 2)
    else if p + 6 <= |s| && s[p] == 'e' && s[p + 1] == 'm' && s[p + 2] == 'b' && s[p + 3] == 'e' && s[p + 4] == 'd' && s[p + 5] == '/' && IdAt(s, p + 6) then Some(p + 6)
    else if p + 2 <= |s| && s[p] == 'e' && s[p + 1] == '/' && IdAt(s, p + 2) then Some(p + 2)
    else None
  }

  /** `.*[?&]v=` then the id. */
  function QueryForm(s: string, p: nat): (r: Option<nat>)
    requires p <= |s|
    ensures r.Some? ==> IdAt(s, r.value) && r.value >= p
  {
    match LastQueryCandidate(s, p, LineEnd(s, p))
    case None => None
    case Some(j) => Some(j + 3)
  }

  /** The whole pattern anchored at `i`; yields where the captured id starts. */
  function MatchAt(s: string, i: nat): (r: Option<nat>)
    requires i <= |s|
    ensures r.Some? ==> IdAt(s, r.value) && r.value >= i
    ensures r.Some? ==> HasAt(s, i, LongHost) || HasAt(s, i, ShortHost)
  {
    var long :=
      if !HasAt(s, i, LongHost) then None
      else
        var p := i + |LongHost|;
        var a := PathForm(s, p);
        if a.Some? then a
        else
          var b := EmbedForm(s, p);
          if b.Some? then b else QueryForm(s, p);
    if long.Some? then long
    else if HasAt(s, i, ShortHost) && IdAt(s, i + |ShortHost|) then Some(i + |ShortHost|)
    else None
  }

  // ---------------------------------------------------------------------
  // The leftmost-match search, stated once over any sequence of attempts.

  /** The first success in `ms[i..]`. */
  function Leftmost(ms: seq<Option<nat>>, i: nat): Option<nat>
    requires i <= |ms|
    decreases |ms| - i
  {
    if i == |ms| then None
    else if ms[i].Some? then ms[i]
    else Leftmost(ms, i + 1)
  }

  /** A success `Leftmost` returns comes from a position before which every attempt failed. */
  lemma {:induction false} LeftmostIsFirst(ms: seq<Option<nat>>, i: nat) returns (j: nat)
    requires i <= |ms| && Leftmost(ms, i).Some?
    ensures i <= j < |ms| && ms[j] == Leftmost(ms, i)
    ensures forall j' :: i <= j' < j ==> ms[j'].None?
    decreases |ms| - i
  {
    if ms[i].Some? {
      j := i;
    } else {
      j := LeftmostIsFirst(ms, i + 1);
    }
  }

  /** One success at or after `i` is enough for `Leftmost` to find one. */
  lemma {:induction false} LeftmostFindsSome(ms: seq<Option<nat>>, i: nat, j: nat)
    requires i <= j < |ms| && ms[j].Some?
    ensures Leftmost(ms, i).Some?
    decreases j - i
  {
    if ms[i].None? {
      LeftmostFindsSome(ms, i + 1, j);
    }
  }

  /** Failed attempts are passed over. */
  lemma {:induction false} LeftmostSkips(ms: seq<Option<nat>>, i: nat, n: nat)
    requires i <= n <= |ms|
    requires forall j :: i <= j < n ==> ms[j].None?
    ensures Leftmost(ms, i) == Leftmost(ms, n)
    decreases n - i
  {
    if i < n {
      LeftmostSkips(ms, i + 1, n);
    }
  }

  /** The pattern tried at every start position `0..|s|`, in order. */
  function Attempts(s: string): (ms: seq<Option<nat>>)
    ensures |ms| == |s| + 1
    ensures forall j :: 0 <= j <= |s| ==> ms[j] == MatchAt(s, j)
  {
    seq(|s| + 1, j requires 0 <= j <= |s| => MatchAt(s, j))
  }

  /** The match at the leftmost start position, at `i` or later, where the pattern matches. */
  function Search(s: string, i: nat): Option<nat>
    requires i <= |s|
  {
    Leftmost(Attempts(s), i)
  }

  /**
   * A match `Search` returns is the one at the leftmost position where the
   * pattern matches; it starts an id.
   */
  lemma SearchLeftmost(s: string, i: nat) returns (j: nat)
    requires i <= |s| && Search(s, i).Some?
    ensures i <= j <= |s| && MatchAt(s, j) == Search(s, i) && IdAt(s, Search(s, i).value)
    ensures forall j' :: i <= j' < j ==> MatchAt(s, j').None?
  {
    var ms := Attempts(s);
    j := LeftmostIsFirst(ms, i);
    forall j' | i <= j' < j
      ensures MatchAt(s, j').None?
    {
      assert ms[j'].None?;
    }
  }

  lemma SearchStartsId(s: string, i: nat)
    requires i <= |s| && Search(s, i).Some?
    ensures IdAt(s, Search(s, i).value)
  {
    var j := SearchLeftmost(s, i);
  }

  /** `Search` finds nothing only when the pattern matches at no position. */
  lemma SearchNoneMeansNoMatch(s: string, i: nat)
    requires i <= |s| && Search(s, i).None?
    ensures forall j :: i <= j <= |s| ==> MatchAt(s, j).None?
  {
    var ms := Attempts(s);
    forall j | i <= j <= |s|
      ensures MatchAt(s, j).None?
    {
      if ms[j].Some? {
        LeftmostFindsSome(ms, i, j);
      }
    }
  }

  /** Positions where nothing matches are passed over. */
  lemma SearchSkips(s: string, i: nat, n: nat)
    requires i <= n <= |s|
    requires forall j :: i <= j < n ==> MatchAt(s, j).None?
    ensures Search(s, i) == Search(s, n)
  {
    var ms := Attempts(s);
    forall j | i <= j < n
      ensures ms[j].None?
    {
      assert MatchAt(s, j).None?;
    }
    LeftmostSkips(ms, i, n);
  }

  /** When the pattern matches at no position, `Search` finds nothing. */
  lemma NoMatchMeansSearchNone(s: string, i: nat)
    requires i <= |s| && forall j :: i <= j <= |s| ==> MatchAt(s, j).None?
    ensures Search(s, i).None?
  {
    SearchSkips(s, i, |s|);
    var ms := Attempts(s);
    assert ms[|s|].None?;
    assert Search(s, |s|) == Leftmost(ms, |s| + 1);
  }

  /** `url.match(regex)?.[1] ?? null`. */
  function Extract(url: string): (r: Option<string>)
    ensures r.Some? ==> IsVideoId(r.value)
    ensures r.Some? ==> exists k: nat :: IdAt(url, k) && url[k..k + IdLength] == r.value
  {
    match Search(url, 0)
    case None => None
    case Some(k) =>
      SearchStartsId(url, 0);
      Some(url[k..k + IdLength])
  }

  /** The url mentions one of the two hosts, spelled exactly (the match is case-sensitive). */
  predicate MentionsHost(url: string)
  {
    exists i :: 0 <= i <= |url| && (HasAt(url, i, LongHost) || HasAt(url, i, ShortHost))
  }

  /** A url that contains neither `youtube.com/` nor `youtu.be/` yields no id. */
  lemma NoHostNoId(url: string)
    requires !MentionsHost(url)
    ensures Extract(url) == None
  {
    forall j | 0 <= j <= |url|
      ensures MatchAt(url, j).None?
    {
      assert !HasAt(url, j, LongHost) && !HasAt(url, j, ShortHost);
    }
    NoMatchMeansSearchNone(url, 0);
  }

  /** The pattern yields an id exactly when it matches at some position. */
  lemma ExtractIffSomeMatch(url: string)
    ensures Extract(url).Some? <==> exists j :: 0 <= j <= |url| && MatchAt(url, j).Some?
  {
    if Search(url, 0).Some? {
      var j := SearchLeftmost(url, 0);
    } else {
      SearchNoneMeansNoMatch(url, 0);
    }
  }

  // ---------------------------------------------------------------------
  // The two url shapes the upload form's placeholder suggests.

  lemma IdCharsPlain(id: string, c: char)
    requires IsVideoId(id) && c in id
    ensures c != '/' && c != '?' && c != '&' && !IsLineTerminator(c)
  {
  }

  /** No position before `n` starts either host when none of those characters is a `y`. */
  lemma NoHostBefore(s: string, n: nat)
    requires n <= |s|
    requires forall j :: 0 <= j < n ==> s[j] != 'y'
    ensures forall j :: 0 <= j < n ==> MatchAt(s, j).None?
  {
    forall j | 0 <= j < n
      ensures MatchAt(s, j).None?
    {
      if j + |LongHost| <= |s| {
        assert s[j..j + |LongHost|][0] == s[j];
      }
      if j + |ShortHost| <= |s| {
        assert s[j..j + |ShortHost|][0] == s[j];
      }
    }
  }

  /**
   * `https://youtu.be/<id>` yields the id, whatever follows it: the pattern
   * has no end anchor, so characters after the eleventh are ignored.
   */
  lemma ShortLinkYieldsId(id: string, rest: string)
    requires IsVideoId(id)
    ensures Extract("https://youtu.be/" + id + rest) == Some(id)
  {
    var s := "https://youtu.be/" + id + rest;
    assert !HasAt(s, 8, LongHost) by {
      if 20 <= |s| {
        assert s[8..20][5] == '.';
      }
    }
    assert s[8..17] == ShortHost;
    forall j | 17 <= j < 28
      ensures IsIdChar(s[j])
    {
      assert s[j] == id[j - 17];
    }
    assert MatchAt(s, 8) == Some(17);
    ExtractFindsMatchAt(s, 8, 17);
    assert s[17..28] == id;
  }

  /** A literal occurs wherever its characters do, one by one. */
  lemma HasAtByChars(s: string, i: nat, w: string)
    requires i + |w| <= |s| && forall k :: 0 <= k < |w| ==> s[i + k] == w[k]
    ensures HasAt(s, i, w)
  {
    assert s[i..i + |w|] == w;
  }

  /** What the pattern matches at `n`, with no `y` (so no host) before it, is what `match` returns. */
  lemma ExtractFindsMatchAt(s: string, n: nat, k: nat)
    requires n <= |s| && forall j :: 0 <= j < n ==> s[j] != 'y'
    requires MatchAt(s, n) == Some(k)
    ensures Extract(s) == Some(s[k..k + IdLength])
  {
    NoHostBefore(s, n);
    SearchSkips(s, 0, n);
  }

  /** Without a `/` after the host, `[^\/]+\/.+\/` cannot match. */
  lemma NoSlashNoPathForm(s: string, p: nat)
    requires p <= |s| && forall j :: p <= j < |s| ==> s[j] != '/'
    ensures PathForm(s, p) == None
  {
  }

  /** `.*[?&]v=` settles on the candidate at `q` when no later one exists and no line ends before it. */
  lemma QueryFormAt(s: string, p: nat, q: nat)
    requires p <= q && QueryCandidate(s, q)
    requires forall j :: p <= j < q + 3 ==> !IsLineTerminator(s[j])
    requires forall j :: q < j < |s| ==> !QueryCandidate(s, j)
    ensures QueryForm(s, p) == Some(q + 3)
  {
    var e := LineEnd(s, p);
    assert e >= q + 3;
    LastQueryCandidateIsLast(s, p, e);
    var r := LastQueryCandidate(s, p, e);
    assert r.Some?;
    assert r.value == q;
  }

  /** `t` holds no `?v=` or `&v=`. */
  predicate NoVideoParam(t: string)
  {
    forall k :: 0 <= k && k + 2 < |t| ==> !((t[k] == '?' || t[k] == '&') && t[k + 1] == 'v' && t[k + 2] == '=')
  }

  /**
   * `https://www.youtube.com/watch?v=<id>` yields the id, and so does the
   * same url with further parameters or text after the id, as long as that
   * text has no `/` and no second `v=` parameter (the greedy `.*` would
   * otherwise prefer a later one).
   */
  lemma WatchLinkYieldsId(id: string, rest: string)
    requires IsVideoId(id)
    requires '/' !in rest && NoVideoParam(rest)
    ensures Extract("https://www.youtube.com/watch?v=" + id + rest) == Some(id)
  {
    var s := "https://www.youtube.com/watch?v=" + id + rest;
    WatchLinkMatches(id, rest);
    ExtractFindsMatchAt(s, 12, 32);
    assert s[32..43] == id;
  }

  const WatchPrefix: string := "https://www.youtube.com/watch?v="

  lemma WatchLinkMatches(id: string, rest: string)
    requires IsVideoId(id)
    requires '/' !in rest && NoVideoParam(rest)
    ensures var s := "https://www.youtube.com/watch?v=" + id + rest;
            |s| >= 43 && (forall j :: 0 <= j < 12 ==> s[j] != 'y') && MatchAt(s, 12) == Some(32)
  {
    var s := WatchPrefix + id + rest;
    WatchLayout(id, rest);
    HasAtByChars(s, 12, LongHost);
    WatchNoPath(id, rest);
    assert s[24] == 'w';
    assert EmbedForm(s, 24) == None;
    WatchQuery(id, rest);
    LongHostQueryMatch(s, 12, 32);
  }

  /** Where each character of a watch link comes from. */
  lemma WatchLayout(id: string, rest: string)
    requires |id| == IdLength
    ensures var s := WatchPrefix + id + rest;
            |s| == 43 + |rest| &&
            (forall j :: 0 <= j < 32 ==> s[j] == WatchPrefix[j]) &&
            (forall j :: 32 <= j < 43 ==> s[j] == id[j - 32]) &&
            (forall j :: 43 <= j < |s| ==> s[j] == rest[j - 43])
  {
  }

  /** `[^\/]+\/.+\/` needs a `/` after the host, and a watch link has none. */
  lemma WatchNoPath(id: string, rest: string)
    requires IsVideoId(id) && '/' !in rest
    ensures var s := WatchPrefix + id + rest; |s| >= 24 && PathForm(s, 24) == None
  {
    var s := WatchPrefix + id + rest;
    WatchLayout(id, rest);
    forall j | 24 <= j < |s|
      ensures s[j] != '/'
    {
      if 43 <= j {
        assert rest[j - 43] in rest;
      }
    }
    NoSlashNoPathForm(s, 24);
  }

  /** `.*[?&]v=`: the `?` at 29 is the last candidate, so the id starts at 32. */
  lemma WatchQuery(id: string, rest: string)
    requires IsVideoId(id) && NoVideoParam(rest)
    ensures var s := WatchPrefix + id + rest; |s| >= 24 && QueryForm(s, 24) == Some(32)
  {
    var s := WatchPrefix + id + rest;
    WatchLayout(id, rest);
    forall j | 24 <= j < 32
      ensures !IsLineTerminator(s[j])
    {
    }
    forall j | 29 < j < |s|
      ensures !QueryCandidate(s, j)
    {
      if 43 <= j && j + 3 <= |s| {
        assert rest[j - 43] == s[j] && rest[j - 42] == s[j + 1] && rest[j - 41] == s[j + 2];
      }
    }
    QueryFormAt(s, 24, 29);
  }

  /** After `youtube.com/`, with neither path form matching, the query form decides. */
  lemma LongHostQueryMatch(s: string, i: nat, k: nat)
    requires HasAt(s, i, LongHost)
    requires PathForm(s, i + |LongHost|) == None && EmbedForm(s, i + |LongHost|) == None
    requires QueryForm(s, i + |LongHost|) == Some(k)
    ensures MatchAt(s, i) == Some(k)
  {
  }

  /** `https://www.youtube.com/embed/<id>` yields the id. */
  lemma EmbedLinkYieldsId(id: string)
    requires IsVideoId(id)
    ensures Extract("https://www.youtube.com/embed/" + id) == Some(id)
  {
    var s := "https://www.youtube.com/embed/" + id;
    EmbedLinkMatches(id);
    ExtractFindsMatchAt(s, 12, 30);
    assert s[30..41] == id;
  }

  lemma EmbedLinkMatches(id: string)
    requires IsVideoId(id)
    ensures var s := "https://www.youtube.com/embed/" + id;
            |s| == 41 && (forall j :: 0 <= j < 12 ==> s[j] != 'y') && MatchAt(s, 12) == Some(30)
  {
    var pre := "https://www.youtube.com/embed/";
    var s := pre + id;
    assert |s| == 41;
    assert forall j :: 0 <= j < 30 ==> s[j] == pre[j];
    assert forall j :: 30 <= j < 41 ==> s[j] == id[j - 30];
    HasAtByChars(s, 12, LongHost);
    // `[^\/]+` is `embed`; no second `/` follows for `.+\/`.
    assert s[24] == 'e' && s[25] == 'm' && s[26] == 'b' && s[27] == 'e' && s[28] == 'd' && s[29] == '/';
    FirstSlashIsFirst(s, 24);
    assert FirstSlash(s, 24) == Some(29);
    forall j | 31 <= j < 41
      ensures !PathCandidate(s, j)
    {
    }
    assert PathForm(s, 24) == None;
    assert EmbedForm(s, 24) == Some(30);
  }
}
