/**
 * The browser identifiers of src/lib/deviceFingerprint.ts: a device
 * fingerprint built from seven environment values, and a per-tab session id
 * kept in `sessionStorage`.
 */
module DeviceFingerprint {
  import opened Wrappers
  import opened Decimal
  import Base64

  /** The seven browser values the fingerprint reads. */
  datatype Environment = Environment(
    userAgent: string,        // navigator.userAgent
    language: string,         // navigator.language
    colorDepth: int,          // screen.colorDepth
    width: int,               // screen.width
    height: int,              // screen.height
    timezoneOffset: int,      // new Date().getTimezoneOffset(), in minutes
    hasSessionStorage: bool,  // !!window.sessionStorage
    hasLocalStorage: bool)    // !!window.localStorage

  const Separator: char := '|'
  const FingerprintLength: nat := 32

  function BoolToString(b: bool): string
  {
    if b then "true" else "false"
  }

  /** The `components` array, in source order, each rendered as `join` renders it. */
  function Components(env: Environment): (parts: seq<string>)
    ensures |parts| == 7
  {
    [ env.userAgent,
      env.language,
      IntToString(env.colorDepth),
      IntToString(env.width) + "x" + IntToString(env.height),
      IntToString(env.timezoneOffset),
      BoolToString(env.hasSessionStorage),
      BoolToString(env.hasLocalStorage) ]
  }

  /** `Array.prototype.join('|')`. */
  function Join(parts: seq<string>): string
  {
    if |parts| == 0 then ""
    else if |parts| == 1 then parts[0]
    else parts[0] + [Separator] + Join(parts[1..])
  }

  /** The position of the first `c` in `s`, if any. */
  function IndexOf(s: string, c: char): (r: Option<nat>)
    ensures r.None? <==> c !in s
    ensures r.Some? ==> r.value < |s| && s[r.value] == c && c !in s[..r.value]
  {
    if |s| == 0 then None
    else if s[0] == c then Some(0)
    else match IndexOf(s[1..], c)
      case None => None
      case Some(i) => assert s[..i + 1] == [s[0]] + s[1..][..i]; Some(i + 1)
  }

  /** `String.prototype.split('|')`: the inverse of `Join` on separator-free parts. */
  function Split(s: string): (parts: seq<string>)
    ensures |parts| >= 1
    decreases |s|
  {
    match IndexOf(s, Separator)
    case None => [s]
    case Some(i) => [s[..i]] + Split(s[i + 1..])
  }

  predicate SeparatorFree(parts: seq<string>)
  {
    forall k :: 0 <= k < |parts| ==> Separator !in parts[k]
  }

  lemma {:induction false} SplitJoin(parts: seq<string>)
    requires |parts| >= 1 && SeparatorFree(parts)
    ensures Split(Join(parts)) == parts
  {
    if |parts| == 1 {
      assert IndexOf(parts[0], Separator).None?;
    } else {
      SplitAtFirst(parts[0], Join(parts[1..]));
      SplitJoin(parts[1..]);
      assert parts == [parts[0]] + parts[1..];
    }
  }

  /** Splitting stops at the separator that follows a separator-free first part. */
  lemma SplitAtFirst(a: string, b: string)
    requires Separator !in a
    ensures Split(a + [Separator] + b) == [a] + Split(b)
  {
    var s := a + [Separator] + b;
    var n := |a|;
    assert s[n] == Separator && s[..n] == a;
    var r := IndexOf(s, Separator);
    assert r.Some?;
    assert r.value == n;
    assert s[n + 1..] == b;
  }

  /** The `fingerprint` string that is base64-encoded. */
  function Joined(env: Environment): string
  {
    Join(Components(env))
  }

  lemma SeparatorFreeNumber(i: int)
    ensures Separator !in IntToString(i)
  {
    var s := IntToString(i);
    forall k | 0 <= k < |s|
      ensures s[k] != Separator
    {
      if i < 0 && k > 0 {
        assert s[k] == NatToString(-i)[k - 1];
      }
    }
  }

  /**
   * The component order is fixed and recoverable: when the two free-text
   * values contain no `|`, splitting the joined string gives back exactly
   * userAgent, language, colorDepth, `WxH`, timezone offset and the two
   * storage flags, in that order.
   */
  lemma ComponentsRecoverable(env: Environment)
    requires Separator !in env.userAgent && Separator !in env.language
    ensures Split(Joined(env)) == Components(env)
  {
    var parts := Components(env);
    SeparatorFreeNumber(env.colorDepth);
    SeparatorFreeNumber(env.width);
    SeparatorFreeNumber(env.height);
    SeparatorFreeNumber(env.timezoneOffset);
    assert Separator !in parts[3];
    SplitJoin(parts);
  }

  /** `btoa` accepts a string only when every character fits in one byte. */
  predicate IsLatin1(s: string)
  {
    forall i :: 0 <= i < |s| ==> s[i] as int < 256
  }

  function Bytes(s: string): (b: seq<Base64.Byte>)
    requires IsLatin1(s)
    ensures |b| == |s| && forall i :: 0 <= i < |s| ==> b[i] == s[i] as int
  {
    if s == [] then [] else [s[0] as int as Base64.Byte] + Bytes(s[1..])
  }

  function Min(a: nat, b: nat): nat
  {
    if a <= b then a else b
  }

  /**
   * `btoa(s).substring(0, 32)`; `None` where `btoa` throws because some
   * character is above U+00FF.
   */
  function FingerprintOf(s: string): (r: Option<string>)
    ensures r.Some? <==> IsLatin1(s)
    ensures r.Some? ==> |r.value| <= FingerprintLength
    ensures r.Some? && |s| >= 22 ==> |r.value| == FingerprintLength
    ensures r.Some? ==> forall i :: 0 <= i < |r.value| ==> Base64.IsEncodingChar(r.value[i])
  {
    if IsLatin1(s) then
      var encoded := Base64.Encode(Bytes(s));
      Base64.EncodeLength(Bytes(s));
      Some(encoded[..Min(FingerprintLength, |encoded|)])
    else None
  }

  /** `generateDeviceFingerprint()`. */
  function Fingerprint(env: Environment): Option<string>
  {
    FingerprintOf(Joined(env))
  }

  lemma BytesPrefix(s: string, n: nat)
    requires IsLatin1(s) && n <= |s|
    ensures IsLatin1(s[..n]) && Bytes(s[..n]) == Bytes(s)[..n]
  {
  }

  /** When the joined string has 24 characters or more, the fingerprint is the encoding of exactly its first 24. */
  lemma FingerprintEncodesFirst24(s: string)
    requires IsLatin1(s) && |s| >= 24
    ensures FingerprintOf(s) == Some(Base64.Encode(Bytes(s[..24])))
  {
    BytesPrefix(s, 24);
    Base64.EncodePrefix(Bytes(s));
  }

  /** The 32 characters decode back to the first 24 characters of the joined string. */
  lemma FingerprintDecodes(s: string)
    requires IsLatin1(s) && |s| >= 24
    ensures Base64.Decode(FingerprintOf(s).value) == Some(Bytes(s[..24]))
  {
    FingerprintEncodesFirst24(s);
    Base64.DecodeEncode(Bytes(s[..24]));
  }

  /**
   * Two joined strings of 24 characters or more get the same fingerprint
   * exactly when their first 24 characters agree: 32 base64 characters carry
   * 24 bytes, and nothing after them.
   */
  lemma SameFingerprintIffSharedPrefix(s: string, t: string)
    requires IsLatin1(s) && IsLatin1(t) && |s| >= 24 && |t| >= 24
    ensures FingerprintOf(s) == FingerprintOf(t) <==> s[..24] == t[..24]
  {
    FingerprintEncodesFirst24(s);
    FingerprintEncodesFirst24(t);
    if FingerprintOf(s) == FingerprintOf(t) {
      FingerprintDecodes(s);
      FingerprintDecodes(t);
      var bs, bt := Bytes(s[..24]), Bytes(t[..24]);
      assert bs == bt;
      forall i | 0 <= i < 24
        ensures s[..24][i] == t[..24][i]
      {
        assert bs[i] == s[..24][i] as int && bt[i] == t[..24][i] as int;
      }
    }
  }

  // ---------------------------------------------------------------------
  // generateSessionId

  const SessionKey: string := "viewer_session_id"
  const SessionPrefix: string := "session_"

  /** The id the source builds from `Date.now()` and the random base-36 digits. */
  function NewSessionId(now: nat, randomDigits: string): (id: string)
    ensures |id| > |SessionPrefix| && id[..|SessionPrefix|] == SessionPrefix
  {
    SessionPrefix + NatToString(now) + "_" + randomDigits
  }

  /** What `sessionStorage.getItem(SESSION_KEY)` yields when it is truthy (a non-empty string). */
  function StoredSessionId(items: map<string, string>): Option<string>
  {
    if SessionKey in items && items[SessionKey] != "" then Some(items[SessionKey]) else None
  }

  /** The tab's `sessionStorage`, as a key-value map. */
  class SessionStorage {
    var items: map<string, string>

    constructor (initial: map<string, string>)
      ensures items == initial
    {
      items := initial;
    }

    /**
     * `generateSessionId()`: get the stored id, or create, store and return
     * a new one. `now` stands for `Date.now()` and `randomDigits` for the
     * base-36 digits taken from `Math.random()`.
     */
    method GenerateSessionId(now: nat, randomDigits: string) returns (id: string)
      modifies this
      ensures old(StoredSessionId(items)).Some? ==>
        id == old(StoredSessionId(items)).value && items == old(items)
      ensures old(StoredSessionId(items)).None? ==>
        id == NewSessionId(now, randomDigits) && items == old(items)[SessionKey := id]
      ensures StoredSessionId(items) == Some(id)
      ensures forall k :: k != SessionKey ==> (k in items <==> k in old(items))
      ensures forall k :: k != SessionKey && k in items ==> items[k] == old(items)[k]
    {
      var stored := if SessionKey in items then Some(items[SessionKey]) else None;
      if stored.None? || stored.value == "" {
        id := NewSessionId(now, randomDigits);
        items := items[SessionKey := id];
      } else {
        id := stored.value;
      }
    }
  }

  /** A second call returns the id of the first and changes nothing, whatever its clock and random inputs. */
  method GenerateSessionIdIsIdempotent(store: SessionStorage, now1: nat, r1: string, now2: nat, r2: string)
    returns (first: string, second: string)
    modifies store
    ensures first == second
    ensures StoredSessionId(store.items) == Some(first)
  {
    first := store.GenerateSessionId(now1, r1);
    ghost var between := store.items;
    second := store.GenerateSessionId(now2, r2);
    assert store.items == between;
  }
}
