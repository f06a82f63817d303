/**
 * The creator-level card of src/components/UserLevel.tsx: the `LEVELS`
 * table, the current and next tier, the progress bar value and the lazy
 * creation of a user's first level record.
 */
module UserLevel {
  import opened Wrappers

  datatype Tier = Bronze | Silver | Gold | Platinum | Diamond

  /** A tier's upper XP bound; the top tier's is `Infinity`. */
  datatype Bound = Finite(n: int) | Infinity

  datatype LevelInfo = LevelInfo(name: string, minXP: int, maxXP: Bound)

  /** `Object.keys(LEVELS)`, in declaration order. */
  const LevelKeys: seq<string> := ["bronze", "silver", "gold", "platinum", "diamond"]
  const TierCount: nat := 5

  /** The tier in position `i` of the table. */
  function TierAt(i: nat): Tier
    requires i < TierCount
  {
    [Bronze, Silver, Gold, Platinum, Diamond][i]
  }

  function IndexOfTier(t: Tier): (i: nat)
    ensures i < TierCount && TierAt(i) == t
  {
    match t
    case Bronze => 0
    case Silver => 1
    case Gold => 2
    case Platinum => 3
    case Diamond => 4
  }

  /** The `LEVELS` entries. */
  function Info(t: Tier): LevelInfo
  {
    match t
    case Bronze => LevelInfo("Bronze Creator", 0, Finite(99))
    case Silver => LevelInfo("Silver Creator", 100, Finite(499))
    case Gold => LevelInfo("Gold Creator", 500, Finite(1499))
    case Platinum => LevelInfo("Platinum Creator", 1500, Finite(4999))
    case Diamond => LevelInfo("Diamond Creator", 5000, Infinity)
  }

  /** `LEVELS[key]`: the tier a stored `level` string names, if any. */
  function TierOfKey(key: string): (r: Option<Tier>)
    ensures r.Some? <==> key in LevelKeys
    ensures r.Some? ==> LevelKeys[IndexOfTier(r.value)] == key
  {
    if key == "bronze" then Some(Bronze)
    else if key == "silver" then Some(Silver)
    else if key == "gold" then Some(Gold)
    else if key == "platinum" then Some(Platinum)
    else if key == "diamond" then Some(Diamond)
    else None
  }

  predicate InTier(xp: int, t: Tier)
  {
    Info(t).minXP <= xp && (Info(t).maxXP.Finite? ==> xp <= Info(t).maxXP.n)
  }

  /**
   * The table is one contiguous ladder: `minXP` strictly increases in key
   * order, each finite `maxXP` is one below the next tier's `minXP`, only
   * the top tier is unbounded, and so every XP value from 0 up lies in
   * exactly one tier.
   */
  lemma TierTableIsLadder(i: nat, xp: int, t: Tier, u: Tier)
    requires i + 1 < TierCount
    ensures Info(TierAt(i)).minXP < Info(TierAt(i + 1)).minXP
    ensures Info(TierAt(i)).maxXP == Finite(Info(TierAt(i + 1)).minXP - 1)
    ensures Info(Diamond).maxXP == Infinity && Info(Bronze).minXP == 0
    ensures InTier(xp, t) && InTier(xp, u) ==> t == u
    ensures xp >= 0 ==> exists v :: InTier(xp, v)
  {
    if xp >= 0 {
      var v := if xp < 100 then Bronze else if xp < 500 then Silver else if xp < 1500 then Gold
               else if xp < 5000 then Platinum else Diamond;
      assert InTier(xp, v);
    }
  }

  /** A `user_levels` row as the card reads it. */
  datatype LevelData = LevelData(level: string, experiencePoints: int)

  /** `getCurrentLevel`: bronze without data or for a key the table lacks. */
  function CurrentLevel(data: Option<LevelData>): Tier
  {
    if data.None? then Bronze else TierOfKey(data.value.level).GetOr(Bronze)
  }

  /** The tier comes from the stored `level` key alone, never from the XP. */
  lemma CurrentLevelIgnoresXp(d: LevelData, xp: int)
    ensures CurrentLevel(Some(d)) == CurrentLevel(Some(d.(experiencePoints := xp)))
    ensures d.level in LevelKeys ==> LevelKeys[IndexOfTier(CurrentLevel(Some(d)))] == d.level
    ensures d.level !in LevelKeys ==> CurrentLevel(Some(d)) == Bronze
  {
  }

  /** `levels.indexOf(key)`: the first position of `key`, or -1. */
  function IndexOf(keys: seq<string>, key: string): (i: int)
    ensures -1 <= i < |keys|
    ensures i == -1 <==> key !in keys
    ensures i >= 0 ==> keys[i] == key && key !in keys[..i]
  {
    if |keys| == 0 then -1
    else if keys[0] == key then 0
    else
      var j := IndexOf(keys[1..], key);
      if j == -1 then -1
      else
        assert keys[..j + 1] == [keys[0]] + keys[1..][..j];
        j + 1
  }

  /** `getNextLevel` as written: the entry after the stored key's position, `indexOf` giving -1 for an unknown key. */
  function NextLevelAsWritten(data: Option<LevelData>): Option<Tier>
  {
    if data.None? then Some(Silver)
    else
      var next := IndexOf(LevelKeys, data.value.level) + 1;
      if next >= TierCount then None else Some(TierAt(next))
  }

  /** The intended next tier: the one after the current tier, none after diamond. */
  function NextTier(data: Option<LevelData>): (r: Option<Tier>)
    ensures r.None? <==> CurrentLevel(data) == Diamond
    ensures r.Some? ==> IndexOfTier(r.value) == IndexOfTier(CurrentLevel(data)) + 1
  {
    var i := IndexOfTier(CurrentLevel(data));
    if i + 1 < TierCount then Some(TierAt(i + 1)) else None
  }

  /** For every key in the table the written lookup is the intended one. */
  lemma NextLevelAgreesOnKnownKeys(data: Option<LevelData>)
    requires data.Some? ==> data.value.level in LevelKeys
    ensures NextLevelAsWritten(data) == NextTier(data)
  {
    if data.Some? {
      var t := TierOfKey(data.value.level).value;
      assert LevelKeys[IndexOfTier(t)] == data.value.level;
      assert IndexOf(LevelKeys, data.value.level) == IndexOfTier(t);
    }
  }

  /** The progress value, with the non-finite results JavaScript's division can give. */
  datatype Progress = Percent(value: real) | NaN | MinusInfinity

  function MinReal(a: real, b: real): real
  {
    if a <= b then a else b
  }

  /** `getProgressToNextLevel` over a current and a next tier. */
  function ProgressBetween(xp: int, current: Tier, next: Option<Tier>): Progress
  {
    if next.None? then Percent(100.0)
    else
      var progress := xp - Info(current).minXP;
      var range := Info(next.value).minXP - Info(current).minXP;
      if range == 0 then
        // x / 0 is Infinity, NaN or -Infinity, and Math.min keeps the last two
        if progress > 0 then Percent(100.0) else if progress == 0 then NaN else MinusInfinity
      else Percent(MinReal(progress as real / range as real * 100.0, 100.0))
  }

  /** `getProgressToNextLevel` as written. */
  function ProgressAsWritten(data: Option<LevelData>): Progress
  {
    if data.None? then Percent(0.0)
    else ProgressBetween(data.value.experiencePoints, CurrentLevel(data), NextLevelAsWritten(data))
  }

  /**
   * A stored level outside the table makes the card aim at bronze, the tier
   * it already shows: the range is 0, so the bar is full for any positive XP and its
   * value is NaN at 0 XP.
   */
  lemma UnknownLevelAimsAtBronze(key: string, xp: int)
    requires key !in LevelKeys
    ensures NextLevelAsWritten(Some(LevelData(key, xp))) == Some(Bronze)
    ensures CurrentLevel(Some(LevelData(key, xp))) == Bronze
    ensures ProgressAsWritten(Some(LevelData(key, 0))) == NaN
    ensures xp > 0 ==> ProgressAsWritten(Some(LevelData(key, xp))) == Percent(100.0)
    ensures xp < 0 ==> ProgressAsWritten(Some(LevelData(key, xp))) == MinusInfinity
  {
  }

  /** The progress the card means: toward the tier after the current one. */
  function ProgressToNextLevel(data: Option<LevelData>): Progress
  {
    if data.None? then Percent(0.0)
    else ProgressBetween(data.value.experiencePoints, CurrentLevel(data), NextTier(data))
  }

  lemma RatioAtLeastOne(progress: int, range: int)
    requires range > 0
    ensures progress as real / range as real * 100.0 >= 100.0 <==> progress >= range
  {
    var q := progress as real / range as real;
    assert q * range as real == progress as real;
    if progress >= range {
      assert q >= 1.0;
    }
    if q >= 1.0 {
      assert q * range as real >= range as real;
    }
  }

  /**
   * The corrected progress is always a finite percentage, capped at 100 but
   * not floored at 0, it is 0 without data and 100 at the top tier, and it
   * reaches 100 exactly when no XP is needed for the next tier.
   */
  lemma ProgressIsPercentage(data: Option<LevelData>)
    ensures ProgressToNextLevel(data).Percent? && ProgressToNextLevel(data).value <= 100.0
    ensures data.None? ==> ProgressToNextLevel(data).value == 0.0
    ensures data.Some? && CurrentLevel(data) == Diamond ==> ProgressToNextLevel(data).value == 100.0
    ensures data.Some? && NextTier(data).Some? ==>
      (ProgressToNextLevel(data).value == 100.0 <==> XpNeeded(data, NextTier(data).value) <= 0)
    ensures data.Some? && data.value.experiencePoints >= Info(CurrentLevel(data)).minXP ==> ProgressToNextLevel(data).value >= 0.0
  {
    if data.Some? && NextTier(data).Some? {
      var cur, next := CurrentLevel(data), NextTier(data).value;
      assert Info(next).minXP > Info(cur).minXP by {
        TierTableIsLadder(IndexOfTier(cur), 0, cur, cur);
      }
      RatioAtLeastOne(data.value.experiencePoints - Info(cur).minXP, Info(next).minXP - Info(cur).minXP);
    }
  }

  /** A stored level below its tier's floor gives a negative bar: the cap is one-sided. */
  lemma ProgressNotFlooredBelowZero()
    ensures ProgressToNextLevel(Some(LevelData("silver", 50))) == Percent(-12.5)
  {
    assert NextTier(Some(LevelData("silver", 50))) == Some(Gold);
  }

  /** "XP needed for next level": the next tier's `minXP` minus the XP shown (`|| 0`). */
  function XpNeeded(data: Option<LevelData>, next: Tier): int
  {
    Info(next).minXP - (if data.Some? then data.value.experiencePoints else 0)
  }

  // ---------------------------------------------------------------------
  // fetchUserLevel

  const NoRowsCode: string := "PGRST116"
  const InitialLevel: LevelData := LevelData("bronze", 0)

  /** The `user_levels` read: an error with its code (`PGRST116` is "no row"), or the row. */
  datatype LevelFetch = FetchFailed(code: string) | Found(data: LevelData)

  class LevelWidget {
    var levelData: Option<LevelData>
    var loading: bool
    /** The rows this card inserted into `user_levels`, in order. */
    var inserted: seq<LevelData>

    constructor ()
      ensures levelData.None? && loading && inserted == []
    {
      levelData := None;
      loading := true;
      inserted := [];
    }

    /**
     * `fetchUserLevel`: show the stored row, or, when there is none, insert
     * bronze with 0 XP and show it once the insert succeeds. Any other read
     * error leaves the card as it was; every signed-in call ends loading.
     */
    method FetchUserLevel(signedIn: bool, reply: LevelFetch, insertSucceeds: bool)
      modifies this
      ensures !signedIn ==> levelData == old(levelData) && loading == old(loading) && inserted == old(inserted)
      ensures signedIn ==> !loading
      ensures signedIn && reply.Found? ==> levelData == Some(reply.data) && inserted == old(inserted)
      ensures signedIn && reply.FetchFailed? && reply.code != NoRowsCode ==>
        levelData == old(levelData) && inserted == old(inserted)
      ensures signedIn && reply.FetchFailed? && reply.code == NoRowsCode ==>
        inserted == old(inserted) + [InitialLevel] &&
        levelData == (if insertSucceeds then Some(InitialLevel) else old(levelData))
    {
      if !signedIn {
        return;
      }
      match reply {
        case FetchFailed(code) =>
          if code == NoRowsCode {
            inserted := inserted + [InitialLevel];
            if insertSucceeds {
              levelData := Some(InitialLevel);
            }
          }
        case Found(data) =>
          levelData := Some(data);
      }
      loading := false;
    }
  }

  /** A first visit with no record creates one and then shows bronze at 0 XP with 0% progress toward silver. */
  method FirstVisitStartsAtBronze() returns (w: LevelWidget)
    ensures w.levelData == Some(InitialLevel) && w.inserted == [InitialLevel]
    ensures CurrentLevel(w.levelData) == Bronze && NextTier(w.levelData) == Some(Silver)
    ensures ProgressToNextLevel(w.levelData) == Percent(0.0)
  {
    w := new LevelWidget();
    w.FetchUserLevel(true, FetchFailed(NoRowsCode), true);
  }
}
