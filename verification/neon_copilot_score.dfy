/** Score keeping of the neon-copilot runner (src/score.js): accumulated
    distance, perfect jumps, a streak that pays a bonus every third jump,
    and a high score in an optional key-value store (`localStorage`,
    absent when `None`). */
module NeonCopilotScore {
  import opened Wrappers
  import opened NeonCopilotPhysics

  const DefaultDistanceMultiplier: real := 1.0
  const DefaultPerfectJumpBonus: int := 10
  const DefaultStreakMultiplier: int := 3
  const DefaultStorageKey: string := "neon-runner-high-score"
  const StreakLength: nat := 3

  datatype Score = Score(distance: real, perfectJumps: nat, currentStreak: nat, streakBonus: int,
                         distanceMultiplier: real, perfectJumpBonus: int, streakMultiplier: int,
                         storageKey: string)

  /** The constructor; options fall back with `||`, so 0 and "" mean "default". */
  function Create(distanceMultiplier: Option<real>, perfectJumpBonus: Option<int>,
                  streakMultiplier: Option<int>, storageKey: Option<string>): (s: Score)
    ensures s.distance == 0.0 && s.perfectJumps == 0 && s.currentStreak == 0 && s.streakBonus == 0
    ensures s.distanceMultiplier == OrReal(distanceMultiplier, DefaultDistanceMultiplier)
    ensures s.perfectJumpBonus == OrInt(perfectJumpBonus, DefaultPerfectJumpBonus)
    ensures s.streakMultiplier == OrInt(streakMultiplier, DefaultStreakMultiplier)
    ensures storageKey.None? || storageKey.value == [] ==> s.storageKey == DefaultStorageKey
    ensures storageKey.Some? && storageKey.value != [] ==> s.storageKey == storageKey.value
  {
    var key := match storageKey
      case Some(k) => if k != [] then k else DefaultStorageKey
      case None => DefaultStorageKey;
    Score(0.0, 0, 0, 0, OrReal(distanceMultiplier, DefaultDistanceMultiplier),
          OrInt(perfectJumpBonus, DefaultPerfectJumpBonus),
          OrInt(streakMultiplier, DefaultStreakMultiplier), key)
  }

  /** `updateDistance`: distance accumulates; nothing else changes. */
  function UpdateDistance(s: Score, delta: real): (r: Score)
    ensures r.distance - s.distance == delta
    ensures r.(distance := s.distance) == s
  {
    s.(distance := s.distance + delta)
  }

  /** `recordPerfectJump`: one more jump; the third jump of a streak pays
      `perfectJumpBonus * streakMultiplier` and starts the streak again. */
  function RecordPerfectJump(s: Score): (r: Score)
    ensures r.perfectJumps == s.perfectJumps + 1
    ensures s.currentStreak + 1 >= StreakLength ==>
              r.currentStreak == 0 && r.streakBonus == s.streakBonus + s.perfectJumpBonus * s.streakMultiplier
    ensures s.currentStreak + 1 < StreakLength ==>
              r.currentStreak == s.currentStreak + 1 && r.streakBonus == s.streakBonus
    ensures r.currentStreak < StreakLength
    ensures r.(perfectJumps := s.perfectJumps, currentStreak := s.currentStreak, streakBonus := s.streakBonus) == s
  {
    var streak := s.currentStreak + 1;
    if streak >= StreakLength then
      s.(perfectJumps := s.perfectJumps + 1, currentStreak := 0,
         streakBonus := s.streakBonus + s.perfectJumpBonus * s.streakMultiplier)
    else s.(perfectJumps := s.perfectJumps + 1, currentStreak := streak)
  }

  /** `n` perfect jumps in a row. */
  function RecordPerfectJumps(s: Score, n: nat): Score
  {
    if n == 0 then s else RecordPerfectJump(RecordPerfectJumps(s, n - 1))
  }

  /** Without a break, the streak counts jumps modulo three and every
      completed triple pays one bonus. */
  lemma {:induction false} RecordPerfectJumpsCount(s: Score, n: nat)
    requires s.currentStreak < StreakLength
    ensures RecordPerfectJumps(s, n).perfectJumps == s.perfectJumps + n
    ensures RecordPerfectJumps(s, n).currentStreak == (s.currentStreak + n) % 3
    ensures RecordPerfectJumps(s, n).streakBonus
            == s.streakBonus + s.perfectJumpBonus * s.streakMultiplier * ((s.currentStreak + n) / 3)
    ensures RecordPerfectJumps(s, n).perfectJumpBonus == s.perfectJumpBonus
    ensures RecordPerfectJumps(s, n).streakMultiplier == s.streakMultiplier
  {
    if n > 0 {
      RecordPerfectJumpsCount(s, n - 1);
      var c := s.currentStreak + n - 1;
      var b := s.perfectJumpBonus * s.streakMultiplier;
      if c % 3 == 2 {
        assert (c + 1) / 3 == c / 3 + 1 && (c + 1) % 3 == 0;
        assert b * ((c + 1) / 3) == b * (c / 3) + b;
      } else {
        assert (c + 1) / 3 == c / 3 && (c + 1) % 3 == c % 3 + 1;
      }
    }
  }

  /** From a fresh score with default options: after n jumps the streak
      bonus is 30 per completed triple and the streak is n mod 3. */
  lemma DefaultRunFromReset(n: nat)
    ensures var r := RecordPerfectJumps(Create(None, None, None, None), n);
            r.streakBonus == 30 * (n / 3) && r.currentStreak == n % 3 && r.perfectJumps == n
  {
    RecordPerfectJumpsCount(Create(None, None, None, None), n);
  }

  /** `breakStreak`: only the current streak is cleared. */
  function BreakStreak(s: Score): (r: Score)
    ensures r.currentStreak == 0
    ensures r.(currentStreak := s.currentStreak) == s
  {
    s.(currentStreak := 0)
  }

  /** `getScore`: floored weighted distance plus jump points plus streak bonus. */
  function GetScore(s: Score): (t: int)
    ensures (t - s.streakBonus - s.perfectJumps * s.perfectJumpBonus) as real <= s.distance * s.distanceMultiplier
    ensures (s.distance * s.distanceMultiplier) < (t - s.streakBonus - s.perfectJumps * s.perfectJumpBonus + 1) as real
  {
    (s.distance * s.distanceMultiplier).Floor + s.perfectJumps * s.perfectJumpBonus + s.streakBonus
  }

  /** A perfect jump never lowers the score when the bonuses are non-negative. */
  lemma PerfectJumpRaisesScore(s: Score)
    requires s.perfectJumpBonus >= 0 && s.streakMultiplier >= 0
    ensures GetScore(RecordPerfectJump(s)) >= GetScore(s) + s.perfectJumpBonus
  {
  }

  datatype Stats = Stats(distance: int, perfectJumps: nat, currentStreak: nat, streakBonus: int, totalScore: int)

  /** `getStats`: the distance floored, the total as `getScore`. */
  function GetStats(s: Score): (st: Stats)
    ensures st.distance as real <= s.distance < st.distance as real + 1.0
    ensures st.totalScore == GetScore(s)
    ensures st.perfectJumps == s.perfectJumps && st.currentStreak == s.currentStreak
    ensures st.streakBonus == s.streakBonus
  {
    Stats(s.distance.Floor, s.perfectJumps, s.currentStreak, s.streakBonus, GetScore(s))
  }

  /** `reset`: counters zeroed, options kept. */
  function Reset(s: Score): (r: Score)
    ensures r.distance == 0.0 && r.perfectJumps == 0 && r.currentStreak == 0 && r.streakBonus == 0
    ensures r.distanceMultiplier == s.distanceMultiplier && r.perfectJumpBonus == s.perfectJumpBonus
    ensures r.streakMultiplier == s.streakMultiplier && r.storageKey == s.storageKey
    ensures GetScore(r) == 0
  {
    s.(distance := 0.0, perfectJumps := 0, currentStreak := 0, streakBonus := 0)
  }

  /** `getHighScore`: 0 without a store or a stored value. */
  function GetHighScore(s: Score, store: Option<map<string, int>>): (h: int)
    ensures store.None? || s.storageKey !in store.value ==> h == 0
    ensures store.Some? && s.storageKey in store.value ==> h == store.value[s.storageKey]
  {
    match store
    case None => 0
    case Some(m) => if s.storageKey in m then m[s.storageKey] else 0
  }

  /** `isNewHighScore`. */
  function IsNewHighScore(s: Score, store: Option<map<string, int>>): (b: bool)
    ensures b <==> GetScore(s) > GetHighScore(s, store)
  {
    GetScore(s) > GetHighScore(s, store)
  }

  datatype SaveResult = SaveResult(isNew: bool, store: Option<map<string, int>>)

  /** `saveHighScore`: false without a store; otherwise the store is
      written, and true returned, exactly when the score beats it. */
  function SaveHighScore(s: Score, store: Option<map<string, int>>): (r: SaveResult)
    ensures store.None? ==> r == SaveResult(false, None)
    ensures store.Some? ==> (r.isNew <==> IsNewHighScore(s, store))
    ensures r.isNew ==> r.store == Some(store.value[s.storageKey := GetScore(s)])
    ensures !r.isNew ==> r.store == store
    ensures store.Some? ==> GetHighScore(s, r.store) >= GetHighScore(s, store)
    ensures store.Some? ==> GetHighScore(s, r.store) >= GetScore(s)
  {
    match store
    case None => SaveResult(false, None)
    case Some(m) =>
      if GetScore(s) > GetHighScore(s, store) then SaveResult(true, Some(m[s.storageKey := GetScore(s)]))
      else SaveResult(false, store)
  }
}
