/** Scoring of the neon-claude runner (src/score.js): distance from travel,
    the perfect-jump streak with its growing bonus, and the high score kept
    in an optional key-value store (`localStorage`, absent when `None`). */
module NeonClaudeScore {
  import opened Wrappers
  import opened NeonClaudePhysics

  const StoreKey: string := "neonRunnerHighScore"
  const StreakBonus: int := 50
  /** Perfect jumps needed before the streak starts counting. */
  const StreakThreshold: nat := 3

  /** `lastJumpedObstacle` holds the identity of the last obstacle credited. */
  datatype Score = Score(distance: int, highScore: int, streak: nat, maxStreak: nat,
                         bonusPoints: int, lastJumpedObstacle: Option<nat>,
                         perfectJumps: nat)

  /** The streak that `n` consecutive perfect jumps produce: max(0, n - 2). */
  function StreakAfter(n: nat): nat { if n >= StreakThreshold then n - StreakThreshold + 1 else 0 }

  /** The counters every reachable score keeps: the streak lags the perfect
      jumps by the threshold, and bonuses never go negative. */
  predicate Valid(s: Score) {
    && s.streak == StreakAfter(s.perfectJumps)
    && s.maxStreak >= s.streak
    && s.bonusPoints >= 0
  }

  /** `loadHighScore`: the stored value, or 0 without a store or a value. */
  function LoadHighScore(store: Option<map<string, int>>): (h: int)
    ensures store.None? || StoreKey !in store.value ==> h == 0
    ensures store.Some? && StoreKey in store.value ==> h == store.value[StoreKey]
  {
    match store
    case None => 0
    case Some(m) => if StoreKey in m then m[StoreKey] else 0
  }

  function Create(store: Option<map<string, int>>): (s: Score)
    ensures Valid(s) && s.highScore == LoadHighScore(store)
    ensures s.distance == 0 && s.bonusPoints == 0 && s.perfectJumps == 0 && s.lastJumpedObstacle.None?
    ensures s.streak == 0 && s.maxStreak == 0
  {
    Score(0, LoadHighScore(store), 0, 0, 0, None, 0)
  }

  /** `update`: distance is overwritten with travel / 10, rounded down. */
  function Update(s: Score, distanceTraveled: int): (r: Score)
    ensures r.distance * 10 <= distanceTraveled < r.distance * 10 + 10
    ensures r == s.(distance := r.distance)
    ensures Valid(s) ==> Valid(r)
  {
    s.(distance := distanceTraveled / 10)
  }

  /** Clearance between the player's bottom and the top of an obstacle on
      the ground, strictly inside (10, 50). */
  predicate IsPerfectClearance(obstacleHeight: real, playerY: real) {
    var clearance := GroundY - obstacleHeight - playerY;
    10.0 < clearance < 50.0
  }

  /** Both bounds are strict: a clearance of exactly 10 (obstacle height 40,
      player bottom at 250) is not perfect. */
  lemma ClearanceBoundsStrict()
    ensures !IsPerfectClearance(40.0, 250.0) && IsPerfectClearance(40.0, 249.0)
    ensures !IsPerfectClearance(40.0, 210.0) && IsPerfectClearance(40.0, 211.0)
  {
  }

  /** The jump is credited: a real obstacle, not the one credited last. */
  predicate Credits(s: Score, obstacle: Option<Obstacle>) {
    obstacle.Some? && Some(obstacle.value.id) != s.lastJumpedObstacle
  }

  /** `registerJump(obstacle, playerY)`. */
  function RegisterJump(s: Score, obstacle: Option<Obstacle>, playerY: real): (r: Score)
    ensures !Credits(s, obstacle) ==> r == s
    ensures Credits(s, obstacle) ==> r.lastJumpedObstacle == Some(obstacle.value.id)
    ensures Credits(s, obstacle) && IsPerfectClearance(obstacle.value.height, playerY) ==>
              && r.perfectJumps == s.perfectJumps + 1
              && (r.perfectJumps >= StreakThreshold ==>
                    && r.streak == s.streak + 1 && r.bonusPoints == s.bonusPoints + StreakBonus * r.streak
                    && r.maxStreak == (if r.streak > s.maxStreak then r.streak else s.maxStreak))
              && (r.perfectJumps < StreakThreshold ==>
                    r.streak == s.streak && r.bonusPoints == s.bonusPoints && r.maxStreak == s.maxStreak)
    ensures Credits(s, obstacle) && !IsPerfectClearance(obstacle.value.height, playerY) ==>
              r.perfectJumps == 0 && r.streak == 0 && r.bonusPoints == s.bonusPoints && r.maxStreak == s.maxStreak
    ensures r.bonusPoints >= s.bonusPoints && r.maxStreak >= s.maxStreak
    ensures r.distance == s.distance && r.highScore == s.highScore
    ensures Valid(s) ==> Valid(r)
  {
    if obstacle.None? || Some(obstacle.value.id) == s.lastJumpedObstacle then s
    else
      var s1 := s.(lastJumpedObstacle := Some(obstacle.value.id));
      if IsPerfectClearance(obstacle.value.height, playerY) then
        var pj := s1.perfectJumps + 1;
        if pj >= StreakThreshold then
          var streak := s1.streak + 1;
          s1.(perfectJumps := pj, streak := streak,
              bonusPoints := s1.bonusPoints + StreakBonus * streak,
              maxStreak := if streak > s1.maxStreak then streak else s1.maxStreak)
        else s1.(perfectJumps := pj)
      else s1.(perfectJumps := 0, streak := 0)
  }

  /** 1 + 2 + ... + k. */
  function Triangle(k: nat): nat { if k == 0 then 0 else Triangle(k - 1) + k }

  /** Jumps registered one after another. */
  function RegisterAll(s: Score, jumps: seq<(Obstacle, real)>): Score
    decreases |jumps|
  {
    if |jumps| == 0 then s else RegisterAll(RegisterJump(s, Some(jumps[0].0), jumps[0].1), jumps[1..])
  }

  /** Every jump perfect, every obstacle different from the one before it. */
  predicate PerfectRun(last: Option<nat>, jumps: seq<(Obstacle, real)>) {
    && (forall i :: 0 <= i < |jumps| ==> IsPerfectClearance(jumps[i].0.height, jumps[i].1))
    && (|jumps| > 0 ==> Some(jumps[0].0.id) != last)
    && (forall i :: 1 <= i < |jumps| ==> jumps[i].0.id != jumps[i - 1].0.id)
  }

  /** After n consecutive perfect jumps from a fresh score, perfectJumps = n,
      the streak is max(0, n - 2) and the bonus is 50 * (1 + ... + streak). */
  lemma {:induction false} PerfectRunBonus(s: Score, jumps: seq<(Obstacle, real)>)
    requires s.perfectJumps == 0 && s.streak == 0 && s.bonusPoints == 0
    requires PerfectRun(s.lastJumpedObstacle, jumps)
    ensures var r := RegisterAll(s, jumps);
            && r.perfectJumps == |jumps|
            && r.streak == StreakAfter(|jumps|)
            && r.bonusPoints == StreakBonus * Triangle(r.streak)
  {
    PerfectRunBonusFrom(s, jumps);
  }

  lemma {:induction false} PerfectRunBonusFrom(s: Score, jumps: seq<(Obstacle, real)>)
    requires Valid(s) && s.bonusPoints == StreakBonus * Triangle(s.streak)
    requires PerfectRun(s.lastJumpedObstacle, jumps)
    ensures var r := RegisterAll(s, jumps);
            && r.perfectJumps == s.perfectJumps + |jumps|
            && r.streak == StreakAfter(s.perfectJumps + |jumps|)
            && r.bonusPoints == StreakBonus * Triangle(r.streak)
    decreases |jumps|
  {
    if |jumps| > 0 {
      var s1 := RegisterJump(s, Some(jumps[0].0), jumps[0].1);
      assert IsPerfectClearance(jumps[0].0.height, jumps[0].1) && Some(jumps[0].0.id) != s.lastJumpedObstacle;
      assert s1.lastJumpedObstacle == Some(jumps[0].0.id);
      assert PerfectRun(s1.lastJumpedObstacle, jumps[1..]) by {
        if |jumps| > 1 {
          assert jumps[1].0.id != jumps[0].0.id;
        }
      }
      PerfectRunBonusFrom(s1, jumps[1..]);
    }
  }

  /** Only the last obstacle is remembered: A, B, A credits A twice. */
  lemma OnlyLastObstacleRemembered(s: Score, a: Obstacle, b: Obstacle, y: real)
    requires a.id != b.id && s.lastJumpedObstacle.None? && Valid(s)
    requires IsPerfectClearance(a.height, y) && IsPerfectClearance(b.height, y)
    ensures RegisterJump(RegisterJump(RegisterJump(s, Some(a), y), Some(b), y), Some(a), y).perfectJumps == s.perfectJumps + 3
    ensures RegisterJump(RegisterJump(s, Some(a), y), Some(a), y).perfectJumps == s.perfectJumps + 1
  {
  }

  /** `resetStreak`. */
  function ResetStreak(s: Score): (r: Score)
    ensures r.perfectJumps == 0 && r.streak == 0
    ensures r == s.(perfectJumps := 0, streak := 0)
    ensures Valid(s) ==> Valid(r)
  {
    s.(perfectJumps := 0, streak := 0)
  }

  /** `getTotal`: distance plus accumulated bonus. */
  function GetTotal(s: Score): (t: int)
    ensures Valid(s) ==> t >= s.distance
    ensures t - s.bonusPoints == s.distance
  {
    s.distance + s.bonusPoints
  }

  datatype SaveResult = SaveResult(isNew: bool, score: Score, store: Option<map<string, int>>)

  /** `saveHighScore`: a strictly better total becomes the high score and is
      written to the store (when there is one). */
  function SaveHighScore(s: Score, store: Option<map<string, int>>): (r: SaveResult)
    ensures r.isNew <==> GetTotal(s) > s.highScore
    ensures r.isNew ==> r.score == s.(highScore := GetTotal(s))
    ensures r.isNew && store.Some? ==> r.store == Some(store.value[StoreKey := GetTotal(s)])
    ensures r.isNew && store.None? ==> r.store.None?
    ensures !r.isNew ==> r.score == s && r.store == store
    ensures r.score.highScore >= s.highScore && r.score.highScore >= GetTotal(s)
  {
    var total := GetTotal(s);
    if total > s.highScore then
      SaveResult(true, s.(highScore := total),
                 match store case None => None case Some(m) => Some(m[StoreKey := total]))
    else SaveResult(false, s, store)
  }

  /** `reset`: everything but the high score goes back to its initial value. */
  function Reset(s: Score): (r: Score)
    ensures Valid(r) && r.highScore == s.highScore
    ensures r.distance == 0 && r.streak == 0 && r.maxStreak == 0 && r.bonusPoints == 0
    ensures r.perfectJumps == 0 && r.lastJumpedObstacle.None?
  {
    Score(0, s.highScore, 0, 0, 0, None, 0)
  }

  /** Saving a new high score into a store and loading it back returns
      that score; when the total is not better the stored value is kept. */
  lemma SaveThenLoad(s: Score, m: map<string, int>)
    ensures var r := SaveHighScore(s, Some(m));
            r.isNew ==> LoadHighScore(r.store) == GetTotal(s) && Create(r.store).highScore == r.score.highScore
    ensures var r := SaveHighScore(s, Some(m));
            !r.isNew ==> LoadHighScore(r.store) == LoadHighScore(Some(m))
  {
  }
}
