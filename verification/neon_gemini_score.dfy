/** Score of the neon-gemini runner (src/score.js): the score is the floored
    distance, perfect-jump streaks of three or more add 100 per jump, and a
    high score kept in an optional key-value store (absent when `None`). */
module NeonGeminiScore {
  import opened Wrappers

  const StreakBonus: int := 100
  const StreakThreshold: nat := 3
  const StoreKey: string := "highScore"

  datatype Score = Score(currentScore: int, highScore: int, streak: nat)

  function CreateScore(): (s: Score)
    ensures s.currentScore == 0 && s.highScore == 0 && s.streak == 0
  {
    Score(0, 0, 0)
  }

  /** `updateScore`: overwritten with the floored distance, so earlier
      bonuses are discarded. */
  function UpdateScore(s: Score, distance: real): (r: Score)
    ensures r.currentScore as real <= distance < r.currentScore as real + 1.0
    ensures r.highScore == s.highScore && r.streak == s.streak
  {
    s.(currentScore := distance.Floor)
  }

  /** The streak bonus does not survive the next distance update. */
  lemma BonusOverwritten(s: Score, distance: real)
    ensures UpdateScore(RecordPerfectJump(s), distance).currentScore == UpdateScore(s, distance).currentScore
  {
  }

  /** `recordPerfectJump`: the streak grows; from the third jump on each adds 100. */
  function RecordPerfectJump(s: Score): (r: Score)
    ensures r.streak == s.streak + 1
    ensures r.currentScore - s.currentScore == (if r.streak >= StreakThreshold then StreakBonus else 0)
    ensures r.highScore == s.highScore
  {
    var streak := s.streak + 1;
    s.(streak := streak, currentScore := if streak >= StreakThreshold then s.currentScore + StreakBonus else s.currentScore)
  }

  function RecordPerfectJumps(s: Score, n: nat): Score
  {
    if n == 0 then s else RecordPerfectJump(RecordPerfectJumps(s, n - 1))
  }

  /** From a zero streak, n jumps add 100 for each jump past the second. */
  lemma {:induction false} RecordPerfectJumpsBonus(s: Score, n: nat)
    requires s.streak == 0
    ensures RecordPerfectJumps(s, n).streak == n
    ensures RecordPerfectJumps(s, n).currentScore == s.currentScore + StreakBonus * (if n >= 2 then n - 2 else 0)
    ensures RecordPerfectJumps(s, n).highScore == s.highScore
  {
    if n > 0 {
      RecordPerfectJumpsBonus(s, n - 1);
    }
  }

  /** `resetStreak`. */
  function ResetStreak(s: Score): (r: Score)
    ensures r.streak == 0 && r.currentScore == s.currentScore && r.highScore == s.highScore
  {
    s.(streak := 0)
  }

  datatype Saved = Saved(score: Score, store: Option<map<string, int>>)

  /** `saveHighScore`: raises the high score, and writes the store when one
      exists, exactly when the current score beats it. */
  function SaveHighScore(s: Score, store: Option<map<string, int>>): (r: Saved)
    ensures s.currentScore > s.highScore ==>
              r.score == s.(highScore := s.currentScore)
              && r.store == (match store case None => None case Some(m) => Some(m[StoreKey := s.currentScore]))
    ensures s.currentScore <= s.highScore ==> r == Saved(s, store)
    ensures r.score.highScore >= s.highScore && r.score.highScore >= s.currentScore
    ensures r.score.currentScore == s.currentScore && r.score.streak == s.streak
  {
    if s.currentScore > s.highScore then
      Saved(s.(highScore := s.currentScore),
            match store case None => None case Some(m) => Some(m[StoreKey := s.currentScore]))
    else Saved(s, store)
  }

  /** `loadHighScore`: taken from the store only when it holds a value. */
  function LoadHighScore(s: Score, store: Option<map<string, int>>): (r: Score)
    ensures store.Some? && StoreKey in store.value ==> r == s.(highScore := store.value[StoreKey])
    ensures store.None? || StoreKey !in store.value ==> r == s
  {
    match store
    case Some(m) => if StoreKey in m then s.(highScore := m[StoreKey]) else s
    case None => s
  }

  /** Saving then loading from the same store gives back the saved high score. */
  lemma SaveLoadRoundTrip(s: Score, m: map<string, int>)
    requires s.currentScore > s.highScore
    ensures var saved := SaveHighScore(s, Some(m));
            LoadHighScore(CreateScore(), saved.store).highScore == saved.score.highScore
  {
  }
}
