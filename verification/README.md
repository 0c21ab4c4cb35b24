# Coding-agent evaluation apps, modelled in Dafny

The repository records an evaluation of coding agents. Three agents (Claude,
Copilot and Gemini) each built the same three small applications, and a
Python script summarises the results into an HTML report. The applications are:

- **Neon Runner**: a browser endless runner.
  - The player jumps over obstacles that scroll in from the right. There is a
    short "coyote time" after leaving the ground during which a jump is still
    allowed.
  - A spawner makes the game harder over time.
  - A score keeps distance, perfect jumps, streak bonuses and a high score in
    local storage.
- **Dodgefall**: a pygame game with falling obstacles.
  - The player moves left and right under falling obstacles and stars.
  - Hits cost lives and grant a short invulnerability.
  - Stars score points times a combo.
  - A high score is kept.
- **Calculator**: a four-function browser calculator with an entry display, a
  pending operator and a short history.

The report builder reads the results table and normalises each run:
- the run id;
- the success mark, which is Y, N or SKIP;
- the time.

It then produces:
- a per-agent summary with the pass count, the total, the success rate and the
  median time;
- two horizontal bar charts, drawn as SVG;
- HTML-escaped table cells.

Each source file of the core has its own Dafny module, named after the app and
the agent. For example, `NeonCopilotSpawner` is the Copilot Neon Runner's
`src/spawner.js`, and `BuildReport` is `_build_report.py`. `Wrappers` (Option)
and `SeqUtil` (filter, map, count and similar sequence helpers) are shared.

The state of each game or calculator is an immutable datatype. Every method
that mutates state becomes a pure function from the old state to the new one.
The outside world becomes parameters:

- **Clock**: `Date.now()` / `performance.now()` becomes `now: int` in
  milliseconds.
- **Random draws**: `Math.random()` and `random.uniform` / `random.randint`
  become draw parameters such as `roll: real` and `Draws`.
- **Storage**: `localStorage` becomes an `Option<map<string, int>>`, where
  `None` means storage is unavailable.
- **Parsing and printing**: `parseFloat` becomes `parse: string -> Option<real>`,
  with `None` standing for NaN. Printing a number becomes
  `format: real -> string`.

Positions, speeds and calculator values are exact `real`s. Frame counters and
millisecond times are `int`s.

Where the code truncates or rounds, the model does so explicitly:
- Python `int()` and `//`;
- JavaScript `Math.floor` and `Math.round`.

## Model

Source paths are relative to the repository root.

| member | source | states |
|---|---|---|
| NeonClaudePhysics.ApplyGravity | docs/results/2025-09-30/neon-claude-run1/neon-runner/src/physics.js:9-23 | an airborne player gains gravity and moves by the new velocity; it lands (grounded, at ground level, velocity 0, landing time recorded) exactly when the integrated position reaches the ground; it never ends below the ground; a grounded player above the ground only loses its grounded flag |
| NeonClaudePhysics.AtRestStaysAtRest | docs/results/2025-09-30/neon-claude-run1/neon-runner/src/physics.js:9-23 | a player resting on the ground stays put; only its last-grounded time is refreshed |
| NeonClaudePhysics.Jump | docs/results/2025-09-30/neon-claude-run1/neon-runner/src/physics.js:25-36 | a jump happens iff the player is grounded or within 80 ms coyote time and is not already jumping; a jump sets the jump impulse and the jumping flag and nothing else; a refused jump changes nothing |
| NeonClaudePhysics.NoDoubleJump | docs/results/2025-09-30/neon-claude-run1/neon-runner/src/physics.js:25-36 | after a jump no second jump is possible at any time until the jump is released |
| NeonClaudePhysics.CoyoteBoundary | docs/results/2025-09-30/neon-claude-run1/neon-runner/src/physics.js:25-36 | the coyote window is inclusive: a jump exactly 80 ms after leaving the ground succeeds, one at 81 ms fails |
| NeonClaudePhysics.CheckCollision | docs/results/2025-09-30/neon-claude-run1/neon-runner/src/physics.js:38-55 | for non-negative sizes, two bottom-anchored boxes collide iff their closed horizontal and vertical extents meet |
| NeonClaudePhysics.CollisionSymmetric | docs/results/2025-09-30/neon-claude-run1/neon-runner/src/physics.js:38-55 | the collision test does not depend on argument order |
| NeonClaudePhysics.TouchingEdgesCollide | docs/results/2025-09-30/neon-claude-run1/neon-runner/src/physics.js:38-55 | boxes that only share an edge count as colliding (the comparisons are non-strict) |
| NeonClaudePhysics.SeparatedDoNotCollide | docs/results/2025-09-30/neon-claude-run1/neon-runner/src/physics.js:38-55 | a gap on either axis rules a collision out |
| NeonClaudeSpawner.Create | docs/results/2025-09-30/neon-claude-run1/neon-runner/src/spawner.js:2-12 | a new spawner has no obstacles, a 2000 ms interval, speed 5, level 1 and its ramp clock at the creation time |
| NeonClaudeSpawner.UpdateDifficulty | docs/results/2025-09-30/neon-claude-run1/neon-runner/src/spawner.js:28-43 | the level rises by one iff more than 30 s passed since the last rise; then the interval drops by 150 down to an 800 ms floor and the speed rises by 0.5 up to a 12 cap; otherwise nothing changes |
| NeonClaudeSpawner.NewObstacle | docs/results/2025-09-30/neon-claude-run1/neon-runner/src/spawner.js:45-54 | a spawned obstacle starts at the right edge on the ground, 30 wide, 40 or 60 tall |
| NeonClaudeSpawner.SpawnObstacle | docs/results/2025-09-30/neon-claude-run1/neon-runner/src/spawner.js:45-54 | spawning appends exactly one new obstacle with a fresh id |
| NeonClaudeSpawner.MoveAndCull | docs/results/2025-09-30/neon-claude-run1/neon-runner/src/spawner.js:14-26 | moving and culling never adds obstacles and keeps only those still right of the cull line |
| NeonClaudeSpawner.MoveAndCullIsShiftThenFilter | docs/results/2025-09-30/neon-claude-run1/neon-runner/src/spawner.js:14-26 | the fused loop equals shifting every obstacle and then filtering those on screen |
| NeonClaudeSpawner.Update | docs/results/2025-09-30/neon-claude-run1/neon-runner/src/spawner.js:14-26 | one tick applies the difficulty step, spawns iff the interval has elapsed (recording the spawn time and a new id), then moves all obstacles by the new speed and culls; the newly spawned obstacle is last; at most one obstacle is added |
| NeonClaudeSpawner.Reset | docs/results/2025-09-30/neon-claude-run1/neon-runner/src/spawner.js:56-63 | a reset restores the initial interval, speed and level and empties the field but keeps the id counter |
| NeonClaudeSpawner.DifficultyStepsSaturate | docs/results/2025-09-30/neon-claude-run1/neon-runner/src/spawner.js:28-43 | any sequence of difficulty updates keeps interval and speed within their bounds and raises the level by at most one per update |
| NeonClaudeSpawner.FirstSpawnScenario | docs/results/2025-09-30/neon-claude-run1/neon-runner/src/spawner.js:14-26 | from a fresh spawner nothing spawns at 0 ms and the first obstacle appears at 2100 ms, already moved to x = 795 |
| NeonClaudeScore.LoadHighScore | docs/results/2025-09-30/neon-claude-run1/neon-runner/src/score.js:62-68 | the stored high score, or 0 when storage or the key is missing |
| NeonClaudeScore.Create | docs/results/2025-09-30/neon-claude-run1/neon-runner/src/score.js:2-10 | a new score has distance, bonus, perfect jumps, streak and best streak 0, no credited obstacle, and the stored high score |
| NeonClaudeScore.Update | docs/results/2025-09-30/neon-claude-run1/neon-runner/src/score.js:12-14 | the distance is the floor of a tenth of the distance travelled; nothing else changes |
| NeonClaudeScore.ClearanceBoundsStrict | docs/results/2025-09-30/neon-claude-run1/neon-runner/src/score.js:22-24 | a perfect clearance is strictly inside the band from 10 to 50 pixels above the obstacle top |
| NeonClaudeScore.RegisterJump | docs/results/2025-09-30/neon-claude-run1/neon-runner/src/score.js:16-39 | no obstacle or the last-credited one changes nothing; otherwise the obstacle is remembered; a perfect clearance counts a perfect jump and, from the third on, extends the streak, adds 50 times the streak and raises the best streak to the streak when it exceeds it (otherwise the streak, bonus and best streak are kept); an imperfect one resets the perfect count and streak and keeps bonus and best streak; distance and high score never change |
| NeonClaudeScore.PerfectRunBonus | docs/results/2025-09-30/neon-claude-run1/neon-runner/src/score.js:16-39 | n perfect jumps over distinct obstacles from zero give streak max(0, n-2) and a bonus of 50 times the triangle number of the streak |
| NeonClaudeScore.PerfectRunBonusFrom | docs/results/2025-09-30/neon-claude-run1/neon-runner/src/score.js:16-39 | the same closed form holds when continuing a run already in that form |
| NeonClaudeScore.OnlyLastObstacleRemembered | docs/results/2025-09-30/neon-claude-run1/neon-runner/src/score.js:16-19 | only the last credited obstacle is remembered, so jumping A, B, A credits three jumps while A, A credits one |
| NeonClaudeScore.ResetStreak | docs/results/2025-09-30/neon-claude-run1/neon-runner/src/score.js:41-44 | breaking the streak zeroes perfect count and streak and nothing else |
| NeonClaudeScore.GetTotal | docs/results/2025-09-30/neon-claude-run1/neon-runner/src/score.js:46-48 | the total is distance plus bonus points, never below the distance |
| NeonClaudeScore.SaveHighScore | docs/results/2025-09-30/neon-claude-run1/neon-runner/src/score.js:50-60 | a new record iff the total beats the high score; then the high score and the storage key become the total; otherwise nothing changes; afterwards the high score is at least the total |
| NeonClaudeScore.SaveThenLoad | docs/results/2025-09-30/neon-claude-run1/neon-runner/src/score.js:50-68 | a new record saved into a store is what loading reads back and what a new score starts from; otherwise the stored value is kept |
| NeonClaudeScore.Reset | docs/results/2025-09-30/neon-claude-run1/neon-runner/src/score.js:70-77 | a reset zeroes the run but keeps the high score |
| NeonClaudeGame.InitialPlayer | docs/results/2025-09-30/neon-claude-run1/neon-runner/public/game.js:34-53 | the player starts at rest on the ground at its start column |
| NeonClaudeGame.Create | docs/results/2025-09-30/neon-claude-run1/neon-runner/public/game.js:1-24 | a new game is ready and unpaused with the start player, a new spawner, a new score on the stored high score, distance 0, no start, pause or paused time, and the given store |
| NeonClaudeGame.Reset | docs/results/2025-09-30/neon-claude-run1/neon-runner/public/game.js:34-53 | reset restores player, spawner and score, clears the clocks and the pause, keeps the phase and the high score |
| NeonClaudeGame.Start | docs/results/2025-09-30/neon-claude-run1/neon-runner/public/game.js:26-32 | starting from ready or game over gives a fresh run that is playing: start player, reset spawner and score, distance 0, no pause, start time now, store kept; starting while playing does nothing |
| NeonClaudeGame.Pause | docs/results/2025-09-30/neon-claude-run1/neon-runner/public/game.js:55-60 | only a running game pauses, recording when |
| NeonClaudeGame.Resume | docs/results/2025-09-30/neon-claude-run1/neon-runner/public/game.js:62-68 | resuming adds the paused span to the paused time and clears the pause; the world is untouched |
| NeonClaudeGame.TogglePause | docs/results/2025-09-30/neon-claude-run1/neon-runner/public/game.js:70-76 | toggling resumes a paused game and pauses a running one |
| NeonClaudeGame.PauseResumeAccumulates | docs/results/2025-09-30/neon-claude-run1/neon-runner/public/game.js:55-68 | a pause at t1 and resume at t2 adds exactly t2 - t1 to the paused time and changes nothing else |
| NeonClaudeGame.FindNearestObstacle | docs/results/2025-09-30/neon-claude-run1/neon-runner/public/game.js:94-110 | no result iff no obstacle is ahead within 200 pixels; otherwise the result is such an obstacle with the least x, the first of them in order |
| NeonClaudeGame.Jump | docs/results/2025-09-30/neon-claude-run1/neon-runner/public/game.js:78-88 | outside play or when paused nothing changes; in play the player jumps as the physics says; a successful jump registers the nearest obstacle in the window with the score (a credit only when one exists and differs from the last), and a refused jump leaves the score alone; nothing but player and score changes |
| NeonClaudeGame.ReleaseJump | docs/results/2025-09-30/neon-claude-run1/neon-runner/public/game.js:90-92 | releasing clears the jumping flag and nothing else |
| NeonClaudeGame.GameOverState | docs/results/2025-09-30/neon-claude-run1/neon-runner/public/game.js:133-137 | game over sets the phase and saves the high score, which then is at least the final total; nothing but phase, score and store changes |
| NeonClaudeGame.Update | docs/results/2025-09-30/neon-claude-run1/neon-runner/public/game.js:112-131 | outside play nothing changes; a frame advances distance by 5, applies gravity, runs the spawner on the pause-corrected clock and sets the score distance, changing nothing else; the game ends iff the player touches an obstacle, and then the frame is the game-over step of that moved state, with the high score at least the total; the high score never drops |
| NeonClaudeGame.JumpNearObstacleIsCredited | docs/results/2025-09-30/neon-claude-run1/neon-runner/public/game.js:78-88 | a successful jump near an obstacle not credited last remembers that obstacle, so registering it again changes nothing |
| NeonClaudeGame.GameOverIsFinal | docs/results/2025-09-30/neon-claude-run1/neon-runner/public/game.js:78-137 | once a frame ends the run, further frames and jumps leave the game as it is |
| NeonCopilotPhysics.OrReal | docs/results/2025-09-30/neon-copilot-run1/neon-runner/src/physics.js:2-7 | an option given as 0 falls back to the default like a missing one (`||`) |
| NeonCopilotPhysics.OrInt | docs/results/2025-09-30/neon-copilot-run1/neon-runner/src/physics.js:2-7 | the integer form of the same `||` default |
| NeonCopilotPhysics.MakeConfig | docs/results/2025-09-30/neon-copilot-run1/neon-runner/src/physics.js:2-7 | each of gravity, jump force, ground line and coyote time is the given option unless it is absent or 0, and then the default 0.8, -15, 300 or 80 ms; so no option is ever 0 |
| NeonCopilotPhysics.CreatePlayer | docs/results/2025-09-30/neon-copilot-run1/neon-runner/src/physics.js:9-19 | a new player is 30x30 at rest on the ground (or at the given position), grounded now |
| NeonCopilotPhysics.CreateObstacle | docs/results/2025-09-30/neon-copilot-run1/neon-runner/src/physics.js:21-29 | an obstacle stands on the ground line with default size 20x40 |
| NeonCopilotPhysics.UpdatePlayer | docs/results/2025-09-30/neon-copilot-run1/neon-runner/src/physics.js:31-58 | gravity applies in the air or while rising; the player lands iff the new position reaches the ground, and is grounded iff it is at ground level; leaving the ground records the time; it never ends below ground |
| NeonCopilotPhysics.AtRestStaysAtRest | docs/results/2025-09-30/neon-copilot-run1/neon-runner/src/physics.js:31-58 | a player resting on the ground stays put |
| NeonCopilotPhysics.UpdateObstacle | docs/results/2025-09-30/neon-copilot-run1/neon-runner/src/physics.js:60-63 | an obstacle moves left by the speed; nothing else changes |
| NeonCopilotPhysics.CanJump | docs/results/2025-09-30/neon-copilot-run1/neon-runner/src/physics.js:65-68 | a grounded player can jump; an airborne one iff within the coyote window |
| NeonCopilotPhysics.Jump | docs/results/2025-09-30/neon-copilot-run1/neon-runner/src/physics.js:70-77 | a jump happens iff allowed and sets the jump force and leaves the ground; a refused jump changes nothing |
| NeonCopilotPhysics.RepeatedJumpAllowed | docs/results/2025-09-30/neon-copilot-run1/neon-runner/src/physics.js:65-77 | within the coyote window a second jump in the same instant is allowed (no jumping flag) |
| NeonCopilotPhysics.CoyoteBoundary | docs/results/2025-09-30/neon-copilot-run1/neon-runner/src/physics.js:65-68 | the coyote window is inclusive of its last millisecond |
| NeonCopilotPhysics.CheckCollision | docs/results/2025-09-30/neon-copilot-run1/neon-runner/src/physics.js:79-84 | for positive sizes, boxes collide iff their open extents overlap on both axes |
| NeonCopilotPhysics.CollisionSymmetric | docs/results/2025-09-30/neon-copilot-run1/neon-runner/src/physics.js:79-84 | the collision test is symmetric |
| NeonCopilotPhysics.TouchingEdgesDoNotCollide | docs/results/2025-09-30/neon-copilot-run1/neon-runner/src/physics.js:79-84 | boxes sharing only an edge do not collide |
| NeonCopilotPhysics.GroundedPlayerMissesGroundObstacles | docs/results/2025-09-30/neon-copilot-run1/neon-runner/src/physics.js:9-29 | since the player's y is its top and stands at the ground line while obstacles end there, a grounded player never collides with an obstacle |
| NeonCopilotPhysics.IsObstacleOffScreen | docs/results/2025-09-30/neon-copilot-run1/neon-runner/src/physics.js:86-88 | off screen iff the obstacle's right edge has passed x = 0 |
| NeonCopilotSpawner.Create | docs/results/2025-09-30/neon-copilot-run1/neon-runner/src/spawner.js:2-10 | a new spawner has the given physics, no obstacles and both clocks at now; base interval, minimum interval and ramp interval are the options unless absent or 0, and then 2000, 800 and 30000 ms |
| NeonCopilotSpawner.FloorDiv | docs/results/2025-09-30/neon-copilot-run1/neon-runner/src/spawner.js:12-15 | `Math.floor(a / b)` for integers, including negative dividends |
| NeonCopilotSpawner.GetCurrentDifficulty | docs/results/2025-09-30/neon-copilot-run1/neon-runner/src/spawner.js:12-15 | the difficulty is the number of whole ramp intervals elapsed since the game started |
| NeonCopilotSpawner.DifficultyMonotone | docs/results/2025-09-30/neon-copilot-run1/neon-runner/src/spawner.js:12-15 | difficulty never decreases over time |
| NeonCopilotSpawner.GetSpawnInterval | docs/results/2025-09-30/neon-copilot-run1/neon-runner/src/spawner.js:17-21 | the interval is the base minus 200 per level, floored at the minimum |
| NeonCopilotSpawner.SpawnIntervalNonIncreasing | docs/results/2025-09-30/neon-copilot-run1/neon-runner/src/spawner.js:17-21 | the spawn interval never grows over time |
| NeonCopilotSpawner.GetObstacleSpeed | docs/results/2025-09-30/neon-copilot-run1/neon-runner/src/spawner.js:23-26 | the speed is 5 plus 0.5 per level |
| NeonCopilotSpawner.ObstacleSpeedNonDecreasing | docs/results/2025-09-30/neon-copilot-run1/neon-runner/src/spawner.js:23-26 | obstacle speed never decreases over time |
| NeonCopilotSpawner.NoSpeedCeiling | docs/results/2025-09-30/neon-copilot-run1/neon-runner/src/spawner.js:23-26 | unlike the interval, the speed has no cap: it exceeds any bound eventually |
| NeonCopilotSpawner.ShouldSpawn | docs/results/2025-09-30/neon-copilot-run1/neon-runner/src/spawner.js:28-31 | spawn iff the current interval has elapsed since the last spawn |
| NeonCopilotSpawner.SpawnObstacle | docs/results/2025-09-30/neon-copilot-run1/neon-runner/src/spawner.js:33-41 | when due, one default obstacle at the screen edge is appended and the spawn time recorded; otherwise nothing changes |
| NeonCopilotSpawner.UpdateObstacles | docs/results/2025-09-30/neon-copilot-run1/neon-runner/src/spawner.js:43-54 | every obstacle moves left by the current speed; the survivors are exactly the moved obstacles still on screen, in order, each once; nothing but the list changes |
| NeonCopilotSpawner.UpdateObstaclesAppend | docs/results/2025-09-30/neon-copilot-run1/neon-runner/src/spawner.js:43-54 | an obstacle added at the end survives, after all earlier survivors, iff it is still on screen once moved |
| NeonCopilotSpawner.SpawnThenUpdate | docs/results/2025-09-30/neon-copilot-run1/neon-runner/src/spawner.js:33-54 | after a spawn, the move keeps the earlier survivors and puts the new obstacle, moved once, last when it stays on screen |
| NeonCopilotSpawner.Reset | docs/results/2025-09-30/neon-copilot-run1/neon-runner/src/spawner.js:60-64 | reset empties the field and restarts both clocks, so difficulty is back to 0 |
| NeonCopilotSpawner.CheckCollisions | docs/results/2025-09-30/neon-copilot-run1/neon-runner/src/spawner.js:66-73 | the first obstacle touching the player, or none iff no obstacle touches it |
| NeonCopilotScore.Create | docs/results/2025-09-30/neon-copilot-run1/neon-runner/src/score.js:2-11 | a new score is zero with options defaulting as with `||` |
| NeonCopilotScore.UpdateDistance | docs/results/2025-09-30/neon-copilot-run1/neon-runner/src/score.js:13-15 | the distance grows by exactly the given delta; nothing else changes |
| NeonCopilotScore.RecordPerfectJump | docs/results/2025-09-30/neon-copilot-run1/neon-runner/src/score.js:17-26 | every perfect jump counts; every third in a streak pays bonus times multiplier and restarts the streak |
| NeonCopilotScore.RecordPerfectJumpsCount | docs/results/2025-09-30/neon-copilot-run1/neon-runner/src/score.js:17-26 | n perfect jumps add n to the count, leave the streak at (streak + n) mod 3 and pay the streak bonus (streak + n) div 3 times |
| NeonCopilotScore.DefaultRunFromReset | docs/results/2025-09-30/neon-copilot-run1/neon-runner/src/score.js:17-26 | with default options n perfect jumps from zero pay 30 per completed triple |
| NeonCopilotScore.BreakStreak | docs/results/2025-09-30/neon-copilot-run1/neon-runner/src/score.js:28-30 | breaking the streak zeroes it and nothing else |
| NeonCopilotScore.GetScore | docs/results/2025-09-30/neon-copilot-run1/neon-runner/src/score.js:32-36 | the score is the floor of distance times multiplier plus perfect-jump and streak bonuses |
| NeonCopilotScore.PerfectJumpRaisesScore | docs/results/2025-09-30/neon-copilot-run1/neon-runner/src/score.js:17-36 | a perfect jump raises the score by at least the per-jump bonus |
| NeonCopilotScore.GetStats | docs/results/2025-09-30/neon-copilot-run1/neon-runner/src/score.js:38-46 | the stats show the floored distance, the score and the counters |
| NeonCopilotScore.Reset | docs/results/2025-09-30/neon-copilot-run1/neon-runner/src/score.js:48-53 | reset zeroes the run, keeps the options, and the score is 0 |
| NeonCopilotScore.GetHighScore | docs/results/2025-09-30/neon-copilot-run1/neon-runner/src/score.js:56-64 | the stored value under the score's key, 0 when missing |
| NeonCopilotScore.IsNewHighScore | docs/results/2025-09-30/neon-copilot-run1/neon-runner/src/score.js:82-86 | new iff the score beats the stored high score |
| NeonCopilotScore.SaveHighScore | docs/results/2025-09-30/neon-copilot-run1/neon-runner/src/score.js:66-80 | without storage nothing is saved; a new high score is written under the key; the stored high score never drops and afterwards is at least the score |
| NeonCopilotGame.Create | docs/results/2025-09-30/neon-copilot-run1/neon-runner/public/game.js:1-36 | a new game is playing with gravity 0.8, jump force -15, ground at 330 and 80 ms coyote time; its spawner has intervals 2000 / 800 ms, a 30 s ramp, clocks at now and no obstacles; its score is all zero with distance multiplier 1, perfect-jump bonus 10, streak multiplier 3 and the default storage key; the player stands on the ground at the default x |
| NeonCopilotGame.CreateScoresZero | docs/results/2025-09-30/neon-copilot-run1/neon-runner/public/game.js:1-36 | a new game's score is 0 |
| NeonCopilotGame.CheckPerfectJump | docs/results/2025-09-30/neon-copilot-run1/neon-runner/public/game.js:109-128 | with no candidate obstacle nothing changes; when one exists the first candidate in list order is credited, adding one perfect jump and remembering its position |
| NeonCopilotGame.CandidateIsCredited | docs/results/2025-09-30/neon-copilot-run1/neon-runner/public/game.js:109-128 | any candidate obstacle makes the check credit a perfect jump and remember a new position, leaving player, spawner and state alone |
| NeonCopilotGame.NoDoubleCreditAtSamePosition | docs/results/2025-09-30/neon-copilot-run1/neon-runner/public/game.js:109-128 | after a credit, the obstacle at the remembered position is no longer a candidate |
| NeonCopilotGame.Restart | docs/results/2025-09-30/neon-copilot-run1/neon-runner/public/game.js:145-158 | restart plays again with a fresh player, spawner and score, keeping physics and storage |
| NeonCopilotGame.JumpIntent | docs/results/2025-09-30/neon-copilot-run1/neon-runner/public/game.js:76-82 | a jump the physics refuses changes nothing; an accepted one sets the jump velocity, leaves the ground and runs the perfect-jump check |
| NeonCopilotGame.HandleInput | docs/results/2025-09-30/neon-copilot-run1/neon-runner/public/game.js:61-83 | no key changes nothing; pause alone toggles playing and paused; restart acts only after game over and jump only while playing, so a playing game without pause or jump is unchanged, a playing game with pause only pauses, and a paused game without pause is unchanged; a finished game without restart is unchanged; outside game over spawner and storage are kept |
| NeonCopilotGame.HandleInputRestartAndJump | docs/results/2025-09-30/neon-copilot-run1/neon-runner/public/game.js:61-83 | after game over a restart key restarts (and a jump key then jumps in the new game); a jump key in a game playing, or just resumed, is exactly the jump intent |
| NeonCopilotGame.FailedJumpCreditsNothing | docs/results/2025-09-30/neon-copilot-run1/neon-runner/public/game.js:61-83 | a jump key the physics refuses changes nothing |
| NeonCopilotGame.EndGame | docs/results/2025-09-30/neon-copilot-run1/neon-runner/public/game.js:130-143 | game over saves the high score, after which it is at least the score; nothing else changes |
| NeonCopilotGame.Update | docs/results/2025-09-30/neon-copilot-run1/neon-runner/public/game.js:85-107 | a frame updates the player, the distance, spawns and moves obstacles, and ends the game iff it already ended or the player collides; the credited obstacle position, physics, canvas width and clock are kept |
| NeonCopilotGame.GameLoop | docs/results/2025-09-30/neon-copilot-run1/neon-runner/public/game.js:46-59 | the loop records the time and handles input; when input leaves the game playing the result is one update by the elapsed time, otherwise it is the input result |
| NeonCopilotGame.GameOverIsAbsorbing | docs/results/2025-09-30/neon-copilot-run1/neon-runner/public/game.js:46-83 | without a restart a finished game stays finished and unchanged |
| NeonCopilotGame.PausedFrameFreezesWorld | docs/results/2025-09-30/neon-copilot-run1/neon-runner/public/game.js:46-59 | a paused frame without input changes nothing but the loop time |
| NeonGeminiPhysics.CreatePlayer | docs/results/2025-09-30/neon-gemini-run1/neon-runner/src/physics.js:7-17 | the player starts airborne at (50, 0) at rest |
| NeonGeminiPhysics.UpdatePlayer | docs/results/2025-09-30/neon-gemini-run1/neon-runner/src/physics.js:19-35 | gravity always applies; the player lands iff its bottom would pass the ground line, then sits on it at rest with the landing time; it never ends below it |
| NeonGeminiPhysics.AtRestStaysAtRest | docs/results/2025-09-30/neon-gemini-run1/neon-runner/src/physics.js:19-35 | a player resting on the ground stays put and is marked grounded |
| NeonGeminiPhysics.CanJump | docs/results/2025-09-30/neon-gemini-run1/neon-runner/src/physics.js:37-44 | a jump is allowed iff grounded or strictly within the coyote window |
| NeonGeminiPhysics.Jump | docs/results/2025-09-30/neon-gemini-run1/neon-runner/src/physics.js:37-44 | an allowed jump sets the impulse and leaves the ground; a refused one changes nothing |
| NeonGeminiPhysics.CoyoteBoundary | docs/results/2025-09-30/neon-gemini-run1/neon-runner/src/physics.js:37-44 | the window is exclusive: its last millisecond is too late |
| NeonGeminiSpawner.CreateObstacle | docs/results/2025-09-30/neon-gemini-run1/neon-runner/src/spawner.js:7-14 | an obstacle appears at the canvas edge standing on the ground line |
| NeonGeminiSpawner.CreateSpawner | docs/results/2025-09-30/neon-gemini-run1/neon-runner/src/spawner.js:16-23 | a new spawner is empty at base speed |
| NeonGeminiSpawner.SpeedAt | docs/results/2025-09-30/neon-gemini-run1/neon-runner/src/spawner.js:25-30 | the speed is the base speed during the first ramp interval and never below it |
| NeonGeminiSpawner.SpeedAtInterval | docs/results/2025-09-30/neon-gemini-run1/neon-runner/src/spawner.js:25-30 | anywhere in the k-th 30 s interval the speed is 3 times (1 + k / 10) |
| NeonGeminiSpawner.SpeedNonDecreasing | docs/results/2025-09-30/neon-gemini-run1/neon-runner/src/spawner.js:25-30 | speed never decreases with game time |
| NeonGeminiSpawner.UpdateSpawner | docs/results/2025-09-30/neon-gemini-run1/neon-runner/src/spawner.js:25-45 | the obstacles move by the current speed and those on screen are kept; one is appended iff the spawn time has passed, and then the next spawn time is a random gap ahead |
| NeonGeminiSpawner.NoDoubleSpawn | docs/results/2025-09-30/neon-gemini-run1/neon-runner/src/spawner.js:25-45 | after a spawn, a second update at the same instant spawns nothing |
| NeonGeminiScore.CreateScore | docs/results/2025-09-30/neon-gemini-run1/neon-runner/src/score.js:3-9 | a new score is zero |
| NeonGeminiScore.UpdateScore | docs/results/2025-09-30/neon-gemini-run1/neon-runner/src/score.js:11-13 | the current score becomes the floored distance; high score and streak are kept |
| NeonGeminiScore.BonusOverwritten | docs/results/2025-09-30/neon-gemini-run1/neon-runner/src/score.js:11-20 | a streak bonus added to the current score is overwritten by the next distance update |
| NeonGeminiScore.RecordPerfectJump | docs/results/2025-09-30/neon-gemini-run1/neon-runner/src/score.js:15-20 | each perfect jump extends the streak; from the third on it adds the bonus |
| NeonGeminiScore.RecordPerfectJumpsBonus | docs/results/2025-09-30/neon-gemini-run1/neon-runner/src/score.js:15-20 | n perfect jumps from no streak add the bonus n - 2 times |
| NeonGeminiScore.ResetStreak | docs/results/2025-09-30/neon-gemini-run1/neon-runner/src/score.js:22-24 | only the streak is zeroed |
| NeonGeminiScore.SaveHighScore | docs/results/2025-09-30/neon-gemini-run1/neon-runner/src/score.js:26-33 | a higher current score becomes the high score and is stored; otherwise nothing changes |
| NeonGeminiScore.LoadHighScore | docs/results/2025-09-30/neon-gemini-run1/neon-runner/src/score.js:35-42 | the stored value becomes the high score when present |
| NeonGeminiScore.SaveLoadRoundTrip | docs/results/2025-09-30/neon-gemini-run1/neon-runner/src/score.js:26-42 | loading after saving a new record yields that record |
| DodgefallCopilotModel.CollidesWith | docs/results/2025-09-30/dodgefall-copilot-run1/dodgefall/game/model.py:18-27 | two boxes collide iff they overlap on both axes with strict comparisons |
| DodgefallCopilotModel.CollidesSymmetric | docs/results/2025-09-30/dodgefall-copilot-run1/dodgefall/game/model.py:22-27 | collision is symmetric |
| DodgefallCopilotModel.TouchingEdgesDoNotCollide | docs/results/2025-09-30/dodgefall-copilot-run1/dodgefall/game/model.py:22-27 | boxes sharing only an edge do not collide |
| DodgefallCopilotModel.NewPlayer | docs/results/2025-09-30/dodgefall-copilot-run1/dodgefall/game/model.py:31-42 | a player is 40x40 with three lives and not invulnerable |
| DodgefallCopilotModel.NewObstacle | docs/results/2025-09-30/dodgefall-copilot-run1/dodgefall/game/model.py:46-52 | an obstacle is 30x30 at the given place and speed |
| DodgefallCopilotModel.NewStar | docs/results/2025-09-30/dodgefall-copilot-run1/dodgefall/game/model.py:56-62 | a star is 20x20 and remembers its spawn time |
| DodgefallCopilotModel.StartPlayer | docs/results/2025-09-30/dodgefall-copilot-run1/dodgefall/game/model.py:79-91 | the player starts horizontally centred (to within the integer division) 60 pixels above the bottom |
| DodgefallCopilotModel.Create | docs/results/2025-09-30/dodgefall-copilot-run1/dodgefall/game/model.py:79-91 | a new state is fresh (empty field, score 0, combo 1, running) with the stored high score |
| DodgefallCopilotModel.Reset | docs/results/2025-09-30/dodgefall-copilot-run1/dodgefall/game/model.py:112-122 | reset gives a fresh state keeping the high score and screen size |
| DodgefallCopilotModel.ResetIdempotent | docs/results/2025-09-30/dodgefall-copilot-run1/dodgefall/game/model.py:112-122 | resetting twice is resetting once |
| DodgefallCopilotLogic.UpdatePlayer | docs/results/2025-09-30/dodgefall-copilot-run1/dodgefall/game/logic.py:61-71 | the player moves by 300 per second per pressed direction and is clamped to the screen: an in-range move is taken as is, a move past the left edge stops at 0, one past the right edge stops at screen width minus player width (0 if the player is wider than the screen); only x changes |
| DodgefallCopilotLogic.SpawnRate | docs/results/2025-09-30/dodgefall-copilot-run1/dodgefall/game/logic.py:77-78 | the spawn period falls from 2 s by one second per 30 s of play, floored at 0.5 s |
| DodgefallCopilotLogic.SpawnObstacles | docs/results/2025-09-30/dodgefall-copilot-run1/dodgefall/game/logic.py:73-86 | once the timer reaches the spawn period it restarts and one obstacle is appended, above the screen, with speed rising with game time; otherwise only the timer advances; the timer always stays below the spawn period |
| DodgefallCopilotLogic.SpawnStars | docs/results/2025-09-30/dodgefall-copilot-run1/dodgefall/game/logic.py:88-96 | every 3 s a star is appended above the screen; otherwise only the timer advances; the timer always stays below 3 s |
| DodgefallCopilotLogic.UpdateObstacles | docs/results/2025-09-30/dodgefall-copilot-run1/dodgefall/game/logic.py:98-103 | obstacles fall by speed times dt; the survivors are exactly the fallen obstacles not below the screen, in order, each once |
| DodgefallCopilotLogic.UpdateStars | docs/results/2025-09-30/dodgefall-copilot-run1/dodgefall/game/logic.py:105-110 | stars fall at 150 per second; the survivors are exactly the fallen stars not below the screen, in order, each once |
| DodgefallCopilotLogic.UpdateObstaclesAppend | docs/results/2025-09-30/dodgefall-copilot-run1/dodgefall/game/logic.py:98-103 | an obstacle added at the end survives, after all earlier survivors, iff it is not below the screen once fallen |
| DodgefallCopilotLogic.UpdateStarsAppend | docs/results/2025-09-30/dodgefall-copilot-run1/dodgefall/game/logic.py:105-110 | a star added at the end survives, after all earlier survivors, iff it is not below the screen once fallen |
| DodgefallCopilotLogic.HitBy | docs/results/2025-09-30/dodgefall-copilot-run1/dodgefall/game/logic.py:117-124 | a hit by a given obstacle removes it, costs a life, starts invulnerability and resets the combo, nothing else |
| DodgefallCopilotLogic.HitObstacle | docs/results/2025-09-30/dodgefall-copilot-run1/dodgefall/game/logic.py:117-124 | without a touching obstacle nothing changes; when one touches, the first touching obstacle in list order is the one hit (removed, a life lost, invulnerability started, combo reset) |
| DodgefallCopilotLogic.HitCostsALife | docs/results/2025-09-30/dodgefall-copilot-run1/dodgefall/game/logic.py:117-124 | any touching obstacle costs exactly one life and one obstacle, with invulnerability started and the combo reset |
| DodgefallCopilotLogic.CollectAt | docs/results/2025-09-30/dodgefall-copilot-run1/dodgefall/game/logic.py:126-133 | collecting a given star removes it, scores 10 times the combo and records the time, nothing else |
| DodgefallCopilotLogic.CollectStar | docs/results/2025-09-30/dodgefall-copilot-run1/dodgefall/game/logic.py:126-133 | without a touching star nothing changes; when one touches, the first touching star in list order is collected (removed, 10 times the combo scored, the time recorded) |
| DodgefallCopilotLogic.TouchedStarScores | docs/results/2025-09-30/dodgefall-copilot-run1/dodgefall/game/logic.py:126-133 | any touching star means exactly one star is removed and 10 times the combo is scored |
| DodgefallCopilotLogic.CheckCollisions | docs/results/2025-09-30/dodgefall-copilot-run1/dodgefall/game/logic.py:112-133 | an invulnerable player is untouched (stars included); otherwise obstacle then star; at most one life is lost and the score never drops |
| DodgefallCopilotLogic.UpdateCombo | docs/results/2025-09-30/dodgefall-copilot-run1/dodgefall/game/logic.py:135-144 | within 3 s of a star the combo grows by one up to 10; after 3 s it resets to 1; the combo stays in 1..10 |
| DodgefallCopilotLogic.MovePlayer | docs/results/2025-09-30/dodgefall-copilot-run1/dodgefall/game/logic.py:27-34 | the clock advances by dt; the player's x becomes the clamped move of `update_player` and its invulnerability counts down by dt while positive; nothing else in the player or the state changes |
| DodgefallCopilotLogic.SpawnAndFall | docs/results/2025-09-30/dodgefall-copilot-run1/dodgefall/game/logic.py:36-46 | the step is exactly: spawn obstacles, spawn stars, then move and cull obstacles, then stars, each on the previous step's result; so lives, score and status are untouched |
| DodgefallCopilotLogic.Resolve | docs/results/2025-09-30/dodgefall-copilot-run1/dodgefall/game/logic.py:48-52 | the step is exactly the collision check followed by the combo check; it keeps clock, status and high score, loses at most one life and never lowers the score |
| DodgefallCopilotLogic.Advance | docs/results/2025-09-30/dodgefall-copilot-run1/dodgefall/game/logic.py:27-52 | the running part of a frame is exactly the move, then spawn and fall, then collisions and combo, each on the previous result; it advances the clock by dt, loses at most one life and never lowers the score |
| DodgefallCopilotLogic.EndIfNoLives | docs/results/2025-09-30/dodgefall-copilot-run1/dodgefall/game/logic.py:54-59 | with no lives left the game ends and the high score becomes the larger of score and high score |
| DodgefallCopilotLogic.Update | docs/results/2025-09-30/dodgefall-copilot-run1/dodgefall/game/logic.py:22-59 | a paused or finished game is unchanged; otherwise the frame is exactly the running part followed by the end-of-game check; the game ends iff no lives remain, and a finished game's high score is at least its score |
| DodgefallCopilotLogic.TogglePause | docs/results/2025-09-30/dodgefall-copilot-run1/dodgefall/game/logic.py:146-149 | pause flips unless the game is over |
| DodgefallCopilotLogic.TogglePauseTwice | docs/results/2025-09-30/dodgefall-copilot-run1/dodgefall/game/logic.py:146-149 | toggling twice restores the state |
| DodgefallCopilotLogic.RestartGame | docs/results/2025-09-30/dodgefall-copilot-run1/dodgefall/game/logic.py:151-154 | restart is the model's reset: a fresh state with the high score and screen size kept, and both spawn timers at 0 |
| DodgefallCopilotLogic.RunKeepsComboInRange | docs/results/2025-09-30/dodgefall-copilot-run1/dodgefall/game/logic.py:22-59 | over any sequence of frames, each with its own step, keys and random draws, the combo stays in 1..10 and neither the score nor the high score drops |
| DodgefallClaudeModel.NewPlayer | docs/results/2025-09-30/dodgefall-claude-run1/dodgefall/game/model.py:8-17 | a player is 40x40 at speed 400 and not invulnerable |
| DodgefallClaudeModel.NewObstacle | docs/results/2025-09-30/dodgefall-claude-run1/dodgefall/game/model.py:19-27 | an obstacle is 30x30 at the given place and speed |
| DodgefallClaudeModel.NewStar | docs/results/2025-09-30/dodgefall-claude-run1/dodgefall/game/model.py:29-37 | a star is 25x25 falling at 150 |
| DodgefallClaudeModel.Create | docs/results/2025-09-30/dodgefall-claude-run1/dodgefall/game/model.py:39-57 | a new state holds the given player, screen and high score, no obstacles or stars, score 0, three lives, combo 0, all timers 0 and multiplier 1, unpaused and running; it is fresh iff the player is the start player, whose left edge is at the centre 60 pixels above the bottom |
| DodgefallClaudeModel.CreateDefault | docs/results/2025-09-30/dodgefall-claude-run1/dodgefall/game/model.py:39-57 | the default screen is 800 by 600 and the default high score 0 |
| DodgefallClaudeModel.DefaultFreshPlayer | docs/results/2025-09-30/dodgefall-claude-run1/dodgefall/game/model.py:39-57 | with the default screen the start player has its left edge at the centre, at (400, 540), and the state is fresh |
| DodgefallClaudeModel.Reset | docs/results/2025-09-30/dodgefall-claude-run1/dodgefall/game/model.py:59-72 | reset gives a fresh state keeping the high score and screen size |
| DodgefallClaudeLogic.RectanglesOverlap | docs/results/2025-09-30/dodgefall-claude-run1/dodgefall/game/logic.py:134-138 | rectangles overlap iff both axes overlap strictly |
| DodgefallClaudeLogic.OverlapSymmetric | docs/results/2025-09-30/dodgefall-claude-run1/dodgefall/game/logic.py:134-138 | overlap is symmetric |
| DodgefallClaudeLogic.TouchingEdgesDoNotOverlap | docs/results/2025-09-30/dodgefall-claude-run1/dodgefall/game/logic.py:134-138 | rectangles sharing only an edge do not overlap |
| DodgefallClaudeLogic.MovePlayer | docs/results/2025-09-30/dodgefall-claude-run1/dodgefall/game/logic.py:45-54 | arrow keys or A/D move the player by speed times dt, clamped to the screen: an in-range move is taken as is, past the left edge x is 0, past the right edge x is screen width minus player width (0 if the player is wider); only x changes |
| DodgefallClaudeLogic.SpawnInterval | docs/results/2025-09-30/dodgefall-claude-run1/dodgefall/game/logic.py:57-76 | the obstacle period falls from 2 s by one second per minute, floored at 0.5 s |
| DodgefallClaudeLogic.SpawnEntities | docs/results/2025-09-30/dodgefall-claude-run1/dodgefall/game/logic.py:57-76 | when a timer runs out it is reloaded and one obstacle (at the multiplied speed) or star is appended above the screen; otherwise the timer counts down; nothing else changes; the obstacle timer is always positive afterwards, and so is the star timer when the drawn interval is |
| DodgefallClaudeLogic.UpdateObstacles | docs/results/2025-09-30/dodgefall-claude-run1/dodgefall/game/logic.py:79-84 | obstacles fall; the survivors are exactly the fallen obstacles not below the screen, in order, each once |
| DodgefallClaudeLogic.UpdateStars | docs/results/2025-09-30/dodgefall-claude-run1/dodgefall/game/logic.py:87-92 | stars fall; the survivors are exactly the fallen stars not below the screen, in order, each once |
| DodgefallClaudeLogic.UpdateObstaclesAppend | docs/results/2025-09-30/dodgefall-claude-run1/dodgefall/game/logic.py:79-84 | an obstacle added at the end survives, after all earlier survivors, iff it is not below the screen once fallen |
| DodgefallClaudeLogic.UpdateStarsAppend | docs/results/2025-09-30/dodgefall-claude-run1/dodgefall/game/logic.py:87-92 | a star added at the end survives, after all earlier survivors, iff it is not below the screen once fallen |
| DodgefallClaudeLogic.HitBy | docs/results/2025-09-30/dodgefall-claude-run1/dodgefall/game/logic.py:100-113 | a hit by a given obstacle removes it, costs a life and starts invulnerability; on the last life the game ends and the high score rises to the score |
| DodgefallClaudeLogic.UpdateHighScore | docs/results/2025-09-30/dodgefall-claude-run1/dodgefall/game/logic.py:174-177 | the high score becomes the larger of itself and the score |
| DodgefallClaudeLogic.HitObstacle | docs/results/2025-09-30/dodgefall-claude-run1/dodgefall/game/logic.py:100-113 | an invulnerable player or no touching obstacle changes nothing; otherwise the first touching obstacle in list order is the one hit (removed, a life lost, invulnerability started, the game ended on the last life with the high score updated); score and stars are untouched |
| DodgefallClaudeLogic.HitCostsALife | docs/results/2025-09-30/dodgefall-claude-run1/dodgefall/game/logic.py:100-113 | a vulnerable player touching any obstacle loses exactly one life and one obstacle, becomes invulnerable, and the game ends iff that was the last life |
| DodgefallClaudeLogic.Misses | docs/results/2025-09-30/dodgefall-claude-run1/dodgefall/game/logic.py:116-131 | the stars left are exactly those not touching the player |
| DodgefallClaudeLogic.SweepStars | docs/results/2025-09-30/dodgefall-claude-run1/dodgefall/game/logic.py:116-131 | every touching star is collected in one call; the combo restarts if its timer expired, grows by the number collected, and its timer reloads |
| DodgefallClaudeLogic.StarScoreClosedForm | docs/results/2025-09-30/dodgefall-claude-run1/dodgefall/game/logic.py:116-131 | n stars collected on top of combo c score 10 × (n·c + 1 + 2 + … + n) |
| DodgefallClaudeLogic.SweepStarsScore | docs/results/2025-09-30/dodgefall-claude-run1/dodgefall/game/logic.py:116-131 | collecting n stars at starting combo c scores 10 times (c+1) + ... + (c+n) |
| DodgefallClaudeLogic.CollectStars | docs/results/2025-09-30/dodgefall-claude-run1/dodgefall/game/logic.py:116-131 | the star phase removes exactly the touching stars and never lowers the score |
| DodgefallClaudeLogic.CheckCollisionsAsWritten | docs/results/2025-09-30/dodgefall-claude-run1/dodgefall/game/logic.py:95-131 | the code as written: obstacles first (updating the high score on game over), then stars |
| DodgefallClaudeLogic.AsWrittenHighScoreMissesLastStar | docs/results/2025-09-30/dodgefall-claude-run1/dodgefall/game/logic.py:109-131 | losing the last life while touching a star ends the game with score 10 but high score 0 |
| DodgefallClaudeLogic.CheckCollisions | docs/results/2025-09-30/dodgefall-claude-run1/dodgefall/game/logic.py:95-131 | the same collisions, with a finished game's high score at least its final score |
| DodgefallClaudeLogic.Tick | docs/results/2025-09-30/dodgefall-claude-run1/dodgefall/game/logic.py:16-29 | the clock advances by dt; the player's x becomes the clamped move of `move_player` and its invulnerability counts down while positive; a running combo timer counts down and zeroes the combo when it expires; nothing else changes |
| DodgefallClaudeLogic.SpawnAndFall | docs/results/2025-09-30/dodgefall-claude-run1/dodgefall/game/logic.py:31-36 | the step is exactly spawning, then moving and culling obstacles, then stars; so player, lives, score, combo and status are untouched |
| DodgefallClaudeLogic.UpdateGame | docs/results/2025-09-30/dodgefall-claude-run1/dodgefall/game/logic.py:10-42 | the code as written: a paused or finished game is unchanged; otherwise the clock advances, at most one life is lost, the speed multiplier follows game time, and the frame is tick, spawn and fall, then the as-written collisions; score and high score never drop |
| DodgefallClaudeLogic.UpdateGameCorrected | docs/results/2025-09-30/dodgefall-claude-run1/dodgefall/game/logic.py:10-42 | the same frame with only the high score corrected, so a game that ends has a high score at least its final score |
| DodgefallClaudeLogic.TogglePause | docs/results/2025-09-30/dodgefall-claude-run1/dodgefall/game/logic.py:141-144 | pause flips unless the game is over |
| DodgefallClaudeLogic.RestartGame | docs/results/2025-09-30/dodgefall-claude-run1/dodgefall/game/logic.py:147-150 | only a finished game restarts, as the model's reset: fresh, with its high score and screen size kept |
| DodgefallGeminiLogic.InitGameState | docs/results/2025-09-30/dodgefall-gemini-run1/dodgefall/game/logic.py:15-23 | the start state is empty with three lives, combo 1, all four timers 0, both speed increases 0.01 and the player centred near the bottom |
| DodgefallGeminiLogic.CheckRectCollision | docs/results/2025-09-30/dodgefall-gemini-run1/dodgefall/game/logic.py:114-117 | rectangles collide iff both axes overlap strictly |
| DodgefallGeminiLogic.CollisionSymmetric | docs/results/2025-09-30/dodgefall-gemini-run1/dodgefall/game/logic.py:114-117 | collision is symmetric |
| DodgefallGeminiLogic.TouchingEdgesDoNotCollide | docs/results/2025-09-30/dodgefall-gemini-run1/dodgefall/game/logic.py:114-117 | rectangles sharing only an edge do not collide |
| DodgefallGeminiLogic.MovePlayer | docs/results/2025-09-30/dodgefall-gemini-run1/dodgefall/game/logic.py:63-66 | in a running game the player steps by its speed in the given direction, clamped to the screen: in range as is, past the left edge 0, past the right edge width minus player width (0 if the player is wider); otherwise nothing changes |
| DodgefallGeminiLogic.RunTimers | docs/results/2025-09-30/dodgefall-gemini-run1/dodgefall/game/logic.py:29-36 | both timers count down; invulnerability ends and the combo resets when their timers run out |
| DodgefallGeminiLogic.Spawn | docs/results/2025-09-30/dodgefall-gemini-run1/dodgefall/game/logic.py:38-46 | an expired spawn timer appends one obstacle or star above the screen and reloads with a random delay; otherwise it counts down; a timer reloaded with a positive delay is positive afterwards |
| DodgefallGeminiLogic.Fall | docs/results/2025-09-30/dodgefall-gemini-run1/dodgefall/game/logic.py:49-57 | an object moves by its speed per frame and then speeds up by the increase times dt |
| DodgefallGeminiLogic.MoveObjects | docs/results/2025-09-30/dodgefall-gemini-run1/dodgefall/game/logic.py:48-58 | all objects fall and exactly those above the bottom edge remain |
| DodgefallGeminiLogic.HitObstacle | docs/results/2025-09-30/dodgefall-gemini-run1/dodgefall/game/logic.py:91-102 | a vulnerable player touching any obstacle loses a life, becomes invulnerable, resets the combo and ends the game on the last life; the obstacle stays |
| DodgefallGeminiLogic.CollectAt | docs/results/2025-09-30/dodgefall-gemini-run1/dodgefall/game/logic.py:104-112 | collecting a given star removes it, scores 10 times the combo, grows the combo and reloads its timer, nothing else |
| DodgefallGeminiLogic.CollectStar | docs/results/2025-09-30/dodgefall-gemini-run1/dodgefall/game/logic.py:104-112 | without a touching star nothing changes; when one touches, the first touching star in list order is collected (removed, 10 times the combo scored, the combo grown, its timer reloaded); lives and obstacles are untouched |
| DodgefallGeminiLogic.TouchedStarScores | docs/results/2025-09-30/dodgefall-gemini-run1/dodgefall/game/logic.py:104-112 | any touching star means exactly one star is removed, 10 times the combo is scored and the combo grows by one |
| DodgefallGeminiLogic.CheckCollisions | docs/results/2025-09-30/dodgefall-gemini-run1/dodgefall/game/logic.py:88-112 | obstacle phase then star phase; at most one life is lost and the score never drops |
| DodgefallGeminiLogic.UpdateGameState | docs/results/2025-09-30/dodgefall-gemini-run1/dodgefall/game/logic.py:25-61 | a paused or finished game is unchanged; otherwise timers, spawning, falling and collisions run in order; the game ends only with no lives left |
| DodgefallGeminiLogic.InvulnerabilityWindowProtects | docs/results/2025-09-30/dodgefall-gemini-run1/dodgefall/game/logic.py:29-32 | while the invulnerability timer outlasts the frame no life is lost |
| DodgefallGeminiLogic.TogglePause | docs/results/2025-09-30/dodgefall-gemini-run1/dodgefall/game/logic.py:119-121 | pause flips unless the game is over |
| DodgefallGeminiLogic.RestartGame | docs/results/2025-09-30/dodgefall-gemini-run1/dodgefall/game/logic.py:123-124 | restart returns the initial state |
| CalculatorClaude.Create | docs/results/2025-09-30/calculator-claude-run1/calculator/script.js:9-15 | a new calculator shows 0 with no pending operation |
| CalculatorClaude.AppendNumber | docs/results/2025-09-30/calculator-claude-run1/calculator/script.js:57-72 | after a result the digit starts a new entry; a lone 0 is replaced; otherwise the digit is appended unless the entry already has 12 characters |
| CalculatorClaude.TypedEntryFits | docs/results/2025-09-30/calculator-claude-run1/calculator/script.js:57-72 | however many digits are typed, the entry never exceeds 12 characters |
| CalculatorClaude.AppendDecimal | docs/results/2025-09-30/calculator-claude-run1/calculator/script.js:210-221 | the entry always holds a point afterwards, and never a second one |
| CalculatorClaude.Backspace | docs/results/2025-09-30/calculator-claude-run1/calculator/script.js:198-208 | after a result nothing happens; otherwise the last character goes, and a one-character entry becomes 0 |
| CalculatorClaude.BackspaceUndoesAppend | docs/results/2025-09-30/calculator-claude-run1/calculator/script.js:57-72 | backspace undoes an appended digit |
| CalculatorClaude.Negate | docs/results/2025-09-30/calculator-claude-run1/calculator/script.js:223-232 | 0 stays 0; a leading minus is dropped, otherwise one is added |
| CalculatorClaude.NegateTwice | docs/results/2025-09-30/calculator-claude-run1/calculator/script.js:223-232 | negating twice restores the entry except for "-0", which becomes "0" |
| CalculatorClaude.NegativeZeroReachable | docs/results/2025-09-30/calculator-claude-run1/calculator/script.js:198-232 | point, negate, backspace on a fresh calculator shows "-0" |
| CalculatorClaude.Clear | docs/results/2025-09-30/calculator-claude-run1/calculator/script.js:183-191 | clear restores the initial state but keeps the history |
| CalculatorClaude.ClearEntry | docs/results/2025-09-30/calculator-claude-run1/calculator/script.js:193-196 | clear-entry sets the entry to 0 and nothing else |
| CalculatorClaude.GetOperatorSymbol | docs/results/2025-09-30/calculator-claude-run1/calculator/script.js:353-361 | the display symbols for the four operators; anything else unchanged |
| CalculatorClaude.AddToHistory | docs/results/2025-09-30/calculator-claude-run1/calculator/script.js:267-282 | the new item goes first, older items follow, and at most 5 are kept |
| CalculatorClaude.HistoryStaysCapped | docs/results/2025-09-30/calculator-claude-run1/calculator/script.js:267-282 | the history never grows past 5 |
| CalculatorClaude.ShowError | docs/results/2025-09-30/calculator-claude-run1/calculator/script.js:378-384 | the error text replaces the entry and nothing else |
| CalculatorClaude.Round8 | docs/results/2025-09-30/calculator-claude-run1/calculator/script.js:136-137 | the rounded result is within half of 10^-8 of the value (a half rounds up) and is a whole multiple of 10^-8 |
| CalculatorClaude.Round8Idempotent | docs/results/2025-09-30/calculator-claude-run1/calculator/script.js:136-137 | rounding a rounded result changes nothing |
| CalculatorClaude.Round8KeepsGrid | docs/results/2025-09-30/calculator-claude-run1/calculator/script.js:136-137 | every multiple of 10^-8 is its own rounding |
| CalculatorClaude.FormatResult | docs/results/2025-09-30/calculator-claude-run1/calculator/script.js:126-146 | NaN prints as "Error"; a magnitude above 999999999999 is printed unrounded; any other result is rounded to eight decimals before printing |
| CalculatorClaude.Calculate | docs/results/2025-09-30/calculator-claude-run1/calculator/script.js:85-124 | nothing happens without both operands and a known operator; division by zero shows the error; otherwise `formatResult` of the exact result replaces the entry, the operation clears, and one history line is added |
| CalculatorClaude.SetOperation | docs/results/2025-09-30/calculator-claude-run1/calculator/script.js:74-83 | a pending operation is first calculated unless no operand was typed since; then the entry becomes the first operand |
| CalculatorClaude.OperatorChangeOnlyReplaces | docs/results/2025-09-30/calculator-claude-run1/calculator/script.js:74-83 | a second operator right after the first only replaces it |
| CalculatorCopilot.Create | docs/results/2025-09-30/calculator-copilot-run1/calculator/script.js:2-18 | a new calculator shows 0 with nothing pending |
| CalculatorCopilot.InputNumber | docs/results/2025-09-30/calculator-copilot-run1/calculator/script.js:95-103 | after an operator the digit starts a new entry; a lone 0 is replaced; otherwise appended |
| CalculatorCopilot.InputDecimal | docs/results/2025-09-30/calculator-copilot-run1/calculator/script.js:105-113 | the entry always holds a point afterwards, and never a second one |
| CalculatorCopilot.InputDecimalIdempotent | docs/results/2025-09-30/calculator-copilot-run1/calculator/script.js:105-113 | a second point press does nothing |
| CalculatorCopilot.Backspace | docs/results/2025-09-30/calculator-copilot-run1/calculator/script.js:205-212 | the last character goes; a one-character entry becomes 0 |
| CalculatorCopilot.BackspaceUndoesInput | docs/results/2025-09-30/calculator-copilot-run1/calculator/script.js:95-103 | backspace undoes an appended digit |
| CalculatorCopilot.Clear | docs/results/2025-09-30/calculator-copilot-run1/calculator/script.js:188-197 | clear restores the initial state but keeps the history |
| CalculatorCopilot.ClearEntry | docs/results/2025-09-30/calculator-copilot-run1/calculator/script.js:199-203 | clear-entry sets the entry to 0 and nothing else |
| CalculatorCopilot.GetOperatorSymbol | docs/results/2025-09-30/calculator-copilot-run1/calculator/script.js:324-332 | times and divide get their display signs; anything else unchanged |
| CalculatorCopilot.AddToHistory | docs/results/2025-09-30/calculator-copilot-run1/calculator/script.js:245-252 | the new item goes first, older items follow, and at most 5 are kept |
| CalculatorCopilot.Round8 | docs/results/2025-09-30/calculator-copilot-run1/calculator/script.js:185 | the result lies on the 1e-8 grid, within half a grid step of the value plus machine epsilon |
| CalculatorCopilot.Round8KeepsGrid | docs/results/2025-09-30/calculator-copilot-run1/calculator/script.js:185 | rounding leaves a value already on the grid unchanged |
| CalculatorCopilot.PerformCalculation | docs/results/2025-09-30/calculator-copilot-run1/calculator/script.js:156-186 | a result exists iff both operands parse, the operator is known and it is not a division by zero; it is the rounded exact result |
| CalculatorCopilot.Calculate | docs/results/2025-09-30/calculator-copilot-run1/calculator/script.js:136-154 | nothing happens without a pending operator, right after one, or when no result exists; otherwise the result is shown, the pending state cleared and one history line added |
| CalculatorCopilot.CalculateThenCalculate | docs/results/2025-09-30/calculator-copilot-run1/calculator/script.js:136-154 | pressing equals twice is pressing it once |
| CalculatorCopilot.InputOperator | docs/results/2025-09-30/calculator-copilot-run1/calculator/script.js:115-134 | the code as written: the first operator stores the entry; later ones first compute the pending operation whenever it has a result, even right after an operator |
| CalculatorCopilot.AsWrittenOperatorSwitchRecomputes | docs/results/2025-09-30/calculator-copilot-run1/calculator/script.js:115-134 | pressing 5, +, - as written stores 10 as the first operand |
| CalculatorCopilot.InputOperatorCorrected | docs/results/2025-09-30/calculator-copilot-run1/calculator/script.js:115-134 | right after an operator, another operator only replaces it; otherwise as written |
| CalculatorCopilot.OperatorSwitchOnlyReplaces | docs/results/2025-09-30/calculator-copilot-run1/calculator/script.js:115-134 | with the correction, two operator presses act like the second one alone |
| CalculatorGemini.Initial | docs/results/2025-09-30/calculator-gemini-run1/calculator/script.js:5-10 | the page starts at 0 with nothing pending and no history |
| CalculatorGemini.ShownHistory | docs/results/2025-09-30/calculator-gemini-run1/calculator/script.js:16-18 | the page shows the last five entries, oldest first |
| CalculatorGemini.ShownHistoryAfterPush | docs/results/2025-09-30/calculator-gemini-run1/calculator/script.js:16-18 | a new entry shows last, after the newest of those shown before |
| CalculatorGemini.HandleNumberClick | docs/results/2025-09-30/calculator-gemini-run1/calculator/script.js:20-28 | after a result or operator the digit starts a new entry; a lone 0 is replaced; otherwise appended |
| CalculatorGemini.HandleDecimalClick | docs/results/2025-09-30/calculator-gemini-run1/calculator/script.js:90-100 | the entry always holds a point afterwards, and never a second one |
| CalculatorGemini.DecimalClickIdempotent | docs/results/2025-09-30/calculator-gemini-run1/calculator/script.js:90-100 | a second point press does nothing |
| CalculatorGemini.HandleClearClick | docs/results/2025-09-30/calculator-gemini-run1/calculator/script.js:82-88 | clear restores the initial entry state but keeps the history |
| CalculatorGemini.GetOperatorSymbol | docs/results/2025-09-30/calculator-gemini-run1/calculator/script.js:72-80 | each operator has its own one-character symbol, and each symbol identifies its operator |
| CalculatorGemini.Compute | docs/results/2025-09-30/calculator-gemini-run1/calculator/script.js:47-70 | "Error" iff dividing by zero; a number iff both operands are numbers and it is not that case, and then the sum, difference, product or quotient for the four operators; NaN otherwise |
| CalculatorGemini.Calculate | docs/results/2025-09-30/calculator-gemini-run1/calculator/script.js:47-70 | exactly one history entry is appended recording both operands, the operator and the computed outcome of them; the result text replaces the entry; division by zero shows "Error" |
| CalculatorGemini.CalculateShowsArithmetic | docs/results/2025-09-30/calculator-gemini-run1/calculator/script.js:47-70 | two numbers and an operator other than division by zero show the formatted sum, difference, product or quotient |
| CalculatorGemini.HandleEqualsClick | docs/results/2025-09-30/calculator-gemini-run1/calculator/script.js:39-45 | nothing without an operator or before a second operand; otherwise calculate and drop the operator |
| CalculatorGemini.EqualsTwiceIsOnce | docs/results/2025-09-30/calculator-gemini-run1/calculator/script.js:39-45 | pressing equals twice is pressing it once |
| CalculatorGemini.HandleOperatorClick | docs/results/2025-09-30/calculator-gemini-run1/calculator/script.js:30-37 | the code as written: a pending operator is always calculated first, then the entry becomes the first operand |
| CalculatorGemini.AsWrittenOperatorSwitchCalculates | docs/results/2025-09-30/calculator-gemini-run1/calculator/script.js:30-37 | pressing 5, +, - as written logs 5 + 5 = 10 |
| CalculatorGemini.HandleOperatorClickCorrected | docs/results/2025-09-30/calculator-gemini-run1/calculator/script.js:30-37 | right after an operator, another one only replaces it; otherwise as written |
| CalculatorGemini.OperatorSwitchOnlyReplaces | docs/results/2025-09-30/calculator-gemini-run1/calculator/script.js:30-37 | with the correction, switching operators logs nothing and acts like the second key alone |
| BuildReport.LeadingSpaces | docs/results/2025-09-30/_build_report.py:13 | the count of leading whitespace characters, stopping at the first other one |
| BuildReport.TrailingSpaces | docs/results/2025-09-30/_build_report.py:13 | the count of trailing whitespace characters |
| BuildReport.Strip | docs/results/2025-09-30/_build_report.py:13 | the result is the input minus whitespace on both ends, and neither end of it is whitespace |
| BuildReport.StripIdempotent | docs/results/2025-09-30/_build_report.py:13 | stripping twice is stripping once |
| BuildReport.Upper | docs/results/2025-09-30/_build_report.py:13 | ASCII lower case goes to upper case; a character becomes I or S exactly for its letter and the dotless i or long s |
| BuildReport.ShowNat | docs/results/2025-09-30/_build_report.py:12 | a number's decimal digits, non-empty |
| BuildReport.DigitsValueShowNat | docs/results/2025-09-30/_build_report.py:12 | reading back printed digits gives the number |
| BuildReport.Normalize | docs/results/2025-09-30/_build_report.py:12-19 | a digit-only run id is its value, else 0; skip iff the normalised mark is SKIP; success iff it is Y, never both; the time is the parsed value |
| BuildReport.SuccessIffY | docs/results/2025-09-30/_build_report.py:13-15 | a run succeeds iff its stripped mark is Y or y |
| BuildReport.SkipIffSkipLetters | docs/results/2025-09-30/_build_report.py:13-14 | a run is skipped iff its stripped mark spells skip in any case, including the long s and dotless i |
| BuildReport.LessIrreflexive | docs/results/2025-09-30/_build_report.py:22 | string order is irreflexive |
| BuildReport.LessTransitive | docs/results/2025-09-30/_build_report.py:22 | string order is transitive |
| BuildReport.LessTotal | docs/results/2025-09-30/_build_report.py:22 | any two distinct strings are ordered |
| BuildReport.Insert | docs/results/2025-09-30/_build_report.py:22 | inserting into a strictly sorted list keeps it sorted and adds exactly the element |
| BuildReport.Agents | docs/results/2025-09-30/_build_report.py:22 | the agents are strictly sorted and are exactly the agents that occur in the rows |
| BuildReport.SortedDistinct | docs/results/2025-09-30/_build_report.py:22 | no agent is listed twice |
| BuildReport.Counted | docs/results/2025-09-30/_build_report.py:23-29 | an agent's counted runs are exactly its rows that are not skipped |
| BuildReport.CountedConcat | docs/results/2025-09-30/_build_report.py:23-29 | counting distributes over concatenated row lists |
| BuildReport.Successes | docs/results/2025-09-30/_build_report.py:31 | the passes are at most the runs and are zero iff no run succeeded |
| BuildReport.Times | docs/results/2025-09-30/_build_report.py:33 | the times list is empty iff no run has a time, and never longer than the runs |
| BuildReport.TimesOfOne | docs/results/2025-09-30/_build_report.py:33 | one run contributes its time when it has one and nothing otherwise |
| BuildReport.TimesConcat | docs/results/2025-09-30/_build_report.py:33 | the times of concatenated runs are the concatenated times, so the list is exactly the present times in run order |
| BuildReport.InsertReal | docs/results/2025-09-30/_build_report.py:34 | inserting into an ascending list keeps it ascending and adds exactly the element |
| BuildReport.SortReals | docs/results/2025-09-30/_build_report.py:34 | sorting gives an ascending permutation |
| BuildReport.Median | docs/results/2025-09-30/_build_report.py:34 | the median exists iff there are values and lies between the least and the greatest of them |
| BuildReport.Rate | docs/results/2025-09-30/_build_report.py:32 | the rate is 0 with no runs, else exactly passes over total as a percentage, in 0..100, and 100 iff every run passed |
| BuildReport.Summarize | docs/results/2025-09-30/_build_report.py:27-35 | an agent's total and passes are over its counted (non-skipped) runs; the rate is passes over total as a percentage (0 with no runs), in 0..100; the median is the median of the counted runs' times, missing iff no counted run has a time |
| BuildReport.SkipRowIgnored | docs/results/2025-09-30/_build_report.py:29 | adding a skipped row changes no summary |
| BuildReport.SuccessesConcat | docs/results/2025-09-30/_build_report.py:31 | passes add up over concatenated runs |
| BuildReport.CountedRowAdds | docs/results/2025-09-30/_build_report.py:29-31 | adding a counted row adds one run, and one pass iff it succeeded |
| BuildReport.SummaryTable | docs/results/2025-09-30/_build_report.py:27-35 | one summary per agent, in agent order |
| BuildReport.Trunc | docs/results/2025-09-30/_build_report.py:40-45 | `int()` truncates toward zero |
| BuildReport.MaxOf | docs/results/2025-09-30/_build_report.py:39 | the maximum is one of the values and at least every value |
| BuildReport.ScaleOf | docs/results/2025-09-30/_build_report.py:39 | the scale is the maximum, or 1 when the maximum is 0, and never 0 |
| BuildReport.BarHeight | docs/results/2025-09-30/_build_report.py:40 | bars are 12 high unless the height fits 13 or more bars of 1.5 times their height per value; then the bar height is the largest whole h with h times 1.5 times the count within the height |
| BuildReport.BarTopStep | docs/results/2025-09-30/_build_report.py:43-49 | each bar starts one bar height plus a gap below the previous one |
| BuildReport.BarChartSvg | docs/results/2025-09-30/_build_report.py:37-51 | no values give the empty chart; otherwise one bar per value-label pair (zip), each with its value, label, stacked position and scaled width, all with the bar height of `BarHeight` and a gap of half of it |
| BuildReport.BarsDoNotOverlap | docs/results/2025-09-30/_build_report.py:43-49 | consecutive bars never overlap |
| BuildReport.BarWidthsFit | docs/results/2025-09-30/_build_report.py:45 | for non-negative values every bar fits the room beside the labels, and a positive maximum fills it |
| BuildReport.WidthWithinRoom | docs/results/2025-09-30/_build_report.py:45 | the scaled width of a value between 0 and the maximum lies in 0..width-160 and is the full room at the maximum |
| BuildReport.SuccessChart | docs/results/2025-09-30/_build_report.py:53-57 | the success chart is the summary chart of the success rates: empty iff there are no agents, one bar per agent, every bar 0..400 wide |
| BuildReport.SuccessChartBar | docs/results/2025-09-30/_build_report.py:53-57 | bar i of the success chart is the i-th agent with its pass rate over its counted runs |
| BuildReport.SummaryChart | docs/results/2025-09-30/_build_report.py:53-58 | a chart of a summary column has one bar per summary row, named by its agent and showing that row's value, and is empty only for an empty summary |
| BuildReport.TimeChart | docs/results/2025-09-30/_build_report.py:54-58 | the time chart is empty iff there are no agents and otherwise has one bar per agent |
| BuildReport.TimeChartBar | docs/results/2025-09-30/_build_report.py:54-58 | bar i of the time chart is the i-th agent in sorted order with its median time, or 0 when it has none |
| BuildReport.ReplaceChar | docs/results/2025-09-30/_build_report.py:60 | replacing a character leaves none of it except inside the replacement |
| BuildReport.ReplaceCharConcat | docs/results/2025-09-30/_build_report.py:60 | replacement distributes over concatenation |
| BuildReport.Esc | docs/results/2025-09-30/_build_report.py:60 | escaped text contains no angle brackets |
| BuildReport.EscMatchesRef | docs/results/2025-09-30/_build_report.py:60 | the three chained replacements equal escaping each character independently (`&` first, so nothing is escaped twice) |
| BuildReport.SingleCharEscapes | docs/results/2025-09-30/_build_report.py:60 | on one character the chain produces that character's entity or the character itself |
| BuildReport.ReplaceCharAbsent | docs/results/2025-09-30/_build_report.py:60 | replacing a character that does not occur leaves the text unchanged |
| BuildReport.UnescapeEsc | docs/results/2025-09-30/_build_report.py:60 | unescaping the escaped text gives the original back |
| BuildReport.UnescapeEscRef | docs/results/2025-09-30/_build_report.py:60 | the per-character escape is inverted by unescaping |

## Left out

- Rendering is not modelled: canvas and pygame drawing (`render.js`, `render.py`), input listeners (`input.js`), the `main.py` loops, the DOM updates of the calculators, and the HTML page template of the report. None of it holds game or calculator logic.
- The Gemini Neon Runner's `public/game.js` is not part of this model. It only wires its physics, spawner and score modules to the page, and those modules are modelled.
- Smoke scripts and test files are not modelled. They informed the contracts.
- Dodgefall's high-score file I/O (load and save JSON) is not modelled; the stored value is a parameter. Likewise the report's CSV reading and HTML writing, and its per-run table sorted by run id, then agent.
- Floating point is not modelled: arithmetic is exact `real` arithmetic. Overflow, Infinity and the rounding of IEEE-754 doubles are out of scope. Number printing (`toString`, `toFixed`, `toPrecision`, `:.1f`) is a `format` parameter.
- CalculatorClaude.FormatResult: the printing of the rounded value, including `toExponential(6)` for large magnitudes and the `toPrecision(10)` trimming of strings longer than 12 characters, is left to the `format` parameter.
- CalculatorCopilot.Round8: `Math.round((x + Number.EPSILON) * 1e8) / 1e8` uses exact reals, with JavaScript's half-up rounding as floor(y + 0.5).
- The two-second timer after a division by zero in the Claude and Copilot calculators is not modelled (calculator-claude `script.js` 378-384, calculator-copilot `script.js` 334-344). When it fires it calls `clear()`, which resets the entry, the first operand, the operator and the flags exactly as the modelled `Clear` does; the model has no clock to fire it.
- The calculators' memory keys, keyboard handling, history-item clicks, the service worker, and history persistence in local storage are left out. They are UI conveniences outside the calculation logic.
- CalculatorClaude.AppendNumber: takes one digit character, as every caller passes one.
- CalculatorGemini.Compute: the `undefined` result for an unknown operator cannot occur, because the page wires only the four operator keys; `Op` has only those four.
- NeonGeminiSpawner.UpdateSpawner: requires a non-negative game time, which the game's clock always provides.
- NeonCopilotGame.Update: the frame's `deltaTime` feeds only the distance. `updatePlayer` in the source ignores it.
- BuildReport.Median: states that the median lies within the range of the values, not the exact middle-element definition (the function computes that definition from a sorted copy).
- BuildReport.Normalize: `str.isdigit` also accepts non-ASCII digits, and `float()` accepts "nan" and "inf"; the model takes ASCII digits and a `parseFloat` parameter. `str.upper` is modelled only for ASCII letters, the dotless i and the long s, the only characters whose upper case can produce "Y" or "SKIP".

## Findings

| source | as written | input that shows it | evidently intended | confidence | as-written member | corrected member |
|---|---|---|---|---|---|---|
| docs/results/2025-09-30/dodgefall-claude-run1/dodgefall/game/logic.py:109-131 | on losing the last life the high score is updated (and saved) inside the obstacle loop, before the stars of the same call are scored | lives 1, score 0, high score 0, one obstacle and one star both touching the player: the game ends with score 10 and high score 0 | a finished game's high score is at least its final score | medium, not executed | DodgefallClaudeLogic.AsWrittenHighScoreMissesLastStar | DodgefallClaudeLogic.UpdateGameCorrected |
| docs/results/2025-09-30/calculator-copilot-run1/calculator/script.js:115-134 | a second operator key right after the first computes the pending operation with the displayed first operand as the second operand | keys 5, +, -: the first operand becomes 10 | a second operator key only replaces the pending one | medium, not executed | CalculatorCopilot.AsWrittenOperatorSwitchRecomputes | CalculatorCopilot.InputOperatorCorrected |
| docs/results/2025-09-30/calculator-gemini-run1/calculator/script.js:30-37 | a second operator key right after the first calculates with the displayed first operand as the second operand and logs it | keys 5, +, -: the history records 5 + 5 = 10 | a second operator key only replaces the pending one | medium, not executed | CalculatorGemini.AsWrittenOperatorSwitchCalculates | CalculatorGemini.HandleOperatorClickCorrected |
