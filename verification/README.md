# RunnerJS core in Dafny

This project models the logic core of RunnerJS, a browser runner game, and proves properties of that model.
- **Runner game** (`D1P91.js`): the `RunnerGame` state machine. It has four phases: start, playing, paused and game over. Each animation frame runs this pipeline in order: player physics, obstacle move/drop/spawn, score with pass bonuses, level, then collision. The commands are jump, start, restart, pause/resume and back-to-menu. The "save score" handler trims the name, validates it and only then calls the score client.
- **Score client** (`D1P92.js`): the `ScoreAPI` client. Requests go through `fetchWithRetry`, which makes at most four attempts. When the server cannot be reached, the client falls back to a local list in browser storage. That list holds at most 100 records, sorted by score. The client also covers `validateScoreData`, the offline sync and the player statistics.
- **Rock-paper-scissors** (`D1P4.js`): the `jugar` round and its three counters.

Everything the source gets from outside becomes a parameter of the model:
- Each `Math.random()` call is a `rand: real` in [0, 1).
- The result of each HTTP request is an `Attempt`: a network error, or a status and a body that may not parse. A `fetchWithRetry` call takes the sequence of its attempts. Requests past the end of that sequence fail, so an empty sequence is a server that cannot be reached.
- Whether a write to browser storage succeeds is a boolean parameter. A storage slot that cannot be read is the `Unreadable` state.

Positions and speeds are exact reals rather than IEEE doubles.

Files and modules:
- `wrappers.dfy` (`Wrappers`): `Option`, minimum and maximum.
- `geometry.dfy` (`Geometry`): rectangles and `isColliding`.
- `runner.dfy` (`Runner`): game state, frame pipeline and commands.
- `runner_props.dfy` (`RunnerProps`):
  - the invariant that every state reached through the modelled commands and frames satisfies (a window resize mid-run is not one of them);
  - the proofs that each command keeps it;
  - command sequences.
- `js_string.dfy` (`JsString`): `String.prototype.trim` and `\s`.
- `score_store.dfy` (`ScoreStore`):
  - the local store: read, write, clear;
  - the stable descending sort;
  - statistics.
- `retry.dfy` (`Retry`): `fetchWithRetry` and `checkServerStatus`.
- `score_api.dfy` (`ScoreApi`): validation, `saveScore`, `getLeaderboard` and `syncLocalScores`.
- `save_gate.dfy` (`SaveGate`): the game's save-score handler.
- `score_examples.dfy` (`ScoreExamples`): a worked offline save.
- `rps.dfy` (`RockPaperScissors`): rock-paper-scissors.

Behaviour of the code worth noting:
- **Start runs a frame at once.** `startGame` calls `gameLoop()` synchronously, and so does the resume branch of `togglePause`. As a result, a freshly started or restarted run already shows score 1 and one obstacle, not score 0 and an empty field.
- **Pause then resume advances the game.** Pausing and then resuming runs exactly one frame (`RunnerProps.PauseResumeIsOneFrame`); the state is not left as it was.
- **Obstacle height upper bound is exclusive in exact arithmetic.** In exact arithmetic, the height of a new obstacle lies in [30, 80 + 10·level), because `Math.random()` never returns 1. With IEEE doubles, rounding in `minHeight + Math.random() * (maxHeight - minHeight)` can reach the maximum exactly for a draw just below 1.
- **`recentGames` are the top five, not the latest.** They are the first five records of a list sorted by score, so they are the five best games rather than the five latest.

## Model

| member | source | states |
|---|---|---|
| Geometry.IsColliding | D1P91.js:497-502 | for proper rectangles, a hit is exactly a shared region of positive area; rectangles that only touch along an edge never collide |
| Geometry.CollisionSymmetric | D1P91.js:497-502 | the collision test gives the same answer with its arguments swapped |
| Runner.LevelFor | D1P91.js:457-465 | the level a score earns is at least 1, and the score lies in that level's band of 500 points |
| Runner.Initial | D1P91.js:51-68 | a new game is in the start phase with score 0, level 1, no obstacles and the player standing on the ground |
| Runner.ResetPlayer | D1P91.js:698-702 | the player is put back on the ground at rest; its x and size are kept |
| Runner.UpdatePlayer | D1P91.js:340-352 | the player never ends below the ground. It lands exactly when the unclamped move reaches the ground, and landing stops it. In the air, gravity is added to the velocity and then to y |
| Runner.GameSpeed | D1P91.js:413-416 | the speed is 4 plus 0.5 per two levels, never below the base speed |
| Runner.GameSpeedMonotone | D1P91.js:413-416 | a higher level is never slower |
| Runner.ObstacleSpacingFor | D1P91.js:404-408 | the spawn gap is 300 − 20·level up to level 5 and 200 from level 5 on, so always between 200 and 300 |
| Runner.SpacingAntitone | D1P91.js:404-408 | a higher level never has a wider gap |
| Runner.Survivors | D1P91.js:361-369 | move-and-drop never adds obstacles |
| Runner.SurvivorsMembers | D1P91.js:361-369 | every kept obstacle is on screen and is a moved input obstacle, and every input obstacle still on screen after the move is kept |
| Runner.SurvivorsAppend | D1P91.js:361-369 | move-and-drop keeps order: it distributes over concatenation |
| Runner.MoveAndDropInPlace | D1P91.js:361-369 | the source's backwards splice loop computes the same list as the order-keeping filter `Survivors` |
| Runner.SpawnObstacle | D1P91.js:384-399 | a new obstacle starts at the right edge, stands on the ground, is unscored, and its height is in [30, 80 + 10·level) in exact arithmetic |
| Runner.HeightFromRandom | D1P91.js:385-387 | a random draw in [0, 1) gives a height in [minimum, maximum) in exact arithmetic |
| Runner.UpdateObstacles | D1P91.js:357-379 | only the obstacle list changes. It is the kept obstacles followed by at most one new one. A new one is added exactly when the spawn rule holds, always when the screen is empty, and it is a well-formed fresh obstacle |
| Runner.MarkPassed | D1P91.js:443-449 | only the scored flags change. An obstacle is flagged afterwards exactly when it was already flagged or the player has passed it, and the count returned is the number of newly flagged obstacles |
| Runner.UpdateScore | D1P91.js:439-452 | every obstacle the player has passed (right edge left of the player's x) ends up flagged, and no other flag changes. The score gains 1 plus 10 for each obstacle flagged in this frame; nothing else changes |
| Runner.UpdateLevel | D1P91.js:457-465 | the new level is the larger of the old level and the level the score earns; it is the only field that changes |
| Runner.FirstHit | D1P91.js:478-491 | the index found is the first obstacle the player overlaps; none means no obstacle is hit |
| Runner.EndRun | D1P91.js:279-291 | the game is over and the high score becomes the larger of the old high score and the run's score |
| Runner.CheckCollisions | D1P91.js:470-492 | any overlap ends the run; otherwise the state is unchanged |
| Runner.Update | D1P91.js:324-330 | a frame adds 1 point plus the pass bonuses. The level never drops and covers the new score. The phase stays or becomes game over, the canvas is unchanged, and the high score never drops |
| Runner.GameLoop | D1P91.js:309-318 | a frame does nothing unless the game is running, and a running frame strictly raises the score |
| Runner.ResetRun | D1P91.js:218-225 | reset gives a running game with score 0, level 1, no obstacles and the player at rest on the ground; the high score is kept |
| Runner.StartGame | D1P91.js:217-237 | a started game is on level 1 with score at least 1 (exactly 1 when the player starts left of the right edge). It has one obstacle at the right edge and the player on the ground. It is still running whenever the player starts clear of that obstacle |
| Runner.RestartGame | D1P91.js:242-244 | a restart begins a fresh run on level 1 with one obstacle and the player on the ground, and never lowers the high score |
| Runner.Jump | D1P91.js:201-212 | on the start screen jump starts the game. On the ground in a running game it sets the jump velocity. Otherwise it changes nothing |
| Runner.TogglePause | D1P91.js:249-261 | pausing only changes the phase; resuming runs one frame; on the start and game-over screens nothing happens |
| Runner.ShowStartScreen | D1P91.js:266-274 | only the phase changes, to start |
| RunnerProps.InitialInv | D1P91.js:51-68 | the new game satisfies the invariant: level matches score, player on or above the ground, obstacles well formed and spaced |
| RunnerProps.SurvivorsKeepSpaced | D1P91.js:361-369 | move-and-drop keeps obstacles ordered and at least the spawn gap apart |
| RunnerProps.SurvivorsKeepOk | D1P91.js:361-369 | move-and-drop keeps every obstacle well formed |
| RunnerProps.UpdateObstaclesKeepsInv | D1P91.js:357-379 | the obstacle update keeps the obstacles well formed and spaced |
| RunnerProps.LevelForMonotone | D1P91.js:457-465 | a higher score never earns a lower level |
| RunnerProps.MaxHeightMonotone | D1P91.js:386 | the tallest possible obstacle never shrinks with the level |
| RunnerProps.UpdateKeepsInv | D1P91.js:324-330 | a frame keeps the invariant; in particular the level is score / 500 + 1 after every frame |
| RunnerProps.GameLoopKeepsInv | D1P91.js:309-318 | the frame callback keeps the invariant |
| RunnerProps.StartGameEstablishesInv | D1P91.js:217-237 | starting from any state reaches a state satisfying the invariant |
| RunnerProps.JumpKeepsInv | D1P91.js:201-212 | jump keeps the invariant |
| RunnerProps.TogglePauseKeepsInv | D1P91.js:249-261 | pause and resume keep the invariant |
| RunnerProps.PauseResumeIsOneFrame | D1P91.js:249-261 | pausing then resuming equals exactly one frame |
| RunnerProps.DoubleJumpIsOneJump | D1P91.js:201-212 | outside the start screen, pressing jump twice in a row acts like pressing it once: there is no jump in mid-air |
| RunnerProps.RunKeepsInv | D1P91.js:120-189 | any sequence of keys, buttons and frames from an invariant state keeps the invariant |
| RunnerProps.FramesMonotone | D1P91.js:309-318 | frames never lower score or level, and n frames of a game still running add at least n points |
| RunnerProps.FramesStayStopped | D1P91.js:309-318 | frames leave a game that is not running unchanged |
| JsString.SkipLeading | D1P92.js:310 | the index returned is the end of the leading whitespace |
| JsString.SkipTrailing | D1P92.js:310 | the index returned is the start of the trailing whitespace |
| JsString.Trim | D1P92.js:310 | `trim` returns a middle slice with no whitespace at either end, cut only at whitespace, and empty exactly for all-whitespace input |
| JsString.TrimOfTrimmed | D1P92.js:310 | a string with no whitespace at either end is its own trim |
| JsString.TrimIdempotent | D1P91.js:794-797 | trimming twice, as the game and then the client do, is trimming once |
| ScoreStore.CountAtLeast | D1P92.js:151 | the count of records scoring at least a value is at most the list length |
| ScoreStore.InsertDesc | D1P92.js:151 | insertion adds exactly the new record |
| ScoreStore.InsertDescBounded | D1P92.js:151 | insertion keeps an upper bound shared by the list and the new record |
| ScoreStore.InsertDescSorted | D1P92.js:151 | insertion into a list sorted by descending score keeps it sorted |
| ScoreStore.SortDesc | D1P92.js:151 | the sort by `b.score - a.score` yields a descending permutation of its input |
| ScoreStore.WithScoreAppend | D1P92.js:151 | picking the records of one score distributes over concatenation |
| ScoreStore.InsertDescWithScore | D1P92.js:151 | inserting into a sorted list puts the new record after every record with the same score |
| ScoreStore.SortDescStable | D1P92.js:151 | the sort is stable: for every score, the records with that score keep their input order |
| ScoreStore.InsertDescAtEnd | D1P92.js:151 | a record scoring no more than every record goes last |
| ScoreStore.SortDescOfSorted | D1P92.js:151 | sorting a list that is already sorted leaves it unchanged |
| ScoreStore.InsertDescPosition | D1P92.js:151 | a new record lands right after every record scoring at least as much, so ties keep older records first |
| ScoreStore.TopOfSorted | D1P92.js:170 | the first m of the sorted list are m records of the list, sorted, none beaten by a record left out |
| ScoreStore.GetLocalScores | D1P92.js:163-177 | reading gives the `limit` best stored records, highest first, none beaten by a record left out; a missing or unreadable slot reads as empty |
| ScoreStore.GetLocalScoresKeepsEarliestTies | D1P92.js:169-171 | for every score, the records of that score that a read returns are the earliest stored ones, in stored order, so ties at the cut keep the older records |
| ScoreStore.SaveScoreLocally | D1P92.js:141-158 | a failed write leaves the slot alone. A successful write keeps at most 100 sorted records taken from the old best 100 plus the new local-tagged record. The result is exactly the old best 100 with the new record inserted right after every record scoring at least as much (older records first on ties), cut to 100 |
| ScoreStore.CappedInsert | D1P92.js:144-154 | add, sort and keep-100 on a sorted list give that list with the record inserted at its rank, cut to 100 |
| ScoreStore.ClearLocalScores | D1P92.js:182-191 | a successful clear makes every later read empty; a failed one changes nothing |
| ScoreStore.MaxScore | D1P92.js:265 | the best score is in the list and no record beats it |
| ScoreStore.MaxLevel | D1P92.js:266 | the best level is in the list and no record beats it |
| ScoreStore.RoundedMean | D1P92.js:267 | the mean is rounded to the nearest integer, halves up |
| ScoreStore.RoundedMeanAtMost | D1P92.js:267 | the rounded mean never exceeds the best score |
| ScoreStore.ComputeStats | D1P92.js:254-274 | statistics: zeros for no games; otherwise the count, the best score and level, the rounded mean and the first five records |
| ScoreStore.GetPlayerStats | D1P92.js:251-275 | the statistics are those of the best 1000 stored records |
| Retry.FetchFrom | D1P92.js:18-44 | the retry recursion stops at the first success; it fails only after the whole budget |
| Retry.FetchWithRetry | D1P92.js:18-44 | at most retries + 1 requests with a pause before each retry. The result is a body exactly when some request in the budget succeeds, and then it is the body of the first successful request. A failure uses the whole budget |
| Retry.DefaultBudget | D1P92.js:11-12 | with the default budget: at most four requests and three seconds of pauses |
| Retry.UnreachableUsesWholeBudget | D1P92.js:18-44 | an unreachable server fails after every request of the budget |
| Retry.CheckServerStatus | D1P92.js:239-246 | the server is available exactly when one of the first two requests succeeds |
| ScoreApi.RuleAt | D1P92.js:310-328 | the rule at position k has rank k |
| ScoreApi.BrokenFrom | D1P92.js:310-328 | the broken rules from position k on, each once, in rule order |
| ScoreApi.ValidateScoreData | D1P92.js:307-334 | the errors are exactly the broken rules, each once and in rule order; valid exactly when there is none |
| ScoreApi.ValidIff | D1P92.js:307-334 | valid exactly for a trimmed name of 1-20 allowed characters, a whole score ≥ 0 and a whole level ≥ 1 |
| ScoreApi.BlankNameTwoErrors | D1P92.js:310-320 | a blank name is reported missing and then as not matching the pattern |
| ScoreApi.ValidNameLength | D1P92.js:310-316 | an accepted name has 1 to 20 characters once trimmed |
| ScoreApi.WholeNumbersPass | D1P92.js:322-328 | whole numbers in range never fail; only the name can |
| ScoreApi.SaveScore | D1P92.js:56-97 | the trimmed record goes to the server with retries. It reaches the server exactly when some attempt succeeds, returning that body and leaving local storage alone. Otherwise, after four requests, it is stored locally exactly when the write succeeds, and it fails only if both fail |
| ScoreApi.GetLeaderboard | D1P92.js:102-136 | always succeeds. When the first request that gets through has a non-`null` body, the result is the unwrapped server list. Otherwise it is the `limit` best local records, sorted, none beaten by a stored record left out; this happens when every request failed or when the body was `null`, so that reading `result.scores` threw |
| ScoreApi.LocalOnly | D1P92.js:198 | the filter keeps each record tagged local exactly as often as it occurs, and no other record |
| ScoreApi.LocalOnlyAppend | D1P92.js:198 | the filter keeps order: it distributes over concatenation |
| ScoreApi.Undelivered | D1P92.js:207-225 | the failed records are never more than the records posted |
| ScoreApi.UndeliveredPartition | D1P92.js:207-233 | every record posted is either counted as synced or reported, and only posted records are reported |
| ScoreApi.PendingSync | D1P92.js:197-198 | sync posts exactly the locally saved records among the best 100, each as often as it is stored there |
| ScoreApi.PostAll | D1P92.js:207-225 | the posting loop counts the delivered records and collects the others in order |
| ScoreApi.SyncLocalScores | D1P92.js:196-234 | the synced count plus the failures equal the pending records. Success holds exactly when nothing failed, and an empty pending list succeeds with 0 |
| SaveGate.SaveRunScore | D1P91.js:791-808 | the form is rejected exactly when validation fails, showing its errors with no request and no storage change. Otherwise the result is saveScore's outcome for the same attempts, storage and write flag, so its server/local/none behaviour carries over, and the sent record carries the trimmed 1-20 character name and the run's score and level |
| SaveGate.ValidateTrimmed | D1P91.js:794-797 | validating the pre-trimmed name gives the same answer as validating the raw input |
| SaveGate.RunNumbersAlwaysValid | D1P91.js:797-801 | for any reachable game state, only the name can make the save form fail |
| SaveGate.BlankNameNeverReachesServer | D1P91.js:797-801 | a blank name is refused with "name required" before any request |
| ScoreExamples.FirstLocalSave | D1P92.js:141-158 | the first save into an empty store writes a one-record list tagged local |
| ScoreExamples.SingleReadBack | D1P92.js:163-177 | a one-record store reads back as that record |
| ScoreExamples.OfflineSaveIsKeptLocally | D1P92.js:56-97 | with the server down and an empty store, a save takes four requests, succeeds locally and reads back tagged local |
| RockPaperScissors.Decide | D1P4.js:20-36 | a round is a draw exactly for equal choices and a win exactly for the three listed pairs |
| RockPaperScissors.CyclicRule | D1P4.js:20-36 | on the three options, each option beats the one before it cyclically |
| RockPaperScissors.Antisymmetric | D1P4.js:20-36 | one side's win is the other's loss, and draws are mutual |
| RockPaperScissors.EachBeatsExactlyOne | D1P4.js:20-36 | each option beats exactly one option and loses to exactly one |
| RockPaperScissors.UnknownChoiceLoses | D1P4.js:20-36 | a choice that is not one of the options always loses |
| RockPaperScissors.ComputerIndex | D1P4.js:15 | `floor(random * 3)` is an index below 3 |
| RockPaperScissors.ComputerPickBands | D1P4.js:15 | each option is drawn on a third of [0, 1), so the pick is uniform |
| RockPaperScissors.Play | D1P4.js:14-39 | a round bumps exactly the counter of its outcome |
| RockPaperScissors.PlayAllCounts | D1P4.js:14-45 | the three counters add up to the number of rounds played |
| RockPaperScissors.UnknownChoicesAlwaysLose | D1P4.js:14-45 | a player who never picks a real option only ever adds losses |

## Left out

- Rendering, audio, particles, the scrolling ground offset, fullscreen and DOM updates: these are presentation only and do not affect the game state. The key and button dispatch is the `Command` driver in `RunnerProps`.
- Floating point: positions, speeds and validation numbers are exact reals. NaN, infinities and rounding are not represented. In particular, the exclusive upper bound on obstacle heights holds in exact arithmetic only.
- Frame timing: `deltaTime`, timestamps, `Date.now` ids and `toISOString` dates. They are not read by the logic.
- `formatScore` and `formatDate` (D1P92.js:280-302): display formatting only.
- High-score persistence (`getHighScore`/`saveHighScore`) and `loadLeaderboard`/`showLeaderboard` in the game: storage glue and DOM code. The high score itself is a field of the state.
- Message strings (`message`, `error`, the alert text) and HTTP status text: they carry no logic.
- Window resize (D1P91.js:147): the resize listener re-runs the canvas setup during a run. That moves the ground line and the player (D1P91.js:103-114), while existing obstacles keep their old y. The model has no resize command, and `RunnerProps.Inv` holds only for runs without a resize; after one, obstacles need not stand on the ground.
- Canvas setup (D1P91.js:98-115) is not modelled as an operation. The canvas width and ground line are fixed parameters of the state.
- `delay` (D1P92.js:49-51) is counted as the number of pauses, not waited for.
- `parseInt` in saveScore (D1P92.js:59-60): score and level are already integers in the model.
- Retry.FetchWithRetry: only the attempt outcomes are modelled, not the URL, headers or request body.
- JsString.Trim: strings are sequences of code points; JavaScript's `length` counts UTF-16 units, so the two differ only for characters outside the Basic Multilingual Plane.
- ScoreApi.GetLeaderboard: a body other than `null` that is neither a list nor an object with a `scores` list (a number, a string, an object whose `scores` is falsy) is not represented. Its `limit` is a natural number, and its local-read error branch is not modelled because the local read never throws.
- ScoreApi.SyncLocalScores: the store is not modified. The source does not remove or re-tag synced records either, so a second sync posts them again.
- ScoreStore.GetPlayerStats: reads through `GetLocalScores` with limit 1000, as the source does. It does not model `parseInt` of non-integer stored scores. With nothing stored it returns all zeros and an empty `recentGames`, where the source returns `totalPlayTime: 0` and no `recentGames` field.
