# Space shooter simulation core in Dafny

This project models the simulation logic of a small React Native arcade shooter (`App.js`). It does not model the UI. The game works as follows:

- A player square sits near the bottom of the screen and follows the finger horizontally.
- Enemies appear at the top at random x and drift down.
- The player fires bullets upward on a fixed rhythm.
- An enemy that touches the player costs one health point.
- An enemy hit by a bullet disappears and raises the score.
- When health reaches zero the round ends and the score is written into a list of the five best scores.

The app shows one of four screens: menu, game, game over and high scores. Buttons move between them.

Each part is written as pure functions over immutable values:

| file | module | what it holds |
|---|---|---|
| `sequences.dfy` | `Sequences` | order-preserving `Map` and `Filter`, with lemmas about how they compose |
| `entities.dfy` | `Entities` | sizes and steps, the player/enemy/bullet records, the overlap tests, the initial player |
| `movement.dfy` | `Movement` | the `movePlayer` system |
| `spawning.dfy` | `Spawning` | the `spawnEnemies` and `shootBullets` systems, and the timing windows |
| `collisions.dfy` | `Collisions` | the `checkCollisions` system: the player pass, then the bullet pass |
| `ledger.dfy` | `Ledger` | the high-score list of `saveHighScore` and `resetHighScores` |
| `game.dfy` | `Game` | the four phases, the buttons, `startGame`, and one engine tick |
| `scenarios.dfy` | `Scenarios` | concrete situations worked through the model |

Modelling choices:

- Positions and the screen size are `real`. Health and score are `int`.
- The engine clock is an `int` number of milliseconds. JavaScript's `%` keeps the sign of the dividend, so it is written out as `JsRem` rather than taken from Dafny's Euclidean `%`.
- Everything the app gets from its environment is a parameter:
  - the window size is a `Screen`;
  - the touches of a tick are the list of their page x values;
  - `Math.random()` is a `roll` in [0, 1);
  - `new Date().toISOString()` is an opaque `Timestamp`.
- A tick maps the state at the start of the tick to the state at its end. The systems and `saveHighScore` are closures over the `score` and `highScores` of the render that created them (`App.js:39-43`, `63`, `117`), so every read of either inside a tick sees the value from the start of the tick, whenever React applies the updates.

Points where the code's behaviour is easy to misread:

- A bullet that hits an enemy is not removed. It keeps flying and can hit further enemies (`App.js:113-122`).
- The score rises by 10 at most once per tick, however many enemies are hit. Each hit calls `setScore(score + 10)` with the score captured when the tick began (`App.js:117`).
- Health is not floored at zero. Two hits in one tick at one health point leave it at -1, and game over is triggered once per hit that leaves health at or below zero (`App.js:104-108`).
- The score saved at game over is the one from the start of the fatal tick. Hits by bullets in that same tick come after the save.

## Model

| member | source | states |
|---|---|---|
| Sequences.Map | App.js:79-82 | the result has the input's length and holds `f` of each element at the same position |
| Sequences.Filter | App.js:101-112 | the result is no longer than the input and holds exactly the elements of the input that satisfy the predicate |
| Sequences.KeptIndices | App.js:101-112 | the positions kept by a filter are valid, all satisfy the predicate, strictly increase and include every satisfying position |
| Sequences.FilterByIndices | App.js:101-112 | the k-th survivor of a filter is the element at the k-th satisfying position, so a filter keeps the original order |
| Sequences.FilterAppend | App.js:72-82 | filtering a list with an entity pushed at its end is filtering the old list then the new entity |
| Sequences.FilterFilter | App.js:113-122 | filtering by one predicate and then by another is filtering once by their conjunction |
| Sequences.FilterMap | App.js:79-82 | stepping every entity then culling equals culling by the stepped position then stepping, order kept |
| Sequences.FilterShrinks | App.js:113-122 | a filter removes something exactly when some element fails the predicate |
| Entities.InitialPlayer | App.js:12 | the round's player is centred horizontally, 100 units above the bottom edge, with 3 health |
| Entities.InitialPlayerOnScreen | App.js:12 | on a screen at least as wide as the player, the initial player lies within the horizontal bounds |
| Movement.ClampX | App.js:67 | a touch puts the player's centre under the finger when that fits, at 0 past the left edge and at width - 50 past the right edge, and never left of 0 |
| Movement.MovePlayer | App.js:64-70 | y and health are unchanged; with no touch the player is unchanged; otherwise x is the clamp of the last touch |
| Movement.MovePlayerOnScreen | App.js:64-70 | on a screen wide enough for the player, after any touch the player lies in [0, width - 50], and a player already on screen stays there |
| Spawning.JsRem | App.js:72 | the JavaScript remainder lies in [0, m) for a non-negative clock and in (-m, 0] for a negative one |
| Spawning.RollWithin | App.js:74 | a draw in [0, 1) scaled by a positive span lands in [0, span), and scaled by a non-positive span lands in [span, 0] |
| Spawning.NewEnemy | App.js:73-77 | the spawned enemy sits just above the top edge, with x in [0, width - 40) when the screen is wider than an enemy |
| Spawning.NewBullet | App.js:87-91 | the new bullet is horizontally centred on the player and rests on the player's top edge |
| Spawning.SpawnEnemies | App.js:71-84 | after the system every enemy is above the bottom edge; each old enemy still above it after its 2-unit step is present, stepped; a visible spawn is last; nothing else appears; the list grows by at most one, and only inside a spawn window |
| Spawning.ShootBullets | App.js:85-98 | after the system every bullet is below the cull line; each old bullet still below it after its 5-unit step is present, stepped; a visible new bullet is last; nothing else appears; the list grows by at most one, and only inside a fire window |
| Spawning.SpawnEnemiesInOrder | App.js:72-82 | the enemies after the system are exactly those, spawn included, whose stepped y is above the bottom edge, in their original order, each stepped once |
| Spawning.ShootBulletsInOrder | App.js:86-96 | the bullets after the system are exactly those, new one included, whose stepped y is below the cull line, in order, each stepped once |
| Spawning.WindowsRecur | App.js:72-86 | at non-negative times the enemy window recurs every 2000 ms and the bullet window every 500 ms |
| Spawning.EnemyWindowInBulletWindow | App.js:72-86 | at non-negative times, a tick inside an enemy spawn window is also inside a bullet fire window |
| Collisions.PlayerEnemyPass | App.js:100-112 | the survivors are exactly the enemies not touching the player, in order; health drops by the number removed; the game-over calls number the hits that leave health at or below zero |
| Collisions.GameOverIffFatal | App.js:103-108 | game over fires in the pass exactly when some enemy was hit and health ended at or below zero; health never rises |
| Collisions.BulletPass | App.js:113-122 | the enemies left are exactly those no bullet overlaps, in order |
| Collisions.SetScoreCalls | App.js:113-122 | one `setScore(score + 10)` per hit, each reading the score captured at the start of the tick: with no hit the score stays as it is, after one or more hits it is that captured score plus 10 |
| Collisions.ScoreAfterHits | App.js:117 | running the per-hit setter calls from the tick-start score: no hit leaves the score as it was; any number of hits adds exactly 10 |
| Collisions.BulletPassHitsIff | App.js:113-122 | the bullet pass removes an enemy exactly when some enemy that escaped the player overlaps some bullet |
| Collisions.CheckCollisions | App.js:99-124 | player position and bullets unchanged; the enemies left are those clear of the player and of every bullet; health drops by the player hits; game over iff health fell to at or below zero; the score rises by 10 exactly when some surviving enemy was shot, and otherwise is unchanged |
| Ledger.Insert | App.js:42 | inserting adds exactly the new entry and keeps a best-first list best-first |
| Ledger.InsertAt | App.js:42 | the new entry lands right after every entry scoring at least as much and before every entry scoring less |
| Ledger.InsertLowest | App.js:42 | an entry scoring no more than every entry goes last |
| Ledger.SortDesc | App.js:42 | sorting yields a best-first permutation of the list |
| Ledger.SortSorted | App.js:42 | sorting a best-first list leaves it unchanged, so equal scores keep their order |
| Ledger.Take | App.js:43 | the cut is a prefix of the list holding its first min(n, length) entries |
| Ledger.TakeKeepsBest | App.js:42-43 | cutting a best-first list keeps a best-first sub-multiset whose entries all score at least as much as every entry cut off |
| Ledger.SaveHighScore | App.js:41-43 | the new list has min(5, old length + 1) entries, is best first, is drawn from the old list plus the new entry, and beats every entry left out |
| Ledger.SaveIntoValid | App.js:41-43 | on a best-first list, saving inserts the new entry after every entry scoring at least as much, then cuts to five |
| Ledger.SaveAtRank | App.js:41-43 | on a best-first list, the new score takes the rank after every entry scoring at least as much, and the list is cut to five |
| Ledger.ResetHighScores | App.js:54-55 | the reset list is empty and valid |
| Game.Launch | App.js:16-23 | the app starts on the menu with score 0, no enemies or bullets, the initial player and the stored list |
| Game.StartRound | App.js:128-136 | a round starts playing with score 0, the initial player at 3 health, no enemies or bullets, and the high-score list kept |
| Game.Press | App.js:170-237 | a button the current screen does not render changes nothing; start begins a round; high scores, back and reset do what their screen promises; every press is a legal phase change and never enters game over |
| Game.Tick | App.js:188-195 | outside the game screen a tick changes nothing; during play it ends the round exactly when health fell to at or below zero; it saves the tick-start score exactly then; the score rises by 0 or 10; health never rises; the cull bounds hold |
| Game.PressConsistent | App.js:170-237 | every button press keeps the list valid and, during play, the player on screen |
| Game.TickConsistent | App.js:188-195 | every tick keeps the list valid and, during play, the player on screen |
| Game.BackToMenuIdempotent | App.js:214-235 | returning to the menu twice is the same as returning once |
| Game.StartForgetsRound | App.js:128-136 | starting a round from the menu or from game over yields the same state whatever the score and entities were |
| Game.GameOverOnlyFromPlaying | App.js:105-106 | the game-over screen is entered only by a tick during play, never by a button |
| Scenarios.TouchBeyondRightEdge | App.js:67 | on a 400-wide screen a touch at x = 1000 puts the player at 350 |
| Scenarios.ThreeHitsEndTheRound | App.js:102-108 | from 3 health, three successive hits leave 2, 1, 0, and only the third fires game over |
| Scenarios.HealthGoesBelowZero | App.js:103-108 | two hits in one tick at 1 health leave -1 and fire game over twice |
| Scenarios.BulletScores | App.js:113-122 | a bullet on an enemy away from the player takes the score from 0 to 10 and removes the enemy but not the bullet |
| Scenarios.TwoHitsScoreTenOnce | App.js:117 | two bullets hitting two enemies in one tick raise the score from 20 to 30 |
| Scenarios.FirstScore | App.js:41-43 | saving 50 into the empty list gives the one-entry list |
| Scenarios.FullListDropsLowest | App.js:41-43 | saving 75 into a full list scoring 90, 80, 70, 60, 50 gives 90, 80, 75, 70, 60 |
| Scenarios.TieKeepsOlderEntry | App.js:42-43 | on a full list, a score no higher than the lowest entry leaves the list unchanged, so a tie does not displace the older entry |

## Left out

- Rendering: the `Player`, `Enemy` and `Bullet` components, the screen layouts and the animation (`App.js:139-246`). Only which buttons each screen offers is modelled.
- Storage: AsyncStorage load, save and clear, JSON encoding, `console.error` and `alert` (`App.js:26-36`, `44`, `56`). These are asynchronous I/O through a library outside the model, so the model covers only the list values they carry. A failed write does not change the list in memory.
- Game.Launch: the list read from storage is taken as given. It is not checked to be sorted or at most five long, so `Game.Consistent` is an assumption about what storage holds.
- The game-engine driver: `GameEngine` supplies the clock, the touches and the tick rate (`App.js:190-195`). Those become the fields of `TickInput`. The engine works on the entities object the app passes it (`App.js:193`), and the systems change it in place; the model identifies that object with the game's world.
- `Dimensions.get`, `Math.random` and `Date` become parameters, as described above.
- Floating point: positions are exact reals. Fractional clock values are not modelled; the clock is in whole milliseconds.
- Game.Tick: it records one save when game over fires. The code calls `saveHighScore` once per lethal hit in the tick (`CheckCollisions` counts them in `lethalHits`). Every one of those calls starts from the same list and the same score, but each takes its own `new Date().toISOString()` (`App.js:41`), so the lists they write can differ in the new entry's date. The model uses one `now` for the whole tick.
- Spawning.JsRem: states only the bounds of the remainder, not its full relation to the quotient.
- The asynchronous, batched nature of React state updates. Because of the closures described above, the model reads `score` and `highScores` as they were at the start of the tick.
