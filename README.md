# Snake game state machine

A Dafny model of the game logic of a browser Snake game (`script.js`): a
20 × 20 grid, a snake that moves one cell per 200 ms timer tick, food placed
at a random cell, a score and arrow-key steering. A game is started by the
Play button or by a `play` message from the host page, and ends only when a
tick runs into a wall or into the snake itself.

- `rules.dfy`, module `SnakeRules`: the grid constants, cells and pixels,
  the key handler's turn rule, food placement, the eat test, and a `State`
  value that holds the script's module-level variables (`snakeBody`,
  `direction`, `score`, `gameStarted`, whether the update interval is set,
  `food.position`). Each handler is a function from the old state to the new
  one (`Step`, `Press`, `Start`, `End`, `Play`, `ReceiveBody`), with lemmas on
  one tick.
- `game.dfy`, module `SnakeGame`: class `Game`, whose fields are those
  variables and whose methods (`Tick`, `KeyPress`, `StartGame`, `GameOver`,
  `PlaceFood`, `HandlePlayMessage`, `HandleSnakeData`) update them in place
  the way the script does. Each method is proved to leave the fields exactly
  as the matching function says. `AnySegmentAt` is the `snakeBody.some(...)`
  scan of the collision test.
- `runs.dfy`, module `SnakeRuns`: sequences of events (timer, key, Play
  button, `play` message, host snake data) applied from the state at load
  time, and invariants proved over every such sequence.

The random draw of `placeFood` is a parameter: the cell `(k, j)` it picks.
Food positions are integer pixels, `30k - 285`; every value the script
compares in its eat test is exact in floating point, so the comparison is
modelled as an integer equation.

The tick's eat test is modelled as written. With food where `placeFood` puts
it, that test never succeeds for a head on integer cells: in every run whose
host data, if any, holds integer cells the score stays 0, and in every run
without host data the snake keeps one cell. (Host data with half-integer
cells, which `JSON.parse` accepts, can pass the test; the model's cells are
integers.) `StepIntended` is the same tick with the test corrected (see
Findings); the class follows the code.

## Model

| member | source | states |
|---|---|---|
| `SnakeRules.Turn` | script.js:159-176 | a press changes the direction only for an arrow key, and only to a direction on the other axis (a horizontal direction from a vertical one, or the reverse) |
| `SnakeRules.TurnAxes` | script.js:162-175 | left and right change the direction only while the snake moves vertically and only to a horizontal direction; up and down only while it moves horizontally and only to a vertical direction |
| `SnakeRules.SameAxisPressIsNoOp` | script.js:163-174 | from a unit direction, a key on the axis it already moves along, the opposite key included, leaves the direction unchanged |
| `SnakeRules.TurnTakesPerpendicularKey` | script.js:163-174 | an arrow key across the snake's motion (left or right while moving vertically, up or down while moving horizontally) turns it to exactly the direction that key names: left (-1,0), up (0,1), right (1,0), down (0,-1) |
| `SnakeRules.TurnNeverReverses` | script.js:162-175 | from one of the four unit directions a press yields one of the four and never the exact opposite |
| `SnakeRules.PressFrame` | script.js:159-176 | a key press changes nothing but the direction; before the game starts, or for a non-arrow key, it changes nothing at all |
| `SnakeRules.TwoPressesCanReverse` | script.js:159-176 | two presses between ticks (up, then left, while moving right) do reverse the snake, and the next head is the second segment, and the next tick ends the game; the guard compares with the current direction, not with the direction of the last move, so this is the code's behaviour and is not claimed as a bug |
| `SnakeRules.FoodPixel` | script.js:178-182 | food for cell (k, j) sits at the pixel the renderer uses for that cell's centre, 15 pixels past a multiple of 30, and on the canvas when the cell is in the grid |
| `SnakeRules.PixelCellRoundTrip` | script.js:221-223 | the cell of the pixel at which a cell is drawn is that cell |
| `SnakeRules.NoCellCentreIsEaten` | script.js:196 | the written eat test fails for every head when the food is at a cell centre |
| `SnakeRules.EatBranchUnreachable` | script.js:179-196 | the written eat test fails for every head and every food placed by placeFood |
| `SnakeRules.IntendedEatIff` | script.js:196 | the corrected eat test holds exactly when the head is on the cell the food was placed in |
| `SnakeRules.CellCentre` | script.js:221-223 | the definition gives the pixel at which a cell is drawn: `30c - 285` on each axis, the centre of the cell with the origin at the middle of the canvas |
| `SnakeRules.EatsAsWritten` | script.js:196 | the definition is the written eat test `head.x === food.x / CELL_SIZE + COLS / 2` (and the same for y), multiplied through by 30: `30*head.x == food.x + 300`; both sides are exact in floating point for the pixels the script uses, so this integer equation decides the comparison |
| `SnakeRules.EatsIntended` | script.js:196 | the definition is the corrected eat test: the head is the cell whose drawn centre is the food's pixel |
| `SnakeRules.NextHead` | script.js:185-187 | the definition gives the candidate head: the first segment plus the direction |
| `SnakeRules.Collides` | script.js:189 | the definition is the game-over test: the candidate head is outside `[0,20)×[0,20)` or on any segment of the body before the move |
| `SnakeRules.End` | script.js:238-262 | the definition clears `gameStarted` (line 261) and stops the timer (line 239), and keeps everything else |
| `SnakeRules.Press` | script.js:159-176 | the definition leaves the state alone before a game starts (line 160) and otherwise applies `Turn` to the direction |
| `SnakeRules.Play` | script.js:122-124 | the definition leaves a started game alone and otherwise gives `Start(k, j)` |
| `SnakeRules.ReceiveBody` | script.js:230-236 | the definition replaces the body with the host's cells and keeps everything else |
| `SnakeRules.StepWith` | script.js:184-212 | the definition is one `update` with the eat test as a parameter: an empty body changes nothing; a collision gives `End`; eating prepends the head, adds one to the score and places new food; otherwise the head is prepended and the last segment dropped |
| `SnakeRules.Step` | script.js:184-212 | the definition is `StepWith` with the eat test as written |
| `SnakeRules.StepIntended` | script.js:184-212 | the definition is `StepWith` with the corrected eat test |
| `SnakeRules.Start` | script.js:143-155 | a started game with the timer running, score 0, a one-cell in-grid body, a unit direction and food at the drawn cell, whatever the state before |
| `SnakeRules.TickWallEndsGame` | script.js:185-191 | a next head outside the grid ends the game: the state is exactly the game-over state (not started, timer stopped), with body, score, direction and food unchanged |
| `SnakeRules.TickSelfCollisionEndsGame` | script.js:189-191 | a next head on any segment ends the game: the state is exactly the game-over state, with body, score, direction and food unchanged |
| `SnakeRules.TickTailCollisionEndsGame` | script.js:189-208 | a next head on the last segment ends the game, although a plain move would have vacated it |
| `SnakeRules.TickMoveShiftsBody` | script.js:184-209 | a tick that neither collides nor eats keeps the length, puts the old head plus direction first and shifts every other segment back by one, with score, food and flags unchanged |
| `SnakeRules.TickEatGrows` | script.js:194-199 | a tick that eats prepends the new head and keeps the whole old body, raises the score by one and moves the food to the drawn cell; the game keeps running and the direction is unchanged |
| `SnakeRules.TickFrame` | script.js:184-212 | a tick never changes the direction and raises the score by at most one |
| `SnakeRules.TickKeepsWellFormed` | script.js:189-208 | a non-empty, in-grid body without repeated cells stays so after a tick |
| `SnakeRules.PlacedFoodIsNeverEaten` | script.js:196-209 | with food placed by placeFood, the tick as written keeps the body length and the score exactly |
| `SnakeRules.IntendedTickEatsFood` | script.js:194-199 | with the corrected test, a head that reaches the food's cell without colliding prepends the new head to the whole old body, raises the score by one and places new food at the drawn cell; the game keeps running and the direction is unchanged |
| `SnakeRules.PlayGuard` | script.js:122-124 | the play message leaves a running game alone and otherwise starts a fresh one; afterwards a game is running |
| `SnakeRules.FoodAheadScenario` | script.js:184-209 | one-cell snake at (10,10) moving right with food at cell (11,10): as written it moves without eating, score 0; corrected it grows to two cells, score 1 |
| `SnakeRules.RightWallScenario` | script.js:189-191 | a head at column 19 moving right ends the game |
| `SnakeGame.AnySegmentAt` | script.js:189 | the scan reports a hit exactly when some segment is on the cell |
| `SnakeGame.Game.constructor` | script.js:9-13 | the state at load time: body [(10,10)], direction (1,0), score 0, not started, no timer, food at the origin |
| `SnakeGame.Game.PlaceFood` | script.js:178-182 | the food moves to the pixel of the drawn cell and nothing else changes |
| `SnakeGame.Game.StartGame` | script.js:143-157 | the fields become `Start(k, j)` |
| `SnakeGame.Game.KeyPress` | script.js:159-176 | the fields become `Press` of the old fields |
| `SnakeGame.Game.GameOver` | script.js:238-262 | the timer stops and the game is no longer started; nothing else changes |
| `SnakeGame.Game.Tick` | script.js:184-212 | the fields become `Step` of the old fields |
| `SnakeGame.Game.HandlePlayMessage` | script.js:122-124 | the fields become `Play` of the old fields |
| `SnakeGame.Game.HandleSnakeData` | script.js:230-236 | the host's body replaces the body unchecked; nothing else changes |
| `SnakeRuns.ApplyWith` | script.js:41-44 | the definition dispatches one event: a timer event runs the tick only while the interval is set (lines 145, 239); a key goes to `Press`; a Play click to `Start` (line 41); a `play` message to the guarded `Play` (line 122); host snake data to `ReceiveBody` (lines 115-116) |
| `SnakeRuns.ApplyKeepsScoreZero` | script.js:143-212 | one event keeps the score at 0 and, while the timer runs, the food at a cell centre |
| `SnakeRuns.RunKeepsScoreZero` | script.js:143-212 | from a state with score 0 and placed food, no event sequence raises the score |
| `SnakeRuns.ScoreIsAlwaysZero` | script.js:143-212 | from the state at load time, every event sequence ends with score 0 |
| `SnakeRuns.RunKeepsAxisUnit` | script.js:152-176 | the direction stays one of the four unit directions through any event sequence |
| `SnakeRuns.RunStartedIffTimer` | script.js:143-262 | `gameStarted` is true exactly while the update interval is set, through any event sequence |
| `SnakeRuns.RunKeepsBodyWellFormed` | script.js:184-212 | without host data the body stays non-empty, in the grid and free of repeated cells |
| `SnakeRuns.InitialRunsAreWellBehaved` | script.js:9-13 | from load time and without host data: well-formed body, unit direction, started iff timer, score 0 |
| `SnakeRuns.RunKeepsOneCell` | script.js:194-209 | a one-cell snake with placed food stays one cell long through any event sequence without host data |
| `SnakeRuns.SnakeNeverGrows` | script.js:194-209 | from load time and without host data the snake is always one cell long |
| `SnakeRuns.RunLengthTracksScore` | script.js:194-208 | with either eat test the body is always one segment longer than the score, from a state where it is |

## Findings

| source | as written | input that shows it | evidently intended | confidence | as-written member | corrected member |
|---|---|---|---|---|---|---|
| script.js:196 | the tick eats when `head.x === food.x / CELL_SIZE + COLS / 2`; food placed at cell k is at pixel `30k - 285`, so the right side is `k + 0.5` and no integer head ever matches | one-cell snake at (10,10) moving right, food placed at cell (11,10): the head reaches (11,10), the food is not eaten, score stays 0 | eat when the head is on the cell the food is drawn in, `(food.x + 285) / 30` (the inverse of the drawing formula at script.js:221-223) | high; not executed | `SnakeRuns.ScoreIsAlwaysZero` | `SnakeRules.IntendedTickEatsFood` |

## Left out

- Rendering (the THREE.js scene, `renderSnake`, `animate`): floating-point drawing only; its cell-to-pixel formula is `CellCentre`.
- The host message bridge (`loading`, `requestUserProfile`, `setData`, `getData`, `sendGameProgress`, the `gameEnd` post) and the profile, state and payment branches of `handlePlaydeckMessage`: fire-and-forget messages with no effect on the game state.
- `gtag`, `alert`, the Play button's display and `console.log`: analytics and user interface side effects.
- Timer scheduling: `setInterval`/`clearInterval` is a `timerRunning` flag. A second `startGame` while a game runs would set a second interval in the script; the model keeps one flag, since the Play button is hidden during play and the `play` message is guarded.
- The Play button event: a click always runs `startGame`, so the event model lets a click restart a running game. The page hides the button during play, so the page allows fewer event sequences than the model; every run invariant is proved for the larger set.
- `Math.random`: the drawn cell is a parameter of `PlaceFood`, `StartGame`, `Tick` and `HandlePlayMessage`, which require it to be in the grid as the draw always is.
- `handleSnakeData`'s `JSON.parse`: the host's data is any sequence of integer cells; data that is not such a sequence is not modelled. A tick on an empty body changes nothing, as the script's NaN head passes no test and is pushed and popped again.
- The corrected tick `StepIntended` is proved about on its own; the class and the event runs follow the code as written.
