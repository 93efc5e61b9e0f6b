/** The rules of the Snake game in script.js, stated on values.

    `State` is a snapshot of the script's module-level variables (`snakeBody`,
    `direction`, `score`, `gameStarted`, whether the `setInterval` timer is
    running, and `food.position`). Each handler of the script is a function from
    the old snapshot to the new one; the class in module SnakeGame is proved to
    update its fields exactly as these functions say.

    The random cell that `placeFood` draws is a parameter `(k, j)`. */
module SnakeRules {

  // Canvas and grid dimensions, in pixels and cells.
  const Width: int := 600
  const Height: int := 600
  const Rows: int := 20
  const Cols: int := 20
  const CellSize: int := Width / Cols

  // Key codes handled by the keyboard listener.
  const KeyLeft: int := 37
  const KeyUp: int := 38
  const KeyRight: int := 39
  const KeyDown: int := 40

  /** An integer pair: a grid cell, a direction, or a pixel position. */
  datatype Vec = Vec(x: int, y: int)

  function Add(a: Vec, b: Vec): Vec {
    Vec(a.x + b.x, a.y + b.y)
  }

  function Opposite(d: Vec): Vec {
    Vec(-d.x, -d.y)
  }

  predicate InGrid(c: Vec) {
    0 <= c.x < Cols && 0 <= c.y < Rows
  }

  /** One of the four directions the snake can move in. */
  predicate IsAxisUnit(d: Vec) {
    (d.x == 0 && (d.y == 1 || d.y == -1)) || (d.y == 0 && (d.x == 1 || d.x == -1))
  }

  predicate IsArrowKey(code: int) {
    code == KeyLeft || code == KeyUp || code == KeyRight || code == KeyDown
  }

  // ---------------------------------------------------------------------------
  // Keyboard

  /** The direction after one key press while the game runs. Left and right
      are taken only while the snake moves vertically, up and down only while
      it moves horizontally; any other key leaves the direction alone. */
  function Turn(d: Vec, code: int): (r: Vec)
    ensures r != d ==> IsArrowKey(code)
    ensures r == d || (r.y == 0 && d.x == 0) || (r.x == 0 && d.y == 0)
  {
    if code == KeyLeft then (if d.x == 0 then Vec(-1, 0) else d)
    else if code == KeyUp then (if d.y == 0 then Vec(0, 1) else d)
    else if code == KeyRight then (if d.x == 0 then Vec(1, 0) else d)
    else if code == KeyDown then (if d.y == 0 then Vec(0, -1) else d)
    else d
  }

  /** Left and right act only on the horizontal axis and only while the snake
      moves vertically; up and down act only on the vertical axis and only
      while it moves horizontally. */
  lemma TurnAxes(d: Vec, code: int)
    ensures var r := Turn(d, code);
      && ((code == KeyLeft || code == KeyRight) && r != d ==> d.x == 0 && r.y == 0)
      && ((code == KeyUp || code == KeyDown) && r != d ==> d.y == 0 && r.x == 0)
  {
  }

  /** Pressing a key on the axis the snake already moves along, including the
      key for the opposite direction, leaves the direction unchanged. */
  lemma SameAxisPressIsNoOp(d: Vec, code: int)
    requires IsAxisUnit(d)
    requires (d.y == 0 && (code == KeyLeft || code == KeyRight)) ||
             (d.x == 0 && (code == KeyUp || code == KeyDown))
    ensures Turn(d, code) == d
  {
  }

  /** The direction each arrow key names; any other code names none. */
  function KeyDir(code: int): Vec {
    if code == KeyLeft then Vec(-1, 0)
    else if code == KeyUp then Vec(0, 1)
    else if code == KeyRight then Vec(1, 0)
    else if code == KeyDown then Vec(0, -1)
    else Vec(0, 0)
  }

  /** An arrow key on the axis across the snake's motion turns it to exactly
      the direction that key names. */
  lemma TurnTakesPerpendicularKey(d: Vec, code: int)
    requires IsAxisUnit(d) && IsArrowKey(code)
    requires (code == KeyLeft || code == KeyRight) == (d.x == 0)
    ensures Turn(d, code) == KeyDir(code)
  {
  }

  /** A press keeps the direction one of the four, and never turns it to the
      exact opposite. */
  lemma TurnNeverReverses(d: Vec, code: int)
    requires IsAxisUnit(d)
    ensures IsAxisUnit(Turn(d, code)) && Turn(d, code) != Opposite(d)
  {
  }

  // ---------------------------------------------------------------------------
  // Pixels and cells

  /** The pixel at which the renderer draws grid cell `c` (the centre of the
      cell, with the origin in the middle of the canvas). */
  function CellCentre(c: Vec): Vec {
    Vec(c.x * CellSize - Width / 2 + CellSize / 2, c.y * CellSize - Height / 2 + CellSize / 2)
  }

  /** The pixel `placeFood` moves the food to when the random draw gives cell
      `(k, j)`. */
  function FoodPixel(k: int, j: int): (p: Vec)
    ensures p == CellCentre(Vec(k, j))
    ensures p.x % CellSize == CellSize / 2 && p.y % CellSize == CellSize / 2
    ensures InGrid(Vec(k, j)) ==> -Width / 2 < p.x < Width / 2 && -Height / 2 < p.y < Height / 2
  {
    CentreOffset(k);
    CentreOffset(j);
    Vec(k * CellSize - Width / 2 + CellSize / 2, j * CellSize - Height / 2 + CellSize / 2)
  }

  /** A cell's centre coordinate lies half a cell past a multiple of the cell
      size. */
  lemma CentreOffset(k: int)
    ensures (k * CellSize - Width / 2 + CellSize / 2) % CellSize == CellSize / 2
    ensures k * CellSize - Width / 2 + CellSize / 2 == 30 * (k - 10) + 15
  {
  }

  /** The cell whose centre is pixel `p`: the inverse of CellCentre. */
  function PixelCell(p: Vec): Vec {
    Vec((p.x + Width / 2 - CellSize / 2) / CellSize, (p.y + Height / 2 - CellSize / 2) / CellSize)
  }

  lemma PixelCellRoundTrip(c: Vec)
    ensures PixelCell(CellCentre(c)) == c
  {
    assert CellCentre(c).x + Width / 2 - CellSize / 2 == c.x * CellSize;
    assert CellCentre(c).y + Height / 2 - CellSize / 2 == c.y * CellSize;
  }

  /** The eat test of the tick as the script writes it:
      `head.x === food.x / CELL_SIZE + COLS / 2` (and the same for y),
      multiplied through by the cell size. Both sides are exact in the script's
      floating point for the pixels it uses, so this integer equation decides
      the comparison. */
  predicate EatsAsWritten(head: Vec, food: Vec) {
    CellSize * head.x == food.x + CellSize * (Cols / 2) &&
    CellSize * head.y == food.y + CellSize * (Rows / 2)
  }

  /** The eat test the script evidently means: the head is on the cell the
      food is drawn in. */
  predicate EatsIntended(head: Vec, food: Vec) {
    head == PixelCell(food)
  }

  /** Food at a cell centre (every pixel placeFood produces) never passes the
      written eat test: the test needs `food.x + 300` to be a multiple of 30,
      while a cell centre is 15 past one. */
  lemma NoCellCentreIsEaten(head: Vec, food: Vec)
    requires food.x % CellSize == CellSize / 2
    ensures !EatsAsWritten(head, food)
  {
  }

  lemma EatBranchUnreachable(head: Vec, k: int, j: int)
    ensures !EatsAsWritten(head, FoodPixel(k, j))
  {
    NoCellCentreIsEaten(head, FoodPixel(k, j));
  }

  lemma IntendedEatIff(head: Vec, k: int, j: int)
    ensures EatsIntended(head, FoodPixel(k, j)) <==> head == Vec(k, j)
  {
    PixelCellRoundTrip(Vec(k, j));
  }

  // ---------------------------------------------------------------------------
  // Game state and its transitions

  datatype State = State(
    body: seq<Vec>,      // head first
    dir: Vec,
    score: nat,
    started: bool,
    timerRunning: bool,
    foodPx: Vec)

  const StartCell: Vec := Vec(10, 10)
  const StartDir: Vec := Vec(1, 0)

  /** The values the script's variables hold when it loads; the food mesh sits
      at the origin until the first `placeFood`. */
  const Initial: State := State([StartCell], StartDir, 0, false, false, Vec(0, 0))

  predicate AllInGrid(b: seq<Vec>) {
    forall i :: 0 <= i < |b| ==> InGrid(b[i])
  }

  predicate NoDuplicates(b: seq<Vec>) {
    forall i, j :: 0 <= i < j < |b| ==> b[i] != b[j]
  }

  /** A body a live game can have: non-empty, inside the grid, no cell twice. */
  predicate WellFormed(b: seq<Vec>) {
    |b| > 0 && AllInGrid(b) && NoDuplicates(b)
  }

  /** The cell the head moves to on the next tick. */
  function NextHead(s: State): Vec
    requires s.body != []
  {
    Add(s.body[0], s.dir)
  }

  /** The tick ends the game when the next head leaves the grid or lands on
      any segment of the body as it is before the move (the tail included). */
  predicate Collides(head: Vec, body: seq<Vec>) {
    !InGrid(head) || head in body
  }

  /** `gameOver`: the timer stops and the game is no longer started; nothing
      else in the state changes. */
  function End(s: State): State {
    s.(started := false, timerRunning := false)
  }

  /** `startGame`: a fresh game, whatever the state before. */
  function Start(k: int, j: int): (r: State)
    ensures r.started && r.timerRunning && r.score == 0
    ensures WellFormed(r.body) && IsAxisUnit(r.dir) && |r.body| == 1
    ensures r.foodPx == FoodPixel(k, j)
  {
    State([StartCell], StartDir, 0, true, true, FoodPixel(k, j))
  }

  /** `onKeyPress`: ignored unless the game has started. */
  function Press(s: State, code: int): State {
    if s.started then s.(dir := Turn(s.dir, code)) else s
  }

  /** The `play` message from the host starts a game only when none runs. */
  function Play(s: State, k: int, j: int): State {
    if s.started then s else Start(k, j)
  }

  /** `handleSnakeData`: the host's data replaces the body unchecked. */
  function ReceiveBody(s: State, b: seq<Vec>): State {
    s.(body := b)
  }

  /** One run of `update`, with the eat test left as a parameter so that the
      test as written and the intended one share the rest of the tick. An
      empty body (possible only through host data) gives a head of NaN
      coordinates in the script, which passes no test, is pushed and popped
      again: nothing changes. */
  function StepWith(eats: (Vec, Vec) -> bool, s: State, k: int, j: int): State {
    if s.body == [] then s
    else
      var head := NextHead(s);
      if Collides(head, s.body) then End(s)
      else if eats(head, s.foodPx) then
        s.(body := [head] + s.body, score := s.score + 1, foodPx := FoodPixel(k, j))
      else
        s.(body := [head] + s.body[..|s.body| - 1])
  }

  /** The tick as the script runs it. */
  function Step(s: State, k: int, j: int): State {
    StepWith(EatsAsWritten, s, k, j)
  }

  /** The tick with the eat test corrected. */
  function StepIntended(s: State, k: int, j: int): State {
    StepWith(EatsIntended, s, k, j)
  }

  // ---------------------------------------------------------------------------
  // Properties of one tick

  lemma TickWallEndsGame(eats: (Vec, Vec) -> bool, s: State, k: int, j: int)
    requires s.body != [] && !InGrid(NextHead(s))
    ensures var r := StepWith(eats, s, k, j);
      !r.started && !r.timerRunning && r.body == s.body && r.score == s.score
    ensures StepWith(eats, s, k, j) == End(s)
  {
  }

  lemma TickSelfCollisionEndsGame(eats: (Vec, Vec) -> bool, s: State, k: int, j: int, i: int)
    requires 0 <= i < |s.body| && NextHead(s) == s.body[i]
    ensures var r := StepWith(eats, s, k, j);
      !r.started && !r.timerRunning && r.body == s.body && r.score == s.score
    ensures StepWith(eats, s, k, j) == End(s)
  {
  }

  /** Running into the last segment ends the game, although a plain move would
      have popped it: the test runs before the body moves. */
  lemma TickTailCollisionEndsGame(eats: (Vec, Vec) -> bool, s: State, k: int, j: int)
    requires s.body != [] && NextHead(s) == s.body[|s.body| - 1]
    ensures !StepWith(eats, s, k, j).started
  {
    TickSelfCollisionEndsGame(eats, s, k, j, |s.body| - 1);
  }

  lemma TickMoveShiftsBody(eats: (Vec, Vec) -> bool, s: State, k: int, j: int)
    requires s.body != [] && !Collides(NextHead(s), s.body) && !eats(NextHead(s), s.foodPx)
    ensures var r := StepWith(eats, s, k, j);
      && |r.body| == |s.body|
      && r.body[0] == Add(s.body[0], s.dir)
      && (forall i :: 1 <= i < |r.body| ==> r.body[i] == s.body[i - 1])
      && r.score == s.score && r.foodPx == s.foodPx
      && r.started == s.started && r.timerRunning == s.timerRunning
  {
  }

  lemma TickEatGrows(eats: (Vec, Vec) -> bool, s: State, k: int, j: int)
    requires s.body != [] && !Collides(NextHead(s), s.body) && eats(NextHead(s), s.foodPx)
    ensures var r := StepWith(eats, s, k, j);
      && |r.body| == |s.body| + 1
      && r.body[0] == Add(s.body[0], s.dir)
      && r.body[1..] == s.body
      && r.score == s.score + 1
      && r.foodPx == FoodPixel(k, j)
      && r.started == s.started && r.timerRunning == s.timerRunning && r.dir == s.dir
  {
  }

  /** A tick never changes the direction, and the score grows by at most one. */
  lemma TickFrame(eats: (Vec, Vec) -> bool, s: State, k: int, j: int)
    ensures var r := StepWith(eats, s, k, j);
      r.dir == s.dir && s.score <= r.score <= s.score + 1
  {
  }

  /** A tick keeps a well-formed body well-formed: the new head is in the grid
      and on no cell of the old body, and the cells kept are old cells. */
  lemma TickKeepsWellFormed(eats: (Vec, Vec) -> bool, s: State, k: int, j: int)
    requires WellFormed(s.body)
    ensures WellFormed(StepWith(eats, s, k, j).body)
  {
    var head := NextHead(s);
    if !Collides(head, s.body) {
      var kept := if eats(head, s.foodPx) then s.body else s.body[..|s.body| - 1];
      assert forall i :: 0 <= i < |kept| ==> kept[i] == s.body[i];
      var b := [head] + kept;
      assert StepWith(eats, s, k, j).body == b;
      forall i, i' | 0 <= i < i' < |b| ensures b[i] != b[i'] {
        if i == 0 {
          assert b[i'] == s.body[i' - 1];
        } else {
          assert b[i] == s.body[i - 1] && b[i'] == s.body[i' - 1];
        }
      }
    }
  }

  /** Food placed by placeFood is never eaten by the tick as written: the
      body does not grow and the score does not change. */
  lemma PlacedFoodIsNeverEaten(s: State, k: int, j: int, k': int, j': int)
    requires s.foodPx == FoodPixel(k', j')
    ensures var r := Step(s, k, j); |r.body| == |s.body| && r.score == s.score
  {
    if s.body != [] {
      EatBranchUnreachable(NextHead(s), k', j');
    }
  }

  /** With the corrected test, the head reaching the food's cell eats it. */
  lemma IntendedTickEatsFood(s: State, k: int, j: int)
    requires s.body != [] && !Collides(NextHead(s), s.body)
    requires s.foodPx == FoodPixel(NextHead(s).x, NextHead(s).y)
    ensures var r := StepIntended(s, k, j);
      && r.body == [NextHead(s)] + s.body && r.score == s.score + 1 && r.foodPx == FoodPixel(k, j)
      && r.started == s.started && r.timerRunning == s.timerRunning && r.dir == s.dir
  {
    IntendedEatIff(NextHead(s), NextHead(s).x, NextHead(s).y);
  }

  // ---------------------------------------------------------------------------
  // Keyboard and lifecycle properties

  /** One press cannot reverse the snake, but two presses between ticks can:
      right, then up, then left. The next tick then runs into the second
      segment and the game ends. */
  lemma TwoPressesCanReverse()
    ensures var s := State([Vec(10, 10), Vec(9, 10)], Vec(1, 0), 0, true, true, FoodPixel(0, 0));
      var t := Press(Press(s, KeyUp), KeyLeft);
      t.dir == Opposite(s.dir) && NextHead(t) == s.body[1] && !Step(t, 0, 0).started
  {
    var s := State([Vec(10, 10), Vec(9, 10)], Vec(1, 0), 0, true, true, FoodPixel(0, 0));
    var t := Press(Press(s, KeyUp), KeyLeft);
    assert NextHead(t) == s.body[1];
  }

  lemma PressFrame(s: State, code: int)
    ensures var r := Press(s, code);
      && r.body == s.body && r.score == s.score && r.started == s.started
      && r.timerRunning == s.timerRunning && r.foodPx == s.foodPx
      && (!s.started || !IsArrowKey(code) ==> r.dir == s.dir)
      && (IsAxisUnit(s.dir) ==> IsAxisUnit(r.dir) && r.dir != Opposite(s.dir))
  {
    if s.started && IsAxisUnit(s.dir) {
      TurnNeverReverses(s.dir, code);
    }
  }

  /** The play message starts a game exactly when none is running. */
  lemma PlayGuard(s: State, k: int, j: int)
    ensures s.started ==> Play(s, k, j) == s
    ensures !s.started ==> Play(s, k, j) == Start(k, j)
    ensures Play(s, k, j).started
  {
  }

  /** Scenario: a one-cell snake one step left of the food. The tick as
      written moves it onto the food cell without eating; the corrected tick
      eats. */
  lemma FoodAheadScenario()
    ensures var s := State([Vec(10, 10)], Vec(1, 0), 0, true, true, FoodPixel(11, 10));
      && Step(s, 0, 0).body == [Vec(11, 10)] && Step(s, 0, 0).score == 0
      && StepIntended(s, 0, 0).body == [Vec(11, 10), Vec(10, 10)]
      && StepIntended(s, 0, 0).score == 1
  {
    var s := State([Vec(10, 10)], Vec(1, 0), 0, true, true, FoodPixel(11, 10));
    IntendedEatIff(Vec(11, 10), 11, 10);
    EatBranchUnreachable(Vec(11, 10), 11, 10);
  }

  /** Scenario: the head at the right edge moving right ends the game. */
  lemma RightWallScenario()
    ensures var s := State([Vec(19, 10), Vec(18, 10)], Vec(1, 0), 3, true, true, FoodPixel(0, 0));
      Step(s, 0, 0) == End(s)
  {
  }
}
