/** The game as script.js keeps it: module-level variables that the event
    handlers overwrite in place. Each method is proved to leave the fields as
    the matching function of SnakeRules says. */
module SnakeGame {
  import opened SnakeRules

  /** `snakeBody.some(segment => segment.x === c.x && segment.y === c.y)`:
      a scan that stops at the first segment on cell `c`. */
  method AnySegmentAt(body: seq<Vec>, c: Vec) returns (hit: bool)
    ensures hit <==> c in body
  {
    hit := false;
    var i := 0;
    while i < |body| && !hit
      invariant 0 <= i <= |body|
      invariant hit <==> c in body[..i]
      decreases |body| - i
    {
      hit := body[i] == c;
      i := i + 1;
      assert body[..i] == body[..i - 1] + [body[i - 1]];
    }
    if !hit {
      assert body[..i] == body;
    }
  }

  class Game {
    var body: seq<Vec>      // snakeBody, head first
    var dir: Vec            // direction
    var score: nat
    var started: bool       // gameStarted
    var timerRunning: bool  // whether the update interval is set
    var foodPx: Vec         // food.position, in pixels

    function Snapshot(): State
      reads this
    {
      State(body, dir, score, started, timerRunning, foodPx)
    }

    /** The state when the script loads. */
    constructor ()
      ensures Snapshot() == Initial
    {
      body := [StartCell];
      dir := StartDir;
      score := 0;
      started := false;
      timerRunning := false;
      foodPx := Vec(0, 0);
    }

    /** `placeFood`, given the cell that the random draw picks. */
    method PlaceFood(k: int, j: int)
      requires InGrid(Vec(k, j))
      modifies this`foodPx
      ensures foodPx == FoodPixel(k, j)
    {
      foodPx := Vec(k * CellSize - Width / 2 + CellSize / 2, j * CellSize - Height / 2 + CellSize / 2);
    }

    method StartGame(k: int, j: int)
      requires InGrid(Vec(k, j))
      modifies this
      ensures Snapshot() == Start(k, j)
    {
      started := true;
      timerRunning := true;
      body := [StartCell];
      dir := StartDir;
      score := 0;
      PlaceFood(k, j);
    }

    method KeyPress(code: int)
      modifies this`dir
      ensures Snapshot() == Press(old(Snapshot()), code)
    {
      if !started {
        return;
      }
      if code == KeyLeft {
        if dir.x == 0 { dir := Vec(-1, 0); }
      } else if code == KeyUp {
        if dir.y == 0 { dir := Vec(0, 1); }
      } else if code == KeyRight {
        if dir.x == 0 { dir := Vec(1, 0); }
      } else if code == KeyDown {
        if dir.y == 0 { dir := Vec(0, -1); }
      }
    }

    /** The state part of `gameOver`. */
    method GameOver()
      modifies this`started, this`timerRunning
      ensures Snapshot() == End(old(Snapshot()))
    {
      timerRunning := false;
      started := false;
    }

    /** `update`, the timer callback; `(k, j)` is the cell the random draw
        picks if the food is eaten. */
    method Tick(k: int, j: int)
      requires InGrid(Vec(k, j))
      modifies this
      ensures Snapshot() == Step(old(Snapshot()), k, j)
    {
      if body == [] {
        return;
      }
      var head := Add(body[0], dir);
      var hit := AnySegmentAt(body, head);
      if head.x < 0 || head.x >= Cols || head.y < 0 || head.y >= Rows || hit {
        GameOver();
        return;
      }
      body := [head] + body;
      if CellSize * head.x == foodPx.x + CellSize * (Cols / 2) &&
         CellSize * head.y == foodPx.y + CellSize * (Rows / 2) {
        PlaceFood(k, j);
        score := score + 1;
      } else {
        body := body[..|body| - 1];
      }
    }

    /** The `play` branch of the host message handler. */
    method HandlePlayMessage(k: int, j: int)
      requires InGrid(Vec(k, j))
      modifies this
      ensures Snapshot() == Play(old(Snapshot()), k, j)
    {
      if !started {
        StartGame(k, j);
      }
    }

    /** `handleSnakeData`: the parsed host data becomes the body. */
    method HandleSnakeData(data: seq<Vec>)
      modifies this`body
      ensures Snapshot() == ReceiveBody(old(Snapshot()), data)
    {
      body := data;
    }
  }
}
