/** Whole runs of the script: the events the browser and the host deliver,
    one after another, starting from the state at load time. Each handler runs
    to completion before the next event. */
module SnakeRuns {
  import opened SnakeRules

  /** The inputs that change the game state. `(k, j)` is the cell the random
      draw in `placeFood` picks when the handler places food. */
  datatype Event =
    | TimerFired(k: int, j: int)       // the update interval elapses
    | KeyPressed(code: int)              // keydown listener
    | PlayClicked(k: int, j: int)      // the Play button
    | PlayMessage(k: int, j: int)      // host message with method 'play'
    | SnakeData(data: seq<Vec>)        // host data under key 'snakeData'

  /** The state after one event, with the tick's eat test as a parameter.
      The interval fires only while it is set. */
  function ApplyWith(eats: (Vec, Vec) -> bool, s: State, e: Event): State {
    match e
    case TimerFired(k, j) => if s.timerRunning then StepWith(eats, s, k, j) else s
    case KeyPressed(code) => Press(s, code)
    case PlayClicked(k, j) => Start(k, j)
    case PlayMessage(k, j) => Play(s, k, j)
    case SnakeData(data) => ReceiveBody(s, data)
  }

  function RunWith(eats: (Vec, Vec) -> bool, s: State, events: seq<Event>): State
    decreases |events|
  {
    if events == [] then s else RunWith(eats, ApplyWith(eats, s, events[0]), events[1..])
  }

  /** The script as written. */
  function Apply(s: State, e: Event): State {
    ApplyWith(EatsAsWritten, s, e)
  }

  function Run(s: State, events: seq<Event>): State {
    RunWith(EatsAsWritten, s, events)
  }

  predicate FromHost(e: Event) {
    e.SnakeData?
  }

  /** Once the timer runs, the food is at a cell centre, as every pixel
      placeFood produces is. */
  predicate FoodPlacedWhileRunning(s: State) {
    s.timerRunning ==>
      s.foodPx.x % CellSize == CellSize / 2 && s.foodPx.y % CellSize == CellSize / 2
  }

  lemma ApplyKeepsFoodPlaced(s: State, e: Event)
    requires FoodPlacedWhileRunning(s)
    ensures FoodPlacedWhileRunning(Apply(s, e))
  {
  }

  lemma ApplyKeepsScoreZero(s: State, e: Event)
    requires s.score == 0 && FoodPlacedWhileRunning(s)
    ensures Apply(s, e).score == 0 && FoodPlacedWhileRunning(Apply(s, e))
  {
    ApplyKeepsFoodPlaced(s, e);
    if e.TimerFired? && s.timerRunning && s.body != [] {
      NoCellCentreIsEaten(NextHead(s), s.foodPx);
    }
  }

  /** No event sequence ever raises the score: food is placed before the
      first tick, at a cell centre, and the tick as written never eats food
      at a cell centre. */
  lemma {:induction false} RunKeepsScoreZero(s: State, events: seq<Event>)
    requires s.score == 0 && FoodPlacedWhileRunning(s)
    ensures Run(s, events).score == 0
    decreases |events|
  {
    if events != [] {
      ApplyKeepsScoreZero(s, events[0]);
      RunKeepsScoreZero(Apply(s, events[0]), events[1..]);
    }
  }

  lemma ScoreIsAlwaysZero(events: seq<Event>)
    ensures Run(Initial, events).score == 0
  {
    RunKeepsScoreZero(Initial, events);
  }

  /** The direction is always one of the four unit directions. */
  lemma {:induction false} RunKeepsAxisUnit(s: State, events: seq<Event>)
    requires IsAxisUnit(s.dir)
    ensures IsAxisUnit(Run(s, events).dir)
    decreases |events|
  {
    if events != [] {
      var e := events[0];
      if e.KeyPressed? && s.started {
        TurnNeverReverses(s.dir, e.code);
      } else if e.TimerFired? && s.timerRunning {
        TickFrame(EatsAsWritten, s, e.k, e.j);
      }
      RunKeepsAxisUnit(Apply(s, e), events[1..]);
    }
  }

  /** `gameStarted` is true exactly while the interval is set. */
  lemma {:induction false} RunStartedIffTimer(s: State, events: seq<Event>)
    requires s.started == s.timerRunning
    ensures Run(s, events).started == Run(s, events).timerRunning
    decreases |events|
  {
    if events != [] {
      RunStartedIffTimer(Apply(s, events[0]), events[1..]);
    }
  }

  /** Without host data, the body stays non-empty, inside the grid and free
      of repeated cells. */
  lemma {:induction false} RunKeepsBodyWellFormed(s: State, events: seq<Event>)
    requires WellFormed(s.body)
    requires forall i :: 0 <= i < |events| ==> !FromHost(events[i])
    ensures WellFormed(Run(s, events).body)
    decreases |events|
  {
    if events != [] {
      var e := events[0];
      if e.TimerFired? && s.timerRunning {
        TickKeepsWellFormed(EatsAsWritten, s, e.k, e.j);
      }
      assert !FromHost(events[0]);
      RunKeepsBodyWellFormed(Apply(s, e), events[1..]);
    }
  }

  lemma InitialRunsAreWellBehaved(events: seq<Event>)
    requires forall i :: 0 <= i < |events| ==> !FromHost(events[i])
    ensures var r := Run(Initial, events);
      WellFormed(r.body) && IsAxisUnit(r.dir) && r.started == r.timerRunning && r.score == 0
  {
    RunKeepsBodyWellFormed(Initial, events);
    RunKeepsAxisUnit(Initial, events);
    RunStartedIffTimer(Initial, events);
    ScoreIsAlwaysZero(events);
  }

  /** Without host data the snake never grows past its starting cell. */
  lemma {:induction false} RunKeepsOneCell(s: State, events: seq<Event>)
    requires |s.body| == 1 && FoodPlacedWhileRunning(s)
    requires forall i :: 0 <= i < |events| ==> !FromHost(events[i])
    ensures |Run(s, events).body| == 1
    decreases |events|
  {
    if events != [] {
      var e := events[0];
      if e.TimerFired? && s.timerRunning {
        NoCellCentreIsEaten(NextHead(s), s.foodPx);
      }
      assert !FromHost(events[0]);
      ApplyKeepsFoodPlaced(s, e);
      RunKeepsOneCell(Apply(s, e), events[1..]);
    }
  }

  lemma SnakeNeverGrows(events: seq<Event>)
    requires forall i :: 0 <= i < |events| ==> !FromHost(events[i])
    ensures |Run(Initial, events).body| == 1
  {
    RunKeepsOneCell(Initial, events);
  }

  /** With either eat test, the body is one segment longer than the score
      from the start of a game on, as long as the host sends no body. */
  lemma {:induction false} RunLengthTracksScore(eats: (Vec, Vec) -> bool, s: State, events: seq<Event>)
    requires |s.body| == s.score + 1
    requires forall i :: 0 <= i < |events| ==> !FromHost(events[i])
    ensures |RunWith(eats, s, events).body| == RunWith(eats, s, events).score + 1
    decreases |events|
  {
    if events != [] {
      assert !FromHost(events[0]);
      RunLengthTracksScore(eats, ApplyWith(eats, s, events[0]), events[1..]);
    }
  }
}
