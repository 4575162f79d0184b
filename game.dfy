/** The game's global context as an object: the C globals become fields,
    `body[1000]` a fixed array, and each function of the game a method that
    updates them in place, proved to follow the functions in Rules. */
module SnakeGame {
  import opened Grid
  import opened Rules
  import opened Properties

  class Game {
    var head: Coord
    var food: Coord
    const body: array<Coord>
    var length: int
    var score: int
    var life: int
    var direction: int
    var gameState: Screen
    var multiplier: int
    var speed: int

    /** The array has its fixed capacity, the length indexes into it and the
        food lies on the grid. */
    ghost predicate Valid()
      reads this
    {
      body.Length == Capacity && 0 <= length <= Capacity && InGrid(food)
    }

    /** The globals other than `food` and `body`, as a value. */
    function Globals(): Ctx
      reads this
    {
      Ctx(head, length, score, life, direction, gameState, multiplier, speed)
    }

    /** The zero-initialised globals, with `game_state` set to the menu by `main`. */
    constructor ()
      ensures Valid() && Globals() == Initial && food == Coord(0, 0)
      ensures fresh(body) && forall i :: 0 <= i < Capacity ==> body[i] == Coord(0, 0)
    {
      head, food := Coord(0, 0), Coord(0, 0);
      body := new Coord[Capacity](_ => Coord(0, 0));
      length, score, life, direction := 0, 0, 0, 0;
      gameState := Menu;
      multiplier, speed := 0, 0;
    }

    /** `generate_food()`: the two `rand()` results are any non-negative
        integers; the clock-seeded generator is not modelled. */
    method GenerateFood()
      modifies this`food
      ensures InGrid(food)
    {
      var rx: int :| rx >= 0;
      var ry: int :| ry >= 0;
      food := FoodCell(rx, ry);
    }

    /** `setup()`: a fresh snake of five at the centre heading right, score 0,
        three lives, new food, playing; the body array is left as it is. */
    method Setup()
      requires Valid()
      modifies this
      ensures Valid()
      ensures Globals() == SetupCtx(old(Globals()))
      ensures unchanged(body)
    {
      length := 5;
      score := 0;
      life := 3;
      direction := Right;
      head := Coord(GameWidth / 2, GameHeight / 2);
      GenerateFood();
      gameState := Playing;
    }

    /** `game_over()`, without its sound. */
    method EndGame()
      modifies this`gameState
      ensures Globals() == old(Globals()).(state := GameOver)
    {
      gameState := GameOver;
    }

    /** The first step of `logic()`: the segments move up one place, from the
        tail down, and the head's cell becomes segment 0. */
    method ShiftBody()
      requires Valid()
      modifies body
      ensures body[..] == Shifted(old(body[..]), head, length)
    {
      ghost var before := body[..];
      var i := length - 1;
      while i > 0
        invariant -1 <= i < length
        invariant forall j :: i < j < length && 1 <= j ==> body[j] == before[j - 1]
        invariant forall j :: 0 <= j < Capacity && (j <= i || length <= j) ==> body[j] == before[j]
      {
        body[i] := body[i - 1];
        i := i - 1;
      }
      body[0] := head;
      ghost var after := Shifted(before, head, length);
      assert forall j :: 0 <= j < Capacity ==> body[j] == after[j];
    }

    /** The second step: the head moves one cell in the current direction. */
    method MoveHead()
      modifies this`head
      ensures head == Moved(old(head), direction)
    {
      if direction == Up {
        head := head.(y := head.y - 1);
      } else if direction == Down {
        head := head.(y := head.y + 1);
      } else if direction == Left {
        head := head.(x := head.x - 1);
      } else if direction == Right {
        head := head.(x := head.x + 1);
      }
    }

    /** The third step: on the food, the snake grows, scores and new food is drawn. */
    method EatIfOnFood() returns (ghost ate: bool)
      requires Valid() && (head == food ==> length < Capacity)
      modifies this
      ensures Valid()
      ensures Step(Globals(), ate) == Eat(old(Globals()), old(food))
      ensures !ate ==> food == old(food)
    {
      ate := false;
      if head.x == food.x && head.y == food.y {
        length := length + 1;
        score := score + multiplier;
        GenerateFood();
        ate := true;
      }
    }

    /** The fourth step: a head off the grid costs a life. */
    method CheckWalls() returns (ghost respawned: bool)
      requires Valid()
      modifies this
      ensures Valid()
      ensures Step(Globals(), respawned) == CheckBounds(old(Globals()))
      ensures !respawned ==> food == old(food)
    {
      respawned := false;
      if head.x < 0 || head.x >= GameWidth || head.y < 0 || head.y >= GameHeight {
        life := life - 1;
        if life > 0 {
          Setup();
          respawned := true;
        } else {
          EndGame();
        }
      }
    }

    /** The last step: every segment from index 1 that lies on the head costs
        a life; the loop goes on after a reset, up to the new length. */
    method CheckBody() returns (ghost respawned: bool)
      requires Valid()
      modifies this
      ensures Valid()
      ensures Step(Globals(), respawned) == SelfCheck(old(Globals()), body[..], 1)
      ensures !respawned ==> food == old(food)
    {
      ghost var start := Globals();
      ghost var segments := body[..];
      ghost var goal := SelfCheck(start, segments, 1);
      respawned := false;
      var i := 1;
      while i < length
        invariant Valid() && 1 <= i && body[..] == segments
        invariant SelfCheck(Globals(), segments, i).ctx == goal.ctx
        invariant (respawned || SelfCheck(Globals(), segments, i).respawned) == goal.respawned
        invariant !respawned ==> food == old(food)
        decreases Capacity - i
      {
        ghost var now := Globals();
        ghost var step := if now.head == segments[i] then Collide(now) else Step(now, false);
        ghost var hit := false;
        if head.x == body[i].x && head.y == body[i].y {
          life := life - 1;
          if life > 0 {
            Setup();
            hit := true;
          } else {
            EndGame();
          }
        }
        assert Step(Globals(), hit) == step;
        respawned := respawned || hit;
        i := i + 1;
      }
    }

    /** `logic()`: one tick, in the order of its five steps. The array is
        shifted whatever else happens; the rest of the state is what `Tick`
        gives, and the food is redrawn exactly when `Tick` says so. */
    method Logic() returns (ghost respawned: bool)
      requires Valid() && TickDefined(Globals(), food)
      modifies this, body
      ensures Valid()
      ensures body[..] == Shifted(old(body[..]), old(head), old(length))
      ensures Step(Globals(), respawned) == Tick(old(Globals()), old(food), old(body[..]))
      ensures !respawned ==> food == old(food)
    {
      ShiftBody();
      MoveHead();
      ghost var ate := EatIfOnFood();
      ghost var wall := CheckWalls();
      ghost var hit := CheckBody();
      respawned := ate || wall || hit;
    }

    /** `handle_menu_input()`: S opens the difficulty menu; Q asks to exit. */
    method HandleMenuInput(e: Event) returns (exit: bool)
      modifies this`gameState
      ensures Globals() == MenuKey(old(Globals()), e).ctx
      ensures exit <==> e == KeyDown(KeyQ)
    {
      exit := false;
      match e
      case KeyDown(k) =>
        if k == KeyS {
          gameState := DifficultyMenu;
        } else if k == KeyQ {
          exit := true;
        }
      case _ =>
    }

    /** `handle_difficulty_input()`: M, N, H choose speed and multiplier and start play. */
    method HandleDifficultyInput(e: Event) returns (ghost respawned: bool)
      requires Valid()
      modifies this
      ensures Valid()
      ensures Step(Globals(), respawned) == DifficultyKey(old(Globals()), e)
      ensures !respawned ==> food == old(food)
    {
      respawned := false;
      match e
      case KeyDown(k) =>
        if k == KeyM {
          speed, multiplier := 150, 5;
          Setup();
          respawned := true;
        } else if k == KeyN {
          speed, multiplier := 100, 10;
          Setup();
          respawned := true;
        } else if k == KeyH {
          speed, multiplier := 50, 20;
          Setup();
          respawned := true;
        }
      case _ =>
    }

    /** `input()`: arrows steer without reversing; Escape ends the game. */
    method Input(e: Event)
      modifies this`direction, this`gameState
      ensures Globals() == PlayKey(old(Globals()), e)
    {
      match e
      case KeyDown(k) =>
        if k == Up {
          if direction != Down { direction := Up; }
        } else if k == Down {
          if direction != Up { direction := Down; }
        } else if k == Left {
          if direction != Right { direction := Left; }
        } else if k == Right {
          if direction != Left { direction := Right; }
        } else if k == KeyEscape {
          EndGame();
        }
      case _ =>
    }

    /** One pass of `main`'s event loop body: the quit event is noted, then
        the event goes to the handler of the current screen. */
    method Dispatch(e: Event) returns (signal: Signal, ghost respawned: bool)
      requires Valid()
      modifies this
      ensures Valid()
      ensures Step(Globals(), respawned) == OnEvent(old(Globals()), e)
      ensures signal == Request(old(gameState), e)
      ensures !respawned ==> food == old(food)
    {
      signal := Continue;
      respawned := false;
      if e == QuitEvent {
        signal := Quit;
      }
      if gameState == Menu {
        var exit := HandleMenuInput(e);
        if exit {
          signal := Exit;
        }
      } else if gameState == Playing {
        Input(e);
      } else if gameState == GameOver {
        if e == KeyDown(KeyEscape) {
          signal := Quit;
        }
      } else {
        respawned := HandleDifficultyInput(e);
      }
    }

    /** One iteration of `main`'s outer loop, without drawing: drain the
        events, then tick if playing and the clock says a tick is due. Exiting
        from the menu stops at once. `foodAtTick` is the food cell the tick saw. */
    method Frame(events: seq<Event>, tickDue: bool) returns (quit: bool, exited: bool, ghost foodAtTick: Coord)
      requires Valid()
      requires tickDue ==>
        var d := Drain(Globals(), events);
        d.exited || d.ctx.state != Playing || d.respawned || TickDefined(d.ctx, food)
      modifies this, body
      ensures Valid()
      ensures var d := Drain(old(Globals()), events);
        quit == d.quit && exited == d.exited &&
        (!d.respawned ==> foodAtTick == old(food)) &&
        if !d.exited && d.ctx.state == Playing && tickDue then
          TickDefined(d.ctx, foodAtTick) &&
          Globals() == Tick(d.ctx, foodAtTick, old(body[..])).ctx &&
          body[..] == Shifted(old(body[..]), d.ctx.head, d.ctx.length) &&
          (!Tick(d.ctx, foodAtTick, old(body[..])).respawned ==> food == foodAtTick)
        else
          Globals() == d.ctx && food == foodAtTick && body[..] == old(body[..])
      ensures Reachable(old(Globals())) ==> Reachable(Globals())
      ensures old(gameState) == GameOver ==>
        Globals() == old(Globals()) && food == old(food) && body[..] == old(body[..]) && !exited
    {
      ghost var start := Globals();
      ghost var d := Drain(start, events);
      quit, exited := false, false;
      ghost var respawned := false;
      var i := 0;
      while i < |events| && !exited
        invariant Valid() && 0 <= i <= |events|
        invariant body[..] == old(body[..])
        invariant exited ==> d == Drained(Globals(), respawned, quit, true)
        invariant !exited ==>
          var rest := Drain(Globals(), events[i..]);
          d == Drained(rest.ctx, respawned || rest.respawned, quit || rest.quit, rest.exited)
        invariant !respawned ==> food == old(food)
      {
        assert events[i..][0] == events[i] && events[i..][1..] == events[i + 1..];
        var signal;
        ghost var r;
        signal, r := Dispatch(events[i]);
        respawned := respawned || r;
        if signal == Exit {
          exited := true;
        } else if signal == Quit {
          quit := true;
        }
        i := i + 1;
      }
      foodAtTick := food;
      if Reachable(start) {
        DrainKeepsReachable(start, events);
      }
      if !exited && gameState == Playing && tickDue {
        ghost var ticked := Logic();
        if Reachable(start) {
          TickKeepsPlaying(d.ctx, foodAtTick, old(body[..]));
        }
      }
      if start.state == GameOver {
        GameOverIsFinal(start, events);
      }
    }
  }
}
