/** The game's rules as values: the global game context without the food
    cell and the body array, and one function per stage of a tick and per
    input handler. The class in SnakeGame is proved to follow them. */
module Rules {
  import opened Grid

  /** The four screens; `game_state` holds 0, 1, 2 or 3 for them. */
  datatype Screen = Menu | Playing | GameOver | DifficultyMenu

  /** The globals of the game other than `food` and `body`. */
  datatype Ctx = Ctx(
    head: Coord,
    length: int,
    score: int,
    life: int,
    direction: int,
    state: Screen,
    multiplier: int,
    speed: int)

  /** A new context, and whether `generate_food()` ran on the way to it. */
  datatype Step = Step(ctx: Ctx, respawned: bool)

  /** What an event asks of the main loop besides its handler's effect. */
  datatype Signal = Continue | Quit | Exit

  /** An SDL event as far as the game looks at it. */
  datatype Event = QuitEvent | KeyDown(scancode: int) | OtherEvent

  /** The globals right after `main` sets the menu screen: all zero. */
  const Initial := Ctx(Coord(0, 0), 0, 0, 0, 0, Menu, 0, 0)

  /** `setup()`: everything but the speed, the multiplier and the body is
      reset (the food is drawn again). */
  function SetupCtx(c: Ctx): (r: Ctx)
    ensures r.state == Playing && r.life == 3 && r.score == 0 && r.length == 5
    ensures r.head == Center && InGrid(r.head) && r.direction == Right
    ensures r.multiplier == c.multiplier && r.speed == c.speed
  {
    c.(length := 5, score := 0, life := 3, direction := Right, head := Center, state := Playing)
  }

  /** One collision: a life is lost, then either `setup()` or `game_over()`. */
  function Collide(c: Ctx): (r: Step)
    ensures r.respawned <==> c.life > 1
    ensures r.respawned ==> r.ctx == SetupCtx(c)
    ensures !r.respawned ==>
      r.ctx.state == GameOver && r.ctx.life == c.life - 1 && r.ctx.life <= 0 &&
      r.ctx.head == c.head && r.ctx.length == c.length && r.ctx.score == c.score &&
      r.ctx.direction == c.direction && r.ctx.multiplier == c.multiplier && r.ctx.speed == c.speed
  {
    if c.life - 1 > 0 then Step(SetupCtx(c.(life := c.life - 1)), true)
    else Step(c.(life := c.life - 1, state := GameOver), false)
  }

  /** The eating check, made right after the head has moved. */
  function Eat(c: Ctx, food: Coord): (r: Step)
    ensures r.respawned <==> c.head == food
    ensures r.ctx.length == c.length + (if r.respawned then 1 else 0)
    ensures r.ctx.score == c.score + (if r.respawned then c.multiplier else 0)
    ensures r.ctx.(length := c.length, score := c.score) == c
  {
    if c.head == food then Step(c.(length := c.length + 1, score := c.score + c.multiplier), true)
    else Step(c, false)
  }

  /** The unconditional boundary check. */
  function CheckBounds(c: Ctx): (r: Step)
    ensures InGrid(c.head) ==> r == Step(c, false)
    ensures InGrid(r.ctx.head) || r.ctx.state == GameOver
    ensures !InGrid(c.head) ==> (r.ctx.state == GameOver <==> c.life <= 1)
    ensures !InGrid(c.head) ==>
      (r.respawned <==> c.life > 1) &&
      (r.respawned ==> r.ctx == SetupCtx(c)) &&
      (!r.respawned ==> r.ctx == c.(life := c.life - 1, state := GameOver))
  {
    if InGrid(c.head) then Step(c, false) else Collide(c)
  }

  /** The self-collision loop from index `i` on; its bound is the length of
      the current context, which a reset in the loop lowers to 5. */
  function SelfCheck(c: Ctx, body: seq<Coord>, i: int): (r: Step)
    requires |body| == Capacity && c.length <= Capacity && 1 <= i
    ensures r.ctx.multiplier == c.multiplier && r.ctx.speed == c.speed
    ensures !r.respawned ==> r.ctx.head == c.head && r.ctx.length == c.length && r.ctx.score == c.score
    ensures r.respawned ==> r.ctx.length == 5 && r.ctx.score == 0 && r.ctx.head == Center
    ensures (c.state == Playing || c.state == GameOver) ==> (r.ctx.state == Playing || r.ctx.state == GameOver)
    decreases Capacity - i
  {
    if i < c.length then
      var s := if c.head == body[i] then Collide(c) else Step(c, false);
      var rest := SelfCheck(s.ctx, body, i + 1);
      Step(rest.ctx, s.respawned || rest.respawned)
    else Step(c, false)
  }

  /** The body array after the shift: the old head enters at index 0, the
      first `length - 1` segments move up one place, the rest stays. */
  function Shifted(body: seq<Coord>, head: Coord, length: int): (r: seq<Coord>)
    requires 1 <= |body| && 0 <= length <= |body|
    ensures |r| == |body|
    ensures r[0] == head
    ensures forall i :: 1 <= i < length ==> r[i] == body[i - 1]
    ensures forall i :: 1 <= i < |body| && length <= i ==> r[i] == body[i]
  {
    var n := if length == 0 then 1 else length;
    [head] + body[..n - 1] + body[n..]
  }

  /** A sufficient condition for the indices of `body` to stay within the
      array throughout a tick: the length fits before the tick, and still
      fits if the move eats. */
  predicate TickDefined(c: Ctx, food: Coord) {
    0 <= c.length <= Capacity && (Moved(c.head, c.direction) == food ==> c.length < Capacity)
  }

  /** The head's move and the food check. */
  function Advance(c: Ctx, food: Coord): Step {
    Eat(c.(head := Moved(c.head, c.direction)), food)
  }

  /** `logic()`: shift, move, eat, boundary check, self-collision loop, on
      the context, the food cell and the body array before the tick. */
  function Tick(c: Ctx, food: Coord, body: seq<Coord>): (r: Step)
    requires |body| == Capacity && TickDefined(c, food)
    ensures 0 <= r.ctx.length <= Capacity
    ensures r.ctx.multiplier == c.multiplier && r.ctx.speed == c.speed
    ensures c.state == Playing ==> r.ctx.state == Playing || r.ctx.state == GameOver
  {
    var a := Advance(c, food);
    var b := CheckBounds(a.ctx);
    var s := SelfCheck(b.ctx, Shifted(body, c.head, c.length), 1);
    Step(s.ctx, a.respawned || b.respawned || s.respawned)
  }

  /** `handle_menu_input()`: S opens the difficulty menu (Q is an Exit signal). */
  function MenuKey(c: Ctx, e: Event): (r: Step)
    ensures !r.respawned
    ensures r.ctx == c || r.ctx == c.(state := DifficultyMenu)
    ensures r.ctx.state == DifficultyMenu ==> e == KeyDown(KeyS) || c.state == DifficultyMenu
  {
    if e == KeyDown(KeyS) then Step(c.(state := DifficultyMenu), false) else Step(c, false)
  }

  /** `handle_difficulty_input()`: M, N and H set speed and multiplier, then `setup()`. */
  function DifficultyKey(c: Ctx, e: Event): (r: Step)
    ensures !r.respawned ==> r.ctx == c
    ensures r.respawned ==> r.ctx == SetupCtx(r.ctx) && Reachable(r.ctx)
    ensures r.respawned <==> e in {KeyDown(KeyM), KeyDown(KeyN), KeyDown(KeyH)}
  {
    if e == KeyDown(KeyM) then Step(SetupCtx(c.(speed := 150, multiplier := 5)), true)
    else if e == KeyDown(KeyN) then Step(SetupCtx(c.(speed := 100, multiplier := 10)), true)
    else if e == KeyDown(KeyH) then Step(SetupCtx(c.(speed := 50, multiplier := 20)), true)
    else Step(c, false)
  }

  /** `input()`: Escape calls `game_over()`, arrows steer. */
  function PlayKey(c: Ctx, e: Event): (r: Ctx)
    ensures r == c.(state := GameOver) || r == c.(direction := r.direction)
    ensures r.state == GameOver ==> e == KeyDown(KeyEscape) || c.state == GameOver
    ensures IsArrow(c.direction) ==> IsArrow(r.direction)
    ensures e.KeyDown? && e.scancode != KeyEscape ==> r == c.(direction := Steer(c.direction, e.scancode))
    ensures !e.KeyDown? ==> r == c
  {
    match e
    case KeyDown(k) =>
      if k == KeyEscape then c.(state := GameOver) else c.(direction := Steer(c.direction, k))
    case _ => c
  }

  /** The handler `main` runs for one event on the current screen. */
  function OnEvent(c: Ctx, e: Event): (r: Step)
    ensures r.ctx.state == c.state || Edge(c.state, r.ctx.state)
    ensures r.respawned ==> r.ctx.length == 5 && r.ctx.state == Playing
    ensures !r.respawned ==> r.ctx.length == c.length
  {
    match c.state
    case Menu => MenuKey(c, e)
    case Playing => Step(PlayKey(c, e), false)
    case GameOver => Step(c, false)
    case DifficultyMenu => DifficultyKey(c, e)
  }

  /** What one event asks of the main loop: the window's quit event and
      Escape on the game-over screen end it, Q in the menu exits the process. */
  function Request(state: Screen, e: Event): (r: Signal)
    ensures r == Exit ==> state == Menu
    ensures r == Quit ==> e == QuitEvent || state == GameOver
    ensures e == QuitEvent ==> r == Quit
  {
    if e == QuitEvent then Quit
    else if state == Menu && e == KeyDown(KeyQ) then Exit
    else if state == GameOver && e == KeyDown(KeyEscape) then Quit
    else Continue
  }

  /** The result of draining a frame's events. */
  datatype Drained = Drained(ctx: Ctx, respawned: bool, quit: bool, exited: bool)

  /** The event loop of one frame: every event goes to the current screen's
      handler in order, until one exits the process. */
  function Drain(c: Ctx, es: seq<Event>): (d: Drained)
    ensures d.respawned ==> d.ctx.length == 5
    ensures !d.respawned ==> d.ctx.length == c.length
    ensures d.ctx.state == c.state || Reaches(c.state, d.ctx.state)
    decreases |es|
  {
    if es == [] then Drained(c, false, false, false)
    else
      var s := OnEvent(c, es[0]);
      if Request(c.state, es[0]) == Exit then Drained(s.ctx, s.respawned, false, true)
      else
        var d := Drain(s.ctx, es[1..]);
        Drained(d.ctx, s.respawned || d.respawned, Request(c.state, es[0]) == Quit || d.quit, d.exited)
  }

  /** The screen changes a handler can make: menu to difficulty menu,
      difficulty menu to playing, playing to game over. */
  predicate Edge(from: Screen, to: Screen) {
    (from == Menu && to == DifficultyMenu) ||
    (from == DifficultyMenu && to == Playing) ||
    (from == Playing && to == GameOver)
  }

  /** One or more screen changes in a row; the screens are only ever
      visited in the order menu, difficulty menu, playing, game over. */
  predicate Reaches(from: Screen, to: Screen) {
    Order(from) < Order(to)
  }

  function Order(s: Screen): nat {
    match s
    case Menu => 0
    case DifficultyMenu => 1
    case Playing => 2
    case GameOver => 3
  }

  /** The states the program can be in: once playing, the snake has all its
      lives, a grid cell for a head, an arrow for a direction, at least five
      segments and a score no lower than zero. */
  predicate Reachable(c: Ctx) {
    c.state == Playing ==>
      c.life == 3 && InGrid(c.head) && IsArrow(c.direction) && 5 <= c.length &&
      0 <= c.score && (c.multiplier == 5 || c.multiplier == 10 || c.multiplier == 20)
  }
}
