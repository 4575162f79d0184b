/** What the rules of the game guarantee, stated over the functions in Rules. */
module Properties {
  import opened Grid
  import opened Rules

  /** Stepping one cell and then one cell the other way returns to the start. */
  lemma MovedOppositeUndoes(c: Coord, d: int)
    requires IsArrow(d)
    ensures Moved(Moved(c, d), Opposite(d)) == c
  {
  }

  /** A collision happens in a tick when the moved head leaves the grid or
      lands on one of the segments the self-collision loop looks at. */
  predicate Collides(c: Ctx, food: Coord, body: seq<Coord>)
    requires |body| == Capacity && TickDefined(c, food)
  {
    var a := Advance(c, food).ctx;
    var shifted := Shifted(body, c.head, c.length);
    !InGrid(a.head) || exists j :: 1 <= j < a.length && shifted[j] == a.head
  }

  /** Right after `setup()`, further hits in the loop reset to the same context. */
  lemma {:induction false} SelfCheckAfterSetup(c: Ctx, body: seq<Coord>, i: int)
    requires |body| == Capacity && 1 <= i
    requires c == SetupCtx(c)
    ensures SelfCheck(c, body, i).ctx == c
    decreases Capacity - i
  {
    if i < c.length {
      if c.head == body[i] {
        assert Collide(c).ctx == c;
      }
      SelfCheckAfterSetup(c, body, i + 1);
    }
  }

  /** While at least two lives are left, the self-collision loop either finds
      no segment on the head and changes nothing, or ends in the context
      `setup()` produces. */
  lemma {:induction false} SelfCheckWithLives(c: Ctx, body: seq<Coord>, i: int)
    requires |body| == Capacity && c.length <= Capacity && 1 <= i
    requires c.life >= 2
    ensures var hit := exists j :: i <= j < c.length && body[j] == c.head;
      SelfCheck(c, body, i) == if hit then Step(SetupCtx(c), true) else Step(c, false)
    decreases Capacity - i
  {
    if i < c.length {
      if c.head == body[i] {
        SelfCheckAfterSetup(SetupCtx(c), body, i + 1);
      } else {
        SelfCheckWithLives(c, body, i + 1);
        assert (exists j :: i <= j < c.length && body[j] == c.head)
          == (exists j :: i + 1 <= j < c.length && body[j] == c.head);
      }
    }
  }

  /** A tick with at least two lives never ends the game: without a collision
      the head has moved one cell and eating has added one segment and the
      multiplier to the score; after any collision the context is the one
      `setup()` produces (length 5, score 0, three lives, heading right from
      the centre), however many collisions the tick found. The food is drawn
      again exactly when the snake ate or collided. */
  lemma TickResetsOrAdvances(c: Ctx, food: Coord, body: seq<Coord>)
    requires |body| == Capacity && TickDefined(c, food)
    requires c.life >= 2
    ensures var r := Tick(c, food, body);
      var h := Moved(c.head, c.direction);
      var ate := h == food;
      r.respawned == (ate || Collides(c, food, body)) &&
      (Collides(c, food, body) ==> r.ctx == SetupCtx(c)) &&
      (!Collides(c, food, body) ==> r.ctx == c.(head := h,
                                                 length := if ate then c.length + 1 else c.length,
                                                 score := if ate then c.score + c.multiplier else c.score))
  {
    var a := Advance(c, food);
    var b := CheckBounds(a.ctx);
    var shifted := Shifted(body, c.head, c.length);
    if InGrid(a.ctx.head) {
      SelfCheckWithLives(b.ctx, shifted, 1);
    } else {
      assert b.ctx == SetupCtx(c);
      SelfCheckAfterSetup(b.ctx, shifted, 1);
    }
  }

  /** The segment just past the old tail is never written by the shift, yet
      after a meal the self-collision loop reads it. With the zero-filled
      array, a first meal on cell (0,0) therefore counts as a collision and
      the tick ends in the `setup()` context, losing the meal's score. */
  lemma StaleTailCollides(c: Ctx, body: seq<Coord>)
    requires |body| == Capacity && c.state == Playing && c.life == 3
    requires c.length == 5 && c.head == Coord(1, 0) && c.direction == Left
    requires body[5] == Coord(0, 0)
    ensures Tick(c, Coord(0, 0), body).ctx == SetupCtx(c)
  {
    var shifted := Shifted(body, c.head, c.length);
    assert shifted[5] == Coord(0, 0);
    TickResetsOrAdvances(c, Coord(0, 0), body);
  }

  /** The life counter and the screen agree through the loop: playing with a
      life left, or game over with none. */
  lemma {:induction false} SelfCheckLifeAndScreen(c: Ctx, body: seq<Coord>, i: int)
    requires |body| == Capacity && c.length <= Capacity && 1 <= i
    requires (c.state == Playing && c.life >= 1) || (c.state == GameOver && c.life <= 0)
    ensures var r := SelfCheck(c, body, i).ctx;
      ((r.state == Playing && r.life >= 1) || (r.state == GameOver && r.life <= 0)) &&
      (c.state == GameOver ==> r.state == GameOver)
    decreases Capacity - i
  {
    if i < c.length {
      var s := if c.head == body[i] then Collide(c) else Step(c, false);
      SelfCheckLifeAndScreen(s.ctx, body, i + 1);
    }
  }

  /** After any tick started with a life left, the game is over exactly when
      no life is left. */
  lemma TickGameOverIffNoLife(c: Ctx, food: Coord, body: seq<Coord>)
    requires |body| == Capacity && TickDefined(c, food)
    requires c.state == Playing && c.life >= 1
    ensures var r := Tick(c, food, body).ctx;
      (r.state == GameOver <==> r.life <= 0) && (r.state == Playing || r.state == GameOver)
  {
    var a := Advance(c, food);
    var b := CheckBounds(a.ctx);
    SelfCheckLifeAndScreen(b.ctx, Shifted(body, c.head, c.length), 1);
  }

  /** With one life left, leaving the grid ends the game. */
  lemma LastLifeLeavesGrid(c: Ctx, food: Coord, body: seq<Coord>)
    requires |body| == Capacity && TickDefined(c, food)
    requires c.state == Playing && c.life == 1
    requires !InGrid(Moved(c.head, c.direction))
    ensures Tick(c, food, body).ctx.state == GameOver
    ensures Tick(c, food, body).ctx.life <= 0
  {
    var a := Advance(c, food);
    var b := CheckBounds(a.ctx);
    assert b.ctx.state == GameOver && b.ctx.life == 0;
    SelfCheckLifeAndScreen(b.ctx, Shifted(body, c.head, c.length), 1);
  }

  /** From a reachable playing state a tick keeps playing and stays reachable:
      a collision never reaches the game-over screen in the program as written. */
  lemma TickKeepsPlaying(c: Ctx, food: Coord, body: seq<Coord>)
    requires |body| == Capacity && TickDefined(c, food)
    requires Reachable(c) && c.state == Playing
    ensures Tick(c, food, body).ctx.state == Playing
    ensures Reachable(Tick(c, food, body).ctx)
  {
    TickResetsOrAdvances(c, food, body);
  }

  /** In the menu only S changes the screen (to the difficulty menu), only Q
      exits, and no event draws food. */
  lemma MenuTransitions(c: Ctx, e: Event)
    requires c.state == Menu
    ensures OnEvent(c, e).ctx == (if e == KeyDown(KeyS) then c.(state := DifficultyMenu) else c)
    ensures !OnEvent(c, e).respawned
    ensures Request(c.state, e) == Exit <==> e == KeyDown(KeyQ)
  {
  }

  /** In the difficulty menu M, N and H start play with speed and multiplier
      (150, 5), (100, 10) and (50, 20) and a fresh snake; any other event
      changes nothing. */
  lemma DifficultyTransitions(c: Ctx, e: Event)
    requires c.state == DifficultyMenu
    ensures var r := OnEvent(c, e);
      (r.ctx.state == Playing <==> e in {KeyDown(KeyM), KeyDown(KeyN), KeyDown(KeyH)}) &&
      (r.ctx.state == Playing ==>
         r.respawned && r.ctx.life == 3 && r.ctx.score == 0 && r.ctx.length == 5 &&
         r.ctx.head == Center && r.ctx.direction == Right) &&
      (e == KeyDown(KeyM) ==> r.ctx.speed == 150 && r.ctx.multiplier == 5) &&
      (e == KeyDown(KeyN) ==> r.ctx.speed == 100 && r.ctx.multiplier == 10) &&
      (e == KeyDown(KeyH) ==> r.ctx.speed == 50 && r.ctx.multiplier == 20) &&
      (r.ctx.state != Playing ==> r == Step(c, false))
  {
  }

  /** While playing, Escape is the one event that leaves the playing screen,
      for the game-over screen; every other event at most turns the snake. */
  lemma PlayingTransitions(c: Ctx, e: Event)
    requires c.state == Playing
    ensures var r := OnEvent(c, e);
      !r.respawned &&
      (r.ctx.state == GameOver <==> e == KeyDown(KeyEscape)) &&
      (r.ctx.state == GameOver ==> r.ctx == c.(state := GameOver)) &&
      (r.ctx.state != GameOver ==> r.ctx.state == Playing && r.ctx == c.(direction := r.ctx.direction))
  {
  }

  /** The no-reversal rule holds per key press, not per tick: two arrow keys
      in the same frame turn the snake around before it moves. */
  lemma TwoKeysTurnAround(c: Ctx)
    requires c.state == Playing && c.direction == Right
    ensures Drain(c, [KeyDown(Up), KeyDown(Left)]).ctx.direction == Left
  {
    var es := [KeyDown(Up), KeyDown(Left)];
    var up := OnEvent(c, es[0]).ctx;
    assert up == c.(direction := Up);
    assert es[1..] == [KeyDown(Left)] && [KeyDown(Left)][1..] == [];
    assert Drain(up, es[1..]).ctx == up.(direction := Left);
  }

  /** Each handler keeps the program within its reachable states. */
  lemma EventKeepsReachable(c: Ctx, e: Event)
    requires Reachable(c)
    ensures Reachable(OnEvent(c, e).ctx)
  {
  }

  /** Draining a frame's events keeps the program within its reachable states. */
  lemma {:induction false} DrainKeepsReachable(c: Ctx, es: seq<Event>)
    requires Reachable(c)
    ensures Reachable(Drain(c, es).ctx)
    decreases |es|
  {
    if es != [] {
      EventKeepsReachable(c, es[0]);
      DrainKeepsReachable(OnEvent(c, es[0]).ctx, es[1..]);
    }
  }

  /** Once the game is over, no sequence of events changes the game, draws
      food or exits the process; the loop is asked to quit exactly when the
      window is closed or Escape is pressed. */
  lemma {:induction false} GameOverIsFinal(c: Ctx, es: seq<Event>)
    requires c.state == GameOver
    ensures var d := Drain(c, es);
      d.ctx == c && !d.respawned && !d.exited &&
      (d.quit <==> exists i :: 0 <= i < |es| && es[i] in {QuitEvent, KeyDown(KeyEscape)})
    decreases |es|
  {
    if es != [] {
      GameOverIsFinal(c, es[1..]);
      assert forall i :: 1 <= i < |es| ==> es[i] == es[1..][i - 1];
    }
  }

  /** The program starts in a reachable state. */
  lemma InitialIsReachable()
    ensures Reachable(Initial) && Initial.state == Menu
  {
  }
}
