# Snake game: verified model of the simulation and screen machine

This project models the game logic of a single-file SDL snake game
(`snake_game.c`): the global game context (head, food, the fixed
`body[1000]` array, length, score, life, direction, screen, difficulty
multiplier and speed), the per-tick update `logic()`, `setup()`,
`game_over()`, food placement, the three keyboard handlers and the
per-frame event dispatch and tick guard of `main`.

- `grid.dfy` (module `Grid`): grid constants (40 x 30 cells, capacity 1000),
  the SDL scancodes the game reacts to, cells, one-cell moves, steering and
  the food cell drawn from `rand()` values.
- `rules.dfy` (module `Rules`): the game as values. `Ctx` is the context
  without `food` and `body`; one function per stage of a tick (`Eat`,
  `CheckBounds`, the self-collision loop `SelfCheck`, `Tick`), per handler
  (`MenuKey`, `PlayKey`, `DifficultyKey`, `OnEvent`) and for a frame's event
  loop (`Drain`). `Reachable` is the invariant the program keeps.
- `properties.dfy` (module `Properties`): what the rules guarantee.
- `game.dfy` (module `SnakeGame`): class `Game`, whose fields are the C
  globals and whose methods update them in place. Each method is proved to
  follow the matching function of `Rules`; the array shift is a descending
  loop over an `array<Coord>` and the self-collision loop keeps running after
  a reset, as in the C code.

Food placement writes only `food`, and nothing in a tick reads `food` after
the eating check, so everything but the food is deterministic. The functions
report in a `respawned` flag whether `generate_food()` ran; the methods
promise that the food is unchanged otherwise and always on the grid.

A collision with lives left calls `setup()`, which sets life back to 3 and
the score to 0. A game that has reached the playing screen therefore never
reaches game over through collisions; only Escape gets there
(`Properties.TickKeepsPlaying`, `Properties.PlayingTransitions`).

After a meal the self-collision loop also reads the array entry just past
the old tail, which the shift never wrote; the model keeps this, and
`Properties.StaleTailCollides` shows a first meal on cell (0,0) resetting the
snake because the zero-filled array holds (0,0) there.

## Model

| member | source | states |
|---|---|---|
| `Grid.Moved` | snake_game.c:344-351 | the head moves exactly one cell along an arrow direction (up decreases y, down increases y, left decreases x, right increases x) and the other coordinate is unchanged; a non-arrow direction moves nothing |
| `Properties.MovedOppositeUndoes` | snake_game.c:344-351 | a move followed by a move in the opposite direction returns to the starting cell |
| `Grid.Steer` | snake_game.c:316-327 | an arrow key becomes the direction unless it is the exact opposite of the current one; other keys leave it; from an arrow the result is an arrow and never the reverse of the old direction, per key press |
| `Grid.FoodCell` | snake_game.c:387-391 | the food cell taken from two non-negative `rand()` results lies in [0,40) x [0,30) |
| `Rules.Shifted` | snake_game.c:338-341 | after the shift entry 0 is the old head, entry i is the old entry i-1 for 1 <= i < length, and entries from max(length,1) on are unchanged |
| `SnakeGame.Game.ShiftBody` | snake_game.c:337-341 | the in-place descending loop leaves the array equal to `Shifted` of its old contents |
| `SnakeGame.Game.MoveHead` | snake_game.c:343-351 | the head becomes `Moved` of the old head in the current direction |
| `SnakeGame.Game.EatIfOnFood` | snake_game.c:353-361 | on the food the length grows by one, the score by the multiplier and new food is drawn on the grid; otherwise nothing changes |
| `SnakeGame.Game.CheckWalls` | snake_game.c:363-371 | a head off the grid costs a life, then `setup()` if lives remain and `game_over()` otherwise |
| `SnakeGame.Game.CheckBody` | snake_game.c:373-383 | the self-collision loop, whose bound is re-read after a reset, ends in the state `SelfCheck` gives |
| `SnakeGame.Game.Logic` | snake_game.c:336-384 | one tick shifts the array and leaves the context as `Tick` gives it; it requires the length to fit the 1000-entry array, also after eating |
| `SnakeGame.Game.Setup` | snake_game.c:179-188 | length 5, score 0, life 3, direction right, head (20,15), food on the grid, playing; speed, multiplier and the body array are untouched |
| `SnakeGame.Game.EndGame` | snake_game.c:406-411 | only the screen changes, to game over |
| `SnakeGame.Game.GenerateFood` | snake_game.c:387-391 | the new food lies on the grid |
| `SnakeGame.Game.constructor` | snake_game.c:126-134 | all globals zero, the menu screen, food at (0,0) |
| `Rules.SetupCtx` | snake_game.c:179-188 | `setup()` gives playing, life 3, score 0, length 5, the head at the centre cell (20,15) heading right, and keeps multiplier and speed |
| `Rules.Collide` | snake_game.c:365-370 | one collision calls `setup()` exactly when more than one life was left; otherwise the game is over with one life fewer (none left) and head, length, score, direction, multiplier and speed are unchanged |
| `Rules.Eat` | snake_game.c:354-357 | food is redrawn exactly when the head is on it, and then the length grows by one and the score by the multiplier; nothing else changes |
| `Rules.CheckBounds` | snake_game.c:364-371 | a head on the grid changes nothing; afterwards the head is on the grid unless the game is over, and a head off the grid costs a life: with lives left it gives the `setup()` context and redrawn food, otherwise game over with one life fewer and nothing else changed |
| `Rules.SelfCheck` | snake_game.c:374-383 | the self-collision loop keeps multiplier and speed; without a reset head, length and score are unchanged, after one they are those of `setup()`; playing or game over stays within those two screens |
| `Rules.Tick` | snake_game.c:336-384 | after a tick the length still fits the array, multiplier and speed are kept, and from playing the screen is playing or game over |
| `Rules.MenuKey` | snake_game.c:264-275 | the menu handler draws no food and changes at most the screen, to the difficulty menu, and only on S |
| `Rules.DifficultyKey` | snake_game.c:289-309 | exactly M, N and H start a fresh game, which is reachable and a fixed point of `setup()`; any other event changes nothing |
| `Rules.PlayKey` | snake_game.c:313-333 | `input()` sets game over on Escape and otherwise sets the direction to `Steer` of the key; a non-key event changes nothing, and an arrow direction stays an arrow |
| `Rules.OnEvent` | snake_game.c:141-151 | a handler moves the screen only along menu, difficulty menu, playing, game over; it draws food exactly when it resets the snake to length 5 |
| `Rules.Request` | snake_game.c:137-151 | exit is asked only in the menu, quit only on a window-close event or on the game-over screen, and a window-close event always asks to quit |
| `Rules.Drain` | snake_game.c:137-152 | over a frame's events the screen only moves forward in the order menu, difficulty menu, playing, game over; the length is 5 if food was drawn and unchanged otherwise |
| `Properties.TwoKeysTurnAround` | snake_game.c:316-327 | two arrow keys in one frame turn a snake heading right to heading left before it moves: the no-reversal rule is per key press |
| `Properties.StaleTailCollides` | snake_game.c:338-383 | after a meal the self-collision loop reads the array entry just past the old tail, which the shift never wrote; with the zero-filled array a first meal on cell (0,0) counts as a collision and resets the snake, losing that meal's score |
| `Properties.TickResetsOrAdvances` | snake_game.c:336-384 | with at least two lives, a tick without collision moves the head one cell and, if it ate, adds one to the length and the multiplier to the score; after any collision (boundary or self, one or several) the context is the one `setup()` produces; food is redrawn exactly when the snake ate or collided |
| `Properties.SelfCheckWithLives` | snake_game.c:374-383 | with at least two lives the self-collision loop either finds no segment on the head and changes nothing or ends in the `setup()` context |
| `Properties.SelfCheckAfterSetup` | snake_game.c:374-383 | after a reset, further hits in the same loop leave the `setup()` context as it is |
| `Properties.SelfCheckLifeAndScreen` | snake_game.c:374-383 | through the loop the game is either playing with a life left or over with none, and once over it stays over |
| `Properties.TickGameOverIffNoLife` | snake_game.c:363-383 | after a tick started with a life left, the game is over exactly when no life is left |
| `Properties.LastLifeLeavesGrid` | snake_game.c:364-370 | with one life left, leaving the grid ends the game |
| `Properties.TickKeepsPlaying` | snake_game.c:364-383 | from a reachable playing state (three lives) a tick never reaches game over and the state stays reachable |
| `Properties.MenuTransitions` | snake_game.c:264-275 | in the menu only S changes the screen (to the difficulty menu) and only Q exits |
| `Properties.DifficultyTransitions` | snake_game.c:289-309 | M, N, H set (150, 5), (100, 10), (50, 20) and start play with a fresh snake; any other event changes nothing |
| `Properties.PlayingTransitions` | snake_game.c:313-333 | while playing, Escape is the only event that leaves the playing screen, for game over; other events change at most the direction |
| `Properties.EventKeepsReachable` | snake_game.c:137-151 | every handler keeps the program within its reachable states |
| `Properties.DrainKeepsReachable` | snake_game.c:137-152 | draining a frame's events keeps the program within its reachable states |
| `Properties.GameOverIsFinal` | snake_game.c:145-149 | on the game-over screen no event changes the game, draws food or exits; the loop quits exactly on a window-close event or Escape |
| `Properties.InitialIsReachable` | snake_game.c:131 | the program starts on the menu screen in a reachable state |
| `SnakeGame.Game.HandleMenuInput` | snake_game.c:264-275 | S opens the difficulty menu, Q asks to exit, anything else changes nothing |
| `SnakeGame.Game.HandleDifficultyInput` | snake_game.c:289-309 | the state is the one `DifficultyKey` gives |
| `SnakeGame.Game.Input` | snake_game.c:313-333 | arrows steer as `Steer` says, Escape ends the game |
| `SnakeGame.Game.Dispatch` | snake_game.c:137-151 | a window-close event asks to quit and every event goes to the handler of the current screen; on game over Escape asks to quit |
| `SnakeGame.Game.Frame` | snake_game.c:136-160 | the events are handled in order, stopping at an exit; a tick runs only while playing and when due, and is then the `Tick` of the state after the events, the food staying where it was unless the tick ate or collided; reachable states stay reachable and the game-over screen changes nothing |

## Left out

- Drawing, text, the window, fonts and sound (SDL, SDL_ttf, SDL_mixer calls, `init_sdl`, `close_sdl`, the sounds in `logic()` and `game_over()`): foreign library I/O with no game state.
- `exit(0)` on Q in the menu is modelled as an `Exit` signal that stops the frame at once; process teardown is not modelled.
- The clock: `SDL_GetTicks`, the unsigned subtraction against `game_speed` and `last_tick` are replaced by the parameter `tickDue`; `game_speed` is stored but not used.
- `srand(time(NULL))` and `rand()`: the two random values are any non-negative integers, so food placement is a nondeterministic choice on the grid.
- The repetition of `main`'s outer loop until `quit` is modelled one iteration at a time by `Frame`; `GameOverIsFinal` and `DrainKeepsReachable` cover any sequence of events.
- Logic: `length++` has no capacity check, and `Logic` requires `TickDefined`: the length fits `body[1000]` before the tick and still fits if the move eats. This is a sufficient condition, not the exact one: it also excludes ticks that stay in bounds, where length is 1000, the move eats and a self-collision at some index below 1000 resets the length to 5 before the loop reaches index 1000. The model says nothing of what the program does when an index leaves the array.
- EatIfOnFood: requires the length to be below 1000 when the head is on the food, the same capacity choice as `Logic`, so it excludes a meal at length 1000.
- Frame: requires `TickDefined` of the state after the events whenever a tick runs (the events neither exit nor leave the playing screen, and drew no new food, which only a difficulty key does while resetting the length to 5); like `Logic` it excludes the in-bounds meal-then-reset tick at length 1000.
- 32-bit `int` overflow of the score (after about 10^8 meals) and of the coordinates is not modelled; integers are unbounded.
