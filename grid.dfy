/** The playing field of the snake game: grid constants, cells, the SDL
    scancodes the game reacts to, and the pure rules for moving one cell,
    steering and placing food. */
module Grid {

  /** Window and cell sizes in pixels; the grid is the window divided into cells. */
  const WindowWidth := 800
  const WindowHeight := 600
  const CellSize := 20
  const GameWidth := WindowWidth / CellSize    // 40 columns
  const GameHeight := WindowHeight / CellSize  // 30 rows

  /** Number of entries in the global `body` array. */
  const Capacity := 1000

  /** SDL scancodes used by the game (letters are 4 + their place in the alphabet). */
  const KeyH := 11
  const KeyM := 16
  const KeyN := 17
  const KeyQ := 20
  const KeyS := 22
  const KeyEscape := 41
  const Right := 79
  const Left := 80
  const Down := 81
  const Up := 82

  /** A grid cell; coordinates are signed, as the head may step outside the grid. */
  datatype Coord = Coord(x: int, y: int)

  /** The cell the head is placed on by `setup()`. */
  const Center := Coord(GameWidth / 2, GameHeight / 2)

  predicate InGrid(c: Coord) {
    0 <= c.x < GameWidth && 0 <= c.y < GameHeight
  }

  predicate IsArrow(d: int) {
    d == Up || d == Down || d == Left || d == Right
  }

  /** The arrow pointing the other way. */
  function Opposite(d: int): int
    requires IsArrow(d)
  {
    if d == Up then Down
    else if d == Down then Up
    else if d == Left then Right
    else Left
  }

  function Abs(n: int): nat {
    if n < 0 then -n else n
  }

  /** The head after one tick's move: one cell along `d`; a value of `d` that is
      not an arrow (the zero it holds before the first setup) moves nothing. */
  function Moved(c: Coord, d: int): (r: Coord)
    ensures !IsArrow(d) ==> r == c
    ensures IsArrow(d) ==> Abs(r.x - c.x) + Abs(r.y - c.y) == 1
    ensures (d == Up || d == Down) ==> r.x == c.x
    ensures (d == Left || d == Right) ==> r.y == c.y
    ensures d == Up ==> r.y < c.y
    ensures d == Down ==> r.y > c.y
    ensures d == Left ==> r.x < c.x
    ensures d == Right ==> r.x > c.x
  {
    if d == Up then c.(y := c.y - 1)
    else if d == Down then c.(y := c.y + 1)
    else if d == Left then c.(x := c.x - 1)
    else if d == Right then c.(x := c.x + 1)
    else c
  }

  /** The direction after an arrow key is pressed while playing: the key is
      taken unless it points exactly against the current direction. */
  function Steer(d: int, key: int): (r: int)
    ensures !IsArrow(key) ==> r == d
    ensures IsArrow(key) ==> r == (if IsArrow(d) && key == Opposite(d) then d else key)
    ensures IsArrow(d) ==> IsArrow(r) && r != Opposite(d)
  {
    if key == Up then (if d != Down then Up else d)
    else if key == Down then (if d != Up then Down else d)
    else if key == Left then (if d != Right then Left else d)
    else if key == Right then (if d != Left then Right else d)
    else d
  }

  /** The food cell drawn from two `rand()` results: each reduced modulo the
      grid's width or height. */
  function FoodCell(rx: int, ry: int): (r: Coord)
    requires rx >= 0 && ry >= 0
    ensures InGrid(r)
  {
    Coord(rx % GameWidth, ry % GameHeight)
  }
}
