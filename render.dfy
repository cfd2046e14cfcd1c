/** `drawGame`: the text frame sent to the serial port, as a sequence of
    lines (line terminators not included). The layout is 16 blank lines, a
    border, nine play rows, the ship row, a border and the status line. */
module Render {
  import opened Decimal
  import opened Rules

  const BlankLines: int := 16
  const Blank := "                      "
  const Border := "+--------------------+"
  /** Index of the first play row within a frame. */
  const FirstPlayRow: int := BlankLines + 1
  const ShipRowIndex: int := FirstPlayRow + Height - 1
  const FrameHeight: int := ShipRowIndex + 3

  predicate AsteroidAt(s: GameState, x: int, y: int) {
    x == s.asteroidX && y == s.asteroidY
  }

  predicate BulletAt(s: GameState, x: int, y: int) {
    x == s.bulletX && y == s.bulletY
  }

  /** The character drawn at column `x` of play row `y`. */
  function Glyph(s: GameState, x: int, y: int): char {
    if y == s.asteroidY && x == s.asteroidX then '*'
    else if y == s.bulletY && x == s.bulletX then '^'
    else ' '
  }

  /** The inside of play row `y`: the asteroid, else the bullet, else blank. */
  function Cells(s: GameState, y: int): (cells: string)
    ensures |cells| == Width
    ensures forall x :: 0 <= x < |cells| ==> (cells[x] == '*' <==> AsteroidAt(s, x, y))
    ensures forall x :: 0 <= x < |cells| ==> (cells[x] == '^' <==> BulletAt(s, x, y) && !AsteroidAt(s, x, y))
    ensures forall x :: 0 <= x < |cells| ==> (cells[x] == ' ' <==> !BulletAt(s, x, y) && !AsteroidAt(s, x, y))
  {
    seq(Width, x => Glyph(s, x, y))
  }

  /** The inside of the ship row: one `W` at the ship's lane. */
  function ShipCells(s: GameState): (cells: string)
    ensures |cells| == Width
    ensures forall x :: 0 <= x < |cells| ==> (cells[x] == 'W' <==> x == s.shipPosition)
    ensures forall x :: 0 <= x < |cells| ==> (cells[x] == ' ' <==> x != s.shipPosition)
  {
    seq(Width, x => if x == s.shipPosition then 'W' else ' ')
  }

  function Boxed(cells: string): string {
    "|" + cells + "|"
  }

  function StatusLine(s: GameState): string {
    "Lives: " + IntToString(s.lives) + " Score: " + IntToString(s.score)
  }

  function Frame(s: GameState): (lines: seq<string>)
    ensures |lines| == FrameHeight
    ensures forall i :: 0 <= i < BlankLines ==> lines[i] == Blank
    ensures lines[BlankLines] == Border && lines[ShipRowIndex + 1] == Border
    ensures forall y :: 0 <= y < Height - 1 ==> lines[FirstPlayRow + y] == Boxed(Cells(s, y))
    ensures lines[ShipRowIndex] == Boxed(ShipCells(s))
    ensures lines[FrameHeight - 1] == StatusLine(s)
    ensures forall i :: 0 <= i < FrameHeight - 1 ==> |lines[i]| == Width + 2
  {
    seq(BlankLines, _ => Blank) + [Border]
    + seq(Height - 1, y => Boxed(Cells(s, y)))
    + [Boxed(ShipCells(s)), Border, StatusLine(s)]
  }

  /** A bullet that is not in flight is never drawn. */
  lemma NoInactiveBulletDrawn(s: GameState, y: int, x: int)
    requires s.bulletY < 0 && 0 <= y < Height - 1 && 0 <= x < Width
    ensures Frame(s)[FirstPlayRow + y][x + 1] != '^'
  {
    assert Frame(s)[FirstPlayRow + y] == Boxed(Cells(s, y));
  }

  /** The status line can be read back: the printed lives and score are the
      state's. */
  lemma StatusLineRoundTrip(s: GameState)
    ensures var line := StatusLine(s);
      ParseInt(line[|"Lives: "|..|"Lives: "| + |IntToString(s.lives)|]) == s.lives
    ensures var line := StatusLine(s); var start := |"Lives: "| + |IntToString(s.lives)| + |" Score: "|;
      ParseInt(line[start..]) == s.score
  {
    var lives := IntToString(s.lives);
    var score := IntToString(s.score);
    var line := StatusLine(s);
    assert line[|"Lives: "|..|"Lives: "| + |lives|] == lives;
    assert line[|"Lives: "| + |lives| + |" Score: "|..] == score;
    IntToStringRoundTrip(s.lives);
    IntToStringRoundTrip(s.score);
  }
}
