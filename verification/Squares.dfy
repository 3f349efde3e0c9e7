// Squares, the eight ray directions and the step geometry of the board.

module Squares {

  /** A square by file and rank, 0-based. Off-board values occur only while a ray is walked past the edge. */
  datatype Square = Sq(file: int, rank: int) {
    predicate OnBoard() {
      0 <= file < 8 && 0 <= rank < 8
    }

    /** The rank flip of `Square::Flip`: the file stays. */
    function Flip(): Square {
      Sq(file, 7 - rank)
    }
  }

  datatype Direction = N | S | E | W | NE | NW | SE | SW

  /** Rook directions; the other four are bishop directions. */
  predicate Straight(d: Direction) {
    d.N? || d.S? || d.E? || d.W?
  }

  function Opposite(d: Direction): Direction {
    match d
    case N => S
    case S => N
    case E => W
    case W => E
    case NE => SW
    case SW => NE
    case NW => SE
    case SE => NW
  }

  /** The direction seen after the board is turned upside down. */
  function FlipDirection(d: Direction): Direction {
    match d
    case N => S
    case S => N
    case E => E
    case W => W
    case NE => SE
    case SE => NE
    case NW => SW
    case SW => NW
  }

  /** The square `k` steps from `s` towards `d`. */
  function Step(s: Square, d: Direction, k: int): Square {
    match d
    case N => Sq(s.file, s.rank + k)
    case S => Sq(s.file, s.rank - k)
    case E => Sq(s.file + k, s.rank)
    case W => Sq(s.file - k, s.rank)
    case NE => Sq(s.file + k, s.rank + k)
    case NW => Sq(s.file - k, s.rank + k)
    case SE => Sq(s.file + k, s.rank - k)
    case SW => Sq(s.file - k, s.rank - k)
  }

  predicate Near(a: Square, b: Square) {
    -1 <= a.file - b.file <= 1 && -1 <= a.rank - b.rank <= 1
  }

  predicate KnightJump(a: Square, b: Square) {
    var dx, dy := a.file - b.file, a.rank - b.rank;
    ((dx == 1 || dx == -1) && (dy == 2 || dy == -2)) || ((dx == 2 || dx == -2) && (dy == 1 || dy == -1))
  }

  /** All squares below each other on the line from `s` through the `k`-th step, the end included. */
  ghost predicate OnRay(s: Square, d: Direction, k: int, t: Square) {
    exists i :: 1 <= i <= k && Step(s, d, i) == t
  }

  // ---- step geometry ----

  lemma StepInjective(s: Square, d: Direction, k: int, e: Direction, l: int)
    requires k >= 1 && l >= 1 && Step(s, d, k) == Step(s, e, l)
    ensures d == e && k == l
  {
  }

  lemma StepStep(s: Square, d: Direction, k: int, l: int)
    ensures Step(Step(s, d, k), d, l) == Step(s, d, k + l)
    ensures Step(Step(s, d, k), Opposite(d), l) == Step(s, d, k - l)
  {
  }

  lemma StepFlip(s: Square, d: Direction, k: int)
    ensures Step(s, d, k).Flip() == Step(s.Flip(), FlipDirection(d), k)
  {
  }

  lemma RayStaysOnBoard(s: Square, d: Direction, k: int, i: int)
    requires s.OnBoard() && Step(s, d, k).OnBoard() && 0 <= i <= k
    ensures Step(s, d, i).OnBoard() && k <= 7
  {
  }

  /** Two lines through one square meet only there: what keeps check lines and pin lines apart. */
  lemma LinesMeetOnce(s: Square, d: Direction, j: int, e: Direction, l: int, i: int)
    requires j >= 1 && l >= 1
    requires Step(Step(s, d, j), e, l) == Step(s, d, i)
    ensures (e == d && i == j + l) || (e == Opposite(d) && i == j - l)
  {
  }

  lemma KnightLeavesLine(s: Square, d: Direction, j: int, i: int)
    requires j >= 1
    ensures !KnightJump(Step(s, d, j), Step(s, d, i))
    ensures !KnightJump(s, Step(s, d, i))
  {
  }
}
