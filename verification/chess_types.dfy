/** Values shared by the whole engine: colours, pieces, squares and the 8×8 grid
    of `Board.grid` in SK_chess.py. A square is a (row, column) pair; row 0 is
    White's back rank and row 7 Black's. */
module ChessTypes {

  datatype Option<+T> = None | Some(value: T)

  datatype Color = White | Black

  /** The side that is not `c` (`AIPlayer.opponent` and the colour flip in `evaluate`). */
  function Opponent(c: Color): (o: Color)
    ensures o != c
  {
    if c == Black then White else Black
  }

  datatype Kind = Pawn | Knight | Bishop | Rook | Queen | King

  datatype Piece = Piece(kind: Kind, color: Color)

  type Square = (int, int)

  type Row = s: seq<Option<Piece>> | |s| == 8
    witness [None, None, None, None, None, None, None, None]

  type Grid = g: seq<Row> | |g| == 8
    witness var e: Row := [None, None, None, None, None, None, None, None];
            [e, e, e, e, e, e, e, e]

  const EmptyRow: Row := [None, None, None, None, None, None, None, None]

  const EmptyGrid: Grid := [EmptyRow, EmptyRow, EmptyRow, EmptyRow, EmptyRow, EmptyRow, EmptyRow, EmptyRow]

  predicate InBounds(s: Square) {
    0 <= s.0 < 8 && 0 <= s.1 < 8
  }

  /** What stands on `s`; squares off the board read as empty. */
  function GetPiece(g: Grid, s: Square): (p: Option<Piece>)
    ensures !InBounds(s) ==> p == None
  {
    if InBounds(s) then g[s.0][s.1] else None
  }

  /** An on-board square with nothing on it; squares off the board are not empty. */
  predicate IsEmpty(g: Grid, s: Square) {
    InBounds(s) && GetPiece(g, s).None?
  }

  /** `s` holds a piece of colour `c`. */
  predicate Friendly(g: Grid, s: Square, c: Color) {
    GetPiece(g, s).Some? && GetPiece(g, s).value.color == c
  }

  /** `s` holds a piece of the colour opposing `c`. */
  predicate Enemy(g: Grid, s: Square, c: Color) {
    GetPiece(g, s).Some? && GetPiece(g, s).value.color != c
  }

  /** The grid with `x` written on square `s` and every other square as before. */
  function Set(g: Grid, s: Square, x: Option<Piece>): (r: Grid)
    requires InBounds(s)
    ensures GetPiece(r, s) == x
    ensures forall t :: t != s ==> GetPiece(r, t) == GetPiece(g, t)
  {
    g[s.0 := g[s.0][s.1 := x]]
  }

  /** Two grids that agree on every square are the same grid. */
  lemma GridExt(a: Grid, b: Grid)
    requires forall s :: InBounds(s) ==> GetPiece(a, s) == GetPiece(b, s)
    ensures a == b
  {
    forall r | 0 <= r < 8
      ensures a[r] == b[r]
    {
      forall c | 0 <= c < 8
        ensures a[r][c] == b[r][c]
      {
        assert GetPiece(a, (r, c)) == GetPiece(b, (r, c));
      }
    }
  }

  /** Row-major position of a square: the order of the `for r: for c:` scans. */
  function Index(s: Square): int {
    8 * s.0 + s.1
  }

  /** The square at row-major position `j`. */
  function At(j: int): (s: Square)
    requires 0 <= j < 64
    ensures InBounds(s) && Index(s) == j
  {
    (j / 8, j % 8)
  }

  lemma AtIndex(s: Square)
    requires InBounds(s)
    ensures 0 <= Index(s) < 64 && At(Index(s)) == s
  {
  }
}
