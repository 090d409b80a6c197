/** `Board.evaluate`: the static score of a position for one side, material
    balance plus ten times the difference in the number of legal moves. */
module Evaluation {
  import opened ChessTypes
  import opened Board

  /** The material value of each kind. */
  function PieceValue(k: Kind): nat {
    match k
    case Pawn => 100
    case Knight => 320
    case Bishop => 330
    case Rook => 500
    case Queen => 900
    case King => 20000
  }

  const MobilityWeight: int := 10

  /** What one square contributes to `ai`'s material: its piece's value, counted
      for `ai` and against the other side. */
  function Score(p: Option<Piece>, ai: Color): int {
    match p
    case None => 0
    case Some(q) => if q.color == ai then PieceValue(q.kind) else -(PieceValue(q.kind) as int)
  }

  /** Material over the squares at row-major position `j` or later. */
  function MaterialFrom(g: Grid, ai: Color, j: nat): int
    requires j <= 64
    decreases 8 * |g| - j
  {
    if j == 64 then 0 else Score(GetPiece(g, At(j)), ai) + MaterialFrom(g, ai, j + 1)
  }

  /** The material term of `evaluate`: the signed sum over every square. */
  function Material(g: Grid, ai: Color): int {
    MaterialFrom(g, ai, 0)
  }

  /** `Board.evaluate(ai_color)`. */
  function Evaluate(g: Grid, ai: Color): int {
    Material(g, ai) + MobilityWeight * (|LegalMoves(g, ai)| - |LegalMoves(g, Opponent(ai))|)
  }

  lemma {:induction false} MaterialFromAntisymmetric(g: Grid, j: nat)
    requires j <= 64
    decreases 64 - j
    ensures MaterialFrom(g, White, j) == -MaterialFrom(g, Black, j)
  {
    if j < 64 {
      MaterialFromAntisymmetric(g, j + 1);
    }
  }

  /** The two sides' material always sums to zero. */
  lemma MaterialAntisymmetric(g: Grid)
    ensures Material(g, White) == -Material(g, Black)
  {
    MaterialFromAntisymmetric(g, 0);
  }

  /** The evaluation is zero-sum: what is good for White is bad for Black by the same amount. */
  lemma EvaluateAntisymmetric(g: Grid)
    ensures Evaluate(g, White) == -Evaluate(g, Black)
  {
    MaterialAntisymmetric(g);
  }

  /** Writing `x` on `s` changes the material from position `j` on by exactly
      the difference of the two squares' contributions, when `s` is in range. */
  lemma {:induction false} MaterialFromSet(g: Grid, ai: Color, s: Square, x: Option<Piece>, j: nat)
    requires InBounds(s) && j <= 64
    decreases 64 - j
    ensures MaterialFrom(Set(g, s, x), ai, j) ==
            MaterialFrom(g, ai, j) + (if j <= Index(s) then Score(x, ai) - Score(GetPiece(g, s), ai) else 0)
  {
    if j < 64 {
      MaterialFromSet(g, ai, s, x, j + 1);
      AtIndex(s);
      if j == Index(s) {
        assert At(j) == s;
      }
    }
  }

  /** Writing `x` on `s` changes the material by exactly the difference of the square's contributions. */
  lemma MaterialSet(g: Grid, ai: Color, s: Square, x: Option<Piece>)
    requires InBounds(s)
    ensures Material(Set(g, s, x), ai) == Material(g, ai) + Score(x, ai) - Score(GetPiece(g, s), ai)
  {
    AtIndex(s);
    MaterialFromSet(g, ai, s, x, 0);
  }

  /** A move shifts the material by the value of what it captures and, when a
      Pawn promotes, by the difference between a Queen and a Pawn. */
  lemma MaterialAfterMove(g: Grid, m: Move, ai: Color)
    requires OnBoard(m) && m.start != m.end
    ensures var captured := MakeMove(g, m).1;
            !IsPromotion(g, m) ==> Material(Apply(g, m), ai) == Material(g, ai) - Score(captured, ai)
    ensures var captured := MakeMove(g, m).1;
            var mover := GetPiece(g, m.start);
            IsPromotion(g, m) ==>
              Material(Apply(g, m), ai) ==
              Material(g, ai) - Score(captured, ai)
                + Score(Some(Piece(Queen, mover.value.color)), ai) - Score(mover, ai)
  {
    var mover := GetPiece(g, m.start);
    var placed := if IsPromotion(g, m) then Some(Piece(Queen, mover.value.color)) else mover;
    var g1 := Set(g, m.end, placed);
    MaterialSet(g, ai, m.end, placed);
    MaterialSet(g1, ai, m.start, None);
    assert GetPiece(g1, m.start) == mover;
    assert Apply(g, m) == Set(g1, m.start, None);
  }
}
