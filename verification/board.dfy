/** The rules engine of `Board` in SK_chess.py: applying and taking back a
    move, finding a King, check, pseudo-legal and legal move lists, checkmate and
    stalemate, and the starting position. The board is an immutable `Grid`;
    `move` returns the new grid together with the piece it captured. */
module Board {
  import opened ChessTypes
  import opened Pieces

  /** A trial move: `piece` is what stood on `start` when the move was generated. */
  datatype Move = Move(start: Square, end: Square, piece: Piece)

  predicate OnBoard(m: Move) {
    InBounds(m.start) && InBounds(m.end)
  }

  /** `move` promotes: a Pawn is on `start` and `end` is on row 0 or row 7. */
  predicate IsPromotion(g: Grid, m: Move) {
    && GetPiece(g, m.start).Some?
    && GetPiece(g, m.start).value.kind == Pawn
    && (m.end.0 == 0 || m.end.0 == 7)
  }

  /** `Board.move`: empties `start`, puts what stood there on `end` (a Queen of
      the same colour instead of a promoting Pawn), and reports what `end` held. */
  function MakeMove(g: Grid, m: Move): (res: (Grid, Option<Piece>))
    requires OnBoard(m)
    ensures res.1 == GetPiece(g, m.end)
    ensures GetPiece(res.0, m.start) == None
    ensures m.start != m.end && IsPromotion(g, m) ==>
              GetPiece(res.0, m.end) == Some(Piece(Queen, GetPiece(g, m.start).value.color))
    ensures m.start != m.end && !IsPromotion(g, m) ==> GetPiece(res.0, m.end) == GetPiece(g, m.start)
    ensures forall t :: t != m.start && t != m.end ==> GetPiece(res.0, t) == GetPiece(g, t)
  {
    var p := GetPiece(g, m.start);
    var placed := if IsPromotion(g, m) then Some(Piece(Queen, p.value.color)) else p;
    (Set(Set(g, m.end, placed), m.start, None), GetPiece(g, m.end))
  }

  /** The grid after `m`, forgetting the capture. */
  function Apply(g: Grid, m: Move): Grid
    requires OnBoard(m)
  {
    MakeMove(g, m).0
  }

  /** `Board.unmove` as SK_chess.py writes it: whatever now stands on `end` goes
      back to `start`, and `captured` goes back on `end`. */
  function UnmoveAsWritten(g: Grid, m: Move, captured: Option<Piece>): (r: Grid)
    requires OnBoard(m)
    ensures GetPiece(r, m.end) == captured
    ensures m.start != m.end ==> GetPiece(r, m.start) == GetPiece(g, m.end)
    ensures forall t :: t != m.start && t != m.end ==> GetPiece(r, t) == GetPiece(g, t)
  {
    Set(Set(g, m.start, GetPiece(g, m.end)), m.end, captured)
  }

  /** The take-back the apply/revert discipline needs: the moving piece recorded
      in `m` goes back to `start`, and `captured` goes back on `end`. */
  function Unmove(g: Grid, m: Move, captured: Option<Piece>): (r: Grid)
    requires OnBoard(m)
    ensures GetPiece(r, m.end) == captured
    ensures m.start != m.end ==> GetPiece(r, m.start) == Some(m.piece)
    ensures forall t :: t != m.start && t != m.end ==> GetPiece(r, t) == GetPiece(g, t)
  {
    Set(Set(g, m.start, Some(m.piece)), m.end, captured)
  }

  /** Taking back a move that does not promote, as the program does it, restores the grid exactly. */
  lemma UnmoveAsWrittenRestores(g: Grid, m: Move)
    requires OnBoard(m) && !IsPromotion(g, m)
    ensures var (g1, captured) := MakeMove(g, m); UnmoveAsWritten(g1, m, captured) == g
  {
    var (g1, captured) := MakeMove(g, m);
    GridExt(UnmoveAsWritten(g1, m, captured), g);
  }

  /** Taking back a promotion as the program does it leaves a Queen where the Pawn started. */
  lemma UnmoveAsWrittenPromotion(g: Grid, m: Move)
    requires OnBoard(m) && m.start != m.end && IsPromotion(g, m)
    ensures var (g1, captured) := MakeMove(g, m);
            UnmoveAsWritten(g1, m, captured) == Set(g, m.start, Some(Piece(Queen, GetPiece(g, m.start).value.color)))
    ensures var (g1, captured) := MakeMove(g, m); UnmoveAsWritten(g1, m, captured) != g
  {
    var (g1, captured) := MakeMove(g, m);
    var q := Some(Piece(Queen, GetPiece(g, m.start).value.color));
    GridExt(UnmoveAsWritten(g1, m, captured), Set(g, m.start, q));
    assert GetPiece(UnmoveAsWritten(g1, m, captured), m.start) != GetPiece(g, m.start);
  }

  /** Taking back any move whose recorded piece is the one on `start`, promotions
      included, restores the grid exactly. */
  lemma UnmoveRestores(g: Grid, m: Move)
    requires OnBoard(m) && GetPiece(g, m.start) == Some(m.piece)
    ensures var (g1, captured) := MakeMove(g, m); Unmove(g1, m, captured) == g
  {
    var (g1, captured) := MakeMove(g, m);
    GridExt(Unmove(g1, m, captured), g);
  }

  // ---------------------------------------------------------------- kings and check

  predicate KingAt(g: Grid, color: Color, s: Square) {
    GetPiece(g, s) == Some(Piece(King, color))
  }

  /** The first King of `color` at row-major position `j` or later. Like every
      square scan here it decreases `8 * |g| - j`, the squares left (64 - j). */
  function FindKingFrom(g: Grid, color: Color, j: nat): (r: Option<Square>)
    requires j <= 64
    decreases 8 * |g| - j
    ensures r.Some? ==> InBounds(r.value) && j <= Index(r.value) && KingAt(g, color, r.value)
    ensures r.Some? ==> forall i :: j <= i < Index(r.value) ==> !KingAt(g, color, At(i))
    ensures r.None? ==> forall i :: j <= i < 64 ==> !KingAt(g, color, At(i))
  {
    if j == 64 then None
    else if KingAt(g, color, At(j)) then Some(At(j))
    else FindKingFrom(g, color, j + 1)
  }

  /** `Board.find_king`: the first King of `color` in row-major order, if any. */
  function FindKing(g: Grid, color: Color): (r: Option<Square>)
    ensures r.None? <==> forall s {:trigger KingAt(g, color, s)} :: InBounds(s) ==> !KingAt(g, color, s)
    ensures r.Some? ==> InBounds(r.value) && KingAt(g, color, r.value)
    ensures r.Some? ==> forall s {:trigger KingAt(g, color, s)} :: InBounds(s) && Index(s) < Index(r.value) ==> !KingAt(g, color, s)
  {
    var r := FindKingFrom(g, color, 0);
    forall s | InBounds(s)
      ensures 0 <= Index(s) < 64 && At(Index(s)) == s
    {
      AtIndex(s);
    }
    r
  }

  /** An opposing piece stands on `s` and has king square `k` among its targets. */
  predicate Attacks(g: Grid, color: Color, k: Square, s: Square) {
    match GetPiece(g, s)
    case Some(p) => p.color != color && k in Targets(g, p, s)
    case None => false
  }

  /** Some square at row-major position `j` or later attacks `k`. */
  function AttackedFrom(g: Grid, color: Color, k: Square, j: nat): (r: bool)
    requires j <= 64
    decreases 8 * |g| - j
    ensures r <==> exists i :: j <= i < 64 && Attacks(g, color, k, At(i))
  {
    if j == 64 then false
    else Attacks(g, color, k, At(j)) || AttackedFrom(g, color, k, j + 1)
  }

  /** `Board.in_check`: the King `find_king` reports is among the targets of an
      opposing piece. With no King of that colour, the side is not in check. */
  function InCheck(g: Grid, color: Color): (r: bool)
    ensures r <==> FindKing(g, color).Some? &&
                   exists s {:trigger Attacks(g, color, FindKing(g, color).value, s)} :: InBounds(s) && Attacks(g, color, FindKing(g, color).value, s)
  {
    match FindKing(g, color)
    case None => false
    case Some(k) =>
      var r := AttackedFrom(g, color, k, 0);
      forall s | InBounds(s)
        ensures 0 <= Index(s) < 64 && At(Index(s)) == s
      {
        AtIndex(s);
      }
      r
  }

  // ---------------------------------------------------------------- move lists

  /** `m` is a pseudo-legal move of `color`: its piece stands on `start`, is of
      that colour, and has `end` among its targets. */
  predicate IsPseudo(g: Grid, color: Color, m: Move) {
    && InBounds(m.start)
    && InBounds(m.end)
    && GetPiece(g, m.start) == Some(m.piece)
    && m.piece.color == color
    && m.end in Targets(g, m.piece, m.start)
  }

  /** One `Move(s, t, p)` per target `t`, in order. */
  function MovesTo(s: Square, p: Piece, ts: seq<Square>): (ms: seq<Move>)
    ensures forall m {:trigger m in ms} :: m in ms <==> m.start == s && m.piece == p && m.end in ts
  {
    if ts == [] then [] else [Move(s, ts[0], p)] + MovesTo(s, p, ts[1..])
  }

  /** The pseudo-legal moves of whatever stands on `s`. */
  function MovesAt(g: Grid, color: Color, s: Square): (ms: seq<Move>)
    requires InBounds(s)
    ensures forall m {:trigger m in ms} :: m in ms <==> IsPseudo(g, color, m) && m.start == s
  {
    match GetPiece(g, s)
    case Some(p) => if p.color == color then MovesTo(s, p, Targets(g, p, s)) else []
    case None => []
  }

  /** The pseudo-legal moves of pieces at row-major position `j` or later. */
  function PseudoFrom(g: Grid, color: Color, j: nat): (ms: seq<Move>)
    requires j <= 64
    decreases 8 * |g| - j
    ensures forall m {:trigger m in ms} :: m in ms <==> IsPseudo(g, color, m) && j <= Index(m.start)
  {
    if j == 64 then []
    else
      var ms := MovesAt(g, color, At(j)) + PseudoFrom(g, color, j + 1);
      forall m | IsPseudo(g, color, m) && j == Index(m.start)
        ensures m.start == At(j)
      {
        AtIndex(m.start);
      }
      ms
  }

  /** The first half of `all_valid_moves`: every pseudo-legal move of `color`,
      square by square in row-major order. */
  function PseudoMoves(g: Grid, color: Color): (ms: seq<Move>)
    ensures forall m {:trigger m in ms} :: m in ms <==> IsPseudo(g, color, m)
  {
    PseudoFrom(g, color, 0)
  }

  /** The moves of `ms` after which `color` is not in check, in order. */
  function KeepSafe(g: Grid, color: Color, ms: seq<Move>): (r: seq<Move>)
    requires forall m :: m in ms ==> OnBoard(m)
    ensures |r| <= |ms|
    ensures forall m {:trigger m in r} {:trigger m in ms} :: m in r <==> m in ms && !InCheck(Apply(g, m), color)
  {
    if ms == [] then []
    else (if !InCheck(Apply(g, ms[0]), color) then [ms[0]] else []) + KeepSafe(g, color, ms[1..])
  }

  /** `m` is a legal move of `color`: pseudo-legal and not leaving `color` in check. */
  predicate IsLegal(g: Grid, color: Color, m: Move) {
    IsPseudo(g, color, m) && !InCheck(Apply(g, m), color)
  }

  /** `Board.all_valid_moves`: the pseudo-legal moves after which the mover is
      not in check. Each is an on-board move whose recorded piece stands on its start. */
  function LegalMoves(g: Grid, color: Color): (ms: seq<Move>)
    ensures forall m {:trigger m in ms} :: m in ms <==> IsLegal(g, color, m)
    ensures forall i :: 0 <= i < |ms| ==> OnBoard(ms[i]) && ms[i].start != ms[i].end && GetPiece(g, ms[i].start) == Some(ms[i].piece)
  {
    var ms := KeepSafe(g, color, PseudoMoves(g, color));
    assert forall i :: 0 <= i < |ms| ==> ms[i] in ms;
    ms
  }

  /** `Board.is_checkmate`: in check, and every pseudo-legal move leaves the King in check. */
  function IsCheckmate(g: Grid, color: Color): (r: bool)
    ensures r <==> InCheck(g, color) && forall m {:trigger IsPseudo(g, color, m)} :: IsPseudo(g, color, m) ==> InCheck(Apply(g, m), color)
  {
    var ms := LegalMoves(g, color);
    assert |ms| > 0 ==> ms[0] in ms;
    forall m | IsPseudo(g, color, m) && |ms| == 0
      ensures InCheck(Apply(g, m), color)
    {
      assert m !in ms;
    }
    InCheck(g, color) && |ms| == 0
  }

  /** `Board.is_stalemate`: not in check, but every pseudo-legal move would put the King in check. */
  function IsStalemate(g: Grid, color: Color): (r: bool)
    ensures r <==> !InCheck(g, color) && forall m {:trigger IsPseudo(g, color, m)} :: IsPseudo(g, color, m) ==> InCheck(Apply(g, m), color)
  {
    var ms := LegalMoves(g, color);
    assert |ms| > 0 ==> ms[0] in ms;
    forall m | IsPseudo(g, color, m) && |ms| == 0
      ensures InCheck(Apply(g, m), color)
    {
      assert m !in ms;
    }
    !InCheck(g, color) && |ms| == 0
  }

  /** A side has no legal move exactly when the game is over for it, and it is
      over in exactly one way: checkmate or stalemate. */
  lemma GameOverExclusive(g: Grid, color: Color)
    ensures !(IsCheckmate(g, color) && IsStalemate(g, color))
    ensures IsCheckmate(g, color) || IsStalemate(g, color) <==> LegalMoves(g, color) == []
  {
    var ms := LegalMoves(g, color);
    if ms != [] {
      assert ms[0] in ms;
    }
  }

  // ---------------------------------------------------------------- in-place filtering

  /** The second loop of `all_valid_moves` as the program runs it on one board:
      apply each candidate, test for check, take it back with `unmove` as
      written, and carry on with the board that leaves. Returns the kept moves
      and the board afterwards. */
  function TryAllAsWritten(g: Grid, color: Color, ms: seq<Move>): (seq<Move>, Grid)
    requires forall m :: m in ms ==> OnBoard(m)
    decreases |ms|
  {
    if ms == [] then ([], g)
    else
      var (g1, captured) := MakeMove(g, ms[0]);
      var keep := if !InCheck(g1, color) then [ms[0]] else [];
      var rest := TryAllAsWritten(UnmoveAsWritten(g1, ms[0], captured), color, ms[1..]);
      (keep + rest.0, rest.1)
  }

  /** `all_valid_moves` as written, on one board that it mutates. */
  function AllValidMovesAsWritten(g: Grid, color: Color): (seq<Move>, Grid) {
    TryAllAsWritten(g, color, PseudoMoves(g, color))
  }

  /** The same loop taking each candidate back with `Unmove`. */
  function TryAll(g: Grid, color: Color, ms: seq<Move>): (seq<Move>, Grid)
    requires forall m :: m in ms ==> OnBoard(m)
    decreases |ms|
  {
    if ms == [] then ([], g)
    else
      var (g1, captured) := MakeMove(g, ms[0]);
      var keep := if !InCheck(g1, color) then [ms[0]] else [];
      var rest := TryAll(Unmove(g1, ms[0], captured), color, ms[1..]);
      (keep + rest.0, rest.1)
  }

  /** With `Unmove`, trying every pseudo-legal move in place keeps exactly the
      legal moves and leaves the board as it found it. */
  lemma {:induction false} TryAllRestores(g: Grid, color: Color, ms: seq<Move>)
    requires forall m :: m in ms ==> OnBoard(m) && GetPiece(g, m.start) == Some(m.piece)
    ensures TryAll(g, color, ms) == (KeepSafe(g, color, ms), g)
  {
    if ms != [] {
      UnmoveRestores(g, ms[0]);
      TryAllRestores(g, color, ms[1..]);
    }
  }

  /** `all_valid_moves` with the corrected take-back returns `LegalMoves` and leaves the board unchanged. */
  lemma AllValidMovesRestores(g: Grid, color: Color)
    ensures TryAll(g, color, PseudoMoves(g, color)) == (LegalMoves(g, color), g)
  {
    TryAllRestores(g, color, PseudoMoves(g, color));
  }

  /** As written, the loop is still harmless when no candidate promotes. */
  lemma {:induction false} TryAllAsWrittenWithoutPromotion(g: Grid, color: Color, ms: seq<Move>)
    requires forall m :: m in ms ==> OnBoard(m) && !IsPromotion(g, m)
    ensures TryAllAsWritten(g, color, ms) == (KeepSafe(g, color, ms), g)
  {
    if ms != [] {
      UnmoveAsWrittenRestores(g, ms[0]);
      TryAllAsWrittenWithoutPromotion(g, color, ms[1..]);
    }
  }

  /** A board whose only piece is `p` on `s`. */
  function Lone(s: Square, p: Piece): (g: Grid)
    requires InBounds(s)
    ensures forall t :: GetPiece(g, t) == if t == s then Some(p) else None
  {
    Set(EmptyGrid, s, Some(p))
  }

  /** On the board holding only a White Pawn on a7, every White pseudo-legal
      move is the push to a8. */
  lemma LonePawnMoves()
    ensures var m := Move((6, 0), (7, 0), Piece(Pawn, White));
            && m in PseudoMoves(Lone((6, 0), Piece(Pawn, White)), White)
            && forall m' :: m' in PseudoMoves(Lone((6, 0), Piece(Pawn, White)), White) ==> m' == m
  {
    var g := Lone((6, 0), Piece(Pawn, White));
    var m := Move((6, 0), (7, 0), Piece(Pawn, White));
    assert IsEmpty(g, (7, 0));
    assert (7, 0) in PawnTargets(g, White, (6, 0));
    assert IsPseudo(g, White, m);
    forall m' | m' in PseudoMoves(g, White)
      ensures m' == m
    {
      assert IsPseudo(g, White, m');
      assert m'.start == (6, 0);
      assert !IsEmpty(g, (8, 0));
    }
  }

  /** Repeating the a7-a8 trial on the board with a lone Queen on a7 changes nothing. */
  lemma {:induction false} QueenStaysOnA7(ms: seq<Move>)
    requires forall m' :: m' in ms ==> m' == Move((6, 0), (7, 0), Piece(Pawn, White))
    ensures TryAllAsWritten(Lone((6, 0), Piece(Queen, White)), White, ms).1 == Lone((6, 0), Piece(Queen, White))
  {
    var q := Lone((6, 0), Piece(Queen, White));
    TryAllAsWrittenWithoutPromotion(q, White, ms);
  }

  /** The first trial of a7-a8 on the lone-Pawn board leaves a lone Queen on a7. */
  lemma LonePawnFirstTrial()
    ensures var g := Lone((6, 0), Piece(Pawn, White));
            var m := Move((6, 0), (7, 0), Piece(Pawn, White));
            UnmoveAsWritten(MakeMove(g, m).0, m, MakeMove(g, m).1) == Lone((6, 0), Piece(Queen, White))
  {
    var g := Lone((6, 0), Piece(Pawn, White));
    var m := Move((6, 0), (7, 0), Piece(Pawn, White));
    UnmoveAsWrittenPromotion(g, m);
    GridExt(Set(g, (6, 0), Some(Piece(Queen, White))), Lone((6, 0), Piece(Queen, White)));
  }

  /** `all_valid_moves('white')` as written, on a board holding only a White
      Pawn on a7, returns with a White Queen on a7: the trial promotion is
      never undone. */
  lemma LonePawnTurnsIntoQueen()
    ensures var g := Lone((6, 0), Piece(Pawn, White));
            && AllValidMovesAsWritten(g, White).1 == Lone((6, 0), Piece(Queen, White))
            && AllValidMovesAsWritten(g, White).1 != g
  {
    var g := Lone((6, 0), Piece(Pawn, White));
    var q := Lone((6, 0), Piece(Queen, White));
    var m := Move((6, 0), (7, 0), Piece(Pawn, White));
    LonePawnMoves();
    var ms := PseudoMoves(g, White);
    assert ms != [] && ms[0] in ms;
    assert ms[0] == m;
    LonePawnFirstTrial();
    forall m' | m' in ms[1..]
      ensures m' == m
    {
      assert m' in ms;
    }
    QueenStaysOnA7(ms[1..]);
    assert TryAllAsWritten(g, White, ms).1 == TryAllAsWritten(q, White, ms[1..]).1;
    assert GetPiece(q, (6, 0)) != GetPiece(g, (6, 0));
  }

  // ---------------------------------------------------------------- starting position

  /** The back-rank order Rook, Knight, Bishop, Queen, King, Bishop, Knight, Rook. */
  function BackRow(c: Color): Row {
    [Some(Piece(Rook, c)), Some(Piece(Knight, c)), Some(Piece(Bishop, c)), Some(Piece(Queen, c)),
     Some(Piece(King, c)), Some(Piece(Bishop, c)), Some(Piece(Knight, c)), Some(Piece(Rook, c))]
  }

  function PawnRow(c: Color): Row {
    var p := Some(Piece(Pawn, c));
    [p, p, p, p, p, p, p, p]
  }

  /** `Board._init_pieces`: White on rows 0 and 1, Black on rows 6 and 7. */
  function InitialBoard(): Grid {
    [BackRow(White), PawnRow(White), EmptyRow, EmptyRow, EmptyRow, EmptyRow, PawnRow(Black), BackRow(Black)]
  }

  /** Where the Kings of the starting position stand: e1 and e8, nowhere else. */
  lemma InitialKingSquare(s: Square)
    requires InBounds(s)
    ensures KingAt(InitialBoard(), White, s) <==> s == (0, 4)
    ensures KingAt(InitialBoard(), Black, s) <==> s == (7, 4)
    ensures 2 <= s.0 < 6 ==> GetPiece(InitialBoard(), s) == None
  {
    var g := InitialBoard();
    assert GetPiece(g, s) == g[s.0][s.1];
    if s.0 == 0 {
      assert g[0] == BackRow(White);
    } else if s.0 == 1 {
      assert g[1] == PawnRow(White);
    } else if s.0 == 6 {
      assert g[6] == PawnRow(Black);
    } else if s.0 == 7 {
      assert g[7] == BackRow(Black);
    } else {
      assert g[s.0] == EmptyRow;
    }
  }

  /** In the starting position each side has exactly one King, White's on e1 and
      Black's on e8, and `find_king` reports them; rows 2 to 5 are empty. */
  lemma InitialKings()
    ensures forall s :: InBounds(s) ==> (KingAt(InitialBoard(), White, s) <==> s == (0, 4))
    ensures forall s :: InBounds(s) ==> (KingAt(InitialBoard(), Black, s) <==> s == (7, 4))
    ensures FindKing(InitialBoard(), White) == Some((0, 4))
    ensures FindKing(InitialBoard(), Black) == Some((7, 4))
    ensures forall s :: InBounds(s) && 2 <= s.0 < 6 ==> GetPiece(InitialBoard(), s) == None
  {
    forall s | InBounds(s)
      ensures KingAt(InitialBoard(), White, s) <==> s == (0, 4)
      ensures KingAt(InitialBoard(), Black, s) <==> s == (7, 4)
      ensures 2 <= s.0 < 6 ==> GetPiece(InitialBoard(), s) == None
    {
      InitialKingSquare(s);
    }
  }
}
