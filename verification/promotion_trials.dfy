/** What the trials of `all_valid_moves`, with `unmove` as SK_chess.py writes
    it, do to the board, and why they still return the legal moves. A trial of
    a promotion leaves a Queen where the Pawn stood. That only ever turns a
    Pawn of the mover's colour, on the row before its last, into a Queen of
    the same colour. No square changes colour or occupancy, so no later check
    test, and hence no later keep-or-drop decision, comes out differently. */
module PromotionTrials {
  import opened ChessTypes
  import opened Pieces
  import opened Board

  /** Every square holds a piece of the same colour in both grids, or is empty in both. */
  ghost predicate SameColours(a: Grid, b: Grid) {
    forall t :: && GetPiece(a, t).Some? == GetPiece(b, t).Some?
                && (GetPiece(a, t).Some? ==> GetPiece(a, t).value.color == GetPiece(b, t).value.color)
  }

  /** The row from which a Pawn of colour `c` promotes: the row before its last. */
  function PrePromotionRow(c: Color): int {
    7 - PawnHome(c)
  }

  /** `h` is `g` with some Pawns of colour `c` on their pre-promotion row turned into Queens of colour `c`. */
  ghost predicate Upgraded(h: Grid, g: Grid, c: Color) {
    forall t :: || GetPiece(h, t) == GetPiece(g, t)
                || (&& GetPiece(g, t) == Some(Piece(Pawn, c))
                    && GetPiece(h, t) == Some(Piece(Queen, c))
                    && t.0 == PrePromotionRow(c))
  }

  lemma UpgradedSameColours(h: Grid, g: Grid, c: Color)
    requires Upgraded(h, g, c)
    ensures SameColours(h, g)
  {
  }

  // ---------------------------------------------------------------- targets see only colours

  lemma {:induction false} LeapsSame(a: Grid, b: Grid, color: Color, s: Square, offs: seq<(int, int)>)
    requires SameColours(a, b)
    ensures Leaps(a, color, s, offs) == Leaps(b, color, s, offs)
  {
    if offs != [] {
      LeapsSame(a, b, color, s, offs[1..]);
    }
  }

  lemma {:induction false} RaySame(a: Grid, b: Grid, color: Color, s: Square, d: (int, int))
    requires SameColours(a, b) && UnitDir(d)
    decreases Reach(s.0, d.0) + Reach(s.1, d.1)
    ensures Ray(a, color, s, d) == Ray(b, color, s, d)
  {
    if InBounds(s) && GetPiece(a, s).None? {
      RaySame(a, b, color, Along(s, d, 1), d);
    }
  }

  lemma {:induction false} SlidingSame(a: Grid, b: Grid, color: Color, s: Square, dirs: seq<(int, int)>)
    requires SameColours(a, b)
    requires forall k :: 0 <= k < |dirs| ==> UnitDir(dirs[k])
    ensures Sliding(a, color, s, dirs) == Sliding(b, color, s, dirs)
  {
    if dirs != [] {
      RaySame(a, b, color, Along(s, dirs[0], 1), dirs[0]);
      SlidingSame(a, b, color, s, dirs[1..]);
    }
  }

  lemma PawnTargetsSame(a: Grid, b: Grid, color: Color, s: Square)
    requires SameColours(a, b)
    ensures PawnTargets(a, color, s) == PawnTargets(b, color, s)
  {
    var d := PawnDir(color);
    assert IsEmpty(a, (s.0 + d, s.1)) == IsEmpty(b, (s.0 + d, s.1));
    assert IsEmpty(a, (s.0 + 2 * d, s.1)) == IsEmpty(b, (s.0 + 2 * d, s.1));
    assert PawnCapture(a, color, (s.0 + d, s.1 - 1)) == PawnCapture(b, color, (s.0 + d, s.1 - 1));
    assert PawnCapture(a, color, (s.0 + d, s.1 + 1)) == PawnCapture(b, color, (s.0 + d, s.1 + 1));
  }

  /** Where a piece may move depends only on which squares hold which colour. */
  lemma TargetsSame(a: Grid, b: Grid, p: Piece, s: Square)
    requires SameColours(a, b)
    ensures Targets(a, p, s) == Targets(b, p, s)
  {
    match p.kind
    case Pawn => PawnTargetsSame(a, b, p.color, s);
    case Knight => LeapsSame(a, b, p.color, s, KnightOffsets);
    case Bishop => SlidingSame(a, b, p.color, s, DiagonalDirs);
    case Rook => SlidingSame(a, b, p.color, s, StraightDirs);
    case Queen => SlidingSame(a, b, p.color, s, QueenDirs);
    case King => LeapsSame(a, b, p.color, s, KingOffsets);
  }

  // ---------------------------------------------------------------- check is unchanged

  lemma {:induction false} FindKingFromUpgraded(h: Grid, g: Grid, c: Color, j: nat)
    requires Upgraded(h, g, c) && j <= 64
    decreases 64 - j
    ensures FindKingFrom(h, c, j) == FindKingFrom(g, c, j)
  {
    if j < 64 {
      assert KingAt(h, c, At(j)) == KingAt(g, c, At(j));
      FindKingFromUpgraded(h, g, c, j + 1);
    }
  }

  lemma {:induction false} AttackedFromUpgraded(h: Grid, g: Grid, c: Color, k: Square, j: nat)
    requires Upgraded(h, g, c) && j <= 64
    decreases 64 - j
    ensures AttackedFrom(h, c, k, j) == AttackedFrom(g, c, k, j)
  {
    if j < 64 {
      var s := At(j);
      if GetPiece(h, s) == GetPiece(g, s) && GetPiece(g, s).Some? {
        TargetsSame(h, g, GetPiece(g, s).value, s);
      }
      assert Attacks(h, c, k, s) == Attacks(g, c, k, s);
      AttackedFromUpgraded(h, g, c, k, j + 1);
    }
  }

  /** Turning the mover's own Pawns into Queens does not change whether it is in check. */
  lemma InCheckUpgraded(h: Grid, g: Grid, c: Color)
    requires Upgraded(h, g, c)
    ensures InCheck(h, c) == InCheck(g, c)
  {
    UpgradedSameColours(h, g, c);
    FindKingFromUpgraded(h, g, c, 0);
    assert FindKing(h, c) == FindKing(g, c);
    if FindKing(g, c).Some? {
      AttackedFromUpgraded(h, g, c, FindKing(g, c).value, 0);
    }
  }

  // ---------------------------------------------------------------- one trial

  /** A promotion of colour `c` starts on the pre-promotion row of `c`. */
  lemma PromotionStart(g: Grid, c: Color, m: Move)
    requires IsPseudo(g, c, m) && m.piece.kind == Pawn && (m.end.0 == 0 || m.end.0 == 7)
    ensures m.start.0 == PrePromotionRow(c)
  {
    // A Pawn's targets lie one row ahead, except the double step from its home row.
    assert m.end in PawnTargets(g, c, m.start);
  }

  /** A Pawn of colour `c` on its pre-promotion row only has promoting moves. */
  lemma PrePromotionMoves(g: Grid, c: Color, m: Move)
    requires IsPseudo(g, c, m) && m.piece.kind == Pawn && m.start.0 == PrePromotionRow(c)
    ensures m.end.0 == 0 || m.end.0 == 7
  {
    assert m.end in PawnTargets(g, c, m.start);
  }

  /** Making a pseudo-legal move of `g` on an upgraded copy of `g` gives an
      upgraded copy of the position after the move; the same square is captured. */
  lemma MakeMoveUpgraded(h: Grid, g: Grid, c: Color, m: Move)
    requires Upgraded(h, g, c) && IsPseudo(g, c, m)
    ensures Upgraded(MakeMove(h, m).0, Apply(g, m), c)
    ensures MakeMove(h, m).1 == GetPiece(g, m.end)
  {
    var h1 := MakeMove(h, m).0;
    var g1 := Apply(g, m);
    assert m.start != m.end && !Friendly(g, m.end, c);
    assert GetPiece(h, m.end) == GetPiece(g, m.end);
    if GetPiece(h, m.start) != GetPiece(g, m.start) {
      PrePromotionMoves(g, c, m);
      assert IsPromotion(g, m) && !IsPromotion(h, m);
    } else {
      assert IsPromotion(g, m) == IsPromotion(h, m);
    }
    assert GetPiece(h1, m.end) == GetPiece(g1, m.end);
    forall t
      ensures || GetPiece(h1, t) == GetPiece(g1, t)
              || (&& GetPiece(g1, t) == Some(Piece(Pawn, c))
                  && GetPiece(h1, t) == Some(Piece(Queen, c))
                  && t.0 == PrePromotionRow(c))
    {
      if t != m.start && t != m.end {
        assert GetPiece(h1, t) == GetPiece(h, t) && GetPiece(g1, t) == GetPiece(g, t);
      }
    }
  }

  /** Taking the move back as written then gives an upgraded copy of `g` again:
      after a promotion the start square holds a Queen instead of the Pawn. */
  lemma UnmoveUpgraded(h: Grid, g: Grid, c: Color, m: Move)
    requires Upgraded(h, g, c) && IsPseudo(g, c, m)
    ensures Upgraded(UnmoveAsWritten(MakeMove(h, m).0, m, MakeMove(h, m).1), g, c)
  {
    var (h1, captured) := MakeMove(h, m);
    MakeMoveUpgraded(h, g, c, m);
    var h2 := UnmoveAsWritten(h1, m, captured);
    assert m.start != m.end;
    if GetPiece(h, m.start) == GetPiece(g, m.start) && IsPromotion(g, m) {
      PromotionStart(g, c, m);
    }
    assert || GetPiece(h2, m.start) == GetPiece(g, m.start)
           || (GetPiece(h2, m.start) == Some(Piece(Queen, c)) && m.start.0 == PrePromotionRow(c));
    forall t
      ensures || GetPiece(h2, t) == GetPiece(g, t)
              || (&& GetPiece(g, t) == Some(Piece(Pawn, c))
                  && GetPiece(h2, t) == Some(Piece(Queen, c))
                  && t.0 == PrePromotionRow(c))
    {
      if t != m.start && t != m.end {
        assert GetPiece(h2, t) == GetPiece(h, t);
      }
    }
  }

  /** The trial loop as written, run on an upgraded copy of `g` over pseudo-legal
      moves of `g`, keeps exactly the moves the pure filter keeps, and leaves an
      upgraded copy of `g`. */
  lemma {:induction false} TryAllAsWrittenUpgraded(h: Grid, g: Grid, c: Color, ms: seq<Move>)
    requires Upgraded(h, g, c)
    requires forall m :: m in ms ==> OnBoard(m) && IsPseudo(g, c, m)
    decreases |ms|
    ensures TryAllAsWritten(h, c, ms).0 == KeepSafe(g, c, ms)
    ensures Upgraded(TryAllAsWritten(h, c, ms).1, g, c)
  {
    if ms != [] {
      var m := ms[0];
      assert m in ms;
      MakeMoveUpgraded(h, g, c, m);
      UnmoveUpgraded(h, g, c, m);
      InCheckUpgraded(MakeMove(h, m).0, Apply(g, m), c);
      var (h1, captured) := MakeMove(h, m);
      assert forall m' :: m' in ms[1..] ==> m' in ms;
      TryAllAsWrittenUpgraded(UnmoveAsWritten(h1, m, captured), g, c, ms[1..]);
    }
  }

  /** `all_valid_moves(color)` as SK_chess.py runs it returns exactly the legal
      moves, in the same order as the corrected version. The board it leaves
      differs from the one it was given at most by Pawns of that colour, on
      their pre-promotion row, turned into Queens. */
  lemma AllValidMovesAsWrittenList(g: Grid, c: Color)
    ensures AllValidMovesAsWritten(g, c).0 == LegalMoves(g, c)
    ensures Upgraded(AllValidMovesAsWritten(g, c).1, g, c)
  {
    TryAllAsWrittenUpgraded(g, g, c, PseudoMoves(g, c));
  }
}
