/** The piece catalog: for each kind of piece, the squares it may move to from
    a square, ignoring whether the move leaves its own King in check
    (`get_valid_moves` of `Pawn` … `King` and `Board._sliding`). Each list is
    produced in the order SK_chess.py appends to it. */
module Pieces {
  import opened ChessTypes

  function Abs(x: int): nat {
    if x < 0 then -x else x
  }

  /** The row step a pawn of colour `c` advances by: White up, Black down. */
  function PawnDir(c: Color): int {
    if c == White then 1 else -1
  }

  /** The row a pawn of colour `c` starts on, the only row allowing a double step. */
  function PawnHome(c: Color): int {
    if c == White then 1 else 6
  }

  /** A diagonal pawn target, kept only when it holds an opposing piece. */
  function PawnCapture(g: Grid, color: Color, t: Square): (ts: seq<Square>)
    ensures forall u :: u in ts <==> u == t && Enemy(g, t, color)
  {
    if InBounds(t) && Enemy(g, t, color) then [t] else []
  }

  function PawnTargets(g: Grid, color: Color, s: Square): (ts: seq<Square>)
    ensures forall t {:trigger t in ts} :: t in ts <==>
              || (t == (s.0 + PawnDir(color), s.1) && IsEmpty(g, t))
              || (t == (s.0 + 2 * PawnDir(color), s.1) && s.0 == PawnHome(color)
                  && IsEmpty(g, (s.0 + PawnDir(color), s.1)) && IsEmpty(g, t))
              || (t.0 == s.0 + PawnDir(color) && (t.1 == s.1 - 1 || t.1 == s.1 + 1)
                  && Enemy(g, t, color))
  {
    var d := PawnDir(color);
    var one := (s.0 + d, s.1);
    var two := (s.0 + 2 * d, s.1);
    var forward :=
      if IsEmpty(g, one) then
        [one] + (if s.0 == PawnHome(color) && IsEmpty(g, two) then [two] else [])
      else [];
    forward + PawnCapture(g, color, (s.0 + d, s.1 - 1)) + PawnCapture(g, color, (s.0 + d, s.1 + 1))
  }

  /** The squares `s + offs[k]` that are on the board and do not hold a piece
      of the mover's colour, in the order of `offs`. */
  function Leaps(g: Grid, color: Color, s: Square, offs: seq<(int, int)>): (ts: seq<Square>)
    ensures forall t {:trigger t in ts} :: t in ts <==>
              InBounds(t) && !Friendly(g, t, color) &&
              exists k :: 0 <= k < |offs| && t == (s.0 + offs[k].0, s.1 + offs[k].1)
  {
    if offs == [] then []
    else
      var t := (s.0 + offs[0].0, s.1 + offs[0].1);
      var rest := Leaps(g, color, s, offs[1..]);
      assert forall k :: 1 <= k < |offs| ==> offs[k] == offs[1..][k - 1];
      (if InBounds(t) && !Friendly(g, t, color) then [t] else []) + rest
  }

  const KnightOffsets: seq<(int, int)> :=
    [(2, 1), (2, -1), (-2, 1), (-2, -1), (1, 2), (1, -2), (-1, 2), (-1, -2)]

  const KingOffsets: seq<(int, int)> :=
    [(-1, -1), (-1, 0), (-1, 1), (0, -1), (0, 1), (1, -1), (1, 0), (1, 1)]

  /** `t` is an L-shaped jump away from `s`. */
  predicate KnightJump(s: Square, t: Square) {
    (Abs(t.0 - s.0) == 1 && Abs(t.1 - s.1) == 2) || (Abs(t.0 - s.0) == 2 && Abs(t.1 - s.1) == 1)
  }

  /** `t` is one of the eight squares touching `s`. */
  predicate Adjacent(s: Square, t: Square) {
    Abs(t.0 - s.0) <= 1 && Abs(t.1 - s.1) <= 1 && t != s
  }

  function KnightTargets(g: Grid, color: Color, s: Square): (ts: seq<Square>)
    ensures forall t {:trigger t in ts} :: t in ts <==> InBounds(t) && !Friendly(g, t, color) && KnightJump(s, t)
  {
    var ts := Leaps(g, color, s, KnightOffsets);
    forall t | InBounds(t) && !Friendly(g, t, color) && KnightJump(s, t)
      ensures t in ts
    {
      var d := (t.0 - s.0, t.1 - s.1);
      var k := if d == (2, 1) then 0 else if d == (2, -1) then 1 else if d == (-2, 1) then 2
        else if d == (-2, -1) then 3 else if d == (1, 2) then 4 else if d == (1, -2) then 5
        else if d == (-1, 2) then 6 else 7;
      assert t == (s.0 + KnightOffsets[k].0, s.1 + KnightOffsets[k].1);
    }
    ts
  }

  /** Every King offset leads to an adjacent square, and every adjacent square is one King offset away. */
  lemma KingOffsetsAdjacent(s: Square, t: Square)
    ensures Adjacent(s, t) <==>
              exists k :: 0 <= k < |KingOffsets| && t == (s.0 + KingOffsets[k].0, s.1 + KingOffsets[k].1)
  {
    if Adjacent(s, t) {
      var k := 3 * (t.0 - s.0 + 1) + (t.1 - s.1 + 1);
      var k' := if k < 4 then k else k - 1;
      assert t == (s.0 + KingOffsets[k'].0, s.1 + KingOffsets[k'].1);
    }
  }

  function KingTargets(g: Grid, color: Color, s: Square): (ts: seq<Square>)
    ensures forall t {:trigger t in ts} :: t in ts <==> InBounds(t) && !Friendly(g, t, color) && Adjacent(s, t)
  {
    var ts := Leaps(g, color, s, KingOffsets);
    forall t
      ensures Adjacent(s, t) <==>
                exists k :: 0 <= k < |KingOffsets| && t == (s.0 + KingOffsets[k].0, s.1 + KingOffsets[k].1)
    {
      KingOffsetsAdjacent(s, t);
    }
    ts
  }

  /** One of the eight compass steps a slider moves along. */
  predicate UnitDir(d: (int, int)) {
    -1 <= d.0 <= 1 && -1 <= d.1 <= 1 && d != (0, 0)
  }

  /** How many more steps along one axis stay on the board: the termination measure of a ray. */
  function Reach(x: int, d: int): nat {
    if d == 1 && x < 8 then 8 - x
    else if d == -1 && x >= 0 then x + 1
    else 0
  }

  /** `x` moved `i` unit steps in direction `d` (one of -1, 0, 1). */
  function Step(x: int, i: int, d: int): int {
    if d == 1 then x + i else if d == -1 then x - i else x
  }

  /** The square `i` steps from `s` along direction `d`. */
  function Along(s: Square, d: (int, int), i: int): Square {
    (Step(s.0, i, d.0), Step(s.1, i, d.1))
  }

  /** One step further from `s` is one step more from the square after `s`. */
  lemma AlongShift(s: Square, d: (int, int), i: int)
    ensures Along(Along(s, d, 1), d, i) == Along(s, d, i + 1)
  {
  }

  /** A positive number of steps along a compass direction never comes back to the start. */
  lemma AlongMoves(s: Square, d: (int, int), i: int)
    requires UnitDir(d) && i > 0
    ensures Along(s, d, i) != s
  {
  }

  /** The ray that starts at `s` and steps by `d`: every empty square up to the
      first occupied one, which is included only when it holds an opposing piece.
      This is the inner `while` of `Board._sliding`. */
  function Ray(g: Grid, color: Color, s: Square, d: (int, int)): (ts: seq<Square>)
    requires UnitDir(d)
    decreases Reach(s.0, d.0) + Reach(s.1, d.1)
    ensures forall i {:trigger ts[i]} :: 0 <= i < |ts| ==> ts[i] == Along(s, d, i) && InBounds(ts[i])
    ensures forall i :: 0 <= i < |ts| - 1 ==> IsEmpty(g, ts[i])
    ensures |ts| > 0 ==> !Friendly(g, ts[|ts| - 1], color)
    ensures var next := Along(s, d, |ts|);
            || !InBounds(next)
            || Friendly(g, next, color)
            || (|ts| > 0 && !IsEmpty(g, ts[|ts| - 1]))
  {
    if !InBounds(s) then []
    else
      match GetPiece(g, s)
      case None =>
        var rest := Ray(g, color, Along(s, d, 1), d);
        forall i | 0 <= i < |rest|
          ensures rest[i] == Along(s, d, i + 1)
        {
          AlongShift(s, d, i);
        }
        AlongShift(s, d, |rest|);
        [s] + rest
      case Some(p) =>
        if p.color != color then [s] else []
  }

  /** A square a slider can reach: on the board, not held by its own side, not its origin. */
  predicate SlideTarget(g: Grid, color: Color, s: Square, t: Square) {
    InBounds(t) && !Friendly(g, t, color) && t != s
  }

  /** The square `i >= 1` steps from `s` along `d` is open to a slider of
      `color`: it is on the board, not held by its own side, and every square
      strictly between it and `s` is empty. */
  predicate Unblocked(g: Grid, color: Color, s: Square, d: (int, int), i: int) {
    && 1 <= i
    && InBounds(Along(s, d, i))
    && !Friendly(g, Along(s, d, i), color)
    && forall j :: 1 <= j < i ==> IsEmpty(g, Along(s, d, j))
  }

  /** The `j`-th square of the ray from the square after `s` is `j + 1` steps from `s`. */
  lemma RayAlong(g: Grid, color: Color, s: Square, d: (int, int))
    requires UnitDir(d)
    ensures var ray := Ray(g, color, Along(s, d, 1), d);
            forall j :: 0 <= j < |ray| ==> ray[j] == Along(s, d, j + 1)
  {
    var ray := Ray(g, color, Along(s, d, 1), d);
    forall j | 0 <= j < |ray|
      ensures ray[j] == Along(s, d, j + 1)
    {
      AlongShift(s, d, j);
    }
  }

  /** Every step the ray from the square after `s` reaches is unblocked. */
  lemma RayInside(g: Grid, color: Color, s: Square, d: (int, int), i: int)
    requires UnitDir(d) && 1 <= i <= |Ray(g, color, Along(s, d, 1), d)|
    ensures Unblocked(g, color, s, d, i)
    ensures Ray(g, color, Along(s, d, 1), d)[i - 1] == Along(s, d, i)
  {
    var ray := Ray(g, color, Along(s, d, 1), d);
    RayAlong(g, color, s, d);
    forall j | 1 <= j < i
      ensures IsEmpty(g, Along(s, d, j))
    {
      assert ray[j - 1] == Along(s, d, j);
    }
    assert ray[i - 1] == Along(s, d, i) && InBounds(ray[i - 1]);
    if i < |ray| {
      assert IsEmpty(g, ray[i - 1]);
    }
  }

  /** Every step beyond the end of the ray is blocked: the ray stopped at the
      edge, at a friendly piece, or just past an occupied square. */
  lemma RayStops(g: Grid, color: Color, s: Square, d: (int, int), i: int)
    requires UnitDir(d) && |Ray(g, color, Along(s, d, 1), d)| < i
    ensures !Unblocked(g, color, s, d, i)
  {
    var ray := Ray(g, color, Along(s, d, 1), d);
    var n := |ray|;
    AlongShift(s, d, n);
    if n > 0 {
      RayAlong(g, color, s, d);
      assert ray[n - 1] == Along(s, d, n);
    }
  }

  /** The ray from the square after `s` holds exactly the unblocked squares
      along `d`, in order of distance. */
  lemma RayReach(g: Grid, color: Color, s: Square, d: (int, int), i: int)
    requires UnitDir(d) && 1 <= i
    ensures var ray := Ray(g, color, Along(s, d, 1), d);
            Unblocked(g, color, s, d, i) <==> i <= |ray|
    ensures var ray := Ray(g, color, Along(s, d, 1), d);
            i <= |ray| ==> ray[i - 1] == Along(s, d, i)
  {
    if i <= |Ray(g, color, Along(s, d, 1), d)| {
      RayInside(g, color, s, d, i);
    } else {
      RayStops(g, color, s, d, i);
    }
  }

  /** Some direction of `dirs` reaches `t` from `s` unblocked. */
  ghost predicate SlidesTo(g: Grid, color: Color, s: Square, dirs: seq<(int, int)>, t: Square) {
    exists k, i :: 0 <= k < |dirs| && t == Along(s, dirs[k], i) && Unblocked(g, color, s, dirs[k], i)
  }

  /** The rays from `s` along every direction of `dirs`, one after another
      (`Board._sliding`): exactly the unblocked squares along those directions. */

  function Sliding(g: Grid, color: Color, s: Square, dirs: seq<(int, int)>): (ts: seq<Square>)
    requires forall k :: 0 <= k < |dirs| ==> UnitDir(dirs[k])
    ensures forall t {:trigger t in ts} :: t in ts ==> SlideTarget(g, color, s, t)
    ensures forall t {:trigger t in ts} :: t in ts <==> SlidesTo(g, color, s, dirs, t)
  {
    if dirs == [] then []
    else
      var d := dirs[0];
      var ray := Ray(g, color, Along(s, d, 1), d);
      var rest := Sliding(g, color, s, dirs[1..]);
      forall i | 0 <= i < |ray|
        ensures ray[i] != s
      {
        AlongShift(s, d, i);
        AlongMoves(s, d, i + 1);
      }
      forall t | t in ray + rest
        ensures SlidesTo(g, color, s, dirs, t)
      {
        if t in ray {
          var m :| 0 <= m < |ray| && ray[m] == t;
          RayReach(g, color, s, d, m + 1);
          assert t == Along(s, dirs[0], m + 1) && Unblocked(g, color, s, dirs[0], m + 1);
        } else {
          var k, i :| 0 <= k < |dirs[1..]| && t == Along(s, dirs[1..][k], i) && Unblocked(g, color, s, dirs[1..][k], i);
          assert dirs[1..][k] == dirs[k + 1];
          assert t == Along(s, dirs[k + 1], i) && Unblocked(g, color, s, dirs[k + 1], i);
        }
      }
      forall t | SlidesTo(g, color, s, dirs, t)
        ensures t in ray + rest
      {
        var k, i :| 0 <= k < |dirs| && t == Along(s, dirs[k], i) && Unblocked(g, color, s, dirs[k], i);
        if k == 0 {
          RayReach(g, color, s, d, i);
          assert ray[i - 1] == Along(s, dirs[k], i);
        } else {
          assert dirs[1..][k - 1] == dirs[k];
          assert t == Along(s, dirs[1..][k - 1], i) && Unblocked(g, color, s, dirs[1..][k - 1], i);
          assert SlidesTo(g, color, s, dirs[1..], t);
        }
      }
      ray + rest
  }

  const DiagonalDirs: seq<(int, int)> := [(1, 1), (1, -1), (-1, 1), (-1, -1)]

  const StraightDirs: seq<(int, int)> := [(1, 0), (-1, 0), (0, 1), (0, -1)]

  /** The Queen's directions, in the order `Queen.get_valid_moves` lists them. */
  const QueenDirs: seq<(int, int)> := StraightDirs + DiagonalDirs

  /** The squares piece `p` standing on `s` may move to, by kind
      (`get_valid_moves`). None is off the board, held by `p`'s own side, or `s` itself. */
  function Targets(g: Grid, p: Piece, s: Square): (ts: seq<Square>)
    ensures forall t {:trigger t in ts} :: t in ts ==> InBounds(t) && !Friendly(g, t, p.color) && t != s
  {
    match p.kind
    case Pawn => PawnTargets(g, p.color, s)
    case Knight => KnightTargets(g, p.color, s)
    case Bishop => Sliding(g, p.color, s, DiagonalDirs)
    case Rook => Sliding(g, p.color, s, StraightDirs)
    case Queen => Sliding(g, p.color, s, QueenDirs)
    case King => KingTargets(g, p.color, s)
  }
}
