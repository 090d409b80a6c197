/** The text side of the human player's move: `ChessGame.parse_move`, the
    square names the game prints (`a1` … `h8`), and the lookup of the legal
    White move a parsed pair names. */
module Notation {
  import opened ChessTypes
  import opened Board

  /** A file letter, `a` to `h`. */
  predicate FileChar(ch: char) {
    'a' <= ch <= 'h'
  }

  /** A rank digit, `1` to `8`. */
  predicate RankChar(ch: char) {
    '1' <= ch <= '8'
  }

  /** The square named by a file letter and a rank digit: row `rank - 1`, column `file - 'a'`. */
  function SquareOf(file: char, rank: char): (s: Square)
    requires FileChar(file) && RankChar(rank)
    ensures InBounds(s)
  {
    ((rank as int) - ('1' as int), (file as int) - ('a' as int))
  }

  /** `parse_move`: a text of exactly four characters, file-rank-file-rank,
      names its start and end squares; any other text is refused. */
  function ParseMove(text: string): (r: Option<(Square, Square)>)
    ensures r.Some? <==>
              |text| == 4 && FileChar(text[0]) && RankChar(text[1]) && FileChar(text[2]) && RankChar(text[3])
    ensures r.Some? ==> InBounds(r.value.0) && InBounds(r.value.1)
  {
    if |text| == 4 && FileChar(text[0]) && RankChar(text[1]) && FileChar(text[2]) && RankChar(text[3]) then
      Some((SquareOf(text[0], text[1]), SquareOf(text[2], text[3])))
    else None
  }

  /** The two-character name of a square, file letter then rank digit. */
  function FormatSquare(s: Square): (text: string)
    requires InBounds(s)
    ensures |text| == 2 && FileChar(text[0]) && RankChar(text[1])
    ensures SquareOf(text[0], text[1]) == s
  {
    [(('a' as int) + s.1) as char, (('1' as int) + s.0) as char]
  }

  /** Naming a square by its letter and digit and reading them back gives the same characters. */
  lemma SquareOfFormat(file: char, rank: char)
    requires FileChar(file) && RankChar(rank)
    ensures FormatSquare(SquareOf(file, rank)) == [file, rank]
  {
  }

  /** Every pair of squares on the board, written as four characters, parses back to itself. */
  lemma ParseFormat(s: Square, e: Square)
    requires InBounds(s) && InBounds(e)
    ensures ParseMove(FormatSquare(s) + FormatSquare(e)) == Some((s, e))
  {
    var text := FormatSquare(s) + FormatSquare(e);
    assert text[0] == FormatSquare(s)[0] && text[1] == FormatSquare(s)[1];
    assert text[2] == FormatSquare(e)[0] && text[3] == FormatSquare(e)[1];
  }

  /** Every accepted text is exactly the name of the squares it parses to. */
  lemma FormatParse(text: string)
    requires ParseMove(text).Some?
    ensures FormatSquare(ParseMove(text).value.0) + FormatSquare(ParseMove(text).value.1) == text
  {
    SquareOfFormat(text[0], text[1]);
    SquareOfFormat(text[2], text[3]);
  }

  /** The first move of `ms` from `s` to `e`, if any. */
  function FirstMatch(ms: seq<Move>, s: Square, e: Square): (r: Option<nat>)
    ensures r.None? <==> forall k :: 0 <= k < |ms| ==> !(ms[k].start == s && ms[k].end == e)
    ensures r.Some? ==> r.value < |ms| && ms[r.value].start == s && ms[r.value].end == e
    ensures r.Some? ==> forall k :: 0 <= k < r.value ==> !(ms[k].start == s && ms[k].end == e)
  {
    if ms == [] then None
    else if ms[0].start == s && ms[0].end == e then Some(0)
    else
      match FirstMatch(ms[1..], s, e)
      case None => None
      case Some(k) => Some(k + 1)
  }

  /** The move `on_move` plays for the squares the player typed: the first
      legal White move from `s` to `e`, or none when no legal move joins them. */
  function PlayerMove(g: Grid, s: Square, e: Square): (r: Option<Move>)
    ensures r.None? <==> forall m :: IsLegal(g, White, m) ==> !(m.start == s && m.end == e)
    ensures r.Some? ==> IsLegal(g, White, r.value) && r.value.start == s && r.value.end == e
  {
    var ms := LegalMoves(g, White);
    match FirstMatch(ms, s, e)
    case None =>
      assert forall m :: m in ms ==> !(m.start == s && m.end == e);
      None
    case Some(k) =>
      assert ms[k] in ms;
      Some(ms[k])
  }
}
