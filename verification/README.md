# Chess engine core, modelled in Dafny

This project models the rules engine and search of the single-file chess program
SK_chess.py. It covers:

- The piece catalog: the target squares of Pawn, Knight, Bishop, Rook, Queen and King,
  including the sliding rays.
- The `Board`:
  - bounds and square access;
  - finding a King and detecting check;
  - `move` with its auto-promotion to Queen, and `unmove`;
  - pseudo-legal and legal move lists;
  - checkmate and stalemate;
  - the static evaluation;
  - the starting position.
- The `AIPlayer`: fixed-perspective minimax with alpha-beta pruning, and the root loop of
  `get_move`.
- The text of a human move: `parse_move`, square names, and the lookup of the legal move a
  parsed pair names.

The board is an immutable 8×8 `Grid` of `Option<Piece>`, with row 0 as White's back rank.
`move` is a function that returns the new grid together with the captured piece. Each
piece class becomes a `Kind`.

Modules:

| file | module | contents |
|---|---|---|
| chess_types.dfy | `ChessTypes` | colours, pieces, squares, the grid, square access |
| pieces.dfy | `Pieces` | `get_valid_moves` of every kind, and `Board._sliding` |
| board.dfy | `Board` | `move`/`unmove`, `find_king`, `in_check`, `all_valid_moves`, checkmate, stalemate, `_init_pieces` |
| evaluation.dfy | `Evaluation` | `Board.evaluate` |
| search.dfy | `Search` | `AIPlayer.minimax`, `get_move`, ±infinity |
| promotion_trials.dfy | `PromotionTrials` | what the trials of `all_valid_moves`, with `unmove` as written, return and leave on the board |
| notation.dfy | `Notation` | `parse_move`, square names, and the lookup in `on_move` |

## How the in-place search is modelled

The program searches on one shared board. It applies a move, recurses, and takes the move
back with `unmove`.

In the model, the positions that `minimax(board, depth, …, max_player)` visits form a
`Search.GameTree`:

- a leaf scored `evaluate(ai)` where the program's terminal test holds: depth 0, or either
  side checkmated;
- otherwise a node with one subtree per legal move, in the order `all_valid_moves` yields
  them. The moves are `ai`'s at a maximising node and the opponent's at a minimising one.

`Search.AlphaBeta` is the program's pruning loop run over that tree, with the same `max`,
`min` and `beta <= alpha` cut. `Search.TreeValue` is unpruned minimax over the same tree.
With a correct take-back, applying, searching and reverting a move on one board sees the
same child position as the pure `Apply`. Under that take-back, the tree has the same
values as the program's lazy traversal.

The take-back SK_chess.py writes is not correct for promotions; see "Findings". With it,
the values agree only while no trial anywhere in the search promotes. For that reason the
rules and the search use the corrected take-back. The program's own version is modelled
separately as `Board.UnmoveAsWritten` and `Board.AllValidMovesAsWritten`.
`PromotionTrials.AllValidMovesAsWrittenList` shows that it still returns the legal moves.

## Model

| member | source | states |
|---|---|---|
| ChessTypes.Opponent | SK_chess.py:215 | the result is the colour other than the given one; with two colours this determines it |
| ChessTypes.InBounds | SK_chess.py:94 | no ensures: the test that row and column both lie in 0..7. Every target contract (Pieces.Leaps, Pieces.Ray, Pieces.Targets) states that only squares passing it are produced |
| ChessTypes.IsEmpty | SK_chess.py:95 | no ensures: on the board and unoccupied. It is the emptiness condition of Pieces.PawnTargets and Pieces.Unblocked, and is characterised through them |
| ChessTypes.GetPiece | SK_chess.py:96 | a square off the board reads as empty |
| Pieces.PawnCapture | SK_chess.py:33-38 | a diagonal square is a target exactly when it holds a piece of the other colour |
| Pieces.PawnTargets | SK_chess.py:24-39 | `t` is a Pawn target iff one of three holds: (1) it is one step forward and empty; (2) it is two steps forward from the home row (1 for White, 6 for Black) with both squares ahead empty; (3) it is one step forward on an adjacent column and holds an opposing piece |
| Pieces.Leaps | SK_chess.py:44-49 | a square is kept iff it is on the board, not held by the mover's colour, and one of the offsets away |
| Pieces.KnightTargets | SK_chess.py:41-50 | `t` is a Knight target iff it is on the board, not held by the mover's colour, and an L-jump away |
| Pieces.KingOffsetsAdjacent | SK_chess.py:69-72 | a square is one of the eight King offsets away from the origin iff it touches the origin and is not the origin itself |
| Pieces.KingTargets | SK_chess.py:66-77 | `t` is a King target iff it is on the board, not held by the mover's colour, adjacent, and not the origin |
| Pieces.Ray | SK_chess.py:100-110 | the i-th square of a ray is i steps along the direction and on the board; every square before the last is empty; the last never holds the mover's colour; the ray ends only at the edge, before a friendly piece, or on an occupied (enemy) square |
| Pieces.RayAlong | SK_chess.py:101-110 | the j-th square of the ray that starts one step from the origin is j + 1 steps from the origin |
| Pieces.RayInside | SK_chess.py:102-110 | every square the ray reaches is unblocked: on the board, not friendly, with every square between it and the origin empty |
| Pieces.RayStops | SK_chess.py:102-110 | no step beyond the ray's end is unblocked: the ray stops only at the edge, before a friendly piece, or on an enemy piece |
| Pieces.RayReach | SK_chess.py:100-110 | step i along a direction is in the ray iff it is unblocked, and then it is the ray's i-th square |
| Pieces.Sliding | SK_chess.py:98-111 | a square is a sliding target iff, along one of the directions, it is on the board, not friendly, and every square strictly between it and the origin is empty; every target is on the board, not friendly, and not the origin |
| Pieces.Targets | SK_chess.py:52-64 | for every kind, no target is off the board, held by the mover's colour, or the origin |
| Board.MakeMove | SK_chess.py:132-140 | the captured piece is what stood on `end`; `start` becomes empty; `end` holds the mover, or a same-colour Queen when a Pawn reaches row 0 or 7; no other square changes |
| Board.UnmoveAsWritten | SK_chess.py:142-146 | `end` gets the captured piece back; `start` gets whatever stands on `end`; nothing else changes |
| Board.UnmoveAsWrittenRestores | SK_chess.py:132-146 | for a move that does not promote, `unmove` as written right after `move` gives back the original board |
| Board.UnmoveAsWrittenPromotion | SK_chess.py:132-146 | for a promotion, `unmove` as written after `move` leaves a Queen on the start square, so the board differs from the original |
| Board.Unmove | SK_chess.py:142-146 | the corrected take-back puts the piece recorded in the move on `start` and the capture on `end`, and touches nothing else |
| Board.UnmoveRestores | SK_chess.py:132-146 | whenever the move's recorded piece stands on its start, `Unmove` after `move` gives back the original board, promotions included |
| Board.FindKingFrom | SK_chess.py:113-119 | the scan from a row-major position returns the first King of the colour at or after it, or none when there is none |
| Board.FindKing | SK_chess.py:113-119 | none iff no King of that colour is on the board; otherwise a King of that colour, and no such King earlier in row-major order |
| Board.AttackedFrom | SK_chess.py:125-130 | true iff some square at or after the position holds an opposing piece with the King square among its targets |
| Board.InCheck | SK_chess.py:121-130 | in check iff a King of the colour is found and some opposing piece has that King's square among its targets |
| Board.MovesTo | SK_chess.py:154-155 | the moves built from one square are exactly those from it, with its piece, to one of its targets |
| Board.MovesAt | SK_chess.py:152-155 | the candidates generated at a square are exactly the pseudo-legal moves starting there |
| Board.PseudoFrom | SK_chess.py:149-155 | the candidates from a row-major position on are exactly the pseudo-legal moves starting at or after it |
| Board.PseudoMoves | SK_chess.py:149-155 | the candidate list holds exactly the pseudo-legal moves: the piece on the start square, of the colour, moving to one of its targets |
| Board.KeepSafe | SK_chess.py:156-160 | the filter keeps exactly the candidates after which the mover is not in check, and never grows the list |
| Board.LegalMoves | SK_chess.py:148-160 | a move is listed iff it is pseudo-legal and leaves the mover's King out of check; every listed move is on the board, not a null move, and its recorded piece stands on its start |
| Board.IsCheckmate | SK_chess.py:162 | checkmate iff in check and every pseudo-legal move leaves the King in check |
| Board.IsStalemate | SK_chess.py:163 | stalemate iff not in check and every pseudo-legal move would leave the King in check |
| Board.GameOverExclusive | SK_chess.py:162-163 | checkmate and stalemate never hold together, and one of them holds exactly when there is no legal move |
| Board.TryAllAsWritten | SK_chess.py:156-160 | no ensures: the apply/test/take-back loop with `unmove` as written. Characterised by Board.TryAllAsWrittenWithoutPromotion, Board.LonePawnTurnsIntoQueen and PromotionTrials.TryAllAsWrittenUpgraded |
| Board.AllValidMovesAsWritten | SK_chess.py:148-160 | no ensures: `all_valid_moves` as written. Characterised by PromotionTrials.AllValidMovesAsWrittenList (it returns exactly the legal moves) and Board.LonePawnTurnsIntoQueen (it can change the board) |
| Board.TryAll | SK_chess.py:156-160 | no ensures: the same loop with the corrected take-back. Characterised by Board.TryAllRestores |
| Board.TryAllRestores | SK_chess.py:156-160 | the apply/test/take-back loop with the corrected take-back keeps the same moves as the filter and returns the board unchanged |
| Board.AllValidMovesRestores | SK_chess.py:148-160 | with the corrected take-back, `all_valid_moves` returns the legal moves and leaves the board as it found it |
| Board.TryAllAsWrittenWithoutPromotion | SK_chess.py:156-160 | when no candidate promotes, the loop as written also keeps the legal moves and leaves the board unchanged |
| Board.LonePawnMoves | SK_chess.py:24-39 | with only a White Pawn on a7, the push to a8 is White's one pseudo-legal move |
| Board.QueenStaysOnA7 | SK_chess.py:156-160 | repeating the a7-a8 trial over a lone Queen on a7 leaves that board unchanged |
| Board.LonePawnFirstTrial | SK_chess.py:132-146 | the first a7-a8 trial, with `unmove` as written, leaves a lone White Queen on a7 |
| Board.LonePawnTurnsIntoQueen | SK_chess.py:142-146 | `all_valid_moves('white')` as written, on a board with only a White Pawn on a7, leaves a White Queen on a7 and not the original board |
| Board.InitialBoard | SK_chess.py:85-92 | no ensures: the starting position of `_init_pieces`. Characterised by Board.InitialKingSquare and Board.InitialKings |
| Board.InitialKingSquare | SK_chess.py:85-92 | in the starting position a square holds the White King iff it is e1, the Black King iff it is e8, and rows 2 to 5 are empty |
| Board.InitialKings | SK_chess.py:85-92 | each side starts with exactly one King, on e1 and e8; `find_king` reports those squares; the middle four rows are empty |
| Evaluation.Material | SK_chess.py:168-174 | no ensures: the material sum of `evaluate`. Characterised by Evaluation.MaterialAntisymmetric, Evaluation.MaterialSet and Evaluation.MaterialAfterMove |
| Evaluation.Evaluate | SK_chess.py:165-176 | no ensures: material plus 10 times the difference in legal-move counts. Characterised by Evaluation.EvaluateAntisymmetric and Evaluation.MaterialAfterMove |
| Evaluation.MaterialFromAntisymmetric | SK_chess.py:168-174 | on any suffix of the square scan, White's material is the negation of Black's |
| Evaluation.MaterialAntisymmetric | SK_chess.py:165-174 | the material term for White is the negation of that for Black |
| Evaluation.EvaluateAntisymmetric | SK_chess.py:165-176 | the evaluation is zero-sum: the score for White is minus the score for Black |
| Evaluation.MaterialFromSet | SK_chess.py:168-174 | writing a square changes the material of every suffix that contains it by the difference of the old and new contributions, and leaves other suffixes alone |
| Evaluation.MaterialSet | SK_chess.py:168-174 | writing a square changes the material by exactly the new piece's contribution minus the old one's |
| Evaluation.MaterialAfterMove | SK_chess.py:132-174 | after a move, the material drops by the captured piece's contribution; on promotion it also gains a Queen's contribution in place of the Pawn's |
| Search.Max | SK_chess.py:200-201 | `max` over scores with ±infinity: an upper bound of both that is one of them |
| Search.Min | SK_chess.py:209-210 | `min` over scores with ±infinity: a lower bound of both that is one of them |
| Search.GameTree | SK_chess.py:191-213 | no ensures: the positions `minimax` visits, as a tree. Characterised by Search.BranchesAt and Search.FullWindowExact |
| Search.Branches | SK_chess.py:196-211 | one subtree per move, in the order of the move list; Search.BranchesAt states what each subtree is |
| Search.BranchesAt | SK_chess.py:197-211 | the i-th subtree is the search tree of the position after the i-th move, one ply shallower, with the other side to move |
| Search.AlphaBeta | SK_chess.py:191-213 | no ensures: `minimax` with alpha-beta pruning on a tree. Characterised by Search.AlphaBetaBracket and Search.FullWindowTree |
| Search.MaxLoop | SK_chess.py:195-203 | no ensures: the maximising loop with its cut. Characterised by Search.MaxLoopBracket |
| Search.MinLoop | SK_chess.py:204-213 | no ensures: the minimising loop with its cut. Characterised by Search.MinLoopBracket |
| Search.Minimax | SK_chess.py:191-213 | no ensures: `minimax` on the position's tree. Characterised by Search.FullWindowExact |
| Search.MaxCutStep | SK_chess.py:199-202 | a maximising step that reaches `beta <= alpha` keeps the running best as a lower bound and brackets the true value |
| Search.MaxGoStep | SK_chess.py:199-202 | a maximising step that narrows alpha and carries on brackets the true value for the original window |
| Search.MinCutStep | SK_chess.py:208-211 | a minimising step that reaches `beta <= alpha` keeps the running best as an upper bound and brackets the true value |
| Search.MinGoStep | SK_chess.py:208-211 | a minimising step that narrows beta and carries on brackets the true value for the original window |
| Search.AlphaBetaBracket | SK_chess.py:191-213 | for any window with alpha below beta, the pruned result equals the unpruned value inside the window, bounds it from above at or below alpha, and from below at or above beta |
| Search.MaxLoopBracket | SK_chess.py:195-203 | the maximising loop never returns less than its running best and brackets the larger of that best and the unpruned value of the remaining children |
| Search.MinLoopBracket | SK_chess.py:204-213 | the minimising loop never returns more than its running best and brackets the smaller of that best and the unpruned value of the remaining children |
| Search.FullWindowTree | SK_chess.py:191-213 | with the window (-inf, +inf), the pruned search of any tree equals unpruned minimax of that tree |
| Search.FullWindowExact | SK_chess.py:191-213 | `minimax(board, depth, -inf, inf, max_player)` equals unpruned fixed-perspective minimax, for every position, depth and side |
| Search.PickFirstBest | SK_chess.py:182-189 | the root loop returns none iff every value is -inf; otherwise it returns the first index whose value is greatest and above -inf (strict `>` lets earlier moves win ties) |
| Search.GetMove | SK_chess.py:182-189 | `get_move` returns none iff every legal move scores -inf under full-window minimax; otherwise the first legal move of greatest value, which is a legal move of the engine's colour |
| Search.RootValueAt | SK_chess.py:184-187 | the value `get_move` compares for the k-th legal move is the unpruned minimax value of the position after it, opponent to move, one ply less |
| PromotionTrials.PawnTargetsSame | SK_chess.py:24-39 | a Pawn's targets depend only on which squares hold which colour |
| PromotionTrials.TargetsSame | SK_chess.py:20-77 | for every kind, the targets are the same on two boards whose squares hold the same colours |
| PromotionTrials.InCheckUpgraded | SK_chess.py:113-130 | turning some of a side's Pawns on their pre-promotion row into Queens of that side does not change whether that side is in check |
| PromotionTrials.PromotionStart | SK_chess.py:24-39 | a pseudo-legal Pawn move that reaches row 0 or 7 starts on the row before the mover's last |
| PromotionTrials.PrePromotionMoves | SK_chess.py:24-39 | every pseudo-legal move of a Pawn on the row before its last reaches row 0 or 7 |
| PromotionTrials.MakeMoveUpgraded | SK_chess.py:132-140 | making a pseudo-legal move on such an upgraded board captures the same piece and gives an upgraded copy of the position after the move |
| PromotionTrials.UnmoveUpgraded | SK_chess.py:132-146 | `move` then `unmove` as written on an upgraded board gives an upgraded copy of the original board again |
| PromotionTrials.TryAllAsWrittenUpgraded | SK_chess.py:156-160 | the trial loop as written, run on an upgraded board, keeps exactly the moves the check filter keeps, and leaves an upgraded board |
| PromotionTrials.AllValidMovesAsWrittenList | SK_chess.py:148-160 | `all_valid_moves` as written returns exactly the legal moves, in the same order, and changes the board at most by turning the mover's Pawns on their pre-promotion row into Queens |
| Notation.SquareOf | SK_chess.py:261 | a file letter a-h and a rank digit 1-8 name a square on the board |
| Notation.ParseMove | SK_chess.py:257-261 | a text is accepted iff it is exactly four characters, file-rank-file-rank; both squares it yields are on the board |
| Notation.FormatSquare | SK_chess.py:284 | a square's name is a file letter then a rank digit, and those characters name that square again |
| Notation.SquareOfFormat | SK_chess.py:284 | naming the square given by a letter and a digit gives back those two characters |
| Notation.ParseFormat | SK_chess.py:257-261 | the four-character name of any pair of on-board squares parses back to that pair |
| Notation.FormatParse | SK_chess.py:257-261 | every accepted text is exactly the name of the pair it parses to |
| Notation.FirstMatch | SK_chess.py:269 | none iff no listed move joins the two squares; otherwise the earliest one that does |
| Notation.PlayerMove | SK_chess.py:269 | none iff no legal White move joins the typed squares; otherwise a legal White move from the first to the second |

## Left out

- The tkinter interface is not modelled: `ChessGame.__init__`, `draw`, `unicode`, `on_click`, `make_player_move` and the message boxes. Of `on_move`, only the lookup of the typed move is modelled (`Notation.PlayerMove`). The rest is presentation and event handling.
- Notation.ParseMove: `on_move` strips surrounding whitespace before calling `parse_move`; the model parses the text as given, which is what `parse_move` itself does.
- Python object identity and the mutation of `Move.captured`: `move` returns the captured piece instead, and the take-back receives it as an argument.
- `math.inf` is a float in SK_chess.py. The model uses the three-valued `Search.ExtInt`. All finite scores are integers, so nothing is lost.
- Board.MakeMove: requires both squares on the board. SK_chess.py indexes `grid[sr][sc]` directly, and Python would wrap a negative index. Every move the engine builds comes from a generator, and generators only target on-board squares, so such indices never arise.
- Search.GetMove: requires `depth >= 1`. With depth 0 the program calls `minimax` with depth -1, which never meets `depth == 0`. The game tree is unbounded, so that recursion ends only at a checkmate, at a side with no legal move, or at Python's recursion limit. The program itself always uses depth 1.
- Search.GetMove: none is returned not only when there is no legal move, but whenever every legal move scores `-inf`. A maximising node that is not terminal and has no legal move (the engine stalemated inside the horizon) scores `-inf`, and that value can reach the root through the minimising replies. The contract states this exactly as the code behaves. A reading in which "no move" means only "no legal move" would be stronger than the code.
- Board.LegalMoves uses the corrected take-back. For the list this makes no difference: PromotionTrials.AllValidMovesAsWrittenList proves that `all_valid_moves` as written returns the same list. What differs is the board left behind (see "Findings").
- Evaluation.Evaluate: uses the corrected take-back. In the program, the first `all_valid_moves(ai_color)` on line 175 can leave a promoted Queen on one of that side's Pawn squares; PromotionTrials.AllValidMovesAsWrittenList shows that nothing else changes. The second call, for the other colour, runs on that board. A Queen attacks differently from a Pawn, so the other colour's legal-move count, and with it the score, can differ from the model's. Any later `evaluate` on that board also counts a Queen's material instead of a Pawn's.
- Search.Minimax: uses the corrected take-back. As written, every call after a trial promotion (the `is_checkmate` tests at line 192, `evaluate`, and every deeper node) runs on the altered board. So the program's values can differ from the model's once a promotion is pseudo-legal anywhere in the search.
- Search.GetMove: for the same reason, its choice can differ from the program's once a promotion is pseudo-legal anywhere in the search.
- Cost: `evaluate` and `is_checkmate` recompute the legal moves each time. This affects running time only.

## Findings

| source | as written | input that shows it | evidently intended | confidence | as-written member | corrected member |
|---|---|---|---|---|---|---|
| SK_chess.py:142-146 | `unmove` puts back on the start square whatever stands on the end square. After a promotion that is the new Queen, so move/unmove turns the Pawn into a Queen on its origin. `all_valid_moves` makes and takes back every candidate on the live board, so every legality test, `is_checkmate`, `evaluate` and search leaves the promoted Queen behind | any promotion, e.g. the White Pawn a7-a8: after `move` and `unmove` a White Queen stands on a7. On a board with only that Pawn, `all_valid_moves('white')` leaves the Queen behind (Board.LonePawnTurnsIntoQueen) | the take-back restores the moving piece recorded in the move, so every trial leaves the board unchanged (Board.UnmoveRestores, Board.AllValidMovesRestores) | not executed | Board.UnmoveAsWrittenPromotion | Board.TryAllRestores |
