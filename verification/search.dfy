/** `AIPlayer` in SK_chess.py: fixed-perspective minimax with alpha-beta
    pruning, and the root loop that picks a move. Scores are always from the
    engine's own colour `ai`, at every ply.

    The positions the search visits are laid out as a `Tree`: a leaf where
    `minimax` stops and returns `evaluate(ai)`, a node with one child per legal
    move, in the order of `all_valid_moves`. Alpha-beta and plain minimax are
    then functions of that tree; because the model is pure, visiting a child
    in the tree and applying, searching and taking back the move on one board
    give the same value. */
module Search {
  import opened ChessTypes
  import opened Board
  import opened Evaluation

  /** Scores with the two sentinels `-math.inf` and `math.inf`. */
  datatype ExtInt = NegInf | Fin(n: int) | PosInf

  predicate Le(a: ExtInt, b: ExtInt) {
    a.NegInf? || b.PosInf? || (a.Fin? && b.Fin? && a.n <= b.n)
  }

  predicate Lt(a: ExtInt, b: ExtInt) {
    !Le(b, a)
  }

  /** The larger of two scores; Python's `max(a, b)`. */
  function Max(a: ExtInt, b: ExtInt): (r: ExtInt)
    ensures Le(a, r) && Le(b, r) && (r == a || r == b)
  {
    if Le(a, b) then b else a
  }

  /** The smaller of two scores; Python's `min(a, b)`. */
  function Min(a: ExtInt, b: ExtInt): (r: ExtInt)
    ensures Le(r, a) && Le(r, b) && (r == a || r == b)
  {
    if Le(a, b) then a else b
  }

  // ---------------------------------------------------------------- the search tree

  datatype Tree = Leaf(score: int) | Node(kids: seq<Tree>)

  /** `minimax` stops here: no depth left, or either side is checkmated,
      whichever side is nominally to move. */
  predicate Terminal(g: Grid, ai: Color, depth: nat) {
    depth == 0 || IsCheckmate(g, ai) || IsCheckmate(g, Opponent(ai))
  }

  /** The tree `minimax(board, depth, _, _, max_player)` explores: a leaf
      scored `evaluate(ai)` at a terminal position; otherwise one child per
      legal move of `ai` (maximising) or of its opponent (minimising). */
  function GameTree(g: Grid, ai: Color, depth: nat, maxPlayer: bool): Tree
    decreases depth, 1
  {
    if Terminal(g, ai, depth) then Leaf(Evaluate(g, ai))
    else if maxPlayer then Node(Branches(g, ai, depth, LegalMoves(g, ai), false))
    else Node(Branches(g, ai, depth, LegalMoves(g, Opponent(ai)), true))
  }

  /** One subtree per move of `ms`, searched one ply shallower with the other side to move. */
  function Branches(g: Grid, ai: Color, depth: nat, ms: seq<Move>, childMax: bool): (ts: seq<Tree>)
    requires depth >= 1
    requires forall m :: m in ms ==> OnBoard(m)
    decreases depth, 0, |ms|
    ensures |ts| == |ms|
  {
    if ms == [] then []
    else [GameTree(Apply(g, ms[0]), ai, depth - 1, childMax)] + Branches(g, ai, depth, ms[1..], childMax)
  }

  /** Dropping the first `i` moves drops the first `i` subtrees. */
  lemma {:induction false} BranchesDrop(g: Grid, ai: Color, depth: nat, ms: seq<Move>, childMax: bool, i: int)
    requires depth >= 1
    requires forall m :: m in ms ==> OnBoard(m)
    requires 0 <= i < |ms|
    decreases i
    ensures Branches(g, ai, depth, ms, childMax)[i] == Branches(g, ai, depth, ms[i..], childMax)[0]
  {
    if i > 0 {
      BranchesDrop(g, ai, depth, ms[1..], childMax, i - 1);
      assert ms[1..][i - 1..] == ms[i..];
    }
  }

  /** The `i`-th subtree is the tree of the position after the `i`-th move. */
  lemma BranchesAt(g: Grid, ai: Color, depth: nat, ms: seq<Move>, childMax: bool, i: int)
    requires depth >= 1
    requires forall m :: m in ms ==> OnBoard(m)
    requires 0 <= i < |ms|
    ensures Branches(g, ai, depth, ms, childMax)[i] == GameTree(Apply(g, ms[i]), ai, depth - 1, childMax)
  {
    BranchesDrop(g, ai, depth, ms, childMax, i);
    assert ms[i..][0] == ms[i];
  }

  // ---------------------------------------------------------------- with pruning

  /** `AIPlayer.minimax` on a tree. The maximiser's loop starts from `-inf`,
      the minimiser's from `+inf`, so a node with no children (a side with no
      legal move that is not checkmated) scores that sentinel. */
  function AlphaBeta(t: Tree, alpha: ExtInt, beta: ExtInt, maxPlayer: bool): ExtInt
    decreases t, 1
  {
    match t
    case Leaf(s) => Fin(s)
    case Node(kids) =>
      if maxPlayer then MaxLoop(kids, alpha, beta, NegInf) else MinLoop(kids, alpha, beta, PosInf)
  }

  /** The maximising `for` loop from child list `ts` on, with running `alpha`
      and best value `best`: it raises alpha and stops once `beta <= alpha`. */
  function MaxLoop(ts: seq<Tree>, alpha: ExtInt, beta: ExtInt, best: ExtInt): ExtInt
    decreases ts, 0
  {
    if ts == [] then best
    else
      var v := AlphaBeta(ts[0], alpha, beta, false);
      var alpha' := Max(alpha, v);
      if Le(beta, alpha') then Max(best, v)
      else MaxLoop(ts[1..], alpha', beta, Max(best, v))
  }

  /** The minimising `for` loop, lowering `beta`. */
  function MinLoop(ts: seq<Tree>, alpha: ExtInt, beta: ExtInt, best: ExtInt): ExtInt
    decreases ts, 0
  {
    if ts == [] then best
    else
      var v := AlphaBeta(ts[0], alpha, beta, true);
      var beta' := Min(beta, v);
      if Le(beta', alpha) then Min(best, v)
      else MinLoop(ts[1..], alpha, beta', Min(best, v))
  }

  // ---------------------------------------------------------------- without pruning

  /** Plain fixed-perspective minimax, visiting every child. */
  function TreeValue(t: Tree, maxPlayer: bool): ExtInt
    decreases t, 1
  {
    match t
    case Leaf(s) => Fin(s)
    case Node(kids) => if maxPlayer then MaxOver(kids) else MinOver(kids)
  }

  /** The largest minimiser value over `ts`; `-inf` when there is none. */
  function MaxOver(ts: seq<Tree>): ExtInt
    decreases ts, 0
  {
    if ts == [] then NegInf else Max(TreeValue(ts[0], false), MaxOver(ts[1..]))
  }

  /** The smallest maximiser value over `ts`; `+inf` when there is none. */
  function MinOver(ts: seq<Tree>): ExtInt
    decreases ts, 0
  {
    if ts == [] then PosInf else Min(TreeValue(ts[0], true), MinOver(ts[1..]))
  }

  /** `minimax(board, depth, alpha, beta, max_player)` for the engine playing `ai`. */
  function Minimax(g: Grid, ai: Color, depth: nat, alpha: ExtInt, beta: ExtInt, maxPlayer: bool): ExtInt {
    AlphaBeta(GameTree(g, ai, depth, maxPlayer), alpha, beta, maxPlayer)
  }

  /** The unpruned minimax value of the same position and depth. */
  function MinimaxValue(g: Grid, ai: Color, depth: nat, maxPlayer: bool): ExtInt {
    TreeValue(GameTree(g, ai, depth, maxPlayer), maxPlayer)
  }

  // ---------------------------------------------------------------- soundness of pruning

  /** What a fail-soft alpha-beta result `v` says about the true value `t`
      for window (alpha, beta): exact inside the window, an upper bound at or
      below alpha, a lower bound at or above beta. */
  predicate Bracket(v: ExtInt, t: ExtInt, alpha: ExtInt, beta: ExtInt) {
    && (Lt(alpha, v) && Lt(v, beta) ==> v == t)
    && (Le(v, alpha) ==> Le(t, v))
    && (Le(beta, v) ==> Le(v, t))
  }

  /** One maximising step that cuts off: the child failed high. */
  lemma MaxCutStep(alpha: ExtInt, beta: ExtInt, best: ExtInt, v: ExtInt, t: ExtInt, rest: ExtInt)
    requires Lt(alpha, beta) && Le(best, alpha) && Bracket(v, t, alpha, beta)
    requires Le(beta, Max(alpha, v))
    ensures Le(best, Max(best, v))
    ensures Bracket(Max(best, v), Max(best, Max(t, rest)), alpha, beta)
  {
  }

  /** One maximising step that carries on with the window narrowed to (max(alpha, v), beta). */
  lemma MaxGoStep(alpha: ExtInt, beta: ExtInt, best: ExtInt, v: ExtInt, t: ExtInt, rest: ExtInt, r: ExtInt)
    requires Lt(alpha, beta) && Le(best, alpha) && Bracket(v, t, alpha, beta)
    requires !Le(beta, Max(alpha, v))
    requires Le(Max(best, v), r) && Bracket(r, Max(Max(best, v), rest), Max(alpha, v), beta)
    ensures Le(best, r)
    ensures Bracket(r, Max(best, Max(t, rest)), alpha, beta)
  {
  }

  /** One minimising step that cuts off: the child failed low. */
  lemma MinCutStep(alpha: ExtInt, beta: ExtInt, best: ExtInt, v: ExtInt, t: ExtInt, rest: ExtInt)
    requires Lt(alpha, beta) && Le(beta, best) && Bracket(v, t, alpha, beta)
    requires Le(Min(beta, v), alpha)
    ensures Le(Min(best, v), best)
    ensures Bracket(Min(best, v), Min(best, Min(t, rest)), alpha, beta)
  {
  }

  /** One minimising step that carries on with the window narrowed to (alpha, min(beta, v)). */
  lemma MinGoStep(alpha: ExtInt, beta: ExtInt, best: ExtInt, v: ExtInt, t: ExtInt, rest: ExtInt, r: ExtInt)
    requires Lt(alpha, beta) && Le(beta, best) && Bracket(v, t, alpha, beta)
    requires !Le(Min(beta, v), alpha)
    requires Le(r, Min(best, v)) && Bracket(r, Min(Min(best, v), rest), alpha, Min(beta, v))
    ensures Le(r, best)
    ensures Bracket(r, Min(best, Min(t, rest)), alpha, beta)
  {
  }

  /** Alpha-beta with any non-empty window brackets the unpruned value. */
  lemma {:induction false} AlphaBetaBracket(t: Tree, alpha: ExtInt, beta: ExtInt, maxPlayer: bool)
    requires Lt(alpha, beta)
    decreases t, 1
    ensures Bracket(AlphaBeta(t, alpha, beta, maxPlayer), TreeValue(t, maxPlayer), alpha, beta)
  {
    match t
    case Leaf(_) =>
    case Node(kids) =>
      if maxPlayer {
        MaxLoopBracket(kids, alpha, beta, NegInf);
      } else {
        MinLoopBracket(kids, alpha, beta, PosInf);
      }
  }

  /** The maximising loop never returns less than its running best, and
      brackets the larger of that best and the true values still to come. */
  lemma {:induction false} MaxLoopBracket(ts: seq<Tree>, alpha: ExtInt, beta: ExtInt, best: ExtInt)
    requires Lt(alpha, beta) && Le(best, alpha)
    decreases ts, 0
    ensures Le(best, MaxLoop(ts, alpha, beta, best))
    ensures Bracket(MaxLoop(ts, alpha, beta, best), Max(best, MaxOver(ts)), alpha, beta)
  {
    if ts != [] {
      var v := AlphaBeta(ts[0], alpha, beta, false);
      var t := TreeValue(ts[0], false);
      var rest := MaxOver(ts[1..]);
      AlphaBetaBracket(ts[0], alpha, beta, false);
      var alpha' := Max(alpha, v);
      if Le(beta, alpha') {
        MaxCutStep(alpha, beta, best, v, t, rest);
      } else {
        MaxLoopBracket(ts[1..], alpha', beta, Max(best, v));
        MaxGoStep(alpha, beta, best, v, t, rest, MaxLoop(ts[1..], alpha', beta, Max(best, v)));
      }
    }
  }

  /** The minimising loop never returns more than its running best, and
      brackets the smaller of that best and the true values still to come. */
  lemma {:induction false} MinLoopBracket(ts: seq<Tree>, alpha: ExtInt, beta: ExtInt, best: ExtInt)
    requires Lt(alpha, beta) && Le(beta, best)
    decreases ts, 0
    ensures Le(MinLoop(ts, alpha, beta, best), best)
    ensures Bracket(MinLoop(ts, alpha, beta, best), Min(best, MinOver(ts)), alpha, beta)
  {
    if ts != [] {
      var v := AlphaBeta(ts[0], alpha, beta, true);
      var t := TreeValue(ts[0], true);
      var rest := MinOver(ts[1..]);
      AlphaBetaBracket(ts[0], alpha, beta, true);
      var beta' := Min(beta, v);
      if Le(beta', alpha) {
        MinCutStep(alpha, beta, best, v, t, rest);
      } else {
        MinLoopBracket(ts[1..], alpha, beta', Min(best, v));
        MinGoStep(alpha, beta, best, v, t, rest, MinLoop(ts[1..], alpha, beta', Min(best, v)));
      }
    }
  }

  /** With the full window (-inf, +inf) pruning changes nothing: alpha-beta
      returns exactly the unpruned minimax value of the tree. */
  lemma FullWindowTree(t: Tree, maxPlayer: bool)
    ensures AlphaBeta(t, NegInf, PosInf, maxPlayer) == TreeValue(t, maxPlayer)
  {
    AlphaBetaBracket(t, NegInf, PosInf, maxPlayer);
  }

  /** `minimax(board, depth, -inf, inf, max_player)` returns the unpruned minimax
      value of the position, for every position, depth and side to move. */
  lemma FullWindowExact(g: Grid, ai: Color, depth: nat, maxPlayer: bool)
    ensures Minimax(g, ai, depth, NegInf, PosInf, maxPlayer) == MinimaxValue(g, ai, depth, maxPlayer)
  {
    FullWindowTree(GameTree(g, ai, depth, maxPlayer), maxPlayer);
  }

  // ---------------------------------------------------------------- choosing a move

  /** Unpruned values of the minimiser subtrees `ts`. */
  function Values(ts: seq<Tree>): (vs: seq<ExtInt>)
    ensures |vs| == |ts|
  {
    seq(|ts|, i requires 0 <= i < |ts| => TreeValue(ts[i], false))
  }

  /** `vs[k]` beats `-inf`, every earlier value strictly, and every value at least weakly. */
  predicate FirstBest(vs: seq<ExtInt>, k: int) {
    && 0 <= k < |vs|
    && Lt(NegInf, vs[k])
    && (forall i :: 0 <= i < k ==> Lt(vs[i], vs[k]))
    && (forall i :: 0 <= i < |vs| ==> Le(vs[i], vs[k]))
  }

  /** The root loop of `get_move` over the subtrees of the root moves: search
      each with the full window and keep the first whose value is strictly
      above the best so far, starting from `-inf`. The result is the first
      position of greatest unpruned value, or none when every value is `-inf`. */
  method PickFirstBest(ts: seq<Tree>) returns (k: Option<nat>)
    ensures k.None? <==> forall i :: 0 <= i < |ts| ==> Values(ts)[i] == NegInf
    ensures k.Some? ==> FirstBest(Values(ts), k.value)
  {
    var vs := Values(ts);
    var bestVal := NegInf;
    k := None;
    var i := 0;
    while i < |ts|
      invariant 0 <= i <= |ts|
      invariant k.None? ==> bestVal == NegInf && forall j :: 0 <= j < i ==> vs[j] == NegInf
      invariant k.Some? ==> k.value < i && bestVal == vs[k.value] && Lt(NegInf, bestVal)
      invariant k.Some? ==> forall j :: 0 <= j < k.value ==> Lt(vs[j], bestVal)
      invariant k.Some? ==> forall j :: 0 <= j < i ==> Le(vs[j], bestVal)
    {
      var val := AlphaBeta(ts[i], NegInf, PosInf, false);
      FullWindowTree(ts[i], false);
      if Lt(bestVal, val) {
        bestVal := val;
        k := Some(i);
      }
      i := i + 1;
    }
  }

  /** The subtrees `get_move` searches: one per legal move of `ai`, opponent to move, one ply less. */
  function RootTrees(g: Grid, ai: Color, depth: nat): (ts: seq<Tree>)
    requires depth >= 1
    ensures |ts| == |LegalMoves(g, ai)|
  {
    Branches(g, ai, depth, LegalMoves(g, ai), false)
  }

  /** `AIPlayer.get_move` with search depth `depth`: the first legal move of
      greatest unpruned minimax value, or none exactly when every legal move
      scores `-inf` (in particular when there is no legal move). */
  method GetMove(g: Grid, ai: Color, depth: nat) returns (choice: Option<Move>)
    requires depth >= 1
    ensures var vs := Values(RootTrees(g, ai, depth));
            choice.None? <==> forall i :: 0 <= i < |vs| ==> vs[i] == NegInf
    ensures choice.Some? ==>
              exists k :: FirstBest(Values(RootTrees(g, ai, depth)), k) && choice.value == LegalMoves(g, ai)[k]
    ensures choice.Some? ==> IsLegal(g, ai, choice.value)
  {
    var ms := LegalMoves(g, ai);
    var ts := RootTrees(g, ai, depth);
    var k := PickFirstBest(ts);
    if k.Some? {
      choice := Some(ms[k.value]);
      assert ms[k.value] in ms;
    } else {
      choice := None;
    }
  }

  /** The value `get_move` compares for the `k`-th legal move is the unpruned
      minimax value of the position after it, with the opponent to move. */
  lemma RootValueAt(g: Grid, ai: Color, depth: nat, k: int)
    requires depth >= 1 && 0 <= k < |LegalMoves(g, ai)|
    ensures Values(RootTrees(g, ai, depth))[k] == MinimaxValue(Apply(g, LegalMoves(g, ai)[k]), ai, depth - 1, false)
  {
    var ms := LegalMoves(g, ai);
    assert ms[k] in ms;
    BranchesAt(g, ai, depth, ms, false, k);
  }
}
