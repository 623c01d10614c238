/** The fail-hard negamax alpha-beta search of src/search.cpp, over the
    game tree the engine walks: each node is a position with its material,
    its side to move, whether that side is in check, and the pseudo-legal
    moves in generation order, each of which either fails `do_move`
    (`Illegal`) or leads to a child position (`Legal`). */
module Search {
  import opened Types
  import opened Evaluation

  datatype Node = Node(material: Material, sideToMove: Color, inCheck: bool, moves: seq<Succ>)

  datatype Succ = Illegal | Legal(child: Node)

  /** The score of a position whose side to move is checkmated. */
  const MATE_SCORE: int := -100000

  /** The score of a stalemate. */
  const DRAW_SCORE: int := 0

  /** Whether some move of `s` passes `do_move`. */
  predicate AnyLegal(s: seq<Succ>)
  {
    exists j :: 0 <= j < |s| && s[j].Legal?
  }

  /** The score of a position with no legal move: mate or stalemate. */
  function TerminalScore(n: Node): int
  {
    if n.inCheck then MATE_SCORE else DRAW_SCORE
  }

  // ---------------------------------------------------------------------
  // Plain negamax: the value the search approximates

  /** The negamax value of `n` searched to `depth` plies: the evaluation
      at depth 0, the terminal score when no move is legal, and otherwise
      the best negated child value. */
  function Negamax(n: Node, depth: nat): int
    decreases depth, 1, 0
  {
    if depth == 0 then Evaluate(n.material, n.sideToMove)
    else if !AnyLegal(n.moves) then TerminalScore(n)
    else Best(n.moves, depth - 1)
  }

  /** The largest `-Negamax(child, depth)` over the legal moves of `s`. */
  function Best(s: seq<Succ>, depth: nat): int
    requires AnyLegal(s)
    decreases depth, 2, |s|
  {
    var last := s[|s| - 1];
    var init := s[..|s| - 1];
    if last.Illegal? then
      assert forall j :: 0 <= j < |init| ==> init[j] == s[j];
      Best(init, depth)
    else if !AnyLegal(init) then -Negamax(last.child, depth)
    else Max(Best(init, depth), -Negamax(last.child, depth))
  }

  /** `Best` is the maximum over the legal moves: no legal child scores
      more, and some legal child scores exactly that. */
  lemma {:induction false} BestIsMaximum(s: seq<Succ>, depth: nat)
    requires AnyLegal(s)
    ensures forall j :: 0 <= j < |s| && s[j].Legal? ==> -Negamax(s[j].child, depth) <= Best(s, depth)
    ensures exists j :: 0 <= j < |s| && s[j].Legal? && -Negamax(s[j].child, depth) == Best(s, depth)
    decreases |s|
  {
    var last := s[|s| - 1];
    var init := s[..|s| - 1];
    assert forall j :: 0 <= j < |init| ==> init[j] == s[j];
    if AnyLegal(init) {
      BestIsMaximum(init, depth);
      var j :| 0 <= j < |init| && init[j].Legal? && -Negamax(init[j].child, depth) == Best(init, depth);
      if last.Legal? && Best(s, depth) != Best(init, depth) {
        assert -Negamax(s[|s| - 1].child, depth) == Best(s, depth);
      } else {
        assert s[j].Legal? && -Negamax(s[j].child, depth) == Best(s, depth);
      }
    } else {
      assert last.Legal?;
      assert -Negamax(s[|s| - 1].child, depth) == Best(s, depth);
    }
  }

  /** Extending the move list by one move updates `Best` as the search loop
      updates its running maximum. */
  lemma BestStep(s: seq<Succ>, i: int, depth: nat)
    requires 0 <= i < |s|
    ensures s[..i + 1][..i] == s[..i]
    ensures AnyLegal(s[..i + 1]) <==> AnyLegal(s[..i]) || s[i].Legal?
    ensures s[i].Illegal? && AnyLegal(s[..i]) ==> Best(s[..i + 1], depth) == Best(s[..i], depth)
    ensures s[i].Legal? && !AnyLegal(s[..i]) ==> Best(s[..i + 1], depth) == -Negamax(s[i].child, depth)
    ensures s[i].Legal? && AnyLegal(s[..i]) ==>
      Best(s[..i + 1], depth) == Max(Best(s[..i], depth), -Negamax(s[i].child, depth))
  {
    var t := s[..i + 1];
    assert t[..i] == s[..i];
    assert t[i] == s[i];
    if AnyLegal(t) && !AnyLegal(s[..i]) {
      var j :| 0 <= j < |t| && t[j].Legal?;
      assert j == i;
    }
    if AnyLegal(s[..i]) {
      var j :| 0 <= j < i && s[..i][j].Legal?;
      assert t[j].Legal?;
    }
  }

  // ---------------------------------------------------------------------
  // The fail-hard window

  /** A fail-hard search with window (alpha, beta) reports `v` clamped to
      the window: `alpha` for a value at or below it, `beta` for one at or
      above it, and `v` itself in between. */
  function FailHard(v: int, alpha: int, beta: int): (r: int)
    requires alpha < beta
    ensures alpha <= r <= beta
    ensures alpha < v < beta ==> r == v
    ensures v <= alpha ==> r == alpha
    ensures v >= beta ==> r == beta
  {
    if v <= alpha then alpha else if v >= beta then beta else v
  }

  /** What the loop needs of one child's reply: whether the child's search
      returned its exact value (a leaf or a terminal position) or its value
      clamped to the child's window, the negated score fails high exactly
      when the negated value does, and otherwise raises alpha to the same
      value. */
  lemma ChildScore(v: int, rc: int, alpha: int, beta: int)
    requires alpha < beta
    requires rc == v || rc == FailHard(v, -beta, -alpha)
    ensures -rc >= beta <==> -v >= beta
    ensures -rc < beta ==> Max(alpha, -rc) == Max(alpha, -v)
  {
  }

  // ---------------------------------------------------------------------
  // Search::alphaBeta

  /** `alphaBeta(board, depth, alpha, beta)`. At depth 0 it returns the
      evaluation; with no legal move it returns the mate or stalemate score
      whatever the window; otherwise, for a non-empty window, it returns the
      negamax value clamped to the window. */
  method AlphaBeta(n: Node, depth: nat, alpha: int, beta: int) returns (r: int)
    ensures depth == 0 ==> r == Evaluate(n.material, n.sideToMove)
    ensures depth > 0 && !AnyLegal(n.moves) ==> r == TerminalScore(n)
    ensures depth > 0 && AnyLegal(n.moves) && alpha < beta ==> r == FailHard(Negamax(n, depth), alpha, beta)
    decreases depth
  {
    if depth == 0 {
      return Evaluate(n.material, n.sideToMove);
    }
    var list := n.moves;
    var foundMove := false;
    var a := alpha;
    var i := 0;
    while i < |list|
      invariant 0 <= i <= |list|
      invariant foundMove <==> AnyLegal(list[..i])
      invariant alpha < beta ==> alpha <= a < beta
      invariant alpha < beta && !foundMove ==> a == alpha
      invariant alpha < beta && foundMove ==> Best(list[..i], depth - 1) < beta
      invariant alpha < beta && foundMove ==> a == Max(alpha, Best(list[..i], depth - 1))
    {
      BestStep(list, i, depth - 1);
      if list[i].Illegal? {
        i := i + 1;
        continue;
      }
      foundMove := true;
      var childScore := AlphaBeta(list[i].child, depth - 1, -beta, -a);
      var score := -childScore;
      if alpha < beta {
        ChildScore(Negamax(list[i].child, depth - 1), childScore, a, beta);
      }
      if score >= beta {
        if alpha < beta {
          BestIsMaximum(list, depth - 1);
        }
        return beta;
      }
      a := Max(a, score);
      i := i + 1;
    }
    assert list[..i] == list;
    if !foundMove {
      if n.inCheck {
        return MATE_SCORE;
      } else {
        return DRAW_SCORE;
      }
    }
    return a;
  }

  // ---------------------------------------------------------------------
  // Consequences

  /** The negamax value of a node with a legal move is the best negated
      child value: no legal child exceeds it and one attains it. */
  lemma NegamaxIsBestChild(n: Node, depth: nat)
    requires depth > 0 && AnyLegal(n.moves)
    ensures forall j :: 0 <= j < |n.moves| && n.moves[j].Legal? ==>
      -Negamax(n.moves[j].child, depth - 1) <= Negamax(n, depth)
    ensures exists j :: (0 <= j < |n.moves| && n.moves[j].Legal? &&
                         -Negamax(n.moves[j].child, depth - 1) == Negamax(n, depth))
  {
    BestIsMaximum(n.moves, depth - 1);
  }

  /** Moves that fail `do_move` play no part: removing one leaves the value
      unchanged. */
  lemma {:induction false} IllegalMovesIgnored(s: seq<Succ>, t: seq<Succ>, depth: nat)
    requires AnyLegal(s + t)
    ensures AnyLegal(s + [Illegal] + t)
    ensures Best(s + [Illegal] + t, depth) == Best(s + t, depth)
  {
    var u, w := s + t, s + [Illegal] + t;
    BestIsMaximum(u, depth);
    var j :| 0 <= j < |u| && u[j].Legal? && -Negamax(u[j].child, depth) == Best(u, depth);
    var j' := if j < |s| then j else j + 1;
    assert w[j'] == u[j];
    BestIsMaximum(w, depth);
    var k :| 0 <= k < |w| && w[k].Legal? && -Negamax(w[k].child, depth) == Best(w, depth);
    assert k != |s|;
    var k' := if k < |s| then k else k - 1;
    assert u[k'] == w[k];
  }
}
