/** What the generated moves are: each specification function of the move
    generator characterised move by move, so that the promises of
    src/movegen.cpp (no capture of one's own pieces, the pawn rules, the
    castling conditions, where each move starts) are stated about every
    move `GeneratePseudoMoves` appends. */
module MoveGenProps {
  import opened Types
  import opened Bitboards
  import opened Attacks
  import opened MoveGen

  // ---------------------------------------------------------------------
  // The PopLsb loops

  /** The loop over a target set emits one plain move from `from` to each
      square of the set, and nothing else. */
  lemma TargetsIff(from: Square, targets: Bitboard, m: Move)
    ensures m in Targets(from, targets)
      <==> m.Move? && m.from == from && m.kind == Normal && Has(targets, m.to)
  {
    TargetsMeaning(from, targets);
  }

  /** The four promotion kinds. */
  predicate PromotionKind(k: MoveKind)
  {
    k.Promotion? && k.promo in {Queen, Rook, Bishop, Knight}
  }

  /** The capture loop of a pawn emits, for each target, four promotions on
      the promotion rank and one plain move elsewhere. */
  lemma {:induction false} PawnMovesToIff(from: Square, ts: seq<Square>, promo: bool, m: Move)
    ensures m in PawnMovesTo(from, ts, promo)
      <==> m.Move? && m.from == from && m.to in ts
           && (if promo then PromotionKind(m.kind) else m.kind == Normal)
  {
    if ts != [] {
      PawnMovesToIff(from, ts[1..], promo, m);
      assert ts == [ts[0]] + ts[1..];
    }
  }

  /** Exactly four moves per target on the promotion rank, one elsewhere. */
  lemma {:induction false} PawnMovesToLength(from: Square, ts: seq<Square>, promo: bool)
    ensures |PawnMovesTo(from, ts, promo)| == (if promo then 4 else 1) * |ts|
  {
    if ts != [] {
      PawnMovesToLength(from, ts[1..], promo);
    }
  }

  /** The four promotions to one square are the four piece kinds, once
      each, queen first. */
  lemma PromotionsAreFour(from: Square, to: Square)
    ensures |Promotions(from, to)| == 4
    ensures forall m :: m in Promotions(from, to) <==> m.Move? && m.from == from && m.to == to && PromotionKind(m.kind)
    ensures Promotions(from, to)[0].kind == Promotion(Queen)
  {
  }

  // ---------------------------------------------------------------------
  // Knights and sliders

  /** `s` is one of the first `n` listed squares of the side to move's
      pieces of type `k`. */
  predicate ListedBelow(b: Board, k: PieceType, n: int, s: Square)
    requires Valid(b) && 0 <= n <= Count(b, b.sideToMove, k)
  {
    s in b.pieceList[PieceIndex(Piece(b.sideToMove, k))][..n]
  }

  /** A move of the first `n` listed pieces of type `k`: a plain move from
      one of their squares to a square the piece attacks under the board's
      occupancy and that holds none of the mover's own pieces. */
  predicate PieceMove(b: Board, k: PieceType, n: int, m: Move)
    requires Valid(b) && 0 <= n <= Count(b, b.sideToMove, k)
  {
    m.Move? && m.kind == Normal && ListedBelow(b, k, n, m.from)
    && Has(PieceAttacks(k, b.sideToMove, m.from, Occupancy(b)), m.to) && !Has(Own(b), m.to)
  }

  /** The moves of the first `n` listed pieces of type `k` are exactly the
      moves `PieceMove` describes. */
  lemma PieceMovesIff(b: Board, k: PieceType, n: int, m: Move)
    requires Valid(b) && 0 <= n <= Count(b, b.sideToMove, k)
    ensures m in PieceMoves(b, k, n) <==> PieceMove(b, k, n, m)
  {
    var i := 0;
    while i < n
      invariant 0 <= i <= n
      invariant m in PieceMoves(b, k, i) <==> PieceMove(b, k, i, m)
    {
      i := i + 1;
      PieceMovesStepIff(b, k, i, m);
      if m.Move? {
        ListedBelowStep(b, k, i, m.from);
      }
    }
  }

  /** One listed piece more: its moves are those to its attacked squares
      without an own piece. */
  lemma PieceMovesStepIff(b: Board, k: PieceType, n: int, m: Move)
    requires Valid(b) && 0 < n <= Count(b, b.sideToMove, k)
    ensures m in PieceMoves(b, k, n) <==> (m in PieceMoves(b, k, n - 1)
      || (m.Move? && m.kind == Normal && m.from == Listed(b, b.sideToMove, k, n - 1)
          && Has(PieceAttacks(k, b.sideToMove, m.from, Occupancy(b)), m.to) && !Has(Own(b), m.to)))
  {
    var from := Listed(b, b.sideToMove, k, n - 1);
    TargetsAppendedIff(PieceMoves(b, k, n), PieceMoves(b, k, n - 1), from,
      PieceAttacks(k, b.sideToMove, from, Occupancy(b)), Own(b), m);
  }

  /** A list extended by the moves from `from` to the squares of `attacks`
      outside `own`. */
  lemma TargetsAppendedIff(all: seq<Move>, prev: seq<Move>, from: Square, attacks: Bitboard, own: Bitboard, m: Move)
    requires all == prev + Targets(from, attacks & !own)
    ensures m in all <==> (m in prev
      || (m.Move? && m.kind == Normal && m.from == from && Has(attacks, m.to) && !Has(own, m.to)))
  {
    TargetsIff(from, attacks & !own, m);
    if m.Move? {
      HasAndNot(attacks, own, m.to);
    }
  }

  lemma InConcat(x: seq<Move>, y: seq<Move>, z: seq<Move>, m: Move)
    requires x == y + z
    ensures m in x <==> m in y || m in z
  {
  }

  lemma ListedBelowStep(b: Board, k: PieceType, n: int, s: Square)
    requires Valid(b) && 0 < n <= Count(b, b.sideToMove, k)
    ensures ListedBelow(b, k, n, s) <==> ListedBelow(b, k, n - 1, s) || Listed(b, b.sideToMove, k, n - 1) == s
  {
    var l := b.pieceList[PieceIndex(Piece(b.sideToMove, k))];
    assert l[..n] == l[..n - 1] + [l[n - 1]];
  }

  /** Knight moves: plain moves from a listed knight of the side to move to
      a knight's step away, never onto one of the mover's own pieces. */
  lemma KnightMovesIff(b: Board, m: Move)
    requires Valid(b)
    ensures m in KnightMoves(b) <==>
      m.Move? && m.kind == Normal && ListedBelow(b, Knight, Count(b, b.sideToMove, Knight), m.from)
      && KnightAttack(m.from, m.to) && !Has(Own(b), m.to)
  {
    PieceMovesIff(b, Knight, Count(b, b.sideToMove, Knight), m);
  }

  /** The sliding moves are those of the bishops, the rooks and the queens. */
  lemma SlidingMovesIff(b: Board, m: Move)
    requires Valid(b)
    ensures m in SlidingMoves(b) <==>
      PieceMove(b, Bishop, Count(b, b.sideToMove, Bishop), m)
      || PieceMove(b, Rook, Count(b, b.sideToMove, Rook), m)
      || PieceMove(b, Queen, Count(b, b.sideToMove, Queen), m)
  {
    InConcat(SliderMoves(b, 3), SliderMoves(b, 2), PieceMoves(b, Queen, Count(b, b.sideToMove, Queen)), m);
    InConcat(SliderMoves(b, 2), SliderMoves(b, 1), PieceMoves(b, Rook, Count(b, b.sideToMove, Rook)), m);
    InConcat(SliderMoves(b, 1), SliderMoves(b, 0), PieceMoves(b, Bishop, Count(b, b.sideToMove, Bishop)), m);
    PieceMovesIff(b, Bishop, Count(b, b.sideToMove, Bishop), m);
    PieceMovesIff(b, Rook, Count(b, b.sideToMove, Rook), m);
    PieceMovesIff(b, Queen, Count(b, b.sideToMove, Queen), m);
  }

  /** No sliding move lands on one of the mover's own pieces, and each one
      follows the slider's ray up to the first blocker. */
  lemma SlidingMovesNotOwn(b: Board, m: Move)
    requires Valid(b) && m in SlidingMoves(b)
    ensures m.Move? && m.kind == Normal && !Has(Own(b), m.to)
    ensures RookAttack(m.from, m.to, Occupancy(b)) || BishopAttack(m.from, m.to, Occupancy(b))
  {
    SlidingMovesIff(b, m);
  }

  // ---------------------------------------------------------------------
  // The king

  /** The king's plain moves go one step to a square without an own
      piece; its other moves are the two castlings. */
  lemma KingMovesIff(b: Board, m: Move)
    requires Valid(b)
    ensures var from := b.kingSquare[ColorIndex(b.sideToMove)];
      m in KingMoves(b) <==>
        (m.Move? && m.from == from && m.kind == Normal && KingAttack(from, m.to) && !Has(Own(b), m.to))
        || m in KingSideCastling(b, b.sideToMove) || m in QueenSideCastling(b, b.sideToMove)
  {
    var from := b.kingSquare[ColorIndex(b.sideToMove)];
    TargetsThenIff(KingMoves(b), from, KingAttacks(from), Own(b),
      KingSideCastling(b, b.sideToMove), QueenSideCastling(b, b.sideToMove), m);
  }

  /** The moves from `from` to the squares of `attacks` outside `own`,
      followed by `next` and `last`. */
  lemma TargetsThenIff(all: seq<Move>, from: Square, attacks: Bitboard, own: Bitboard,
                       next: seq<Move>, last: seq<Move>, m: Move)
    requires all == Targets(from, attacks & !own) + next + last
    ensures m in all <==>
      (m.Move? && m.from == from && m.kind == Normal && Has(attacks, m.to) && !Has(own, m.to))
      || m in next || m in last
  {
    TargetsIff(from, attacks & !own, m);
    if m.Move? {
      HasAndNot(attacks, own, m.to);
    }
  }

  /** White's king-side castling, E1 to G1, is generated exactly when White
      is to move, holds the right, F1 and G1 are empty, and Black attacks
      neither E1 nor F1 (G1 itself is not tested). */
  lemma WhiteKingSideCastling(b: Board)
    requires Valid(b) && b.sideToMove == White
    ensures Move(SQ_E1, SQ_G1, Castling) in KingMoves(b) <==>
      b.castlingRights & WHITE_OO != 0 && Empty(b, SQ_F1) && Empty(b, SQ_G1)
      && !Attacked(b, SQ_E1, Black) && !Attacked(b, SQ_F1, Black)
  {
    KingMovesIff(b, Move(SQ_E1, SQ_G1, Castling));
  }

  /** White's queen-side castling, E1 to C1: the right, D1, C1 and B1 empty,
      and neither E1 nor D1 attacked. */
  lemma WhiteQueenSideCastling(b: Board)
    requires Valid(b) && b.sideToMove == White
    ensures Move(SQ_E1, SQ_C1, Castling) in KingMoves(b) <==>
      b.castlingRights & WHITE_OOO != 0 && Empty(b, SQ_D1) && Empty(b, SQ_C1) && Empty(b, SQ_B1)
      && !Attacked(b, SQ_E1, Black) && !Attacked(b, SQ_D1, Black)
  {
    KingMovesIff(b, Move(SQ_E1, SQ_C1, Castling));
  }

  /** Black's castlings mirror White's on the eighth rank. */
  lemma BlackKingSideCastling(b: Board)
    requires Valid(b) && b.sideToMove == Black
    ensures Move(SQ_E8, SQ_G8, Castling) in KingMoves(b) <==>
      b.castlingRights & BLACK_OO != 0 && Empty(b, SQ_F8) && Empty(b, SQ_G8)
      && !Attacked(b, SQ_E8, White) && !Attacked(b, SQ_F8, White)
  {
    KingMovesIff(b, Move(SQ_E8, SQ_G8, Castling));
  }

  lemma BlackQueenSideCastling(b: Board)
    requires Valid(b) && b.sideToMove == Black
    ensures Move(SQ_E8, SQ_C8, Castling) in KingMoves(b) <==>
      b.castlingRights & BLACK_OOO != 0 && Empty(b, SQ_D8) && Empty(b, SQ_C8) && Empty(b, SQ_B8)
      && !Attacked(b, SQ_E8, White) && !Attacked(b, SQ_D8, White)
  {
    KingMovesIff(b, Move(SQ_E8, SQ_C8, Castling));
  }

  /** Castling is the only special king move: it starts on the king's home
      square of the side to move and ends two files away. */
  lemma CastlingShape(b: Board, m: Move)
    requires Valid(b) && m in KingMoves(b) && m.Move? && m.kind != Normal
    ensures m.kind == Castling
    ensures m.from == (if b.sideToMove == White then SQ_E1 else SQ_E8)
    ensures m.to in (if b.sideToMove == White then {SQ_G1, SQ_C1} else {SQ_G8, SQ_C8})
  {
    KingMovesIff(b, m);
  }

  // ---------------------------------------------------------------------
  // Pawns

  /** The pushes of a pawn: one step onto an empty square, as four
      promotions from the seventh rank and as a plain move otherwise, and
      two steps from the second rank when both squares are empty. */
  lemma PawnPushesIff(b: Board, from: Square, m: Move)
    requires Valid(b) && RelativeRank(b.sideToMove, RankOf(from)) < 7
    ensures var c := b.sideToMove;
      var one := OneForward(c, from);
      var promoRank := RankOf(from) == RelativeRank(c, 6);
      m in PawnPushes(b, from) <==>
        m.Move? && m.from == from && Empty(b, one)
        && ((m.to == one && (if promoRank then PromotionKind(m.kind) else m.kind == Normal))
            || (RankOf(from) == RelativeRank(c, 1) && m.to == TwoForward(c, from)
                && Empty(b, TwoForward(c, from)) && m.kind == Normal))
  {
    PromotionsAreFour(from, OneForward(b.sideToMove, from));
  }

  /** The captures of a pawn go exactly to the enemy pieces it attacks, as
      four promotions each from the seventh rank. */
  lemma PawnCapturesIff(b: Board, from: Square, m: Move)
    requires Valid(b)
    ensures var c := b.sideToMove;
      m in PawnCaptures(b, from) <==>
        m.Move? && m.from == from && Has(PawnAttacks(c, from), m.to) && Has(Theirs(b), m.to)
        && (if RankOf(from) == RelativeRank(c, 6) then PromotionKind(m.kind) else m.kind == Normal)
  {
    var c := b.sideToMove;
    PawnTargetsIff(from, PawnAttacks(c, from), Theirs(b), RankOf(from) == RelativeRank(c, 6), m);
  }

  /** The capture loop over the squares of `attacks` that are in `theirs`. */
  lemma PawnTargetsIff(from: Square, attacks: Bitboard, theirs: Bitboard, promo: bool, m: Move)
    ensures m in PawnMovesTo(from, Squares(attacks & theirs), promo) <==>
      m.Move? && m.from == from && Has(attacks, m.to) && Has(theirs, m.to)
      && (if promo then PromotionKind(m.kind) else m.kind == Normal)
  {
    PawnMovesToIff(from, Squares(attacks & theirs), promo, m);
    if m.Move? {
      HasAnd(attacks, theirs, m.to);
    }
  }

  /** The en-passant capture goes to the board's en-passant square, only
      when there is one and the pawn attacks it. */
  lemma EnPassantIff(b: Board, from: Square, m: Move)
    requires Valid(b)
    ensures m in EnPassantMoves(b, from) <==>
      b.epSquare != SQ_NONE && m == Move(from, b.epSquare, EnPassant)
      && PawnAttack(b.sideToMove, from, b.epSquare)
  {
  }

  /** Every move of the pawn on `from`: it starts there, is never a
      castling, and is a plain move exactly when it is neither from the
      seventh rank nor en passant. */
  lemma PawnMovesFromShape(b: Board, from: Square, m: Move)
    requires Valid(b) && RelativeRank(b.sideToMove, RankOf(from)) < 7 && m in PawnMovesFrom(b, from)
    ensures m.Move? && m.from == from && m.kind != Castling
    ensures m.kind == Normal ==> RankOf(from) != RelativeRank(b.sideToMove, 6)
    ensures m.kind.Promotion? ==> RankOf(from) == RelativeRank(b.sideToMove, 6) && PromotionKind(m.kind)
  {
    PawnPushesIff(b, from, m);
    PawnCapturesIff(b, from, m);
    EnPassantIff(b, from, m);
  }

  /** The moves of the first `n` pawns start on listed pawn squares. */
  lemma PawnListMovesFrom(b: Board, n: int, m: Move)
    requires Valid(b) && PawnsCanAdvance(b) && 0 <= n <= Count(b, b.sideToMove, Pawn)
    requires m in PawnListMoves(b, n)
    ensures m.Move? && ListedBelow(b, Pawn, n, m.from)
  {
    var i := 0;
    while i < n
      invariant 0 <= i <= n
      invariant m in PawnListMoves(b, i) ==> m.Move? && ListedBelow(b, Pawn, i, m.from)
    {
      PawnListStepFrom(b, i, m);
      if m.Move? {
        ListedBelowStep(b, Pawn, i + 1, m.from);
      }
      i := i + 1;
    }
  }

  /** A move of the first `i + 1` pawns is one of the first `i` or starts
      on the square of pawn `i`. */
  lemma PawnListStepFrom(b: Board, i: int, m: Move)
    requires Valid(b) && PawnsCanAdvance(b) && 0 <= i < Count(b, b.sideToMove, Pawn)
    ensures m in PawnListMoves(b, i + 1) ==>
      m in PawnListMoves(b, i) || (m.Move? && m.from == Listed(b, b.sideToMove, Pawn, i))
  {
    var from := Listed(b, b.sideToMove, Pawn, i);
    InConcat(PawnListMoves(b, i + 1), PawnListMoves(b, i), PawnMovesFrom(b, from), m);
    if m in PawnMovesFrom(b, from) {
      PawnMovesFromShape(b, from, m);
    }
  }

  // ---------------------------------------------------------------------
  // All pseudo-legal moves

  /** Every generated move starts on a square of a piece of the side to
      move: a listed pawn, knight, bishop, rook or queen, or the king. */
  lemma PseudoMovesFrom(b: Board, m: Move)
    requires Valid(b) && PawnsCanAdvance(b) && m in PseudoMoves(b)
    ensures m.Move?
    ensures ListedBelow(b, Pawn, Count(b, b.sideToMove, Pawn), m.from)
      || ListedBelow(b, Knight, Count(b, b.sideToMove, Knight), m.from)
      || ListedBelow(b, Bishop, Count(b, b.sideToMove, Bishop), m.from)
      || ListedBelow(b, Rook, Count(b, b.sideToMove, Rook), m.from)
      || ListedBelow(b, Queen, Count(b, b.sideToMove, Queen), m.from)
      || m.from == b.kingSquare[ColorIndex(b.sideToMove)]
      || m.from == (if b.sideToMove == White then SQ_E1 else SQ_E8)
  {
    if m in PawnMoves(b) {
      PawnListMovesFrom(b, Count(b, b.sideToMove, Pawn), m);
    } else if m in SlidingMoves(b) {
      SlidingMovesIff(b, m);
    } else if m in KnightMoves(b) {
      KnightMovesIff(b, m);
    } else {
      KingMovesIff(b, m);
    }
  }

  /** No plain move of a knight, slider or the king captures one of the
      mover's own pieces. */
  lemma PieceMovesNeverOwn(b: Board, m: Move)
    requires Valid(b) && PawnsCanAdvance(b)
    requires m in SlidingMoves(b) || m in KnightMoves(b) || (m in KingMoves(b) && m.Move? && m.kind == Normal)
    ensures m.Move? && !Has(Own(b), m.to)
  {
    if m in SlidingMoves(b) {
      SlidingMovesIff(b, m);
    } else if m in KnightMoves(b) {
      KnightMovesIff(b, m);
    } else {
      KingMovesIff(b, m);
    }
  }
}
