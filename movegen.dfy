/** Pseudo-legal move generation and attack detection of src/movegen.cpp.
    Each generator appends to a move list; each is proved to append exactly
    the moves of a specification function over the board, and the
    properties of the generated moves are proved about those functions. */
module MoveGen {
  import opened Types
  import opened Bitboards
  import opened Attacks

  // ---------------------------------------------------------------------
  // The board, as far as move generation reads it

  /** The fields of the engine's board that the generators read. Piece
      lists and counts are indexed by the piece's enum value
      (`PieceIndex`), colour arrays by `ColorIndex`. */
  datatype Board = Board(
    pieces: seq<Piece>,
    sideToMove: Color,
    epSquare: int,
    castlingRights: CastlingRights,
    byColorBB: seq<Bitboard>,
    pieceList: seq<seq<Square>>,
    pieceNb: seq<int>,
    kingSquare: seq<Square>)

  /** The array sizes and ranges the generators rely on. */
  predicate Valid(b: Board)
  {
    |b.pieces| == 64 && |b.byColorBB| == 2 && |b.pieceList| == 16 && |b.pieceNb| == 16
    && |b.kingSquare| == 2
    && (forall p | 0 <= p < 16 :: 0 <= b.pieceNb[p] <= |b.pieceList[p]|)
    && (b.epSquare == SQ_NONE || 0 <= b.epSquare < 64)
  }

  /** The number of pieces of colour `c` and type `k` on the board. */
  function Count(b: Board, c: Color, k: PieceType): (n: int)
    requires Valid(b)
    ensures 0 <= n <= |b.pieceList[PieceIndex(Piece(c, k))]|
  {
    b.pieceNb[PieceIndex(Piece(c, k))]
  }

  /** The `i`-th listed square of the pieces of colour `c` and type `k`. */
  function Listed(b: Board, c: Color, k: PieceType, i: int): Square
    requires Valid(b) && 0 <= i < Count(b, c, k)
  {
    b.pieceList[PieceIndex(Piece(c, k))][i]
  }

  /** `ASSERT(IsOk(oneForward))`: no pawn of the side to move stands on its
      last rank, so the square in front of each one is on the board. */
  predicate PawnsCanAdvance(b: Board)
    requires Valid(b)
  {
    forall i | 0 <= i < Count(b, b.sideToMove, Pawn) ::
      RelativeRank(b.sideToMove, RankOf(Listed(b, b.sideToMove, Pawn, i))) < 7
  }

  function Own(b: Board): Bitboard
    requires Valid(b)
  {
    b.byColorBB[ColorIndex(b.sideToMove)]
  }

  function Theirs(b: Board): Bitboard
    requires Valid(b)
  {
    b.byColorBB[ColorIndex(Opp(b.sideToMove))]
  }

  /** `byColorBB[WHITE] | byColorBB[BLACK]`. */
  function Occupancy(b: Board): Bitboard
    requires Valid(b)
  {
    b.byColorBB[0] | b.byColorBB[1]
  }

  // ---------------------------------------------------------------------
  // The move list

  /** `MoveList`: the moves inserted so far, in order. */
  class MoveList {
    var moves: seq<Move>

    constructor()
      ensures moves == []
    {
      moves := [];
    }

    /** `Insert`: appends one move. */
    method Insert(m: Move)
      modifies this
      ensures moves == old(moves) + [m]
    {
      moves := moves + [m];
    }
  }

  // ---------------------------------------------------------------------
  // Specification of the generated moves

  /** The attack set of a piece of type `k` and colour `c` on `sq`:
      `Bitboards::GetAttacks<k>`. */
  function PieceAttacks(k: PieceType, c: Color, sq: Square, occ: Bitboard): Bitboard
  {
    match k
    case Pawn => PawnAttacks(c, sq)
    case Knight => KnightAttacks(sq)
    case Bishop => BishopAttacks(sq, occ)
    case Rook => RookAttacks(sq, occ)
    case Queen => QueenAttacks(sq, occ)
    case King => KingAttacks(sq)
  }

  /** Plain moves from `from` to each of `ts`, in order. */
  function MovesTo(from: Square, ts: seq<Square>): (r: seq<Move>)
    ensures |r| == |ts|
    ensures forall m :: m in r <==> m.Move? && m.from == from && m.to in ts && m.kind == Normal
  {
    if ts == [] then [] else [Move(from, ts[0], Normal)] + MovesTo(from, ts[1..])
  }

  /** Marks where the meaning of `TARGETS` may be used. */
  predicate Emitted(from: Square, targets: Bitboard) { true }

  type TargetLoop = f: (Square, Bitboard) -> seq<Move>
    | forall from: Square, targets: Bitboard {:trigger Emitted(from, targets)} ::
        Emitted(from, targets) ==> f(from, targets) == MovesTo(from, Squares(targets))
    witness (from: Square, targets: Bitboard) => MovesTo(from, Squares(targets))

  /** `MovesTo(from, Squares(targets))` for every origin and target set,
      kept behind a constant so that reasoning about a list of such loops
      does not reach into each loop's squares. */
  const TARGETS: TargetLoop

  /** The moves the `while (attacks) { PopLsb; Insert }` loop emits:
      one plain move to each square of `targets`, lowest square first. */
  function Targets(from: Square, targets: Bitboard): seq<Move>
  {
    TARGETS(from, targets)
  }

  lemma TargetsMeaning(from: Square, targets: Bitboard)
    ensures Targets(from, targets) == MovesTo(from, Squares(targets))
  {
    assert Emitted(from, targets);
  }

  /// The four promotions `add_promotions` inserts, queen first.
  function Promotions(from: Square, to: Square): seq<Move>
  {
    [Move(from, to, Promotion(Queen)), Move(from, to, Promotion(Rook)),
     Move(from, to, Promotion(Bishop)), Move(from, to, Promotion(Knight))]
  }

  /** The pawn moves to one target: four promotions, or one plain move. */
  function PawnMovesAt(from: Square, to: Square, promo: bool): seq<Move>
  {
    if promo then Promotions(from, to) else [Move(from, to, Normal)]
  }

  /** Pawn moves to each of `ts`: four promotions each on the promotion
      rank, a plain move otherwise. */
  function PawnMovesTo(from: Square, ts: seq<Square>, promo: bool): seq<Move>
  {
    if ts == [] then []
    else PawnMovesAt(from, ts[0], promo) + PawnMovesTo(from, ts[1..], promo)
  }

  /** The moves of the first `n` listed pieces of type `k` of the side to
      move (not pawns): each piece's attacks minus its own side's pieces. */
  function PieceMoves(b: Board, k: PieceType, n: int): seq<Move>
    requires Valid(b) && 0 <= n <= Count(b, b.sideToMove, k)
  {
    if n == 0 then []
    else
      var from := Listed(b, b.sideToMove, k, n - 1);
      PieceMoves(b, k, n - 1) + Targets(from, PieceAttacks(k, b.sideToMove, from, Occupancy(b)) & !Own(b))
  }

  /** The slider types in `generate_sliding_moves`' order. */
  const SLIDERS: seq<PieceType> := [Bishop, Rook, Queen]

  /** The moves of the first `i` slider types. */
  function SliderMoves(b: Board, i: int): seq<Move>
    requires Valid(b) && 0 <= i <= 3
  {
    if i == 0 then []
    else SliderMoves(b, i - 1) + PieceMoves(b, SLIDERS[i - 1], Count(b, b.sideToMove, SLIDERS[i - 1]))
  }

  function SlidingMoves(b: Board): seq<Move>
    requires Valid(b)
  {
    SliderMoves(b, 3)
  }

  function KnightMoves(b: Board): seq<Move>
    requires Valid(b)
  {
    PieceMoves(b, Knight, Count(b, b.sideToMove, Knight))
  }

  /** An attack by any of the first `n` listed pieces of colour `c` and
      type `k` on `sq`. */
  predicate AttackedByListed(b: Board, c: Color, k: PieceType, sq: Square, occ: Bitboard, n: int)
    requires Valid(b) && 0 <= n <= Count(b, c, k)
  {
    exists i | 0 <= i < n :: Has(PieceAttacks(k, c, Listed(b, c, k, i), occ), sq)
  }

  /** Square `sq` is attacked by colour `c`: some piece of `c` has `sq` in
      its attack set, sliders under the full occupancy. */
  predicate Attacked(b: Board, sq: Square, c: Color)
    requires Valid(b)
  {
    var occ := Occupancy(b);
    AttackedByListed(b, c, Pawn, sq, 0, Count(b, c, Pawn))
    || AttackedByListed(b, c, Knight, sq, 0, Count(b, c, Knight))
    || Has(KingAttacks(b.kingSquare[ColorIndex(c)]), sq)
    || AttackedByListed(b, c, Bishop, sq, occ, Count(b, c, Bishop))
    || AttackedByListed(b, c, Rook, sq, occ, Count(b, c, Rook))
    || AttackedByListed(b, c, Queen, sq, occ, Count(b, c, Queen))
  }

  function Empty(b: Board, sq: Square): bool
    requires Valid(b)
  {
    b.pieces[sq] == NoPiece
  }

  /** The castling move from `king` to `to` if the side to move holds
      `right`, every square of `path` between king and rook is empty, and
      `them` attacks neither the king's square nor the square it crosses. */
  function Castle(b: Board, right: CastlingRights, king: Square, cross: Square, to: Square,
                  path: seq<Square>, them: Color): seq<Move>
    requires Valid(b)
  {
    if b.castlingRights & right != 0 && (forall s | s in path :: Empty(b, s))
       && !Attacked(b, king, them) && !Attacked(b, cross, them)
    then [Move(king, to, Castling)] else []
  }

  /** King-side castling of `c`: E to G, over F, with F and G empty. */
  function KingSideCastling(b: Board, c: Color): seq<Move>
    requires Valid(b)
  {
    if c == White then Castle(b, WHITE_OO, SQ_E1, SQ_F1, SQ_G1, [SQ_F1, SQ_G1], Black)
    else Castle(b, BLACK_OO, SQ_E8, SQ_F8, SQ_G8, [SQ_F8, SQ_G8], White)
  }

  /** Queen-side castling of `c`: E to C, over D, with D, C and B empty. */
  function QueenSideCastling(b: Board, c: Color): seq<Move>
    requires Valid(b)
  {
    if c == White then Castle(b, WHITE_OOO, SQ_E1, SQ_D1, SQ_C1, [SQ_D1, SQ_C1, SQ_B1], Black)
    else Castle(b, BLACK_OOO, SQ_E8, SQ_D8, SQ_C8, [SQ_D8, SQ_C8, SQ_B8], White)
  }

  function KingMoves(b: Board): seq<Move>
    requires Valid(b)
  {
    var from := b.kingSquare[ColorIndex(b.sideToMove)];
    Targets(from, KingAttacks(from) & !Own(b))
    + KingSideCastling(b, b.sideToMove) + QueenSideCastling(b, b.sideToMove)
  }

  /** The pushes of the pawn on `from`. */
  function PawnPushes(b: Board, from: Square): seq<Move>
    requires Valid(b) && RelativeRank(b.sideToMove, RankOf(from)) < 7
  {
    var c := b.sideToMove;
    var one := OneForward(c, from);
    if !Empty(b, one) then []
    else if RankOf(from) == RelativeRank(c, 6) then Promotions(from, one)
    else
      var two := TwoForward(c, from);
      [Move(from, one, Normal)]
      + (if RankOf(from) == RelativeRank(c, 1) && Empty(b, two) then [Move(from, two, Normal)] else [])
  }

  /** `startSq + PawnPush(color)`, on the board below the last rank. */
  function OneForward(c: Color, from: Square): (t: Square)
    requires RelativeRank(c, RankOf(from)) < 7
    ensures FileOf(t) == FileOf(from) && RelativeRank(c, RankOf(t)) == RelativeRank(c, RankOf(from)) + 1
  {
    from + PawnPush(c)
  }

  /** `startSq + 2 * PawnPush(color)`, on the board below the seventh rank. */
  function TwoForward(c: Color, from: Square): (t: Square)
    requires RelativeRank(c, RankOf(from)) < 6
    ensures FileOf(t) == FileOf(from) && RelativeRank(c, RankOf(t)) == RelativeRank(c, RankOf(from)) + 2
  {
    from + 2 * PawnPush(c)
  }

  /** The captures of the pawn on `from`: its attacks on enemy pieces. */
  function PawnCaptures(b: Board, from: Square): seq<Move>
    requires Valid(b)
  {
    var c := b.sideToMove;
    PawnMovesTo(from, Squares(PawnAttacks(c, from) & Theirs(b)), RankOf(from) == RelativeRank(c, 6))
  }

  /** The en-passant capture of the pawn on `from`, if the board has an
      en-passant square and the pawn attacks it. */
  function EnPassantMoves(b: Board, from: Square): seq<Move>
    requires Valid(b)
  {
    if b.epSquare != SQ_NONE && Has(PawnAttacks(b.sideToMove, from), b.epSquare)
    then [Move(from, b.epSquare, EnPassant)] else []
  }

  function PawnMovesFrom(b: Board, from: Square): seq<Move>
    requires Valid(b) && RelativeRank(b.sideToMove, RankOf(from)) < 7
  {
    PawnPushes(b, from) + PawnCaptures(b, from) + EnPassantMoves(b, from)
  }

  /** The moves of the first `n` pawns of the side to move. */
  function PawnListMoves(b: Board, n: int): seq<Move>
    requires Valid(b) && PawnsCanAdvance(b) && 0 <= n <= Count(b, b.sideToMove, Pawn)
  {
    if n == 0 then []
    else PawnListMoves(b, n - 1) + PawnMovesFrom(b, Listed(b, b.sideToMove, Pawn, n - 1))
  }

  function PawnMoves(b: Board): seq<Move>
    requires Valid(b) && PawnsCanAdvance(b)
  {
    PawnListMoves(b, Count(b, b.sideToMove, Pawn))
  }

  /** All pseudo-legal moves, in the order `GeneratePseudoMoves` emits them. */
  function PseudoMoves(b: Board): seq<Move>
    requires Valid(b) && PawnsCanAdvance(b)
  {
    PawnMoves(b) + SlidingMoves(b) + KnightMoves(b) + KingMoves(b)
  }

  // ---------------------------------------------------------------------
  // The generators

  lemma AppendAssoc(a: seq<Move>, b: seq<Move>, c: seq<Move>)
    ensures (a + b) + c == a + (b + c)
  {
  }

  /** One turn of a `PopLsb` loop: the moves still to come are the move to
      the popped square followed by those of the rest. */
  lemma TargetsStep(l: seq<Move>, from: Square, before: Bitboard, t: Square, after: Bitboard)
    requires Squares(before) == [t] + Squares(after)
    ensures l + Targets(from, before) == (l + [Move(from, t, Normal)]) + Targets(from, after)
  {
    TargetsMeaning(from, before);
    TargetsMeaning(from, after);
    assert ([t] + Squares(after))[1..] == Squares(after);
    AppendAssoc(l, [Move(from, t, Normal)], Targets(from, after));
  }

  lemma PawnTargetsStep(l: seq<Move>, from: Square, before: seq<Square>, t: Square, after: seq<Square>, promo: bool)
    requires before == [t] + after
    ensures l + PawnMovesTo(from, before, promo) == (l + PawnMovesAt(from, t, promo)) + PawnMovesTo(from, after, promo)
  {
    assert before[1..] == after;
    AppendAssoc(l, PawnMovesAt(from, t, promo), PawnMovesTo(from, after, promo));
  }

  /** `while (attacks) { target = PopLsb(attacks); list.Insert(Move(start, target)); }` */
  method InsertTargets(list: MoveList, startSq: Square, targets: Bitboard)
    modifies list
    ensures list.moves == old(list.moves) + Targets(startSq, targets)
  {
    var attacks := targets;
    while attacks != 0
      invariant list.moves + Targets(startSq, attacks) == old(list.moves) + Targets(startSq, targets)
      decreases PopCount(attacks)
    {
      var targetSq;
      ghost var before := attacks;
      targetSq, attacks := PopLsb(attacks);
      TargetsStep(list.moves, startSq, before, targetSq, attacks);
      list.Insert(Move(startSq, targetSq, Normal));
    }
    SquaresEmpty(attacks);
    TargetsMeaning(startSq, attacks);
  }

  /** `add_promotions(startSq, toSq)`. */
  method AddPromotions(list: MoveList, startSq: Square, toSq: Square)
    modifies list
    ensures list.moves == old(list.moves) + Promotions(startSq, toSq)
  {
    list.Insert(Move(startSq, toSq, Promotion(Queen)));
    list.Insert(Move(startSq, toSq, Promotion(Rook)));
    list.Insert(Move(startSq, toSq, Promotion(Bishop)));
    list.Insert(Move(startSq, toSq, Promotion(Knight)));
  }

  /** The inner loop over the listed pieces of one type, with `start`'s
      attack set taken from `PieceAttacks`. */
  method InsertPieceMoves(b: Board, k: PieceType, list: MoveList)
    requires Valid(b)
    modifies list
    ensures list.moves == old(list.moves) + PieceMoves(b, k, Count(b, b.sideToMove, k))
  {
    var side := b.sideToMove;
    var occupancy := Occupancy(b);
    var pieceNb := Count(b, side, k);
    var pieceIdx := 0;
    while pieceIdx < pieceNb
      invariant 0 <= pieceIdx <= pieceNb
      invariant list.moves == old(list.moves) + PieceMoves(b, k, pieceIdx)
    {
      var startSq := Listed(b, side, k, pieceIdx);
      var attacks := PieceAttacks(k, side, startSq, occupancy) & !b.byColorBB[ColorIndex(side)];
      PieceMovesStep(b, k, pieceIdx, old(list.moves), startSq, attacks);
      InsertTargets(list, startSq, attacks);
      pieceIdx := pieceIdx + 1;
    }
  }

  lemma PieceMovesStep(b: Board, k: PieceType, i: int, l0: seq<Move>, from: Square, attacks: Bitboard)
    requires Valid(b) && 0 <= i < Count(b, b.sideToMove, k)
    requires from == Listed(b, b.sideToMove, k, i)
    requires attacks == PieceAttacks(k, b.sideToMove, from, Occupancy(b)) & !Own(b)
    ensures l0 + PieceMoves(b, k, i + 1) == (l0 + PieceMoves(b, k, i)) + Targets(from, attacks)
  {
    AppendAssoc(l0, PieceMoves(b, k, i), Targets(from, attacks));
  }

  /** `generate_sliding_moves`: bishops, then rooks, then queens. */
  method GenerateSlidingMoves(b: Board, list: MoveList)
    requires Valid(b)
    modifies list
    ensures list.moves == old(list.moves) + SlidingMoves(b)
  {
    var i := 0;
    while i < 3
      invariant 0 <= i <= 3
      invariant list.moves == old(list.moves) + SliderMoves(b, i)
    {
      var k := SLIDERS[i];
      AppendAssoc(old(list.moves), SliderMoves(b, i), PieceMoves(b, k, Count(b, b.sideToMove, k)));
      InsertPieceMoves(b, k, list);
      i := i + 1;
    }
  }

  /** `generate_knight_moves`. */
  method GenerateKnightMoves(b: Board, list: MoveList)
    requires Valid(b)
    modifies list
    ensures list.moves == old(list.moves) + KnightMoves(b)
  {
    InsertPieceMoves(b, Knight, list);
  }

  /** `MoveGen::IsSquareAttacked`: pawns, knights, the king, then bishops,
      rooks and queens, returning as soon as one attacks `sq`. */
  method IsSquareAttacked(b: Board, sq: Square, attacker: Color) returns (r: bool)
    requires Valid(b)
    ensures r == Attacked(b, sq, attacker)
  {
    var sqBb := SquareBb(sq);
    r := AnyListedAttacks(b, attacker, Pawn, sq, sqBb, 0);
    if r { return; }
    r := AnyListedAttacks(b, attacker, Knight, sq, sqBb, 0);
    if r { return; }
    var kingAttacks := KingAttacks(b.kingSquare[ColorIndex(attacker)]);
    MaskMeaning(kingAttacks, sqBb, sq);
    if kingAttacks & sqBb != 0 {
      return true;
    }
    var occupied := Occupancy(b);
    r := AnyListedAttacks(b, attacker, Bishop, sq, sqBb, occupied);
    if r { return; }
    r := AnyListedAttacks(b, attacker, Rook, sq, sqBb, occupied);
    if r { return; }
    r := AnyListedAttacks(b, attacker, Queen, sq, sqBb, occupied);
  }

  /** One of `IsSquareAttacked`'s loops: does a listed piece of colour `c`
      and type `k` attack `sq` (`GetAttacks<k>(...) & sqBb`)? */
  method AnyListedAttacks(b: Board, c: Color, k: PieceType, sq: Square, sqBb: Bitboard, occ: Bitboard)
    returns (r: bool)
    requires Valid(b) && sqBb == SquareBb(sq)
    ensures r == AttackedByListed(b, c, k, sq, occ, Count(b, c, k))
  {
    var i := 0;
    while i < Count(b, c, k)
      invariant 0 <= i <= Count(b, c, k)
      invariant !AttackedByListed(b, c, k, sq, occ, i)
    {
      var attacks := PieceAttacks(k, c, Listed(b, c, k, i), occ);
      MaskMeaning(attacks, sqBb, sq);
      if attacks & sqBb != 0 {
        return true;
      }
      i := i + 1;
    }
    return false;
  }

  /** `attacks & SquareBb(sq)` is non-zero exactly when `sq` is in
      `attacks`. */
  lemma MaskMeaning(attacks: Bitboard, mask: Bitboard, sq: Square)
    requires mask == SquareBb(sq)
    ensures (attacks & mask != 0) == Has(attacks, sq)
  {
    HasMeaning(attacks, sq);
    SquareBbIsBit(attacks, mask, sq);
  }

  lemma SquareBbIsBit(attacks: Bitboard, mask: Bitboard, sq: Square)
    requires mask == SquareBb(sq)
    ensures (attacks & mask != 0) == (attacks & Bit(sq) != 0)
  {
  }

  /** `generate_king_moves`: the king's steps, then castling. */
  method GenerateKingMoves(b: Board, list: MoveList)
    requires Valid(b)
    modifies list
    ensures list.moves == old(list.moves) + KingMoves(b)
  {
    var color := b.sideToMove;
    var startSq := b.kingSquare[ColorIndex(color)];
    var attacks := KingAttacks(startSq) & !b.byColorBB[ColorIndex(color)];
    InsertTargets(list, startSq, attacks);
    InsertCastlingMoves(b, list);
    AppendAssoc3(old(list.moves), Targets(startSq, attacks), KingSideCastling(b, color), QueenSideCastling(b, color));
  }

  /** The castling part of `generate_king_moves`: king side, then queen
      side, for the side to move. */
  method InsertCastlingMoves(b: Board, list: MoveList)
    requires Valid(b)
    modifies list
    ensures list.moves == old(list.moves) + (KingSideCastling(b, b.sideToMove) + QueenSideCastling(b, b.sideToMove))
  {
    if b.sideToMove == White {
      TryCastle(b, list, WHITE_OO, SQ_E1, SQ_F1, SQ_G1, [SQ_F1, SQ_G1], Black);
      TryCastle(b, list, WHITE_OOO, SQ_E1, SQ_D1, SQ_C1, [SQ_D1, SQ_C1, SQ_B1], Black);
    } else {
      TryCastle(b, list, BLACK_OO, SQ_E8, SQ_F8, SQ_G8, [SQ_F8, SQ_G8], White);
      TryCastle(b, list, BLACK_OOO, SQ_E8, SQ_D8, SQ_C8, [SQ_D8, SQ_C8, SQ_B8], White);
    }
    AppendAssoc(old(list.moves), KingSideCastling(b, b.sideToMove), QueenSideCastling(b, b.sideToMove));
  }

  lemma AppendAssoc3(l0: seq<Move>, t: seq<Move>, k: seq<Move>, q: seq<Move>)
    ensures (l0 + t) + (k + q) == l0 + ((t + k) + q)
  {
    AppendAssoc(l0, t, k + q);
    AppendAssoc(t, k, q);
  }

  /** One castling block of `generate_king_moves`: the right, then the
      empty squares, then the two attack tests. */
  method TryCastle(b: Board, list: MoveList, right: CastlingRights, king: Square, cross: Square,
                   to: Square, path: seq<Square>, them: Color)
    requires Valid(b)
    modifies list
    ensures list.moves == old(list.moves) + Castle(b, right, king, cross, to, path, them)
  {
    if b.castlingRights & right != 0 {
      if forall s | s in path :: b.pieces[s] == NoPiece {
        var kingAttacked := IsSquareAttacked(b, king, them);
        var crossAttacked := IsSquareAttacked(b, cross, them);
        if !kingAttacked && !crossAttacked {
          list.Insert(Move(king, to, Castling));
        }
      }
    }
  }

  /** The body of the capture loop: four promotions on the promotion rank,
      else one plain move. */
  method InsertPawnMove(list: MoveList, startSq: Square, to: Square, promo: bool)
    modifies list
    ensures list.moves == old(list.moves) + PawnMovesAt(startSq, to, promo)
  {
    if promo {
      AddPromotions(list, startSq, to);
    } else {
      list.Insert(Move(startSq, to, Normal));
    }
  }

  /** The capture loop of `generate_pawn_moves`. */
  method InsertPawnCaptures(list: MoveList, startSq: Square, targets: Bitboard, promo: bool)
    modifies list
    ensures list.moves == old(list.moves) + PawnMovesTo(startSq, Squares(targets), promo)
  {
    var captures := targets;
    while captures != 0
      invariant list.moves + PawnMovesTo(startSq, Squares(captures), promo)
        == old(list.moves) + PawnMovesTo(startSq, Squares(targets), promo)
      decreases PopCount(captures)
    {
      var to;
      ghost var before := captures;
      to, captures := PopLsb(captures);
      PawnTargetsStep(list.moves, startSq, Squares(before), to, Squares(captures), promo);
      InsertPawnMove(list, startSq, to, promo);
    }
    SquaresEmpty(captures);
  }

  /** The body of `generate_pawn_moves`' loop for the pawn on `startSq`:
      pushes, captures, en passant. */
  method InsertPawnMoves(b: Board, startSq: Square, list: MoveList)
    requires Valid(b) && RelativeRank(b.sideToMove, RankOf(startSq)) < 7
    modifies list
    ensures list.moves == old(list.moves) + PawnMovesFrom(b, startSq)
  {
    var color := b.sideToMove;
    ghost var l0 := list.moves;
    InsertPawnPushes(b, startSq, list);
    var pawnAtt := PawnAttacks(color, startSq);
    var captures := pawnAtt & b.byColorBB[ColorIndex(Opp(color))];
    InsertPawnCaptures(list, startSq, captures, RankOf(startSq) == RelativeRank(color, 6));
    InsertEnPassant(b, startSq, pawnAtt, list);
    PawnMovesFromParts(b, startSq, l0);
  }

  lemma PawnMovesFromParts(b: Board, from: Square, l0: seq<Move>)
    requires Valid(b) && RelativeRank(b.sideToMove, RankOf(from)) < 7
    ensures ((l0 + PawnPushes(b, from)) + PawnCaptures(b, from)) + EnPassantMoves(b, from)
      == l0 + PawnMovesFrom(b, from)
  {
    AppendAssoc(l0, PawnPushes(b, from), PawnCaptures(b, from));
    AppendAssoc(l0, PawnPushes(b, from) + PawnCaptures(b, from), EnPassantMoves(b, from));
  }

  /** The en-passant part of `generate_pawn_moves`' loop body. */
  method InsertEnPassant(b: Board, startSq: Square, pawnAtt: Bitboard, list: MoveList)
    requires Valid(b) && pawnAtt == PawnAttacks(b.sideToMove, startSq)
    modifies list
    ensures list.moves == old(list.moves) + EnPassantMoves(b, startSq)
  {
    if b.epSquare != SQ_NONE && Has(pawnAtt, b.epSquare) {  // pawnAtt & (1ULL << epSquare)
      list.Insert(Move(startSq, b.epSquare, EnPassant));
    }
  }

  /** The push part of `generate_pawn_moves`' loop body: one step forward
      onto an empty square (four promotions on the last rank), and two
      steps from the start rank when both squares are empty. */
  method InsertPawnPushes(b: Board, startSq: Square, list: MoveList)
    requires Valid(b) && RelativeRank(b.sideToMove, RankOf(startSq)) < 7
    modifies list
    ensures list.moves == old(list.moves) + PawnPushes(b, startSq)
  {
    var color := b.sideToMove;
    var startRank, promoRank := RelativeRank(color, 1), RelativeRank(color, 6);
    var rank := RankOf(startSq);
    var oneForward := OneForward(color, startSq);
    if b.pieces[oneForward] == NoPiece {
      if rank == promoRank {
        AddPromotions(list, startSq, oneForward);
      } else {
        var twoForward := TwoForward(color, startSq);
        list.Insert(Move(startSq, oneForward, Normal));
        if rank == startRank && b.pieces[twoForward] == NoPiece {
          list.Insert(Move(startSq, twoForward, Normal));
        }
      }
    }
  }

  lemma PawnListStep(b: Board, i: int, l0: seq<Move>, from: Square)
    requires Valid(b) && PawnsCanAdvance(b) && 0 <= i < Count(b, b.sideToMove, Pawn)
    requires from == Listed(b, b.sideToMove, Pawn, i)
    ensures RelativeRank(b.sideToMove, RankOf(from)) < 7
    ensures l0 + PawnListMoves(b, i + 1) == (l0 + PawnListMoves(b, i)) + PawnMovesFrom(b, from)
  {
    AppendAssoc(l0, PawnListMoves(b, i), PawnMovesFrom(b, from));
  }

  /** `generate_pawn_moves`. */
  method GeneratePawnMoves(b: Board, list: MoveList)
    requires Valid(b) && PawnsCanAdvance(b)
    modifies list
    ensures list.moves == old(list.moves) + PawnMoves(b)
  {
    var color := b.sideToMove;
    var pieceNb := Count(b, color, Pawn);
    var pieceIdx := 0;
    while pieceIdx < pieceNb
      invariant 0 <= pieceIdx <= pieceNb
      invariant list.moves == old(list.moves) + PawnListMoves(b, pieceIdx)
    {
      var startSq := Listed(b, color, Pawn, pieceIdx);
      PawnListStep(b, pieceIdx, old(list.moves), startSq);
      InsertPawnMoves(b, startSq, list);
      pieceIdx := pieceIdx + 1;
    }
  }

  /** `MoveGen::GeneratePseudoMoves`: pawns, sliders, knights, king, each
      appended after the moves already in the list. */
  method GeneratePseudoMoves(b: Board, list: MoveList)
    requires Valid(b) && PawnsCanAdvance(b)
    modifies list
    ensures list.moves == old(list.moves) + PseudoMoves(b)
  {
    ghost var l0 := old(list.moves);
    ghost var p, s, n, k := PawnMoves(b), SlidingMoves(b), KnightMoves(b), KingMoves(b);
    GeneratePawnMoves(b, list);
    GenerateSlidingMoves(b, list);
    AppendAssoc(l0, p, s);
    GenerateKnightMoves(b, list);
    AppendAssoc(l0, p + s, n);
    GenerateKingMoves(b, list);
    AppendAssoc(l0, p + s + n, k);
  }
}
