/** Attack sets, specified square by square from board coordinates: the
    offsets of the leapers (pawn, knight, king) and ray casting for the
    sliders (bishop, rook, queen). These are the sets the engine's attack
    tables are meant to hold. */
module Attacks {
  import opened Types
  import opened Bitboards

  function Abs(x: int): (a: int)
    ensures a >= 0 && (a == x || a == -x)
  {
    if x < 0 then -x else x
  }

  function Sgn(x: int): (g: int)
    ensures -1 <= g <= 1
    ensures (g == 0) == (x == 0) && (g > 0) == (x > 0)
  {
    if x < 0 then -1 else if x > 0 then 1 else 0
  }

  /** `g * j` for a sign `g`, written without multiplication. */
  function Scale(g: int, j: int): int
  {
    if g > 0 then j else if g < 0 then -j else 0
  }

  /** File and rank differences from `s` to `t`. */
  function DFile(s: Square, t: Square): int
  {
    FileOf(t) - FileOf(s)
  }

  function DRank(s: Square, t: Square): int
  {
    RankOf(t) - RankOf(s)
  }

  /** The king-step (Chebyshev) distance between two squares. */
  function Distance(s: Square, t: Square): (d: int)
    ensures 0 <= d <= 7
    ensures d == 0 <==> s == t
  {
    SquareOfCoordinates(s);
    SquareOfCoordinates(t);
    Max(Abs(DFile(s, t)), Abs(DRank(s, t)))
  }

  // ---------------------------------------------------------------------
  // Leapers

  predicate KnightAttack(s: Square, t: Square)
  {
    (Abs(DFile(s, t)) == 1 && Abs(DRank(s, t)) == 2)
    || (Abs(DFile(s, t)) == 2 && Abs(DRank(s, t)) == 1)
  }

  predicate KingAttack(s: Square, t: Square)
  {
    Distance(s, t) == 1
  }

  /** A pawn of colour `c` on `s` attacks the two squares diagonally in
      front of it. */
  predicate PawnAttack(c: Color, s: Square, t: Square)
  {
    DRank(s, t) == (if c == White then 1 else -1) && Abs(DFile(s, t)) == 1
  }

  // ---------------------------------------------------------------------
  // Sliders

  /** `t` lies on a rank or file through `s`. */
  predicate RookLine(s: Square, t: Square)
  {
    s != t && (DFile(s, t) == 0 || DRank(s, t) == 0)
  }

  /** `t` lies on a diagonal through `s`. */
  predicate BishopLine(s: Square, t: Square)
  {
    s != t && Abs(DFile(s, t)) == Abs(DRank(s, t))
  }

  /** `u` lies strictly between `s` and `t`, on the straight line from `s`
      towards `t`. */
  predicate Between(s: Square, t: Square, u: Square)
  {
    var j := Distance(s, u);
    0 < j < Distance(s, t)
    && DFile(s, u) == Scale(Sgn(DFile(s, t)), j)
    && DRank(s, u) == Scale(Sgn(DRank(s, t)), j)
  }

  /** No square strictly between `s` and `t` is occupied. */
  predicate Clear(s: Square, t: Square, occ: Bitboard)
  {
    forall u: Square :: Between(s, t, u) ==> !Has(occ, u)
  }

  /** A rook on `s` attacks `t` under occupancy `occ`: same rank or file,
      nothing in between. The first blocker itself is attacked. */
  predicate RookAttack(s: Square, t: Square, occ: Bitboard)
  {
    RookLine(s, t) && Clear(s, t, occ)
  }

  predicate BishopAttack(s: Square, t: Square, occ: Bitboard)
  {
    BishopLine(s, t) && Clear(s, t, occ)
  }

  predicate QueenAttack(s: Square, t: Square, occ: Bitboard)
  {
    RookAttack(s, t, occ) || BishopAttack(s, t, occ)
  }

  // ---------------------------------------------------------------------
  // Bitboards of a square predicate

  /** The squares at or above `i` that satisfy `p`. */
  function BoardFrom(p: Square -> bool, i: int): (r: Bitboard)
    requires 0 <= i <= 64
    ensures forall s: Square :: Has(r, s) <==> i <= s && p(s)
    decreases 64 - i
  {
    if i == 64 then
      forall s: Square ensures !Has(0, s) {
        HasZero(s);
      }
      0
    else
      var rest := BoardFrom(p, i + 1);
      var x := if p(i) then Bit(i) else 0;
      var r := x | rest;
      forall s: Square ensures Has(r, s) <==> i <= s && p(s) {
        HasOr(x, rest, s);
        HasBit(i, s);
        HasZero(s);
      }
      r
  }

  /** A function building, for each square predicate, the bitboard of the
      squares that satisfy it. */
  type BoardBuilder = f: (Square -> bool) -> Bitboard
    | forall p: Square -> bool, s: Square :: Has(f(p), s) <==> p(s)
    witness (p: Square -> bool) => BoardFrom(p, 0)

  /** `BoardFrom(., 0)`, seen only through its defining property, so that
      no caller unrolls the 64 steps. */
  const BOARD: BoardBuilder

  /** The bitboard of exactly the squares satisfying `p`. */
  function BoardWhere(p: Square -> bool): (r: Bitboard)
    ensures forall s: Square :: Has(r, s) <==> p(s)
  {
    BOARD(p)
  }

  /** Bitboards with the same squares are equal. */
  lemma SameSquaresEqual(a: Bitboard, b: Bitboard)
    requires forall s: Square :: Has(a, s) <==> Has(b, s)
    ensures a == b
  {
    var x, y := a & !b, b & !a;
    forall s: Square ensures !Has(x, s) && !Has(y, s) {
      HasAndNot(a, b, s);
      HasAndNot(b, a, s);
    }
    NoSquaresZero(x);
    NoSquaresZero(y);
    NoDifferenceEqual(a, b);
  }

  lemma NoDifferenceEqual(a: Bitboard, b: Bitboard)
    ensures (a & !b == 0 && b & !a == 0) ==> a == b
  {
  }

  // ---------------------------------------------------------------------
  // The attack bitboards

  function KnightAttacks(s: Square): (r: Bitboard)
    ensures forall t: Square :: Has(r, t) <==> KnightAttack(s, t)
  {
    BoardWhere((t: Square) => KnightAttack(s, t))
  }

  function KingAttacks(s: Square): (r: Bitboard)
    ensures forall t: Square :: Has(r, t) <==> KingAttack(s, t)
  {
    BoardWhere((t: Square) => KingAttack(s, t))
  }

  function PawnAttacks(c: Color, s: Square): (r: Bitboard)
    ensures forall t: Square :: Has(r, t) <==> PawnAttack(c, s, t)
  {
    BoardWhere((t: Square) => PawnAttack(c, s, t))
  }

  function RookAttacks(s: Square, occ: Bitboard): (r: Bitboard)
    ensures forall t: Square :: Has(r, t) <==> RookAttack(s, t, occ)
  {
    BoardWhere((t: Square) => RookAttack(s, t, occ))
  }

  function BishopAttacks(s: Square, occ: Bitboard): (r: Bitboard)
    ensures forall t: Square :: Has(r, t) <==> BishopAttack(s, t, occ)
  {
    BoardWhere((t: Square) => BishopAttack(s, t, occ))
  }

  function QueenAttacks(s: Square, occ: Bitboard): (r: Bitboard)
    ensures forall t: Square :: Has(r, t) <==> QueenAttack(s, t, occ)
  {
    BoardWhere((t: Square) => QueenAttack(s, t, occ))
  }

  // ---------------------------------------------------------------------
  // Properties

  /** Knight and king attacks are symmetric; pawn attacks are mirrored by
      colour: a white pawn on `s` attacks `t` exactly when a black pawn on
      `t` attacks `s`. */
  lemma LeaperSymmetry(s: Square, t: Square)
    ensures KnightAttack(s, t) <==> KnightAttack(t, s)
    ensures KingAttack(s, t) <==> KingAttack(t, s)
    ensures PawnAttack(White, s, t) <==> PawnAttack(Black, t, s)
  {
  }

  /** A leaper never attacks its own square, and a knight lands on a
      square at king-step distance exactly two. */
  lemma KnightDistance(s: Square, t: Square)
    ensures KnightAttack(s, t) ==> Distance(s, t) == 2
    ensures !KnightAttack(s, s) && !KingAttack(s, s)
  {
  }

  /** Squares strictly between `s` and `t` are nearer to `s` than `t` is,
      and lie on the same line through `s`. */
  lemma BetweenOnLine(s: Square, t: Square, u: Square)
    requires Between(s, t, u)
    ensures 0 < Distance(s, u) < Distance(s, t)
    ensures RookLine(s, t) ==> RookLine(s, u)
    ensures BishopLine(s, t) ==> BishopLine(s, u)
  {
  }

  /** The square next to `s` towards `t` is never blocked: a slider
      always attacks its neighbours on its lines. */
  lemma NeighbourAlwaysAttacked(s: Square, t: Square, occ: Bitboard)
    requires Distance(s, t) == 1
    ensures RookLine(s, t) ==> RookAttack(s, t, occ)
    ensures BishopLine(s, t) ==> BishopAttack(s, t, occ)
  {
    forall u: Square | Between(s, t, u) ensures false {
    }
  }

  /** A slider attacks nothing through a blocker: if a square strictly
      between `s` and `t` is occupied, `t` is not attacked. */
  lemma BlockedRay(s: Square, t: Square, u: Square, occ: Bitboard)
    requires Between(s, t, u) && Has(occ, u)
    ensures !RookAttack(s, t, occ) && !BishopAttack(s, t, occ)
  {
  }

  /** Only the occupancy of the squares between a slider and its target
      matters: two occupancies that agree on every square of `mask`, where
      `mask` covers all squares between `s` and any square on its lines,
      give the same attacks. */
  /** `mask` holds every square strictly between `s` and a square on the
      rook lines through `s`. */
  predicate RookMaskCovers(s: Square, mask: Bitboard)
  {
    forall t: Square, u: Square :: RookLine(s, t) && Between(s, t, u) ==> Has(mask, u)
  }

  predicate BishopMaskCovers(s: Square, mask: Bitboard)
  {
    forall t: Square, u: Square :: BishopLine(s, t) && Between(s, t, u) ==> Has(mask, u)
  }

  lemma RookAttacksOnMask(s: Square, occ: Bitboard, occ': Bitboard, mask: Bitboard)
    requires RookMaskCovers(s, mask)
    requires occ & mask == occ' & mask
    ensures RookAttacks(s, occ) == RookAttacks(s, occ')
  {
    var a, b := RookAttacks(s, occ), RookAttacks(s, occ');
    forall t: Square ensures Has(a, t) <==> Has(b, t) {
      if RookLine(s, t) {
        ClearOnMask(s, t, occ, occ', mask);
      }
    }
    SameSquaresEqual(a, b);
  }

  lemma BishopAttacksOnMask(s: Square, occ: Bitboard, occ': Bitboard, mask: Bitboard)
    requires BishopMaskCovers(s, mask)
    requires occ & mask == occ' & mask
    ensures BishopAttacks(s, occ) == BishopAttacks(s, occ')
  {
    var a, b := BishopAttacks(s, occ), BishopAttacks(s, occ');
    forall t: Square ensures Has(a, t) <==> Has(b, t) {
      if BishopLine(s, t) {
        ClearOnMask(s, t, occ, occ', mask);
      }
    }
    SameSquaresEqual(a, b);
  }

  /** Whether the way from `s` to `t` is clear depends only on the squares
      of a mask that covers everything between them. */
  lemma ClearOnMask(s: Square, t: Square, occ: Bitboard, occ': Bitboard, mask: Bitboard)
    requires forall u: Square :: Between(s, t, u) ==> Has(mask, u)
    requires occ & mask == occ' & mask
    ensures Clear(s, t, occ) <==> Clear(s, t, occ')
  {
    forall u: Square | Between(s, t, u) ensures Has(occ, u) == Has(occ', u) {
      MaskedAgree(occ, occ', mask, u);
    }
  }

  /** Occupancies equal under a mask agree on each square of the mask. */
  lemma MaskedAgree(occ: Bitboard, occ': Bitboard, mask: Bitboard, u: Square)
    requires occ & mask == occ' & mask && Has(mask, u)
    ensures Has(occ, u) == Has(occ', u)
  {
    HasAnd(occ, mask, u);
    HasAnd(occ', mask, u);
  }

  /** The queen's attacks are the union of the rook's and the bishop's. */
  lemma QueenIsRookOrBishop(s: Square, occ: Bitboard)
    ensures QueenAttacks(s, occ) == RookAttacks(s, occ) | BishopAttacks(s, occ)
  {
    var r, b, q := RookAttacks(s, occ), BishopAttacks(s, occ), QueenAttacks(s, occ);
    var u := r | b;
    forall t: Square ensures Has(u, t) <==> Has(q, t) {
      QueenAt(r, b, q, s, occ, t);
    }
    SameSquaresEqual(u, q);
  }

  lemma QueenAt(r: Bitboard, b: Bitboard, q: Bitboard, s: Square, occ: Bitboard, t: Square)
    requires r == RookAttacks(s, occ) && b == BishopAttacks(s, occ) && q == QueenAttacks(s, occ)
    ensures Has(r | b, t) <==> Has(q, t)
  {
    HasOr(r, b, t);
  }

  /** On an empty board a rook attacks its whole rank and file and a
      bishop its whole diagonals. */
  lemma EmptyBoardSliders(s: Square, t: Square)
    ensures RookAttack(s, t, 0) <==> RookLine(s, t)
    ensures BishopAttack(s, t, 0) <==> BishopLine(s, t)
  {
    forall u: Square ensures !Has(0, u) {
      HasZero(u);
    }
  }
}
