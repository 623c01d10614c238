/** The precomputed move data of src/precomputed_move_data.h: for every
    square, the number of steps to the board's edge in each of the eight
    directions, and the targets of the eight knight offsets, with the
    targets that would leave the board or wrap round a file edge replaced
    by `SQ_NONE`. */
module Precomputed {
  import opened Types
  import opened Attacks

  function Min(x: int, y: int): (m: int)
    ensures m <= x && m <= y && (m == x || m == y)
  {
    if x < y then x else y
  }

  /** The direction indices of the edge table. */
  const DIR_NORTH: int := 0
  const DIR_SOUTH: int := 1
  const DIR_WEST: int := 2
  const DIR_EAST: int := 3
  const DIR_NORTH_WEST: int := 4
  const DIR_SOUTH_EAST: int := 5
  const DIR_NORTH_EAST: int := 6
  const DIR_SOUTH_WEST: int := 7

  /** The file and rank steps of direction `d`. */
  function FileStep(d: int): (g: int)
    requires 0 <= d < 8
    ensures -1 <= g <= 1
  {
    [0, 0, -1, 1, -1, 1, 1, -1][d]
  }

  function RankStep(d: int): (g: int)
    requires 0 <= d < 8
    ensures -1 <= g <= 1
  {
    [1, -1, 0, 0, 1, -1, 1, -1][d]
  }

  /** `NumSquaresToEdge[sq][d]` as `init()` computes it. */
  function EdgeDistance(sq: Square, d: int): int
    requires 0 <= d < 8
  {
    var north, south, west, east := 7 - RankOf(sq), RankOf(sq), FileOf(sq), 7 - FileOf(sq);
    if d == 0 then north else if d == 1 then south else if d == 2 then west else if d == 3 then east
    else if d == 4 then Min(north, west) else if d == 5 then Min(south, east)
    else if d == 6 then Min(north, east) else Min(south, west)
  }

  /** The knight offsets, in the table's order. */
  const KNIGHT_OFFSETS: seq<int> := [17, 10, -6, -15, -17, -10, 6, 15]

  /** `KnightMoves[sq][i]` as `init()` computes it: the target of offset
      `i` when it is on the board at king-step distance two, else
      `SQ_NONE`. */
  function KnightTarget(sq: Square, i: int): int
    requires 0 <= i < 8
  {
    var t := sq + KNIGHT_OFFSETS[i];
    if 0 <= t < 64 && Distance(sq, t) == 2 then t else SQ_NONE
  }

  // ---------------------------------------------------------------------
  // init()

  /** `init()`: fills both tables, square by square. */
  method Init(numSquaresToEdge: array2<int>, knightMoves: array2<int>)
    requires numSquaresToEdge.Length0 == 64 && numSquaresToEdge.Length1 == 8
    requires knightMoves.Length0 == 64 && knightMoves.Length1 == 8
    requires numSquaresToEdge != knightMoves
    modifies numSquaresToEdge, knightMoves
    ensures forall sq: Square, d | 0 <= d < 8 :: numSquaresToEdge[sq, d] == EdgeDistance(sq, d)
    ensures forall sq: Square, i | 0 <= i < 8 :: knightMoves[sq, i] == KnightTarget(sq, i)
  {
    var sq := 0;
    while sq < 64
      invariant 0 <= sq <= 64
      invariant forall s: Square, d | s < sq && 0 <= d < 8 :: numSquaresToEdge[s, d] == EdgeDistance(s, d)
      invariant forall s: Square, i | s < sq && 0 <= i < 8 :: knightMoves[s, i] == KnightTarget(s, i)
    {
      FillEdgeRow(numSquaresToEdge, sq);
      FillKnightRow(knightMoves, sq);
      sq := sq + 1;
    }
  }

  /** The edge-table part of `init()`'s loop body, shared by both versions
      of `init()`: the eight entries of row `sq`. */
  method FillEdgeRow(numSquaresToEdge: array2<int>, sq: Square)
    requires numSquaresToEdge.Length0 == 64 && numSquaresToEdge.Length1 == 8
    modifies numSquaresToEdge
    ensures forall d | 0 <= d < 8 :: numSquaresToEdge[sq, d] == EdgeDistance(sq, d)
    ensures forall s: Square, d | s != sq && 0 <= d < 8 :: numSquaresToEdge[s, d] == old(numSquaresToEdge[s, d])
  {
    var north, south, west, east := 7 - RankOf(sq), RankOf(sq), FileOf(sq), 7 - FileOf(sq);
    numSquaresToEdge[sq, 0] := north;
    numSquaresToEdge[sq, 1] := south;
    numSquaresToEdge[sq, 2] := west;
    numSquaresToEdge[sq, 3] := east;
    numSquaresToEdge[sq, 4] := Min(north, west);
    numSquaresToEdge[sq, 5] := Min(south, east);
    numSquaresToEdge[sq, 6] := Min(north, east);
    numSquaresToEdge[sq, 7] := Min(south, west);
  }

  /** The inner loop of the header's `init()`: row `sq` of the knight
      table. */
  method FillKnightRow(knightMoves: array2<int>, sq: Square)
    requires knightMoves.Length0 == 64 && knightMoves.Length1 == 8
    modifies knightMoves
    ensures forall i | 0 <= i < 8 :: knightMoves[sq, i] == KnightTarget(sq, i)
    ensures forall s: Square, i | s != sq && 0 <= i < 8 :: knightMoves[s, i] == old(knightMoves[s, i])
  {
    var rank, file := RankOf(sq), FileOf(sq);
    var i := 0;
    while i < 8
      invariant 0 <= i <= 8
      invariant forall j | 0 <= j < i :: knightMoves[sq, j] == KnightTarget(sq, j)
      invariant forall s: Square, j | s != sq && 0 <= j < 8 :: knightMoves[s, j] == old(knightMoves[s, j])
    {
      var targetSq := sq + KNIGHT_OFFSETS[i];
      knightMoves[sq, i] := SQ_NONE;
      if 0 <= targetSq < 64 {
        var targetRank, targetFile := RankOf(targetSq), FileOf(targetSq);
        if Max(Abs(rank - targetRank), Abs(file - targetFile)) == 2 {
          knightMoves[sq, i] := targetSq;
        }
      }
      i := i + 1;
    }
  }

  // ---------------------------------------------------------------------
  // What the tables mean

  /** The orthogonal entries are the distances to the four edges; opposite
      directions add up to 7. */
  lemma OrthogonalDistances(sq: Square)
    ensures EdgeDistance(sq, DIR_NORTH) == 7 - RankOf(sq)
    ensures EdgeDistance(sq, DIR_SOUTH) == RankOf(sq)
    ensures EdgeDistance(sq, DIR_WEST) == FileOf(sq)
    ensures EdgeDistance(sq, DIR_EAST) == 7 - FileOf(sq)
    ensures EdgeDistance(sq, DIR_NORTH) + EdgeDistance(sq, DIR_SOUTH) == 7
    ensures EdgeDistance(sq, DIR_WEST) + EdgeDistance(sq, DIR_EAST) == 7
  {
  }

  /** Each diagonal entry is the smaller of its two orthogonal components,
      and every entry lies in 0..7. */
  lemma DiagonalDistances(sq: Square, d: int)
    requires 0 <= d < 8
    ensures 0 <= EdgeDistance(sq, d) <= 7
    ensures d == DIR_NORTH_WEST ==> EdgeDistance(sq, d) == Min(EdgeDistance(sq, DIR_NORTH), EdgeDistance(sq, DIR_WEST))
    ensures d == DIR_SOUTH_EAST ==> EdgeDistance(sq, d) == Min(EdgeDistance(sq, DIR_SOUTH), EdgeDistance(sq, DIR_EAST))
    ensures d == DIR_NORTH_EAST ==> EdgeDistance(sq, d) == Min(EdgeDistance(sq, DIR_NORTH), EdgeDistance(sq, DIR_EAST))
    ensures d == DIR_SOUTH_WEST ==> EdgeDistance(sq, d) == Min(EdgeDistance(sq, DIR_SOUTH), EdgeDistance(sq, DIR_WEST))
  {
  }

  /** The entry for direction `d` is the length of the ray from `sq` in that
      direction: the `k`-th step (k >= 1) stays on the board exactly when
      `k` is at most the entry, so stepping that many times never wraps
      round an edge. */
  lemma EdgeDistanceIsRayLength(sq: Square, d: int, k: int)
    requires 0 <= d < 8 && k >= 1
    ensures k <= EdgeDistance(sq, d)
      <==> (0 <= FileOf(sq) + Scale(FileStep(d), k) < 8 && 0 <= RankOf(sq) + Scale(RankStep(d), k) < 8)
  {
  }

  /** A knight entry is either `SQ_NONE` or an on-board square reached by
      its offset, at king-step distance two and a real knight move. */
  lemma KnightTargetIsKnightMove(sq: Square, i: int)
    requires 0 <= i < 8
    ensures KnightTarget(sq, i) == SQ_NONE
      <==> !(0 <= sq + KNIGHT_OFFSETS[i] < 64) || Distance(sq, sq + KNIGHT_OFFSETS[i]) != 2
    ensures KnightTarget(sq, i) != SQ_NONE ==>
      KnightTarget(sq, i) == sq + KNIGHT_OFFSETS[i] && KnightAttack(sq, KnightTarget(sq, i))
  {
  }

  /** Every knight move from `sq` appears in `sq`'s row of the table. */
  lemma KnightTargetsComplete(sq: Square, t: Square)
    requires KnightAttack(sq, t)
    ensures exists i :: 0 <= i < 8 && KnightTarget(sq, i) == t
  {
    var i := KnightOffsetIndex(sq, t);
    assert KnightTarget(sq, i) == t;
  }

  /** The offset index that leads from `sq` to its knight target `t`. */
  function KnightOffsetIndex(sq: Square, t: Square): (i: int)
    requires KnightAttack(sq, t)
    ensures 0 <= i < 8 && t == sq + KNIGHT_OFFSETS[i]
  {
    var df, dr := DFile(sq, t), DRank(sq, t);
    if df == 1 && dr == 2 then 0
    else if df == 2 && dr == 1 then 1
    else if df == 2 && dr == -1 then 2
    else if df == 1 && dr == -2 then 3
    else if df == -1 && dr == -2 then 4
    else if df == -2 && dr == -1 then 5
    else if df == -2 && dr == 1 then 6
    else 7
  }
}

/** The older src/precomputed_move_data.cpp, whose `init()` fills only the
    edge table, with the same entries. */
module PrecomputedEdges {
  import opened Types
  import opened Precomputed

  /** `init()`: fills `NumSquaresToEdge`, every one of its 64 x 8 entries. */
  method Init(numSquaresToEdge: array2<int>)
    requires numSquaresToEdge.Length0 == 64 && numSquaresToEdge.Length1 == 8
    modifies numSquaresToEdge
    ensures forall sq: Square, d | 0 <= d < 8 :: numSquaresToEdge[sq, d] == EdgeDistance(sq, d)
  {
    var sq := 0;
    while sq < 64
      invariant 0 <= sq <= 64
      invariant forall s: Square, d | s < sq && 0 <= d < 8 :: numSquaresToEdge[s, d] == EdgeDistance(s, d)
    {
      FillEdgeRow(numSquaresToEdge, sq);
      sq := sq + 1;
    }
  }
}
