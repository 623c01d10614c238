/** The magic-bitboard lookup of src/bitboard.h: a slider's attacks are read
    from a per-square table at index `((occ & mask) * magic) >> shift`. The
    masks, magic numbers, shifts and filled tables are data of the engine;
    here they are a parameter, and the lookup is shown to stay in bounds, to
    depend only on the masked occupancy, and to agree with ray casting
    whenever the tables and masks are right. */
module Magic {
  import opened Types
  import opened Bitboards
  import opened Attacks

  /** Marks where the meaning of `MUL` may be used. */
  predicate Multiplied(a: Bitboard, b: Bitboard) { true }

  /** The wrap-around product of two 64-bit words. */
  function Product(a: Bitboard, b: Bitboard): Bitboard
  {
    a * b
  }

  type Multiplier = f: (Bitboard, Bitboard) -> Bitboard
    | forall a, b {:trigger Multiplied(a, b)} :: Multiplied(a, b) ==> f(a, b) == Product(a, b)
    witness Product

  /** `a * b` on `uint64_t`. Multiplication of `bv64` values wraps modulo
      2^64 exactly as the unsigned C++ product does. It is kept behind a
      constant so that no proof here reasons about the product's bits: the
      lookup's properties hold for whatever index the product yields. */
  const MUL: Multiplier

  /** The table slot for a product and a shift in 52..63. */
  function MagicIndex(product: Bitboard, shift: int): (i: int)
    requires 52 <= shift <= 63
    ensures 0 <= i < 4096
    ensures shift >= 54 ==> i < 1024
  {
    ShiftBound(product, shift);
    ShiftBound54(product, shift);
    (product >> shift) as int
  }

  lemma ShiftBound(x: Bitboard, shift: int)
    ensures 52 <= shift <= 63 ==> (x >> shift) as int < 4096
  {
  }

  lemma ShiftBound54(x: Bitboard, shift: int)
    ensures 54 <= shift <= 63 ==> (x >> shift) as int < 1024
  {
  }

  /** The engine's constant data for the sliders. */
  datatype MagicTables = MagicTables(
    rookMasks: seq<Bitboard>, rookMagics: seq<Bitboard>, rookShifts: seq<int>,
    rookTable: seq<seq<Bitboard>>,
    bishopMasks: seq<Bitboard>, bishopMagics: seq<Bitboard>, bishopShifts: seq<int>,
    bishopTable: seq<seq<Bitboard>>)

  /** The shapes of the declarations: 64 entries each, 4096 rook slots and
      1024 bishop slots per square, and shifts that keep the index inside
      them. */
  predicate Valid(m: MagicTables)
  {
    |m.rookMasks| == 64 && |m.rookMagics| == 64 && |m.rookShifts| == 64 && |m.rookTable| == 64
    && |m.bishopMasks| == 64 && |m.bishopMagics| == 64 && |m.bishopShifts| == 64
    && |m.bishopTable| == 64
    && (forall sq: Square :: 52 <= m.rookShifts[sq] <= 63 && |m.rookTable[sq]| == 4096)
    && (forall sq: Square :: 54 <= m.bishopShifts[sq] <= 63 && |m.bishopTable[sq]| == 1024)
  }

  function RookIndex(m: MagicTables, sq: Square, occ: Bitboard): (i: int)
    requires Valid(m)
    ensures 0 <= i < |m.rookTable[sq]|
  {
    MagicIndex(MUL(occ & m.rookMasks[sq], m.rookMagics[sq]), m.rookShifts[sq])
  }

  function BishopIndex(m: MagicTables, sq: Square, occ: Bitboard): (i: int)
    requires Valid(m)
    ensures 0 <= i < |m.bishopTable[sq]|
  {
    MagicIndex(MUL(occ & m.bishopMasks[sq], m.bishopMagics[sq]), m.bishopShifts[sq])
  }

  /** `GetRookAttacks(square, occupancy)`. */
  function GetRookAttacks(m: MagicTables, sq: Square, occ: Bitboard): (r: Bitboard)
    requires Valid(m)
    ensures r in m.rookTable[sq]
    ensures r == m.rookTable[sq][RookIndex(m, sq, occ & m.rookMasks[sq])]
  {
    MaskTwice(occ, m.rookMasks[sq], occ & m.rookMasks[sq]);
    m.rookTable[sq][RookIndex(m, sq, occ)]
  }

  /** `GetBishopAttacks(square, occupancy)`. */
  function GetBishopAttacks(m: MagicTables, sq: Square, occ: Bitboard): (r: Bitboard)
    requires Valid(m)
    ensures r in m.bishopTable[sq]
    ensures r == m.bishopTable[sq][BishopIndex(m, sq, occ & m.bishopMasks[sq])]
  {
    MaskTwice(occ, m.bishopMasks[sq], occ & m.bishopMasks[sq]);
    m.bishopTable[sq][BishopIndex(m, sq, occ)]
  }

  /** `GetQueenAttacks(square, occupancy)`: the rook lookup OR the bishop
      lookup. */
  function GetQueenAttacks(m: MagicTables, sq: Square, occ: Bitboard): (r: Bitboard)
    requires Valid(m)
    ensures forall t: Square ::
      Has(r, t) <==> Has(GetRookAttacks(m, sq, occ), t) || Has(GetBishopAttacks(m, sq, occ), t)
  {
    var a, b := GetRookAttacks(m, sq, occ), GetBishopAttacks(m, sq, occ);
    var r := a | b;
    forall t: Square ensures Has(r, t) <==> Has(a, t) || Has(b, t) {
      HasOr(a, b, t);
    }
    r
  }

  /** Occupied squares outside the mask never change a lookup. */
  lemma RookLookupOnlyMask(m: MagicTables, sq: Square, occ: Bitboard, occ': Bitboard)
    requires Valid(m)
    requires occ & m.rookMasks[sq] == occ' & m.rookMasks[sq]
    ensures GetRookAttacks(m, sq, occ) == GetRookAttacks(m, sq, occ')
  {
  }

  lemma BishopLookupOnlyMask(m: MagicTables, sq: Square, occ: Bitboard, occ': Bitboard)
    requires Valid(m)
    requires occ & m.bishopMasks[sq] == occ' & m.bishopMasks[sq]
    ensures GetBishopAttacks(m, sq, occ) == GetBishopAttacks(m, sq, occ')
  {
  }

  /** Masking twice is masking once. */
  lemma MaskTwice(occ: Bitboard, mask: Bitboard, b: Bitboard)
    ensures b == occ & mask ==> b & mask == b
  {
  }

  /** `b` is a blocker set inside `mask`. */
  predicate InMask(b: Bitboard, mask: Bitboard)
  {
    b & mask == b
  }

  /** The tables hold the ray-cast attacks for every blocker set inside
      the square's mask: what filling them from `CreateRookBitboard` and
      `CreateBishopBitboard` is meant to achieve. */
  ghost predicate TablesCorrect(m: MagicTables)
    requires Valid(m)
  {
    (forall sq: Square, b: Bitboard {:trigger InMask(b, m.rookMasks[sq])} ::
       InMask(b, m.rookMasks[sq]) ==> GetRookAttacks(m, sq, b) == RookAttacks(sq, b))
    && (forall sq: Square, b: Bitboard {:trigger InMask(b, m.bishopMasks[sq])} ::
       InMask(b, m.bishopMasks[sq]) ==> GetBishopAttacks(m, sq, b) == BishopAttacks(sq, b))
  }

  /** Every square strictly between a slider and a square on its lines is
      in the slider's mask. */
  ghost predicate MasksRelevant(m: MagicTables)
    requires Valid(m)
  {
    (forall sq: Square :: RookMaskCovers(sq, m.rookMasks[sq]))
    && (forall sq: Square :: BishopMaskCovers(sq, m.bishopMasks[sq]))
  }

  /** With correct tables and relevant masks, the rook lookup is the rook's
      ray-cast attack set for any occupancy. */
  lemma RookLookupIsRayCast(m: MagicTables, sq: Square, occ: Bitboard)
    requires Valid(m) && TablesCorrect(m) && MasksRelevant(m)
    ensures GetRookAttacks(m, sq, occ) == RookAttacks(sq, occ)
  {
    var b := occ & m.rookMasks[sq];
    RookMasked(m, sq, occ, b);
    RookTableAt(m, sq, b);
    RookRaysOnMask(m, sq, occ, b);
  }

  lemma RookMasked(m: MagicTables, sq: Square, occ: Bitboard, b: Bitboard)
    requires Valid(m) && b == occ & m.rookMasks[sq]
    ensures InMask(b, m.rookMasks[sq]) && b & m.rookMasks[sq] == occ & m.rookMasks[sq]
    ensures GetRookAttacks(m, sq, occ) == GetRookAttacks(m, sq, b)
  {
    MaskTwice(occ, m.rookMasks[sq], b);
    RookLookupOnlyMask(m, sq, occ, b);
  }

  lemma RookTableAt(m: MagicTables, sq: Square, b: Bitboard)
    requires Valid(m) && TablesCorrect(m) && InMask(b, m.rookMasks[sq])
    ensures GetRookAttacks(m, sq, b) == RookAttacks(sq, b)
  {
  }

  lemma RookRaysOnMask(m: MagicTables, sq: Square, occ: Bitboard, b: Bitboard)
    requires Valid(m) && MasksRelevant(m)
    requires b & m.rookMasks[sq] == occ & m.rookMasks[sq]
    ensures RookAttacks(sq, b) == RookAttacks(sq, occ)
  {
    RookAttacksOnMask(sq, b, occ, m.rookMasks[sq]);
  }

  lemma BishopLookupIsRayCast(m: MagicTables, sq: Square, occ: Bitboard)
    requires Valid(m) && TablesCorrect(m) && MasksRelevant(m)
    ensures GetBishopAttacks(m, sq, occ) == BishopAttacks(sq, occ)
  {
    var b := occ & m.bishopMasks[sq];
    BishopMasked(m, sq, occ, b);
    BishopTableAt(m, sq, b);
    BishopRaysOnMask(m, sq, occ, b);
  }

  lemma BishopMasked(m: MagicTables, sq: Square, occ: Bitboard, b: Bitboard)
    requires Valid(m) && b == occ & m.bishopMasks[sq]
    ensures InMask(b, m.bishopMasks[sq]) && b & m.bishopMasks[sq] == occ & m.bishopMasks[sq]
    ensures GetBishopAttacks(m, sq, occ) == GetBishopAttacks(m, sq, b)
  {
    MaskTwice(occ, m.bishopMasks[sq], b);
    BishopLookupOnlyMask(m, sq, occ, b);
  }

  lemma BishopTableAt(m: MagicTables, sq: Square, b: Bitboard)
    requires Valid(m) && TablesCorrect(m) && InMask(b, m.bishopMasks[sq])
    ensures GetBishopAttacks(m, sq, b) == BishopAttacks(sq, b)
  {
  }

  lemma BishopRaysOnMask(m: MagicTables, sq: Square, occ: Bitboard, b: Bitboard)
    requires Valid(m) && MasksRelevant(m)
    requires b & m.bishopMasks[sq] == occ & m.bishopMasks[sq]
    ensures BishopAttacks(sq, b) == BishopAttacks(sq, occ)
  {
    BishopAttacksOnMask(sq, b, occ, m.bishopMasks[sq]);
  }

  lemma QueenLookupIsRayCast(m: MagicTables, sq: Square, occ: Bitboard)
    requires Valid(m) && TablesCorrect(m) && MasksRelevant(m)
    ensures GetQueenAttacks(m, sq, occ) == QueenAttacks(sq, occ)
  {
    RookLookupIsRayCast(m, sq, occ);
    BishopLookupIsRayCast(m, sq, occ);
    var q, r := GetQueenAttacks(m, sq, occ), QueenAttacks(sq, occ);
    forall t: Square ensures Has(q, t) <==> Has(r, t) {
    }
    SameSquaresEqual(q, r);
  }
}
