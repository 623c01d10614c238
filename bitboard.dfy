/** Bitboards: a 64-bit word in which bit `s` stands for square `s`, and the
    primitive operations of src/bitboard.h on them. */
module Bitboards {
  import opened Types

  type Bitboard = bv64

  const ONE: Bitboard := 1
  const TOP: Bitboard := 0x8000_0000_0000_0000
  const FULL: Bitboard := 0xFFFF_FFFF_FFFF_FFFF

  // ---------------------------------------------------------------------
  // Single bits, on bit-vectors alone. Several of these are stated as
  // implications, so that a caller has no bit-vector precondition to
  // discharge.

  /** `m` has exactly one bit set. */
  predicate IsSingle(m: Bitboard)
  {
    m != 0 && m & (m - 1) == 0
  }

  lemma SingleAnd(a: Bitboard, b: Bitboard, m: Bitboard)
    requires IsSingle(m)
    ensures (a & b) & m != 0 <==> a & m != 0 && b & m != 0
  {
  }

  lemma SingleNot(a: Bitboard, m: Bitboard)
    requires IsSingle(m)
    ensures !a & m != 0 <==> a & m == 0
  {
  }

  lemma DoubleSingle(m: Bitboard)
    requires IsSingle(m) && m & TOP == 0
    ensures IsSingle(m << 1)
  {
  }

  lemma ShlAnd(x: Bitboard, y: Bitboard)
    ensures (x << 1) & (y << 1) == (x & y) << 1
  {
  }

  lemma ShlLowClear(x: Bitboard)
    ensures (x << 1) & ONE == 0
  {
  }

  /** `a | b` is `~(~a & ~b)`. */
  lemma OrAsAnd(a: Bitboard, b: Bitboard, c: Bitboard)
    ensures c == !a & !b ==> a | b == !c
  {
  }

  /** For a single bit `m` below the top, the mask under `m << 1` is the
      mask under `m` with `m` added. */
  lemma DoubleMask(m: Bitboard, n: Bitboard)
    ensures IsSingle(m) && m & TOP == 0 && n == m << 1 ==> n - 1 == (m - 1) | m
  {
  }

  /** The mask under the top bit, with the top bit added, is all ones. */
  lemma TopMask(m: Bitboard)
    ensures m == TOP ==> (m - 1) | m == FULL
  {
  }

  /** Below a lowest set bit `m`, `b - 1` borrows through zeros only, so
      `b & (b - 1)` is `b` without `m`. */
  lemma SinglePopLow(b: Bitboard, m: Bitboard, low: Bitboard)
    ensures (IsSingle(m) && low == m - 1 && b & low == 0 && b & m != 0) ==> b & (b - 1) == b & !m
  {
  }

  /** Adding a clear bit to a clear mask keeps the mask clear. */
  lemma ZeroStep(b: Bitboard, lower: Bitboard, m: Bitboard, upper: Bitboard)
    ensures (upper == lower | m && b & lower == 0 && b & m == 0) ==> b & upper == 0
  {
  }

  // ---------------------------------------------------------------------
  // The bit of each square, `1ULL << s`. It is read from the table `BITS`,
  // which is fixed by how it grows: 1 at square 0, doubling from square to
  // square (and so the top bit at square 63). The lemmas of this part read
  // the table out one square at a time.

  /** From entry `k` on, `t` is 1 at entry 0 and doubles from entry to entry. */
  predicate DoublesFrom(t: seq<Bitboard>, k: nat)
    requires |t| == 64 && k <= 64
    decreases 64 - k
  {
    k == 64 || ((if k == 0 then t[k] == 1 else t[k] == t[k - 1] << 1) && DoublesFrom(t, k + 1))
  }

  lemma {:induction false} DoublesAt(t: seq<Bitboard>, k: nat, i: nat)
    requires |t| == 64 && k <= i < 64 && DoublesFrom(t, k)
    ensures if i == 0 then t[i] == 1 else t[i] == t[i - 1] << 1
    decreases i - k
  {
    if k < i {
      DoublesAt(t, k + 1, i);
    }
  }

  /** The values `1ULL << s` for s = 0, ..., 63, written out. */
  const BIT_VALUES: seq<Bitboard> :=
    [
      0x0000_0000_0000_0001, 0x0000_0000_0000_0002, 0x0000_0000_0000_0004, 0x0000_0000_0000_0008,
      0x0000_0000_0000_0010, 0x0000_0000_0000_0020, 0x0000_0000_0000_0040, 0x0000_0000_0000_0080
    ] +
    [
      0x0000_0000_0000_0100, 0x0000_0000_0000_0200, 0x0000_0000_0000_0400, 0x0000_0000_0000_0800,
      0x0000_0000_0000_1000, 0x0000_0000_0000_2000, 0x0000_0000_0000_4000, 0x0000_0000_0000_8000
    ] +
    [
      0x0000_0000_0001_0000, 0x0000_0000_0002_0000, 0x0000_0000_0004_0000, 0x0000_0000_0008_0000,
      0x0000_0000_0010_0000, 0x0000_0000_0020_0000, 0x0000_0000_0040_0000, 0x0000_0000_0080_0000
    ] +
    [
      0x0000_0000_0100_0000, 0x0000_0000_0200_0000, 0x0000_0000_0400_0000, 0x0000_0000_0800_0000,
      0x0000_0000_1000_0000, 0x0000_0000_2000_0000, 0x0000_0000_4000_0000, 0x0000_0000_8000_0000
    ] +
    [
      0x0000_0001_0000_0000, 0x0000_0002_0000_0000, 0x0000_0004_0000_0000, 0x0000_0008_0000_0000,
      0x0000_0010_0000_0000, 0x0000_0020_0000_0000, 0x0000_0040_0000_0000, 0x0000_0080_0000_0000
    ] +
    [
      0x0000_0100_0000_0000, 0x0000_0200_0000_0000, 0x0000_0400_0000_0000, 0x0000_0800_0000_0000,
      0x0000_1000_0000_0000, 0x0000_2000_0000_0000, 0x0000_4000_0000_0000, 0x0000_8000_0000_0000
    ] +
    [
      0x0001_0000_0000_0000, 0x0002_0000_0000_0000, 0x0004_0000_0000_0000, 0x0008_0000_0000_0000,
      0x0010_0000_0000_0000, 0x0020_0000_0000_0000, 0x0040_0000_0000_0000, 0x0080_0000_0000_0000
    ] +
    [
      0x0100_0000_0000_0000, 0x0200_0000_0000_0000, 0x0400_0000_0000_0000, 0x0800_0000_0000_0000,
      0x1000_0000_0000_0000, 0x2000_0000_0000_0000, 0x4000_0000_0000_0000, 0x8000_0000_0000_0000
    ]

  lemma BitValuesDoubleFrom48()
    ensures DoublesFrom(BIT_VALUES, 48)
  {
    assert DoublesFrom(BIT_VALUES, 63);
    assert DoublesFrom(BIT_VALUES, 62);
    assert DoublesFrom(BIT_VALUES, 61);
    assert DoublesFrom(BIT_VALUES, 60);
    assert DoublesFrom(BIT_VALUES, 59);
    assert DoublesFrom(BIT_VALUES, 58);
    assert DoublesFrom(BIT_VALUES, 57);
    assert DoublesFrom(BIT_VALUES, 56);
    assert DoublesFrom(BIT_VALUES, 55);
    assert DoublesFrom(BIT_VALUES, 54);
    assert DoublesFrom(BIT_VALUES, 53);
    assert DoublesFrom(BIT_VALUES, 52);
    assert DoublesFrom(BIT_VALUES, 51);
    assert DoublesFrom(BIT_VALUES, 50);
    assert DoublesFrom(BIT_VALUES, 49);
    assert DoublesFrom(BIT_VALUES, 48);
  }

  lemma BitValuesDoubleFrom32()
    requires DoublesFrom(BIT_VALUES, 48)
    ensures DoublesFrom(BIT_VALUES, 32)
  {
    assert DoublesFrom(BIT_VALUES, 47);
    assert DoublesFrom(BIT_VALUES, 46);
    assert DoublesFrom(BIT_VALUES, 45);
    assert DoublesFrom(BIT_VALUES, 44);
    assert DoublesFrom(BIT_VALUES, 43);
    assert DoublesFrom(BIT_VALUES, 42);
    assert DoublesFrom(BIT_VALUES, 41);
    assert DoublesFrom(BIT_VALUES, 40);
    assert DoublesFrom(BIT_VALUES, 39);
    assert DoublesFrom(BIT_VALUES, 38);
    assert DoublesFrom(BIT_VALUES, 37);
    assert DoublesFrom(BIT_VALUES, 36);
    assert DoublesFrom(BIT_VALUES, 35);
    assert DoublesFrom(BIT_VALUES, 34);
    assert DoublesFrom(BIT_VALUES, 33);
    assert DoublesFrom(BIT_VALUES, 32);
  }

  lemma BitValuesDoubleFrom16()
    requires DoublesFrom(BIT_VALUES, 32)
    ensures DoublesFrom(BIT_VALUES, 16)
  {
    assert DoublesFrom(BIT_VALUES, 31);
    assert DoublesFrom(BIT_VALUES, 30);
    assert DoublesFrom(BIT_VALUES, 29);
    assert DoublesFrom(BIT_VALUES, 28);
    assert DoublesFrom(BIT_VALUES, 27);
    assert DoublesFrom(BIT_VALUES, 26);
    assert DoublesFrom(BIT_VALUES, 25);
    assert DoublesFrom(BIT_VALUES, 24);
    assert DoublesFrom(BIT_VALUES, 23);
    assert DoublesFrom(BIT_VALUES, 22);
    assert DoublesFrom(BIT_VALUES, 21);
    assert DoublesFrom(BIT_VALUES, 20);
    assert DoublesFrom(BIT_VALUES, 19);
    assert DoublesFrom(BIT_VALUES, 18);
    assert DoublesFrom(BIT_VALUES, 17);
    assert DoublesFrom(BIT_VALUES, 16);
  }

  lemma BitValuesDoubleFrom0()
    requires DoublesFrom(BIT_VALUES, 16)
    ensures DoublesFrom(BIT_VALUES, 0)
  {
    assert DoublesFrom(BIT_VALUES, 15);
    assert DoublesFrom(BIT_VALUES, 14);
    assert DoublesFrom(BIT_VALUES, 13);
    assert DoublesFrom(BIT_VALUES, 12);
    assert DoublesFrom(BIT_VALUES, 11);
    assert DoublesFrom(BIT_VALUES, 10);
    assert DoublesFrom(BIT_VALUES, 9);
    assert DoublesFrom(BIT_VALUES, 8);
    assert DoublesFrom(BIT_VALUES, 7);
    assert DoublesFrom(BIT_VALUES, 6);
    assert DoublesFrom(BIT_VALUES, 5);
    assert DoublesFrom(BIT_VALUES, 4);
    assert DoublesFrom(BIT_VALUES, 3);
    assert DoublesFrom(BIT_VALUES, 2);
    assert DoublesFrom(BIT_VALUES, 1);
    assert DoublesFrom(BIT_VALUES, 0);
  }

  /** `BIT_VALUES`, with the checked fact that it is a doubling table. */
  function CheckedBitValues(): (t: seq<Bitboard>)
    ensures |t| == 64 && t[63] == TOP && DoublesFrom(t, 0)
  {
    BitValuesDoubleFrom48();
    BitValuesDoubleFrom32();
    BitValuesDoubleFrom16();
    BitValuesDoubleFrom0();
    BIT_VALUES
  }

  type BitTable = t: seq<Bitboard> | |t| == 64 && t[63] == TOP && DoublesFrom(t, 0)
    witness CheckedBitValues()

  /** The table of square bits. Only its defining facts are visible to the
      lemmas below, which keeps the solver from unfolding 64 literals. */
  const BITS: BitTable

  /** There is only one table of its kind: `BITS` holds exactly `BIT_VALUES`. */
  lemma BitsAreTheValues()
    ensures BITS == BIT_VALUES
  {
    var t := CheckedBitValues();
    forall i | 0 <= i < 64
      ensures BITS[i] == t[i]
    {
      BitsAgreeUpTo(t, i);
    }
  }

  lemma {:induction false} BitsAgreeUpTo(t: BitTable, i: int)
    requires 0 <= i < 64
    ensures BITS[i] == t[i]
  {
    DoublesAt(BITS, 0, i);
    DoublesAt(t, 0, i);
    if i > 0 {
      BitsAgreeUpTo(t, i - 1);
    }
  }

  /** The bit of square `s`: `1ULL << s`. */
  function Bit(s: Square): Bitboard
  {
    BITS[s]
  }

  /** The bits of the squares below `i`: `(1ULL << i) - 1` for `i < 64`
      (see `BelowBit`) and all ones for 64 (see `BelowFull`). */
  function Below(i: int): Bitboard
    requires 0 <= i <= 64
  {
    if i == 0 then 0 else Below(i - 1) | Bit(i - 1)
  }

  /** `Bit(s)` is 1 at square 0, the top bit at square 63, and doubles from
      square to square. */
  lemma BitDoubling(s: Square)
    ensures Bit(0) == ONE && Bit(63) == TOP
    ensures s > 0 ==> Bit(s) == Bit(s - 1) << 1
  {
    DoublesAt(BITS, 0, 0);
    DoublesAt(BITS, 0, s);
  }

  /** Different squares have disjoint bits. */
  lemma {:induction false} BitDistinct(s: Square, t: Square)
    requires s != t
    ensures Bit(s) & Bit(t) == 0
  {
    BitDoubling(s);
    BitDoubling(t);
    if s == 0 {
      ShlLowClear(Bit(t - 1));
    } else if t == 0 {
      ShlLowClear(Bit(s - 1));
    } else {
      BitDistinct(s - 1, t - 1);
      ShlAnd(Bit(s - 1), Bit(t - 1));
    }
  }

  /** Every square's bit is a single bit, and only square 63 uses the top bit. */
  lemma {:induction false} BitIsSingle(s: Square)
    ensures IsSingle(Bit(s))
    ensures s < 63 ==> Bit(s) & TOP == 0
  {
    BitDoubling(s);
    if s < 63 {
      BitDistinct(s, 63);
    }
    if s > 0 {
      var m := Bit(s - 1);
      assert IsSingle(m) && m & TOP == 0 by { BitIsSingle(s - 1); }
      DoubleSingle(m);
    }
  }

  lemma BitSingle(s: Square)
    ensures IsSingle(Bit(s))
  {
    BitIsSingle(s);
  }

  lemma BitAnd(a: Bitboard, b: Bitboard, s: Square)
    ensures ((a & b) & Bit(s) != 0) == (a & Bit(s) != 0 && b & Bit(s) != 0)
  {
    var m := Bit(s);
    assert IsSingle(m) by { BitIsSingle(s); }
    SingleAnd(a, b, m);
  }

  lemma BitNot(a: Bitboard, s: Square)
    ensures (!a & Bit(s) != 0) == (a & Bit(s) == 0)
  {
    var m := Bit(s);
    assert IsSingle(m) by { BitIsSingle(s); }
    SingleNot(a, m);
  }

  lemma BitOfBit(s: Square, t: Square)
    ensures (Bit(s) & Bit(t) != 0) == (s == t)
  {
    if s == t {
      BitIsSingle(s);
    } else {
      BitDistinct(s, t);
    }
  }

  /** Below square 64 is every bit; stated for a variable `i` so that the
      definition of `Below` is not unrolled 64 times. */
  lemma BelowFull(i: int)
    requires i == 64
    ensures Below(i) == FULL
  {
    BelowBit(63);
    BitIsSingle(63);
    BitDoubling(63);
    TopMask(Bit(63));
  }

  /** `Below(i)` is `(1ULL << i) - 1`. */
  lemma {:induction false} BelowBit(i: int)
    requires 0 <= i < 64
    ensures Below(i) == Bit(i) - 1
  {
    BitDoubling(i);
    if i > 0 {
      BelowBit(i - 1);
      BitIsSingle(i - 1);
      DoubleMask(Bit(i - 1), Bit(i));
    }
  }

  // ---------------------------------------------------------------------
  // Squares of a bitboard.

  /** A marker that lets a proof unfold `Has` at one bitboard and square. */
  predicate Unfolded(b: Bitboard, s: Square) { true }

  type SquareTest = f: (Bitboard, Square) -> bool
    | forall b: Bitboard, s: Square {:trigger Unfolded(b, s)} :: f(b, s) == (b & Bit(s) != 0)
    witness (b: Bitboard, s: Square) => b & Bit(s) != 0

  /** The bit test `b & (1ULL << s)`, kept behind a constant so that reasoning
      about squares does not unfold into bit-vector arithmetic. */
  const HAS: SquareTest

  /** Square `s` is set in `b`. */
  predicate Has(b: Bitboard, s: Square)
  {
    HAS(b, s)
  }

  lemma HasMeaning(b: Bitboard, s: Square)
    ensures Has(b, s) == (b & Bit(s) != 0)
  {
    assert Unfolded(b, s);
  }

  /** What `&`, `|` and `~` do to one square. */
  lemma HasAnd(a: Bitboard, b: Bitboard, s: Square)
    ensures Has(a & b, s) <==> Has(a, s) && Has(b, s)
  {
    assert Unfolded(a & b, s);
    assert Unfolded(a, s);
    assert Unfolded(b, s);
    BitAnd(a, b, s);
  }

  lemma HasNot(a: Bitboard, s: Square)
    ensures Has(!a, s) <==> !Has(a, s)
  {
    assert Unfolded(!a, s);
    assert Unfolded(a, s);
    BitNot(a, s);
  }

  lemma HasOr(a: Bitboard, b: Bitboard, s: Square)
    ensures Has(a | b, s) <==> Has(a, s) || Has(b, s)
  {
    var na, nb := !a, !b;
    var c := na & nb;
    OrAsAnd(a, b, c);
    HasNot(c, s);
    HasAnd(na, nb, s);
    HasNot(a, s);
    HasNot(b, s);
  }

  /** `a & ~b` holds the squares of `a` that are not in `b`. */
  lemma HasAndNot(a: Bitboard, b: Bitboard, s: Square)
    ensures Has(a & !b, s) <==> Has(a, s) && !Has(b, s)
  {
    HasAnd(a, !b, s);
    HasNot(b, s);
  }

  lemma HasZero(s: Square)
    ensures !Has(0, s)
  {
    HasMeaning(0, s);
  }

  lemma HasBit(s: Square, t: Square)
    ensures Has(Bit(s), t) <==> s == t
  {
    HasMeaning(Bit(s), t);
    BitOfBit(t, s);
  }

  /** `SquareBb(s)`, i.e. `1ULL << s`: the bitboard holding square `s` alone. */
  function SquareBb(s: Square): (r: Bitboard)
    ensures forall t: Square :: Has(r, t) <==> t == s
  {
    forall t: Square ensures Has(Bit(s), t) <==> t == s {
      HasBit(s, t);
    }
    Bit(s)
  }

  lemma {:induction false} BelowHas(i: int, s: Square)
    requires 0 <= i <= 64
    ensures Has(Below(i), s) <==> s < i
  {
    if i == 0 {
      HasZero(s);
    } else {
      BelowHas(i - 1, s);
      HasOr(Below(i - 1), Bit(i - 1), s);
      HasBit(i - 1, s);
    }
  }

  /** A clear square `i` above a clear mask extends the clear mask. */
  lemma ClearStep(b: Bitboard, i: Square)
    requires b & Below(i) == 0 && !Has(b, i)
    ensures b & Below(i + 1) == 0
  {
    HasMeaning(b, i);
    ZeroStep(b, Below(i), Bit(i), Below(i + 1));
  }

  /** No square below `i` means no bit below `i`. */
  lemma {:induction false} ZeroBelow(b: Bitboard, i: int)
    requires 0 <= i <= 64
    requires forall s: Square :: s < i ==> !Has(b, s)
    ensures b & Below(i) == 0
  {
    if i > 0 {
      ZeroBelow(b, i - 1);
      ClearStep(b, i - 1);
    }
  }

  /** A bitboard without squares is zero. */
  lemma NoSquaresZero(b: Bitboard)
    requires forall s: Square :: !Has(b, s)
    ensures b == 0
  {
    var i := 64;
    ZeroBelow(b, i);
    BelowFull(i);
  }

  /** The lowest square set in `b` at or above `i`, when none below `i` is. */
  function LowestFrom(b: Bitboard, i: int): (r: int)
    requires b != 0 && 0 <= i <= 64
    requires forall s: Square :: s < i ==> !Has(b, s)
    ensures i <= r < 64
    ensures Has(b, r) && forall s: Square :: s < r ==> !Has(b, s)
    decreases 64 - i
  {
    if i == 64 then
      NoSquaresZero(b);
      assert false; 0
    else if Has(b, i) then i
    else LowestFrom(b, i + 1)
  }

  /** `__builtin_ctzll(b)`: the lowest square set in a non-empty bitboard. */
  function Lsb(b: Bitboard): (r: Square)
    requires b != 0
    ensures Has(b, r) && forall s: Square :: s < r ==> !Has(b, s)
  {
    LowestFrom(b, 0)
  }

  /** With no bit below `r` and bit `r` set, `b & (b - 1)` clears bit `r`. */
  lemma PopLowAt(b: Bitboard, r: Square)
    ensures b & Below(r) == 0 && b & Bit(r) != 0 ==> b & (b - 1) == b & !Bit(r)
  {
    BitSingle(r);
    BelowBit(r);
    SinglePopLow(b, Bit(r), Below(r));
  }

  /** `b & (b - 1)` is `b` without its lowest square. */
  lemma ClearLowestBits(b: Bitboard)
    requires b != 0
    ensures b & (b - 1) == b & !Bit(Lsb(b))
  {
    var r := Lsb(b);
    ZeroBelow(b, r);
    HasMeaning(b, r);
    PopLowAt(b, r);
  }

  /** `ClearLowest` at one square; an implication, so that callers have no
      bit-vector precondition to discharge. */
  lemma ClearLowestAt(b: Bitboard, s: Square)
    ensures b != 0 ==> (Has(b & (b - 1), s) <==> Has(b, s) && s != Lsb(b))
  {
    if b != 0 {
      ClearLowestBits(b);
      HasAndNot(b, Bit(Lsb(b)), s);
      HasBit(Lsb(b), s);
    }
  }

  /** `b & (b - 1)` clears exactly the lowest set square of `b`. */
  lemma ClearLowest(b: Bitboard)
    requires b != 0
    ensures forall s: Square :: Has(b & (b - 1), s) <==> Has(b, s) && s != Lsb(b)
  {
    forall s: Square ensures Has(b & (b - 1), s) <==> Has(b, s) && s != Lsb(b) {
      ClearLowestAt(b, s);
    }
  }

  /** The number of bits set at or above `i`. */
  function CountFrom(b: Bitboard, i: int): (n: int)
    requires 0 <= i <= 64
    ensures 0 <= n <= 64 - i
    decreases 64 - i
  {
    if i == 64 then 0 else (if Has(b, i) then 1 else 0) + CountFrom(b, i + 1)
  }

  /** `PopCount(b)`, i.e. `__builtin_popcountll(b)`: the number of set bits. */
  function PopCount(b: Bitboard): (n: int)
    ensures 0 <= n <= 64
  {
    CountFrom(b, 0)
  }

  /** The squares of `b` at or above `i`, in increasing order. */
  function SquaresFrom(b: Bitboard, i: int): (r: seq<Square>)
    requires 0 <= i <= 64
    ensures forall s: Square :: s in r <==> i <= s && Has(b, s)
    ensures forall j :: 0 <= j < |r| ==> i <= r[j]
    ensures |r| == CountFrom(b, i)
    decreases 64 - i
  {
    if i == 64 then [] else (if Has(b, i) then [i] else []) + SquaresFrom(b, i + 1)
  }

  /** Marks where the meaning of `SQUARES` may be used. */
  predicate Enumerated(b: Bitboard) { true }

  type SquareListing = f: Bitboard -> seq<Square>
    | forall b: Bitboard {:trigger Enumerated(b)} :: Enumerated(b) ==> f(b) == SquaresFrom(b, 0)
    witness (b: Bitboard) => SquaresFrom(b, 0)

  /** The scan `SquaresFrom(b, 0)` for every bitboard, kept behind a
      constant so that reasoning about the moves emitted for a set of
      squares does not unroll the scan. */
  const SQUARES: SquareListing

  lemma SquaresMeaning(b: Bitboard)
    ensures SQUARES(b) == SquaresFrom(b, 0)
  {
    assert Enumerated(b);
  }

  /** The squares of `b` in increasing order: the order in which a
      `while (b) PopLsb(b)` loop visits them. */
  function Squares(b: Bitboard): (r: seq<Square>)
    ensures forall s: Square :: s in r <==> Has(b, s)
    ensures |r| == PopCount(b)
  {
    SquaresMeaning(b);
    SQUARES(b)
  }

  /** Strictly increasing. */
  predicate Increasing(r: seq<Square>)
  {
    forall j, k :: 0 <= j < k < |r| ==> r[j] < r[k]
  }

  lemma ConsIncreasing(x: Square, rest: seq<Square>)
    requires Increasing(rest)
    requires forall j :: 0 <= j < |rest| ==> x < rest[j]
    ensures Increasing([x] + rest)
  {
    var r := [x] + rest;
    forall j, k | 0 <= j < k < |r| ensures r[j] < r[k] {
      assert r[k] == rest[k - 1];
      if j > 0 {
        assert r[j] == rest[j - 1];
      }
    }
  }

  lemma {:induction false} SquaresFromIncreasing(b: Bitboard, i: int)
    requires 0 <= i <= 64
    ensures Increasing(SquaresFrom(b, i))
    decreases 64 - i
  {
    if i < 64 {
      SquaresFromIncreasing(b, i + 1);
      if Has(b, i) {
        ConsIncreasing(i, SquaresFrom(b, i + 1));
      }
    }
  }

  /** `Squares(b)` lists each square once, lowest first. */
  lemma SquaresIncreasing(b: Bitboard)
    ensures Increasing(Squares(b))
  {
    SquaresMeaning(b);
    SquaresFromIncreasing(b, 0);
  }

  lemma {:induction false} SquaresFromSame(b: Bitboard, c: Bitboard, i: int)
    requires 0 <= i <= 64
    requires forall s: Square :: i <= s ==> Has(b, s) == Has(c, s)
    ensures SquaresFrom(b, i) == SquaresFrom(c, i)
    decreases 64 - i
  {
    if i < 64 {
      SquaresFromSame(b, c, i + 1);
    }
  }

  lemma {:induction false} SquaresFromSkip(b: Bitboard, i: int, k: int)
    requires 0 <= i <= k <= 64
    requires forall s: Square :: i <= s < k ==> !Has(b, s)
    ensures SquaresFrom(b, i) == SquaresFrom(b, k)
    decreases k - i
  {
    if i < k {
      SquaresFromSkip(b, i + 1, k);
    }
  }

  /** Squares up to the lowest one of `b`: just that one. */
  lemma SquaresToLowest(b: Bitboard)
    requires b != 0
    ensures SquaresFrom(b, 0) == [Lsb(b)] + SquaresFrom(b, Lsb(b) + 1)
  {
    var k := Lsb(b);
    SquaresFromSkip(b, 0, k);
  }

  /** `b & (b - 1)` has no square up to the lowest one of `b`. */
  lemma SquaresClearedToLowest(b: Bitboard)
    requires b != 0
    ensures SquaresFrom(b & (b - 1), 0) == SquaresFrom(b & (b - 1), Lsb(b) + 1)
  {
    var k: int, c := Lsb(b), b & (b - 1);
    forall s: Square | s < k + 1 ensures !Has(c, s) {
      ClearLowestAt(b, s);
    }
    SquaresFromSkip(c, 0, k + 1);
  }

  /** Above the lowest square, `b` and `b & (b - 1)` agree. */
  lemma SquaresAboveLowest(b: Bitboard)
    requires b != 0
    ensures SquaresFrom(b, Lsb(b) + 1) == SquaresFrom(b & (b - 1), Lsb(b) + 1)
  {
    var k: int, c := Lsb(b), b & (b - 1);
    forall s: Square | k + 1 <= s ensures Has(b, s) == Has(c, s) {
      ClearLowestAt(b, s);
    }
    SquaresFromSame(b, c, k + 1);
  }

  /** The squares of a non-empty `b` are its lowest square followed by
      the squares of `b & (b - 1)`. */
  lemma SquaresSplit(b: Bitboard)
    requires b != 0
    ensures Squares(b) == [Lsb(b)] + Squares(b & (b - 1))
  {
    SquaresMeaning(b);
    SquaresMeaning(b & (b - 1));
    SquaresToLowest(b);
    SquaresClearedToLowest(b);
    SquaresAboveLowest(b);
  }

  /** A bitboard is empty exactly when it has no squares. */
  lemma SquaresEmpty(b: Bitboard)
    ensures Squares(b) == [] <==> b == 0
  {
    SquaresMeaning(b);
    if b == 0 {
      forall s: Square ensures !Has(b, s) { HasZero(s); }
      SquaresFromSkip(b, 0, 64);
    } else {
      assert Lsb(b) in Squares(b);
    }
  }

  /** `PopLsb(b)`: removes the lowest set square from the non-empty `b`
      (passed by reference in the engine, returned here) and reports it. */
  method PopLsb(b: Bitboard) returns (sq: Square, b': Bitboard)
    requires b != 0
    ensures Has(b, sq) && forall s: Square :: s < sq ==> !Has(b, s)
    ensures forall s: Square :: Has(b', s) <==> Has(b, s) && s != sq
    ensures PopCount(b') == PopCount(b) - 1
    ensures Squares(b) == [sq] + Squares(b')
  {
    sq := Lsb(b);
    b' := b & (b - 1);
    ClearLowest(b);
    SquaresSplit(b);
  }

  /** `SetBit(b, sq)`: `b | (1ULL << sq)` (the engine updates `b` in place). */
  function SetBit(b: Bitboard, sq: Square): (r: Bitboard)
    ensures Has(r, sq)
    ensures forall s: Square :: s != sq ==> (Has(r, s) <==> Has(b, s))
  {
    var r := b | Bit(sq);
    forall s: Square ensures Has(r, s) <==> Has(b, s) || s == sq {
      HasOr(b, Bit(sq), s);
      HasBit(sq, s);
    }
    r
  }

  /** `ClearBit(b, sq)`: `b & ~(1ULL << sq)` (the engine updates `b` in place). */
  function ClearBit(b: Bitboard, sq: Square): (r: Bitboard)
    ensures !Has(r, sq)
    ensures forall s: Square :: s != sq ==> (Has(r, s) <==> Has(b, s))
  {
    var r := b & !Bit(sq);
    forall s: Square ensures Has(r, s) <==> Has(b, s) && s != sq {
      HasAndNot(b, Bit(sq), s);
      HasBit(sq, s);
    }
    r
  }

  /** Setting or clearing a bit twice is the same as doing it once. */
  lemma SetClearIdempotent(b: Bitboard, sq: Square)
    ensures SetBit(SetBit(b, sq), sq) == SetBit(b, sq)
    ensures ClearBit(ClearBit(b, sq), sq) == ClearBit(b, sq)
  {
  }

  /** `SquareBb(s)` has exactly one set bit, and it is bit `s`. */
  lemma SquareBbSingle(s: Square)
    ensures PopCount(SquareBb(s)) == 1
    ensures Squares(SquareBb(s)) == [s]
  {
    var m := SquareBb(s);
    SquaresMeaning(m);
    SquaresFromSkip(m, 0, s);
    SquaresFromSkip(m, s + 1, 64);
    assert SquaresFrom(m, s) == [s] + SquaresFrom(m, s + 1);
  }
}
