/** The shared vocabulary of the engine: squares, colours, pieces, moves and
    castling rights. Squares are numbered A1 = 0, B1 = 1, ..., H1 = 7,
    A2 = 8, ..., H8 = 63, so file = square % 8 and rank = square / 8. */
module Types {

  type Square = s: int | 0 <= s < 64

  /** The "no square" value, one past the last square. */
  const SQ_NONE: int := 64

  const SQ_A1: Square := 0
  const SQ_B1: Square := 1
  const SQ_C1: Square := 2
  const SQ_D1: Square := 3
  const SQ_E1: Square := 4
  const SQ_F1: Square := 5
  const SQ_G1: Square := 6
  const SQ_A8: Square := 56
  const SQ_B8: Square := 57
  const SQ_C8: Square := 58
  const SQ_D8: Square := 59
  const SQ_E8: Square := 60
  const SQ_F8: Square := 61
  const SQ_G8: Square := 62

  /** Compass offsets in square numbers. */
  const NORTH: int := 8
  const SOUTH: int := -8
  const EAST: int := 1
  const WEST: int := -1

  function FileOf(s: Square): (f: int)
    ensures 0 <= f < 8
  {
    s % 8
  }

  function RankOf(s: Square): (r: int)
    ensures 0 <= r < 8
  {
    s / 8
  }

  function MakeSquare(f: int, r: int): (s: Square)
    requires 0 <= f < 8 && 0 <= r < 8
    ensures FileOf(s) == f && RankOf(s) == r
  {
    8 * r + f
  }

  lemma SquareOfCoordinates(s: Square)
    ensures s == MakeSquare(FileOf(s), RankOf(s))
  {
  }

  datatype Color = White | Black

  /** `~c`: the other colour. */
  function Opp(c: Color): (o: Color)
    ensures o != c
  {
    if c == White then Black else White
  }

  /** Index of a colour in the per-colour arrays (WHITE = 0, BLACK = 1). */
  function ColorIndex(c: Color): (i: int)
    ensures 0 <= i < 2
  {
    if c == White then 0 else 1
  }

  /** `RelativeRank(c, r)`: rank `r` as seen from colour `c`'s side of the board. */
  function RelativeRank(c: Color, r: int): int
  {
    if c == White then r else 7 - r
  }

  /** The square offset of a single pawn push for colour `c`. */
  function PawnPush(c: Color): int
  {
    if c == White then NORTH else SOUTH
  }

  datatype PieceType = Pawn | Knight | Bishop | Rook | Queen | King

  datatype Piece = NoPiece | Piece(color: Color, kind: PieceType)

  /** Numeric value of a piece type: PAWN = 1, ..., KING = 6. */
  function TypeIndex(k: PieceType): int
  {
    match k
    case Pawn => 1
    case Knight => 2
    case Bishop => 3
    case Rook => 4
    case Queen => 5
    case King => 6
  }

  /** The enum value of a piece: NO_PIECE = 0, W_PAWN..W_KING = 1..6,
      B_PAWN..B_KING = 9..14 (`MakePiece(c, pt) = 8 * c + pt`). */
  function PieceIndex(p: Piece): (i: int)
    ensures 0 <= i < 16
    ensures p == NoPiece <==> i == 0
  {
    match p
    case NoPiece => 0
    case Piece(c, k) => 8 * ColorIndex(c) + TypeIndex(k)
  }

  /** The piece whose enum value is `i`, for the values that name a piece. */
  function PieceOfIndex(i: int): (p: Piece)
    requires 1 <= i <= 6 || 9 <= i <= 14
    ensures PieceIndex(p) == i
  {
    var c := if i < 8 then White else Black;
    var k := match i % 8
      case 1 => Pawn
      case 2 => Knight
      case 3 => Bishop
      case 4 => Rook
      case 5 => Queen
      case _ => King;
    Piece(c, k)
  }

  lemma PieceIndexInjective(p: Piece, q: Piece)
    requires PieceIndex(p) == PieceIndex(q)
    ensures p == q
  {
  }

  datatype MoveKind = Normal | Promotion(promo: PieceType) | EnPassant | Castling

  /** A move; `NoMove` is the engine's `Move::none()`. */
  datatype Move = NoMove | Move(from: Square, to: Square, kind: MoveKind)

  /** Castling-right flags, OR-ed together in one byte. */
  type CastlingRights = bv8

  const NO_CASTLING: CastlingRights := 0
  const WHITE_OO: CastlingRights := 1
  const WHITE_OOO: CastlingRights := 2
  const BLACK_OO: CastlingRights := 4
  const BLACK_OOO: CastlingRights := 8

  /** The larger of two integers, as `std::max`. */
  function Max(x: int, y: int): (m: int)
    ensures m >= x && m >= y && (m == x || m == y)
  {
    if x < y then y else x
  }
}
