/** The board setup of src/board.cpp: `Board::reset`, which empties the
    board, and `Board::set`, which decodes a FEN string field by field from
    a string stream. The stream is modelled as a value holding the text,
    the read position and whether it is still good, with the extraction
    rules of the standard library written out: a failed extraction leaves
    its target unchanged and fails every later one. */
module BoardSetup {
  import opened Types

  // ---------------------------------------------------------------------
  // Characters

  /** `isspace` in the "C" locale: space, tab, newline, vertical tab, form
      feed and carriage return. */
  predicate IsSpace(c: char)
  {
    c == ' ' || 9 <= c as int <= 13
  }

  /** `isdigit`. */
  predicate IsDigit(c: char)
  {
    '0' <= c <= '9'
  }

  function DigitValue(c: char): (d: int)
    requires IsDigit(c)
    ensures 0 <= d <= 9
  {
    c as int - '0' as int
  }

  /** `PieceToChar`: the character of each piece at the piece's enum value. */
  const PIECE_TO_CHAR: string := " PNBRQK  pnbrqk"

  /** `std::string::npos`. */
  const NPOS: int := -1

  /** `s.find(c, from)`: the first index at or after `from` holding `c`. */
  function Find(s: string, c: char, from: nat): (i: int)
    ensures i == NPOS || (from <= i < |s| && s[i] == c)
    ensures i == NPOS ==> forall j :: from <= j < |s| ==> s[j] != c
    ensures i != NPOS ==> forall j :: from <= j < i ==> s[j] != c
    decreases |s| - from
  {
    if from >= |s| then NPOS else if s[from] == c then from else Find(s, c, from + 1)
  }

  /** A character that is not a space is found in `PieceToChar`, if at all,
      at the enum value of a piece. */
  lemma PieceCharIndex(c: char)
    requires !IsSpace(c)
    ensures var i := Find(PIECE_TO_CHAR, c, 0); i == NPOS || 1 <= i <= 6 || 9 <= i <= 14
  {
    var i := Find(PIECE_TO_CHAR, c, 0);
    assert PIECE_TO_CHAR[0] == ' ' && PIECE_TO_CHAR[7] == ' ' && PIECE_TO_CHAR[8] == ' ';
  }

  /** `Piece(PieceToChar.find(c))`. */
  function PieceOfChar(c: char): Piece
    requires !IsSpace(c) && Find(PIECE_TO_CHAR, c, 0) != NPOS
  {
    PieceCharIndex(c);
    PieceOfIndex(Find(PIECE_TO_CHAR, c, 0))
  }

  // ---------------------------------------------------------------------
  // The string stream

  /** A `std::string` holds bytes: each character of the text is one byte,
      one extraction of a `char`. */
  predicate IsByteText(text: string)
  {
    forall i :: 0 <= i < |text| ==> text[i] as int < 256
  }

  datatype Stream = Stream(text: string, pos: nat, good: bool)

  predicate InText(s: Stream)
  {
    s.pos <= |s.text|
  }

  /** `ss >> c` with whitespace skipping off: the next character, or a
      failure that leaves `prev` in place when the stream is at its end or
      has failed before. */
  function ReadChar(s: Stream, prev: char): (r: (Stream, bool, char))
    requires InText(s)
    ensures r.0.text == s.text && InText(r.0) && r.0.pos <= s.pos + 1
  {
    if s.good && s.pos < |s.text| then (Stream(s.text, s.pos + 1, true), true, s.text[s.pos])
    else (s.(good := false), false, prev)
  }

  /** The first whitespace at or after `p`, or the end of the text. */
  function FieldEnd(text: string, p: nat): (e: nat)
    requires p <= |text|
    ensures p <= e <= |text|
    ensures e < |text| ==> IsSpace(text[e])
    ensures forall k :: p <= k < e ==> !IsSpace(text[k])
    decreases |text| - p
  {
    if p == |text| || IsSpace(text[p]) then p else FieldEnd(text, p + 1)
  }

  /** The characters a `while ((ss >> token) && !isspace(token))` loop
      handles: those up to the next whitespace, none from a failed stream. */
  function Field(s: Stream): (f: string)
    requires InText(s)
    ensures forall k :: 0 <= k < |f| ==> !IsSpace(f[k])
  {
    if s.good then s.text[s.pos..FieldEnd(s.text, s.pos)] else []
  }

  /** The stream after such a loop: just past the whitespace that stopped
      it, or failed at the end of the text. */
  function AfterField(s: Stream): (r: Stream)
    requires InText(s)
    ensures r.text == s.text && InText(r)
  {
    if !s.good then s
    else
      var e := FieldEnd(s.text, s.pos);
      if e < |s.text| then Stream(s.text, e + 1, true) else Stream(s.text, |s.text|, false)
  }

  /** The token such a loop leaves: the whitespace that stopped it, else the
      last character it read, else `prev`. */
  function FieldToken(s: Stream, prev: char): char
    requires InText(s)
  {
    if !s.good then prev
    else
      var e := FieldEnd(s.text, s.pos);
      if e < |s.text| then s.text[e] else if e > s.pos then s.text[e - 1] else prev
  }

  /** The token a field loop holds once it has read up to `p`: the last
      character read, or `prev` before the first. */
  function FieldLast(s: Stream, p: nat, prev: char): char
    requires InText(s) && s.pos <= p <= |s.text|
  {
    if p > s.pos then s.text[p - 1] else prev
  }

  /** A field loop that stops at `p`, at the end of the text or on a
      whitespace, has consumed exactly the field. */
  lemma FieldExit(s: Stream, p: nat, prev: char)
    requires InText(s) && s.good && s.pos <= p <= FieldEnd(s.text, s.pos)
    requires p == |s.text| || IsSpace(s.text[p])
    ensures Field(s) == s.text[s.pos..p]
    ensures AfterField(s) == ReadChar(Stream(s.text, p, true), FieldLast(s, p, prev)).0
    ensures FieldToken(s, prev) == ReadChar(Stream(s.text, p, true), FieldLast(s, p, prev)).2
  {
    assert p == FieldEnd(s.text, s.pos);
  }

  /** A field loop that reads a non-whitespace character at `p` has not yet
      reached the end of the field. */
  lemma FieldContinues(s: Stream, p: nat, prev: char)
    requires InText(s) && s.pos <= p <= FieldEnd(s.text, s.pos)
    requires p < |s.text| && !IsSpace(s.text[p])
    ensures p + 1 <= FieldEnd(s.text, s.pos)
    ensures FieldLast(s, p + 1, prev) == s.text[p]
    ensures s.text[s.pos..p + 1] == s.text[s.pos..p] + [s.text[p]]
  {
  }

  // ---------------------------------------------------------------------
  // Integers: `ss >> std::skipws >> n`

  const INT_MIN: int := -0x8000_0000
  const INT_MAX: int := 0x7FFF_FFFF

  /** The first non-whitespace at or after `p`, or the end of the text. */
  function SkipSpaces(text: string, p: nat): (q: nat)
    requires p <= |text|
    ensures p <= q <= |text|
    ensures q < |text| ==> !IsSpace(text[q])
    ensures forall k :: p <= k < q ==> IsSpace(text[k])
    decreases |text| - p
  {
    if p == |text| || !IsSpace(text[p]) then p else SkipSpaces(text, p + 1)
  }

  /** The first non-digit at or after `p`, or the end of the text. */
  function DigitsEnd(text: string, p: nat): (q: nat)
    requires p <= |text|
    ensures p <= q <= |text|
    ensures q < |text| ==> !IsDigit(text[q])
    ensures forall k :: p <= k < q ==> IsDigit(text[k])
    ensures AllDigits(text[p..q])
    decreases |text| - p
  {
    if p == |text| || !IsDigit(text[p]) then p else DigitsEnd(text, p + 1)
  }

  predicate AllDigits(ds: string)
  {
    forall k :: 0 <= k < |ds| ==> IsDigit(ds[k])
  }

  /** The value of a string of decimal digits. */
  function DigitsValue(ds: string): nat
    requires AllDigits(ds)
    decreases |ds|
  {
    if ds == [] then 0 else 10 * DigitsValue(ds[..|ds| - 1]) + DigitValue(ds[|ds| - 1])
  }

  /** `ss >> n` for an `int n` with whitespace skipping on. A failed stream,
      or one with only whitespace left, fails and leaves `prev`; text that
      does not start with an optionally signed number stores 0 and fails;
      a number out of range stores the nearest limit and fails; reaching
      the end of the text while reading the number sets the end-of-file
      state, which fails the next extraction. */
  function ReadInt(s: Stream, prev: int): (r: (Stream, int))
    requires InText(s)
    ensures r.0.text == s.text && InText(r.0) && s.pos <= r.0.pos
    ensures !s.good ==> r == (s, prev)
    ensures r.1 == prev || INT_MIN <= r.1 <= INT_MAX
    ensures r.0.good ==> s.good && s.pos < r.0.pos < |s.text| && INT_MIN <= r.1 <= INT_MAX
  {
    if !s.good then (s, prev)
    else
      var text := s.text;
      var p := SkipSpaces(text, s.pos);
      if p == |text| then (Stream(text, p, false), prev)
      else
        var negative := text[p] == '-';
        var p1 := if text[p] == '-' || text[p] == '+' then p + 1 else p;
        var q := DigitsEnd(text, p1);
        if q == p1 then (Stream(text, q, false), 0)
        else
          var magnitude: int := DigitsValue(text[p1..q]);
          var v: int := if negative then -magnitude else magnitude;
          if v < INT_MIN then (Stream(text, q, false), INT_MIN)
          else if v > INT_MAX then (Stream(text, q, false), INT_MAX)
          else (Stream(text, q, q < |text|), v)
  }

  // ---------------------------------------------------------------------
  // Field decoders

  /** All 64 squares empty. */
  function EmptyBoard(): (r: seq<Piece>)
    ensures |r| == 64 && forall sq :: 0 <= sq < 64 ==> r[sq] == NoPiece
  {
    seq(64, sq => NoPiece)
  }

  /** The placement loop's state: the current square and the board. */
  datatype Placing = Placing(sq: int, board: seq<Piece>)

  /** `pieces[sq] = p`, for a square on the board. */
  function PutPiece(board: seq<Piece>, sq: int, p: Piece): (r: seq<Piece>)
    ensures |r| == |board|
  {
    if 0 <= sq < |board| then board[sq := p] else board
  }

  /** One placement character: a digit skips that many files, `/` moves
      two ranks down from the square after the finished rank, a piece
      letter places its piece and advances one square, and anything else
      is ignored. */
  function PlaceChar(st: Placing, c: char): (r: Placing)
    ensures |r.board| == |st.board|
  {
    if IsDigit(c) then st.(sq := st.sq + DigitValue(c) * EAST)
    else if c == '/' then st.(sq := st.sq + 2 * SOUTH)
    else if !IsSpace(c) && Find(PIECE_TO_CHAR, c, 0) != NPOS then
      Placing(st.sq + 1, PutPiece(st.board, st.sq, PieceOfChar(c)))
    else st
  }

  /** The placement characters `cs` applied in order. */
  function Place(cs: string, st: Placing): (r: Placing)
    ensures |r.board| == |st.board|
    decreases |cs|
  {
    if cs == [] then st else PlaceChar(Place(cs[..|cs| - 1], st), cs[|cs| - 1])
  }

  /** One more placement character. */
  lemma PlaceStep(text: string, a: nat, p: nat, st: Placing)
    requires a <= p < |text|
    ensures Place(text[a..p + 1], st) == PlaceChar(Place(text[a..p], st), text[p])
  {
    assert text[a..p + 1][..p - a] == text[a..p];
  }

  /** The right a castling letter grants. */
  function RightOf(c: char): CastlingRights
  {
    if c == 'K' then WHITE_OO
    else if c == 'k' then BLACK_OO
    else if c == 'Q' then WHITE_OOO
    else if c == 'q' then BLACK_OOO
    else NO_CASTLING
  }

  /** `rights` after the castling letters `cs` are OR-ed in, one by one. */
  function Rights(cs: string, rights: CastlingRights): CastlingRights
    decreases |cs|
  {
    if cs == [] then rights else Rights(cs[..|cs| - 1], rights) | RightOf(cs[|cs| - 1])
  }

  /** One more castling letter ORs in its right. */
  lemma RightsStep(text: string, a: nat, p: nat, rights: CastlingRights)
    requires a <= p < |text|
    ensures Rights(text[a..p + 1], rights) == Rights(text[a..p], rights) | RightOf(text[p])
  {
    assert text[a..p + 1][..p - a] == text[a..p];
  }

  /** A character that grants no right leaves the rights as they are. */
  lemma NoRightAdded(rights: CastlingRights)
    ensures rights | NO_CASTLING == rights
  {
  }

  /** The rank character an en passant square must have: the sixth rank
      when white is to move (a black pawn has just moved two squares), the
      third when black is. */
  function EpRank(side: Color): char
  {
    if side == White then '6' else '3'
  }

  /** The fields `Board::set` leaves. */
  datatype FenFields = FenFields(pieces: seq<Piece>, sideToMove: Color, epSquare: int,
                                 rule50: int, gamePly: int, castlingRights: CastlingRights)

  /** The en passant field: the square, when a file letter is followed by
      the rank `EpRank(side)`, and the stream after the characters read. */
  function EpField(s: Stream, side: Color): (r: (Stream, int))
    requires InText(s)
    ensures r.0.text == s.text && InText(r.0)
  {
    var c := ReadChar(s, '\0');
    if c.1 && 'a' <= c.2 <= 'h' then
      var w := ReadChar(c.0, '\0');
      if w.1 && w.2 == EpRank(side) then (w.0, MakeSquare(c.2 as int - 'a' as int, w.2 as int - '1' as int))
      else (w.0, SQ_NONE)
    else (c.0, SQ_NONE)
  }

  /** The full move number converted to the ply count: two plies per full
      move after the first, plus one when black is to move. */
  function PlyOf(fullmove: int, side: Color): int
  {
    Max(2 * (fullmove - 1), 0) + (if side == Black then 1 else 0)
  }

  /** The active colour field and the separator after it: white exactly
      when the character read is `'w'`. */
  function SideField(s: Stream, prev: char): (r: (Stream, Color))
    requires InText(s)
    ensures r.0.text == s.text && InText(r.0)
  {
    var c := ReadChar(s, prev);
    var separator := ReadChar(c.0, c.2);
    (separator.0, if c.2 == 'w' then White else Black)
  }

  /** What `Board::set(fen)` leaves on a freshly reset board, field by
      field. */
  function DecodeFen(fen: string): FenFields
    requires |fen| > 0
  {
    var s0 := Stream(fen, 0, true);
    var board := Place(Field(s0), Placing(SQ_A8, EmptyBoard())).board;
    var side := SideField(AfterField(s0), FieldToken(s0, '\0'));
    var rights := Rights(Field(side.0), NO_CASTLING);
    var ep := EpField(AfterField(side.0), side.1);
    var halfmove := ReadInt(ep.0, 0);
    var fullmove := ReadInt(halfmove.0, 0);
    FenFields(board, side.1, ep.1, halfmove.1, PlyOf(fullmove.1, side.1), rights)
  }

  // ---------------------------------------------------------------------
  // Board

  class Board {
    var pieces: array<Piece>
    var sideToMove: Color
    var epSquare: int
    var rule50: int
    var gamePly: int
    var castlingRights: CastlingRights

    ghost predicate Valid()
      reads this
    {
      pieces.Length == 64
    }

    function Fields(): FenFields
      reads this, pieces
    {
      FenFields(pieces[..], sideToMove, epSquare, rule50, gamePly, castlingRights)
    }

    constructor ()
      ensures Valid() && fresh(pieces)
    {
      pieces := new Piece[64];
    }

    /** `reset()`: every square empty, white to move, no en passant square,
        both counters zero and no castling rights. */
    method Reset()
      requires Valid()
      modifies this, pieces
      ensures Valid() && pieces == old(pieces)
      ensures Fields() == FenFields(EmptyBoard(), White, SQ_NONE, 0, 0, NO_CASTLING)
    {
      var i := 0;
      while i < 64
        invariant 0 <= i <= 64 && pieces == old(pieces)
        invariant forall j :: 0 <= j < i ==> pieces[j] == NoPiece
      {
        pieces[i] := NoPiece;
        i := i + 1;
      }
      assert pieces[..] == EmptyBoard();
      sideToMove := White;
      epSquare := SQ_NONE;
      rule50 := 0;
      gamePly := 0;
      castlingRights := NO_CASTLING;
    }

    /** `set(fen)`: resets the board, then decodes the placement, the side
        to move, the castling rights, the en passant square and the two
        counters. The text is given byte by byte. */
    method Set(fen: string)
      requires Valid() && |fen| > 0 && IsByteText(fen)
      modifies this, pieces
      ensures Valid() && pieces == old(pieces)
      ensures Fields() == DecodeFen(fen)
    {
      Reset();
      var ss := Stream(fen, 0, true);
      var token: char := '\0';
      ss, token := ReadPlacement(ss, token);
      ss := ReadSide(ss, token);
      ss := ReadCastling(ss);
      ss := ReadEnPassant(ss);
      ReadCounters(ss);
    }

    /** 1. Piece placement: reads characters up to the first whitespace,
        starting at A8. */
    method ReadPlacement(s: Stream, prev: char) returns (ss: Stream, token: char)
      requires Valid() && InText(s) && s.good
      modifies pieces
      ensures pieces[..] == Place(Field(s), Placing(SQ_A8, old(pieces[..]))).board
      ensures ss == AfterField(s) && token == FieldToken(s, prev)
    {
      var fen := s.text;
      ghost var e := FieldEnd(fen, s.pos);
      ghost var init := Placing(SQ_A8, pieces[..]);
      ss, token := s, prev;
      var sq: int := SQ_A8;
      while true
        invariant ss == Stream(fen, ss.pos, true) && s.pos <= ss.pos <= e
        invariant Placing(sq, pieces[..]) == Place(fen[s.pos..ss.pos], init)
        invariant token == FieldLast(s, ss.pos, prev)
        decreases |fen| - ss.pos
      {
        var p := ss.pos;
        var r := ReadChar(ss, token);
        if !r.1 || IsSpace(r.2) {
          FieldExit(s, p, prev);
          ss, token := r.0, r.2;
          break;
        }
        FieldContinues(s, p, prev);
        PlaceStep(fen, s.pos, p, init);
        ghost var before := Place(fen[s.pos..p], init);
        ss, token := Stream(fen, p + 1, true), fen[p];
        sq := PlaceToken(sq, token);
        assert Placing(sq, pieces[..]) == PlaceChar(before, token);
      }
    }

    /** The body of the placement loop for one character `token`. */
    method PlaceToken(sq: int, token: char) returns (next: int)
      requires Valid() && !IsSpace(token)
      modifies pieces
      ensures Placing(next, pieces[..]) == PlaceChar(Placing(sq, old(pieces[..])), token)
    {
      next := sq;
      if IsDigit(token) {
        next := next + DigitValue(token) * EAST;
      } else if token == '/' {
        next := next + 2 * SOUTH;
      } else if Find(PIECE_TO_CHAR, token, 0) != NPOS {
        if 0 <= next < 64 {
          pieces[next] := PieceOfChar(token);
        }
        next := next + 1;
      }
    }

    /** 2. Active colour: one character, white exactly when it is `'w'`,
        then one more character for the separator. */
    method ReadSide(s: Stream, prev: char) returns (ss: Stream)
      requires InText(s)
      modifies this
      ensures (ss, sideToMove) == SideField(s, prev)
      ensures pieces == old(pieces) && castlingRights == old(castlingRights) && epSquare == old(epSquare)
      ensures rule50 == old(rule50) && gamePly == old(gamePly)
    {
      var token := prev;
      var r := ReadChar(s, token);
      ss, token := r.0, r.2;
      sideToMove := if token == 'w' then White else Black;
      r := ReadChar(ss, token);
      ss, token := r.0, r.2;
    }

    /** 4. En passant square: a file letter, then the rank the side to move
        calls for; the square is set only when both are read. */
    method ReadEnPassant(s: Stream) returns (ss: Stream)
      requires InText(s) && epSquare == SQ_NONE
      modifies this
      ensures (ss, epSquare) == EpField(s, sideToMove)
      ensures pieces == old(pieces) && castlingRights == old(castlingRights) && sideToMove == old(sideToMove)
      ensures rule50 == old(rule50) && gamePly == old(gamePly)
    {
      var col, row := '\0', '\0';
      var r := ReadChar(s, col);
      ss, col := r.0, r.2;
      if r.1 && 'a' <= col <= 'h' {
        r := ReadChar(ss, row);
        ss, row := r.0, r.2;
        if r.1 && row == EpRank(sideToMove) {
          epSquare := MakeSquare(col as int - 'a' as int, row as int - '1' as int);
        }
      }
    }

    /** 5. Halfmove clock and full move number, whitespace skipped; the full
        move number becomes the ply count. */
    method ReadCounters(s: Stream)
      requires InText(s)
      modifies this
      ensures rule50 == ReadInt(s, old(rule50)).1
      ensures gamePly == PlyOf(ReadInt(ReadInt(s, old(rule50)).0, old(gamePly)).1, sideToMove)
      ensures pieces == old(pieces) && castlingRights == old(castlingRights) && sideToMove == old(sideToMove)
      ensures epSquare == old(epSquare)
    {
      var n := ReadInt(s, rule50);
      var ss := n.0;
      rule50 := n.1;
      n := ReadInt(ss, gamePly);
      ss, gamePly := n.0, n.1;
      gamePly := Max(2 * (gamePly - 1), 0) + (if sideToMove == Black then 1 else 0);
    }

    /** 3. Castling availability: reads characters up to the next
        whitespace, OR-ing in the right of each castling letter. */
    method ReadCastling(s: Stream) returns (ss: Stream)
      requires InText(s)
      modifies this
      ensures castlingRights == Rights(Field(s), old(castlingRights))
      ensures ss == AfterField(s)
      ensures pieces == old(pieces) && sideToMove == old(sideToMove) && epSquare == old(epSquare)
      ensures rule50 == old(rule50) && gamePly == old(gamePly)
    {
      var fen := s.text;
      ghost var e := if s.good then FieldEnd(fen, s.pos) else s.pos;
      ss := s;
      var token: char := '\0';
      while true
        invariant ss == Stream(fen, ss.pos, s.good) && s.pos <= ss.pos <= e
        invariant s.good ==> token == FieldLast(s, ss.pos, '\0')
        invariant castlingRights == Rights(fen[s.pos..ss.pos], old(castlingRights))
        invariant pieces == old(pieces) && sideToMove == old(sideToMove) && epSquare == old(epSquare)
        invariant rule50 == old(rule50) && gamePly == old(gamePly)
        decreases |fen| - ss.pos
      {
        var p := ss.pos;
        var r := ReadChar(ss, token);
        if !r.1 || IsSpace(r.2) {
          if s.good {
            FieldExit(s, p, '\0');
          }
          ss, token := r.0, r.2;
          break;
        }
        FieldContinues(s, p, '\0');
        RightsStep(fen, s.pos, p, old(castlingRights));
        ss, token := Stream(fen, p + 1, true), fen[p];
        GrantRight(token);
      }
    }

    /** The body of the castling loop for one character `token`: a castling
        letter ORs in its right. */
    method GrantRight(token: char)
      modifies this
      ensures castlingRights == old(castlingRights) | RightOf(token)
      ensures pieces == old(pieces) && sideToMove == old(sideToMove) && epSquare == old(epSquare)
      ensures rule50 == old(rule50) && gamePly == old(gamePly)
    {
      if token == 'K' {
        castlingRights := castlingRights | WHITE_OO;
      } else if token == 'k' {
        castlingRights := castlingRights | BLACK_OO;
      } else if token == 'Q' {
        castlingRights := castlingRights | WHITE_OOO;
      } else if token == 'q' {
        castlingRights := castlingRights | BLACK_OOO;
      } else {
        NoRightAdded(castlingRights);
      }
    }
  }
}
