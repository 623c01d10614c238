/** What `Board::set` of src/board.cpp makes of a FEN string, stated
    against an independent reading of the notation: the piece placement
    of well-formed rank texts, the castling letters present, the en
    passant rule and the ply count. */
module BoardFacts {
  import opened Types
  import opened BoardSetup

  // ---------------------------------------------------------------------
  // Piece letters

  predicate IsPieceLetter(c: char)
  {
    c in "PNBRQKpnbrqk"
  }

  /** Every piece letter is found in `PieceToChar`. */
  lemma LetterFound(c: char)
    requires IsPieceLetter(c)
    ensures !IsSpace(c) && Find(PIECE_TO_CHAR, c, 0) != NPOS
  {
    assert PIECE_TO_CHAR[1..7] == "PNBRQK" && PIECE_TO_CHAR[9..15] == "pnbrqk";
    var i :| 0 <= i < 12 && "PNBRQKpnbrqk"[i] == c;
    assert PIECE_TO_CHAR[if i < 6 then i + 1 else i + 3] == c;
  }

  /** The piece a letter names: upper case for white, lower case for
      black, in the order pawn, knight, bishop, rook, queen, king. */
  function LetterPiece(c: char): (p: Piece)
    requires IsPieceLetter(c)
    ensures p != NoPiece
  {
    var color := if 'A' <= c <= 'Z' then White else Black;
    var kind := if c in "Pp" then Pawn else if c in "Nn" then Knight else if c in "Bb" then Bishop
                else if c in "Rr" then Rook else if c in "Qq" then Queen else King;
    Piece(color, kind)
  }

  /** The letter at each piece's enum value in `PieceToChar` names that
      piece. */
  lemma LetterAtIndex(i: int)
    requires 1 <= i <= 6 || 9 <= i <= 14
    ensures IsPieceLetter(PIECE_TO_CHAR[i]) && LetterPiece(PIECE_TO_CHAR[i]) == PieceOfIndex(i)
  {
    if i < 8 {
      assert PIECE_TO_CHAR[i] == "PNBRQK"[i - 1];
    } else {
      assert PIECE_TO_CHAR[i] == "pnbrqk"[i - 9];
    }
  }

  /** `Piece(PieceToChar.find(c))` is the piece the letter names. */
  lemma PieceOfLetter(c: char)
    requires IsPieceLetter(c)
    ensures !IsSpace(c) && Find(PIECE_TO_CHAR, c, 0) != NPOS && PieceOfChar(c) == LetterPiece(c)
  {
    LetterFound(c);
    PieceCharIndex(c);
    LetterAtIndex(Find(PIECE_TO_CHAR, c, 0));
  }

  // ---------------------------------------------------------------------
  // The placement field, read as the FEN notation defines it

  /** A character of a rank text: an empty-square count `1`-`8` or a piece
      letter. */
  predicate IsRankChar(c: char)
  {
    ('1' <= c <= '8') || IsPieceLetter(c)
  }

  predicate RankChars(t: string)
  {
    forall k :: 0 <= k < |t| ==> IsRankChar(t[k])
  }

  /** The squares of a rank text, from the a-file on. */
  function Expand(t: string): seq<Piece>
    requires RankChars(t)
    decreases |t|
  {
    if t == [] then []
    else
      var c := t[|t| - 1];
      Expand(t[..|t| - 1]) + (if IsPieceLetter(c) then [LetterPiece(c)] else seq(DigitValue(c), _ => NoPiece))
  }

  /** A rank text describing exactly eight squares. */
  predicate IsRankText(t: string)
  {
    RankChars(t) && |Expand(t)| == 8
  }

  /** The rank texts written from the eighth rank down, separated by `/`. */
  function JoinRanks(ranks: seq<string>): string
    requires |ranks| > 0
    decreases |ranks|
  {
    if |ranks| == 1 then ranks[0] else JoinRanks(ranks[..|ranks| - 1]) + ("/" + ranks[|ranks| - 1])
  }

  predicate RankTexts(ranks: seq<string>)
  {
    forall i :: 0 <= i < |ranks| ==> IsRankText(ranks[i])
  }

  /** The board that the first `|ranks|` rank texts describe: the `i`-th
      text gives rank `8 - i`, and lower ranks are empty. */
  function FenBoard(ranks: seq<string>): (b: seq<Piece>)
    requires |ranks| <= 8 && RankTexts(ranks)
    ensures |b| == 64
  {
    seq(64, sq requires 0 <= sq < 64 => RanksSquare(ranks, sq))
  }

  /** The piece the rank texts put on `sq`. */
  function RanksSquare(ranks: seq<string>, sq: Square): Piece
    requires |ranks| <= 8 && RankTexts(ranks)
  {
    var i := 7 - RankOf(sq);
    if i < |ranks| then Expand(ranks[i])[FileOf(sq)] else NoPiece
  }

  /** `b` with the pieces of `row` written from square `start` on; the
      empty squares of `row` leave `b` as it is. */
  function Paint(b: seq<Piece>, start: int, row: seq<Piece>): (r: seq<Piece>)
    ensures |r| == |b|
  {
    seq(|b|, k requires 0 <= k < |b| =>
      if start <= k < start + |row| && row[k - start] != NoPiece then row[k - start] else b[k])
  }

  /** Placement of a concatenation is placement of its parts in turn. */
  lemma {:induction false} PlaceConcat(a: string, b: string, st: Placing)
    ensures Place(a + b, st) == Place(b, Place(a, st))
    decreases |b|
  {
    if b == [] {
      assert a + b == a;
    } else {
      var b' := b[..|b| - 1];
      assert (a + b)[..|a + b| - 1] == a + b';
      PlaceConcat(a, b', st);
    }
  }

  /** One piece written after a painted row. */
  lemma PaintPiece(b: seq<Piece>, start: int, row: seq<Piece>, p: Piece)
    requires p != NoPiece && 0 <= start && start + |row| < |b|
    ensures Paint(b, start, row)[start + |row| := p] == Paint(b, start, row + [p])
  {
  }

  /** Empty squares written after a painted row change nothing. */
  lemma PaintBlanks(b: seq<Piece>, start: int, row: seq<Piece>, d: nat)
    ensures Paint(b, start, row) == Paint(b, start, row + seq(d, _ => NoPiece))
  {
  }

  /** Placing a rank text from square `start` writes its pieces there and
      leaves the square after it current. */
  lemma {:induction false} PlaceRank(t: string, start: int, b: seq<Piece>)
    requires RankChars(t) && 0 <= start && start + |Expand(t)| <= |b|
    ensures Place(t, Placing(start, b)) == Placing(start + |Expand(t)|, Paint(b, start, Expand(t)))
    decreases |t|
  {
    if t == [] {
      assert Paint(b, start, []) == b;
    } else {
      var u, c := t[..|t| - 1], t[|t| - 1];
      assert RankChars(u) by {
        forall k | 0 <= k < |u| ensures IsRankChar(u[k]) {
          assert u[k] == t[k];
        }
      }
      PlaceRank(u, start, b);
      var row := Expand(u);
      if IsPieceLetter(c) {
        PieceOfLetter(c);
        PaintPiece(b, start, row, LetterPiece(c));
      } else {
        PaintBlanks(b, start, row, DigitValue(c));
      }
    }
  }

  /** The squares of a rank on `FenBoard`. */
  lemma FenBoardSquare(ranks: seq<string>, r: int, f: int)
    requires |ranks| <= 8 && RankTexts(ranks) && 0 <= r < 8 && 0 <= f < 8
    ensures FenBoard(ranks)[MakeSquare(f, r)] == if 7 - r < |ranks| then Expand(ranks[7 - r])[f] else NoPiece
  {
  }

  /** One more rank text paints the next rank down. */
  lemma FenBoardStep(ranks: seq<string>, n: int)
    requires |ranks| <= 8 && RankTexts(ranks) && 0 <= n < |ranks|
    ensures Paint(FenBoard(ranks[..n]), 8 * (7 - n), Expand(ranks[n])) == FenBoard(ranks[..n + 1])
  {
    var before, after := ranks[..n], ranks[..n + 1];
    var row := Expand(ranks[n]);
    forall sq | 0 <= sq < 64
      ensures Paint(FenBoard(before), 8 * (7 - n), row)[sq] == FenBoard(after)[sq]
    {
      var r, f := RankOf(sq), FileOf(sq);
      SquareOfCoordinates(sq);
      FenBoardSquare(before, r, f);
      FenBoardSquare(after, r, f);
      if 7 - r == n {
        assert after[n] == ranks[n];
      } else if 7 - r < n {
        assert before[7 - r] == after[7 - r];
      }
    }
  }

  /** The first rank text, placed from a8 on an empty board. */
  lemma PlaceFirstRank(ranks: seq<string>)
    requires 1 <= |ranks| <= 8 && RankTexts(ranks)
    ensures Place(JoinRanks(ranks[..1]), Placing(SQ_A8, EmptyBoard())) == Placing(64, FenBoard(ranks[..1]))
  {
    assert JoinRanks(ranks[..1]) == ranks[0];
    assert IsRankText(ranks[0]);
    PlaceRank(ranks[0], SQ_A8, EmptyBoard());
    FirstRankBoard(ranks);
  }

  /** The first rank text painted on the empty board. */
  lemma FirstRankBoard(ranks: seq<string>)
    requires 1 <= |ranks| <= 8 && RankTexts(ranks)
    ensures Paint(EmptyBoard(), SQ_A8, Expand(ranks[0])) == FenBoard(ranks[..1])
  {
    NoRanksEmpty(ranks);
    FenBoardStep(ranks, 0);
  }

  /** No rank texts describe the empty board. */
  lemma NoRanksEmpty(ranks: seq<string>)
    requires RankTexts(ranks)
    ensures FenBoard(ranks[..0]) == EmptyBoard()
  {
  }

  /** A `/` and the next rank text, after `m` ranks are placed. */
  lemma PlaceNextRank(ranks: seq<string>, m: int, st: Placing)
    requires |ranks| <= 8 && RankTexts(ranks) && 1 <= m < |ranks|
    requires st == Placing(8 * (8 - m) + 8, FenBoard(ranks[..m]))
    ensures Place("/" + ranks[m], st) == Placing(8 * (7 - m) + 8, FenBoard(ranks[..m + 1]))
  {
    PlaceConcat("/", ranks[m], st);
    assert Place("/", st) == Placing(8 * (7 - m), FenBoard(ranks[..m]));
    PlaceRank(ranks[m], 8 * (7 - m), FenBoard(ranks[..m]));
    FenBoardStep(ranks, m);
  }

  /** The first `n` rank texts, joined, place `FenBoard` of them on an
      empty board and end just past rank `9 - n`. */
  lemma {:induction false} PlaceRanks(ranks: seq<string>, n: int)
    requires |ranks| <= 8 && RankTexts(ranks) && 1 <= n <= |ranks|
    ensures Place(JoinRanks(ranks[..n]), Placing(SQ_A8, EmptyBoard())) == Placing(8 * (8 - n) + 8, FenBoard(ranks[..n]))
  {
    if n == 1 {
      PlaceFirstRank(ranks);
    } else {
      PlaceRanks(ranks, n - 1);
      JoinStep(ranks, n - 1);
      var head := JoinRanks(ranks[..n - 1]);
      PlaceConcat(head, "/" + ranks[n - 1], Placing(SQ_A8, EmptyBoard()));
      PlaceNextRank(ranks, n - 1, Place(head, Placing(SQ_A8, EmptyBoard())));
    }
  }

  /** The first `m + 1` rank texts, joined, are the first `m` joined,
      a `/` and the next text. */
  lemma JoinStep(ranks: seq<string>, m: int)
    requires 1 <= m < |ranks|
    ensures JoinRanks(ranks[..m + 1]) == JoinRanks(ranks[..m]) + ("/" + ranks[m])
  {
    assert ranks[..m + 1][..m] == ranks[..m] && ranks[..m + 1][m] == ranks[m];
  }

  /** The placement field of a FEN string made of eight well-formed rank
      texts puts on the board exactly the pieces those texts describe. */
  lemma PlacementOfRanks(ranks: seq<string>)
    requires |ranks| == 8 && RankTexts(ranks)
    ensures Place(JoinRanks(ranks), Placing(SQ_A8, EmptyBoard())).board == FenBoard(ranks)
  {
    PlaceRanks(ranks, 8);
    assert ranks[..8] == ranks;
  }

  /** Rank texts and the `/` between them hold no whitespace. */
  lemma {:induction false} JoinNoSpaces(ranks: seq<string>)
    requires |ranks| > 0 && forall i :: 0 <= i < |ranks| ==> RankChars(ranks[i])
    ensures NoSpaces(JoinRanks(ranks))
    decreases |ranks|
  {
    if |ranks| > 1 {
      var init := ranks[..|ranks| - 1];
      assert forall i :: 0 <= i < |init| ==> init[i] == ranks[i];
      JoinNoSpaces(init);
      var last := ranks[|ranks| - 1];
      assert RankChars(last);
    } else {
      assert RankChars(ranks[0]);
    }
  }

  // ---------------------------------------------------------------------
  // The remaining fields of a well-formed FEN string

  predicate NoSpaces(t: string)
  {
    forall k :: 0 <= k < |t| ==> !IsSpace(t[k])
  }

  /** The en passant field: `-`, or a file letter and a rank digit. */
  predicate IsEpText(ep: string)
  {
    ep == "-" || (|ep| == 2 && 'a' <= ep[0] <= 'h' && '1' <= ep[1] <= '8')
  }

  /** The en passant square a field names: none for `-`, and none for a
      square whose rank does not fit the side to move. */
  function EpOfText(ep: string, side: Color): int
    requires IsEpText(ep)
  {
    if ep == "-" || ep[1] != EpRank(side) then SQ_NONE
    else MakeSquare(ep[0] as int - 'a' as int, ep[1] as int - '1' as int)
  }

  /** A move counter: a non-empty run of decimal digits that fits an
      `int`. */
  predicate IsCounterText(t: string)
  {
    |t| > 0 && AllDigits(t) && DigitsValue(t) <= INT_MAX
  }

  /** The colour the active colour field names. */
  function ColorOfText(c: char): Color
  {
    if c == 'w' then White else Black
  }

  /** The six fields of a FEN string separated by single spaces. */
  function FenText(ranks: seq<string>, side: char, castling: string, ep: string,
                   halfmove: string, fullmove: string): string
    requires |ranks| > 0
  {
    JoinRanks(ranks) + " " + [side] + " " + castling + " " + ep + " " + halfmove + " " + fullmove
  }

  /** A field of text `x` at `p`, followed by a whitespace, ends there. */
  lemma FieldAt(text: string, p: nat, x: string)
    requires p + |x| < |text| && IsSpace(text[p + |x|]) && NoSpaces(x)
    requires forall i :: 0 <= i < |x| ==> text[p + i] == x[i]
    ensures FieldEnd(text, p) == p + |x|
    ensures text[p..p + |x|] == x
  {
    assert forall k :: p <= k < p + |x| ==> text[k] == x[k - p];
  }

  /** The active colour field at `p` and the space after it. */
  lemma SideAt(text: string, p: nat, prev: char)
    requires p + 1 < |text| && text[p + 1] == ' '
    ensures SideField(Stream(text, p, true), prev) == (Stream(text, p + 2, true), ColorOfText(text[p]))
  {
  }

  /** A well-formed en passant field at `p` is read whole. */
  lemma EpAt(text: string, p: nat, ep: string, side: Color)
    requires IsEpText(ep) && p + |ep| <= |text|
    requires forall i :: 0 <= i < |ep| ==> text[p + i] == ep[i]
    ensures EpField(Stream(text, p, true), side) == (Stream(text, p + |ep|, true), EpOfText(ep, side))
  {
    assert text[p] == ep[0];
    if ep != "-" {
      assert text[p + 1] == ep[1];
    }
  }

  /** A space and a counter at `p` are read as the counter's value; the
      stream stays good unless the counter ends the text. */
  lemma CounterAt(text: string, p: nat, digits: string, prev: int)
    requires IsCounterText(digits) && p + 1 + |digits| <= |text| && text[p] == ' '
    requires forall i :: 0 <= i < |digits| ==> text[p + 1 + i] == digits[i]
    requires p + 1 + |digits| < |text| ==> text[p + 1 + |digits|] == ' '
    ensures ReadInt(Stream(text, p, true), prev) ==
      (Stream(text, p + 1 + |digits|, p + 1 + |digits| < |text|), DigitsValue(digits))
  {
    var q0 := SkipSpaces(text, p);
    assert text[p + 1 + 0] == digits[0];
    assert q0 == p + 1;
    assert forall k :: p + 1 <= k < p + 1 + |digits| ==> text[k] == digits[k - p - 1];
    var q := DigitsEnd(text, p + 1);
    assert q == p + 1 + |digits|;
    assert text[p + 1..q] == digits;
  }

  /** The fields a well-formed FEN string is made of. */
  predicate WellFormedFields(ranks: seq<string>, castling: string, ep: string, halfmove: string, fullmove: string)
  {
    |ranks| == 8 && RankTexts(ranks) &&
    NoSpaces(castling) && IsEpText(ep) && IsCounterText(halfmove) && IsCounterText(fullmove)
  }

  /** Where each field sits in a text of six fields separated by single
      spaces. */
  predicate LaidOut(text: string, placement: string, side: char, castling: string, ep: string,
                    halfmove: string, fullmove: string)
  {
    var a := |placement|;
    var b := a + 3 + |castling|;
    var d := b + 1 + |ep|;
    var g := d + 1 + |halfmove|;
    && |text| == g + 1 + |fullmove|
    && (forall i :: 0 <= i < a ==> text[i] == placement[i])
    && text[a] == ' ' && text[a + 1] == side && text[a + 2] == ' '
    && (forall i :: 0 <= i < |castling| ==> text[a + 3 + i] == castling[i])
    && text[b] == ' '
    && (forall i :: 0 <= i < |ep| ==> text[b + 1 + i] == ep[i])
    && text[d] == ' '
    && (forall i :: 0 <= i < |halfmove| ==> text[d + 1 + i] == halfmove[i])
    && text[g] == ' '
    && (forall i :: 0 <= i < |fullmove| ==> text[g + 1 + i] == fullmove[i])
  }

  /** The six fields joined by single spaces are laid out so. */
  lemma JoinedLaidOut(text: string, placement: string, side: char, castling: string, ep: string,
                      halfmove: string, fullmove: string)
    requires text == placement + " " + [side] + " " + castling + " " + ep + " " + halfmove + " " + fullmove
    ensures LaidOut(text, placement, side, castling, ep, halfmove, fullmove)
  {
  }

  /** A FEN string of eight well-formed rank texts, an active colour, a
      castling field, a well-formed en passant field and two counters
      decodes to the board the ranks describe, the colour named, the rights
      of the castling letters, the named en passant square when its rank
      fits the side to move, the half-move clock and the ply count of the
      full move number. */
  lemma DecodeWellFormed(ranks: seq<string>, side: char, castling: string, ep: string,
                         halfmove: string, fullmove: string)
    requires WellFormedFields(ranks, castling, ep, halfmove, fullmove)
    ensures var color := ColorOfText(side);
      DecodeFen(FenText(ranks, side, castling, ep, halfmove, fullmove)) ==
      FenFields(FenBoard(ranks), color, EpOfText(ep, color), DigitsValue(halfmove),
                PlyOf(DigitsValue(fullmove), color), Rights(castling, NO_CASTLING))
  {
    JoinedLaidOut(FenText(ranks, side, castling, ep, halfmove, fullmove), JoinRanks(ranks),
                  side, castling, ep, halfmove, fullmove);
    assert forall i :: 0 <= i < |ranks| ==> RankChars(ranks[i]);
    JoinNoSpaces(ranks);
    PlacementOfRanks(ranks);
    DecodeLaidOut(FenText(ranks, side, castling, ep, halfmove, fullmove), JoinRanks(ranks),
                  side, castling, ep, halfmove, fullmove);
  }

  /** What `set` makes of a text laid out as six fields. */
  lemma DecodeLaidOut(text: string, placement: string, side: char, castling: string, ep: string,
                      halfmove: string, fullmove: string)
    requires LaidOut(text, placement, side, castling, ep, halfmove, fullmove)
    requires NoSpaces(placement) && NoSpaces(castling) && IsEpText(ep)
    requires IsCounterText(halfmove) && IsCounterText(fullmove)
    ensures var color := ColorOfText(side);
      DecodeFen(text) ==
      FenFields(Place(placement, Placing(SQ_A8, EmptyBoard())).board, color, EpOfText(ep, color),
                DigitsValue(halfmove), PlyOf(DigitsValue(fullmove), color), Rights(castling, NO_CASTLING))
  {
    var color := ColorOfText(side);
    var a := |placement|;
    var b := a + 3 + |castling|;
    var d := b + 1 + |ep|;
    var g := d + 1 + |halfmove|;
    PlacementLaidOut(text, placement, side, castling, ep, halfmove, fullmove);
    SideLaidOut(text, placement, side, castling, ep, halfmove, fullmove);
    CastlingLaidOut(text, placement, side, castling, ep, halfmove, fullmove);
    EpLaidOut(text, placement, side, castling, ep, halfmove, fullmove);
    HalfmoveLaidOut(text, placement, side, castling, ep, halfmove, fullmove);
    FullmoveLaidOut(text, placement, side, castling, ep, halfmove, fullmove);
  }

  /** The placement field, with the space after it as its token. */
  lemma PlacementLaidOut(text: string, placement: string, side: char, castling: string, ep: string,
                      halfmove: string, fullmove: string)
    requires LaidOut(text, placement, side, castling, ep, halfmove, fullmove)
    requires NoSpaces(placement) && NoSpaces(castling) && IsEpText(ep)
    requires IsCounterText(halfmove) && IsCounterText(fullmove)
    ensures var color := ColorOfText(side);
      var a := |placement|;
      var b := a + 3 + |castling|;
      var d := b + 1 + |ep|;
      var g := d + 1 + |halfmove|;
      var s0 := Stream(text, 0, true);
      Field(s0) == placement && AfterField(s0) == Stream(text, a + 1, true) && FieldToken(s0, '\0') == ' '
  {
    var color := ColorOfText(side);
    var a := |placement|;
    var b := a + 3 + |castling|;
    var d := b + 1 + |ep|;
    var g := d + 1 + |halfmove|;
    FieldAt(text, 0, placement);
  }

  /** The active colour and the space after it. */
  lemma SideLaidOut(text: string, placement: string, side: char, castling: string, ep: string,
                      halfmove: string, fullmove: string)
    requires LaidOut(text, placement, side, castling, ep, halfmove, fullmove)
    requires NoSpaces(placement) && NoSpaces(castling) && IsEpText(ep)
    requires IsCounterText(halfmove) && IsCounterText(fullmove)
    ensures var color := ColorOfText(side);
      var a := |placement|;
      var b := a + 3 + |castling|;
      var d := b + 1 + |ep|;
      var g := d + 1 + |halfmove|;
      SideField(Stream(text, a + 1, true), ' ') == (Stream(text, a + 3, true), color)
  {
    var color := ColorOfText(side);
    var a := |placement|;
    var b := a + 3 + |castling|;
    var d := b + 1 + |ep|;
    var g := d + 1 + |halfmove|;
    SideAt(text, a + 1, ' ');
  }

  /** The castling field. */
  lemma CastlingLaidOut(text: string, placement: string, side: char, castling: string, ep: string,
                      halfmove: string, fullmove: string)
    requires LaidOut(text, placement, side, castling, ep, halfmove, fullmove)
    requires NoSpaces(placement) && NoSpaces(castling) && IsEpText(ep)
    requires IsCounterText(halfmove) && IsCounterText(fullmove)
    ensures var color := ColorOfText(side);
      var a := |placement|;
      var b := a + 3 + |castling|;
      var d := b + 1 + |ep|;
      var g := d + 1 + |halfmove|;
      Field(Stream(text, a + 3, true)) == castling && AfterField(Stream(text, a + 3, true)) == Stream(text, b + 1, true)
  {
    var color := ColorOfText(side);
    var a := |placement|;
    var b := a + 3 + |castling|;
    var d := b + 1 + |ep|;
    var g := d + 1 + |halfmove|;
    FieldAt(text, a + 3, castling);
  }

  /** The en passant field. */
  lemma EpLaidOut(text: string, placement: string, side: char, castling: string, ep: string,
                      halfmove: string, fullmove: string)
    requires LaidOut(text, placement, side, castling, ep, halfmove, fullmove)
    requires NoSpaces(placement) && NoSpaces(castling) && IsEpText(ep)
    requires IsCounterText(halfmove) && IsCounterText(fullmove)
    ensures var color := ColorOfText(side);
      var a := |placement|;
      var b := a + 3 + |castling|;
      var d := b + 1 + |ep|;
      var g := d + 1 + |halfmove|;
      EpField(Stream(text, b + 1, true), color) == (Stream(text, d, true), EpOfText(ep, color))
  {
    var color := ColorOfText(side);
    var a := |placement|;
    var b := a + 3 + |castling|;
    var d := b + 1 + |ep|;
    var g := d + 1 + |halfmove|;
    EpAt(text, b + 1, ep, color);
  }

  /** The half-move clock. */
  lemma HalfmoveLaidOut(text: string, placement: string, side: char, castling: string, ep: string,
                      halfmove: string, fullmove: string)
    requires LaidOut(text, placement, side, castling, ep, halfmove, fullmove)
    requires NoSpaces(placement) && NoSpaces(castling) && IsEpText(ep)
    requires IsCounterText(halfmove) && IsCounterText(fullmove)
    ensures var color := ColorOfText(side);
      var a := |placement|;
      var b := a + 3 + |castling|;
      var d := b + 1 + |ep|;
      var g := d + 1 + |halfmove|;
      ReadInt(Stream(text, d, true), 0) == (Stream(text, g, true), DigitsValue(halfmove))
  {
    var color := ColorOfText(side);
    var a := |placement|;
    var b := a + 3 + |castling|;
    var d := b + 1 + |ep|;
    var g := d + 1 + |halfmove|;
    CounterAt(text, d, halfmove, 0);
  }

  /** The full move number, which ends the text. */
  lemma FullmoveLaidOut(text: string, placement: string, side: char, castling: string, ep: string,
                      halfmove: string, fullmove: string)
    requires LaidOut(text, placement, side, castling, ep, halfmove, fullmove)
    requires NoSpaces(placement) && NoSpaces(castling) && IsEpText(ep)
    requires IsCounterText(halfmove) && IsCounterText(fullmove)
    ensures var color := ColorOfText(side);
      var a := |placement|;
      var b := a + 3 + |castling|;
      var d := b + 1 + |ep|;
      var g := d + 1 + |halfmove|;
      ReadInt(Stream(text, g, true), 0) == (Stream(text, |text|, false), DigitsValue(fullmove))
  {
    var color := ColorOfText(side);
    var a := |placement|;
    var b := a + 3 + |castling|;
    var d := b + 1 + |ep|;
    var g := d + 1 + |halfmove|;
    CounterAt(text, g, fullmove, 0);
  }

  // ---------------------------------------------------------------------
  // Castling rights

  predicate IsCastlingLetter(c: char)
  {
    c in "KQkq"
  }

  /** Two castling letters share a right bit exactly when they are the
      same letter; any other character has no bit. */
  lemma RightBits(d: char, c: char)
    requires IsCastlingLetter(c)
    ensures (RightOf(d) & RightOf(c) != 0) <==> d == c
  {
  }

  /** A bit is in an OR exactly when it is in one of the operands. */
  lemma OrHas(x: CastlingRights, y: CastlingRights, bit: CastlingRights)
    ensures ((x | y) & bit != 0) <==> (x & bit != 0 || y & bit != 0)
  {
  }

  /** Each right is held after the castling field exactly when it was held
      before or its letter occurs in the field. */
  lemma {:induction false} RightsHasIff(cs: string, rights: CastlingRights, c: char)
    requires IsCastlingLetter(c)
    ensures (Rights(cs, rights) & RightOf(c) != 0) <==> (rights & RightOf(c) != 0 || c in cs)
    decreases |cs|
  {
    if cs != [] {
      var init, d := cs[..|cs| - 1], cs[|cs| - 1];
      assert cs == init + [d];
      RightsHasIff(init, rights, c);
      OrHas(Rights(init, rights), RightOf(d), RightOf(c));
      RightBits(d, c);
    }
  }

  /** Rights are only OR-ed in: every bit held before is still held. */
  lemma {:induction false} RightsOnlyGrow(cs: string, rights: CastlingRights)
    ensures Rights(cs, rights) & rights == rights
    decreases |cs|
  {
    if cs != [] {
      RightsOnlyGrow(cs[..|cs| - 1], rights);
      GrowStep(Rights(cs[..|cs| - 1], rights), RightOf(cs[|cs| - 1]), rights);
    }
  }

  lemma GrowStep(x: CastlingRights, y: CastlingRights, rights: CastlingRights)
    requires x & rights == rights
    ensures (x | y) & rights == rights
  {
  }

  /** The castling field sets no bit outside the four rights. */
  lemma {:induction false} RightsWithinFour(cs: string, rights: CastlingRights)
    ensures Rights(cs, rights) & 0xF0 == rights & 0xF0
    decreases |cs|
  {
    if cs != [] {
      RightsWithinFour(cs[..|cs| - 1], rights);
      HighStep(Rights(cs[..|cs| - 1], rights), cs[|cs| - 1]);
    }
  }

  lemma HighStep(x: CastlingRights, c: char)
    ensures (x | RightOf(c)) & 0xF0 == x & 0xF0
  {
  }

  // ---------------------------------------------------------------------
  // En passant

  /** The en passant square is set exactly when a file letter and then the
      rank that fits the side to move are read; it is then on that file and
      on the sixth rank for white to move, the third for black. */
  lemma EpSquareIff(s: Stream, side: Color)
    requires InText(s)
    ensures var sq := EpField(s, side).1;
      var t := s.text;
      && (sq != SQ_NONE <==>
          s.good && s.pos + 1 < |t| && 'a' <= t[s.pos] <= 'h' && t[s.pos + 1] == EpRank(side))
      && (sq != SQ_NONE ==>
          0 <= sq < 64 && FileOf(sq) == t[s.pos] as int - 'a' as int &&
          RankOf(sq) == (if side == White then 5 else 2))
  {
  }

  // ---------------------------------------------------------------------
  // Active colour

  /** The side to move is white exactly when the character read is `w`;
      when the text has ended, the token left by the placement loop decides
      instead. */
  lemma SideIff(s: Stream, prev: char)
    requires InText(s)
    ensures s.good && s.pos < |s.text| ==> (SideField(s, prev).1 == White <==> s.text[s.pos] == 'w')
    ensures !(s.good && s.pos < |s.text|) ==> (SideField(s, prev).1 == White <==> prev == 'w')
  {
  }

  // ---------------------------------------------------------------------
  // The ply count

  /** From the first full move on, white to move is at an even ply and
      black at the odd ply after it; a full move number below 1 counts as
      1; the full move number is recovered as `ply / 2 + 1`. */
  lemma PlyOfFullmove(fullmove: int, side: Color)
    ensures fullmove >= 1 ==> PlyOf(fullmove, side) == 2 * (fullmove - 1) + (if side == Black then 1 else 0)
    ensures fullmove < 1 ==> PlyOf(fullmove, side) == PlyOf(1, side)
    ensures PlyOf(fullmove, side) % 2 == (if side == Black then 1 else 0)
    ensures fullmove >= 1 ==> PlyOf(fullmove, side) / 2 + 1 == fullmove
  {
  }

  // ---------------------------------------------------------------------
  // Fields the text does not supply

  /** Once the text is exhausted, the stream fails and every later
      extraction leaves its target as it was. */
  lemma ExhaustedReads(s: Stream, prev: char, n: int, side: Color)
    requires InText(s) && !s.good
    ensures Field(s) == [] && AfterField(s) == s
    ensures ReadChar(s, prev) == (s, false, prev)
    ensures EpField(s, side) == (s, SQ_NONE)
    ensures ReadInt(s, n) == (s, n)
  {
  }

  /** Only whitespace left: a counter read fails and keeps its value. */
  lemma BlankCounter(s: Stream, n: int)
    requires InText(s) && forall k :: s.pos <= k < |s.text| ==> IsSpace(s.text[k])
    ensures !ReadInt(s, n).0.good && ReadInt(s, n).1 == n
  {
    if s.good {
      assert SkipSpaces(s.text, s.pos) == |s.text|;
    }
  }

  /** A text holding only a placement field keeps the reset castling
      rights, en passant square and half-move clock; but the side to move
      is read from the token the placement loop left, its last character,
      so black is to move, with a ply count of 1, unless that character is
      `w`. */
  lemma PlacementOnly(fen: string)
    requires |fen| > 0 && NoSpaces(fen)
    ensures var color := ColorOfText(fen[|fen| - 1]);
      DecodeFen(fen) == FenFields(Place(fen, Placing(SQ_A8, EmptyBoard())).board, color,
                                  SQ_NONE, 0, if color == Black then 1 else 0, NO_CASTLING)
  {
    var s0 := Stream(fen, 0, true);
    assert FieldEnd(fen, 0) == |fen|;
    assert fen[0..|fen|] == fen;
    var ended := Stream(fen, |fen|, false);
    assert AfterField(s0) == ended && FieldToken(s0, '\0') == fen[|fen| - 1];
    EndedPhases(ended, fen[|fen| - 1]);
  }

  /** The phases after the placement on a failed stream: the colour comes
      from the token `prev`, and every other field keeps its reset value. */
  lemma EndedPhases(ended: Stream, prev: char)
    requires InText(ended) && !ended.good
    ensures var side := SideField(ended, prev);
      && side == (ended, ColorOfText(prev))
      && Rights(Field(side.0), NO_CASTLING) == NO_CASTLING
      && AfterField(side.0) == ended
      && EpField(ended, side.1) == (ended, SQ_NONE)
      && ReadInt(ended, 0) == (ended, 0)
      && PlyOf(0, side.1) == if side.1 == Black then 1 else 0
  {
  }

  /** A placement field of well-formed ranks is never followed by `w` as
      its last character, so a text without the active colour field sets
      black to move. */
  lemma RanksNeverEndInW(ranks: seq<string>)
    requires |ranks| > 0 && forall i :: 0 <= i < |ranks| ==> RankChars(ranks[i])
    requires |JoinRanks(ranks)| > 0
    ensures JoinRanks(ranks)[|JoinRanks(ranks)| - 1] != 'w'
  {
    var last := ranks[|ranks| - 1];
    assert RankChars(last);
    if |ranks| > 1 {
      var head := JoinRanks(ranks[..|ranks| - 1]);
      if |last| > 0 {
        assert JoinRanks(ranks)[|JoinRanks(ranks)| - 1] == last[|last| - 1];
      }
    }
  }
}
