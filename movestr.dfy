/** Matching a move typed as text ("e2e4", "e7e8q") against the generated
    move list: the shared rule of `ParseMove` (src/main.cpp) and
    `Uci::parseMove` (src/uci.h). The text's first four characters name the
    from and to squares; a promotion is accepted only when the character
    after them names its piece. */
module MoveMatch {
  import opened Types

  predicate IsFileChar(ch: char)
  {
    'a' <= ch <= 'h'
  }

  predicate IsRankChar(ch: char)
  {
    '1' <= ch <= '8'
  }

  /** The first four characters name two squares. */
  predicate SquaresValid(str: string)
  {
    |str| >= 4 && IsFileChar(str[0]) && IsRankChar(str[1]) && IsFileChar(str[2]) && IsRankChar(str[3])
  }

  /** The square named by the file character `f` and the rank character `r`:
      `MakeSquare(File(f - 'a'), Rank(r - '1'))`. */
  function SquareOfChars(f: char, r: char): Square
    requires IsFileChar(f) && IsRankChar(r)
  {
    MakeSquare(f as int - 'a' as int, r as int - '1' as int)
  }

  function FromOf(str: string): Square
    requires SquaresValid(str)
  {
    SquareOfChars(str[0], str[1])
  }

  function ToOf(str: string): Square
    requires SquaresValid(str)
  {
    SquareOfChars(str[2], str[3])
  }

  /** `str[4]`: the fifth character, or the terminating `'\0'` of a
      four-character `std::string`. Where the source has no terminator to
      read (a `std::string_view` of four characters), the caller's
      precondition ensures no promotion has the text's squares, so the
      letter does not decide the result. */
  function FifthChar(str: string): char
  {
    if |str| > 4 then str[4] else '\0'
  }

  /** Whether the promotion letter `letter` names the piece type `k`. */
  predicate PromotionLetterNames(k: PieceType, letter: char)
  {
    (k == Knight && letter == 'n') || (k == Rook && letter == 'r')
    || (k == Bishop && letter == 'b') || (k == Queen && letter == 'q')
  }

  /** Whether `m` is a move the text selects: its squares are `from` and
      `to`, and when it is a promotion its piece is the one `letter` names. */
  predicate Accepts(m: Move, from: Square, to: Square, letter: char)
  {
    m.Move? && m.from == from && m.to == to
    && (m.kind.Promotion? ==> PromotionLetterNames(m.kind.promo, letter))
  }

  /** The first move of `list` the text selects, or `Move::none()`. */
  function FirstMatch(list: seq<Move>, from: Square, to: Square, letter: char): Move
  {
    if |list| == 0 then NoMove
    else if Accepts(list[0], from, to, letter) then list[0]
    else FirstMatch(list[1..], from, to, letter)
  }

  /** The scan shared by both parsers: walks the list in order, returns the
      first move with the right squares unless it is a promotion to another
      piece, which it skips, and returns `Move::none()` at the end. */
  method FindMatch(list: seq<Move>, from: Square, to: Square, letter: char) returns (m: Move)
    ensures m == FirstMatch(list, from, to, letter)
  {
    var i := 0;
    while i < |list|
      invariant 0 <= i <= |list|
      invariant FirstMatch(list[i..], from, to, letter) == FirstMatch(list, from, to, letter)
    {
      assert list[i..][1..] == list[i + 1..];
      var move := list[i];
      if move.Move? && move.from == from && move.to == to {
        if move.kind.Promotion? {
          var pieceType := move.kind.promo;
          if (pieceType == Knight && letter == 'n') || (pieceType == Rook && letter == 'r')
            || (pieceType == Bishop && letter == 'b') || (pieceType == Queen && letter == 'q')
          {
            return move;
          }
          i := i + 1;
          continue;
        }
        return move;
      }
      i := i + 1;
    }
    return NoMove;
  }

  /** The generated list of a fresh, empty move list. */
  lemma EmptyThen(s: seq<Move>)
    ensures [] + s == s
  {
  }

  // ---------------------------------------------------------------------
  // What the match finds

  /** `FirstMatch` is the earliest selected entry: when it is a move, it is
      selected and sits at an index before which nothing is selected; when
      it is `Move::none()`, nothing in the list is selected. */
  lemma {:induction false} FirstMatchIsEarliest(list: seq<Move>, from: Square, to: Square, letter: char)
    ensures FirstMatch(list, from, to, letter) == NoMove ==>
      forall j :: 0 <= j < |list| ==> !Accepts(list[j], from, to, letter)
    ensures FirstMatch(list, from, to, letter) != NoMove ==>
      exists i :: 0 <= i < |list| && list[i] == FirstMatch(list, from, to, letter)
        && Accepts(list[i], from, to, letter)
        && forall j :: 0 <= j < i ==> !Accepts(list[j], from, to, letter)
  {
    if |list| > 0 && !Accepts(list[0], from, to, letter) {
      var rest := list[1..];
      FirstMatchIsEarliest(rest, from, to, letter);
      assert forall j :: 1 <= j < |list| ==> list[j] == rest[j - 1];
      if FirstMatch(rest, from, to, letter) != NoMove {
        var i :| 0 <= i < |rest| && rest[i] == FirstMatch(rest, from, to, letter)
          && Accepts(rest[i], from, to, letter)
          && forall j :: 0 <= j < i ==> !Accepts(rest[j], from, to, letter);
        assert list[i + 1] == FirstMatch(list, from, to, letter);
        assert forall j :: 0 <= j < i + 1 ==> !Accepts(list[j], from, to, letter) by {
          forall j | 0 <= j < i + 1
            ensures !Accepts(list[j], from, to, letter)
          {
            if j > 0 {
              assert list[j] == rest[j - 1];
            }
          }
        }
      }
    } else if |list| > 0 {
      assert list[0] == FirstMatch(list, from, to, letter);
    }
  }

  /** A result other than `Move::none()` has the parsed from and to squares
      and, if a promotion, the piece the letter names. */
  lemma MatchHasSquares(list: seq<Move>, from: Square, to: Square, letter: char)
    ensures FirstMatch(list, from, to, letter) != NoMove ==>
      Accepts(FirstMatch(list, from, to, letter), from, to, letter)
      && FirstMatch(list, from, to, letter) in list
  {
    FirstMatchIsEarliest(list, from, to, letter);
  }

  /** Without a promotion letter (the `'\0'` that ends a four-character
      string), no promotion is ever returned. */
  lemma {:induction false} NoLetterNoPromotion(list: seq<Move>, from: Square, to: Square)
    ensures FirstMatch(list, from, to, '\0').Move? ==> !FirstMatch(list, from, to, '\0').kind.Promotion?
  {
    MatchHasSquares(list, from, to, '\0');
  }

  /** Whether some promotion in `list` goes from `from` to `to`. */
  predicate PromotionBetween(list: seq<Move>, from: Square, to: Square)
  {
    exists j :: 0 <= j < |list| && list[j].Move? && list[j].from == from && list[j].to == to
      && list[j].kind.Promotion?
  }

  /** When no promotion has the parsed squares, the letter plays no part:
      a matching non-promotion is returned whatever follows the squares. */
  lemma {:induction false} LetterIrrelevantWithoutPromotion(list: seq<Move>, from: Square, to: Square, l1: char, l2: char)
    requires !PromotionBetween(list, from, to)
    ensures FirstMatch(list, from, to, l1) == FirstMatch(list, from, to, l2)
    decreases |list|
  {
    if |list| > 0 {
      var rest := list[1..];
      LetterIrrelevantWithoutPromotion(rest, from, to, l1, l2);
      assert !(list[0].Move? && list[0].from == from && list[0].to == to && list[0].kind.Promotion?);
    }
  }

  // ---------------------------------------------------------------------
  // Square names

  /** The two-character name of a square, file letter then rank digit. */
  function SquareName(sq: Square): (name: string)
    ensures |name| == 2 && IsFileChar(name[0]) && IsRankChar(name[1])
  {
    [('a' as int + FileOf(sq)) as char, ('1' as int + RankOf(sq)) as char]
  }

  /** Decoding a square's name gives the square back. */
  lemma SquareNameRoundTrip(sq: Square)
    ensures SquareOfChars(SquareName(sq)[0], SquareName(sq)[1]) == sq
  {
    SquareOfCoordinates(sq);
  }

  /** Every pair of file and rank characters is some square's name. */
  lemma SquareCharsRoundTrip(f: char, r: char)
    requires IsFileChar(f) && IsRankChar(r)
    ensures SquareName(SquareOfChars(f, r)) == [f, r]
  {
  }

  /** The decoded squares of a move text are those its two names give. */
  lemma MoveTextRoundTrip(from: Square, to: Square, suffix: string)
    ensures SquaresValid(SquareName(from) + SquareName(to) + suffix)
    ensures FromOf(SquareName(from) + SquareName(to) + suffix) == from
    ensures ToOf(SquareName(from) + SquareName(to) + suffix) == to
  {
    var s := SquareName(from) + SquareName(to) + suffix;
    assert s[0] == SquareName(from)[0] && s[1] == SquareName(from)[1];
    assert s[2] == SquareName(to)[0] && s[3] == SquareName(to)[1];
    SquareNameRoundTrip(from);
    SquareNameRoundTrip(to);
  }

  /** Two texts with valid squares decode to the same squares only when
      their first four characters agree. */
  lemma DecodeInjective(s: string, t: string)
    requires SquaresValid(s) && SquaresValid(t)
    requires FromOf(s) == FromOf(t) && ToOf(s) == ToOf(t)
    ensures s[..4] == t[..4]
  {
    SquareCharsInjective(s[0], s[1], t[0], t[1]);
    SquareCharsInjective(s[2], s[3], t[2], t[3]);
    assert s[..4] == [s[0], s[1], s[2], s[3]];
    assert t[..4] == [t[0], t[1], t[2], t[3]];
  }

  /** Different file or rank characters name different squares. */
  lemma SquareCharsInjective(f: char, r: char, f': char, r': char)
    requires IsFileChar(f) && IsRankChar(r) && IsFileChar(f') && IsRankChar(r')
    requires SquareOfChars(f, r) == SquareOfChars(f', r')
    ensures f == f' && r == r'
  {
    SquareCharsRoundTrip(f, r);
    SquareCharsRoundTrip(f', r');
  }
}

/** The console's move input of src/main.cpp: the validator `IsMoveStr`
    and `ParseMove`, which picks the typed move out of the generated list. */
module MoveInput {
  import opened Types
  import opened MoveGen
  import opened MoveMatch

  predicate IsPromoChar(ch: char)
  {
    ch == 'q' || ch == 'r' || ch == 'b' || ch == 'n'
  }

  /** `IsMoveStr(str)`: four or five characters, two square names, different
      squares, and a fifth character, if any, naming a promotion piece. */
  function IsMoveStr(str: string): (ok: bool)
    ensures ok <==> (|str| == 4 || |str| == 5) && SquaresValid(str) && FromOf(str) != ToOf(str)
                    && (|str| == 5 ==> IsPromoChar(str[4]))
  {
    if |str| != 4 && |str| != 5 then false
    else if !IsFileChar(str[0]) || !IsRankChar(str[1]) || !IsFileChar(str[2]) || !IsRankChar(str[3]) then false
    else if str[0] == str[2] && str[1] == str[3] then false
    else if |str| == 5 && !IsPromoChar(str[4]) then false
    else
      DistinctNamesDistinctSquares(str[0], str[1], str[2], str[3]);
      true
  }

  /** Two different square names name different squares. */
  lemma DistinctNamesDistinctSquares(f: char, r: char, f': char, r': char)
    requires IsFileChar(f) && IsRankChar(r) && IsFileChar(f') && IsRankChar(r')
    requires f != f' || r != r'
    ensures SquareOfChars(f, r) != SquareOfChars(f', r')
  {
    if SquareOfChars(f, r) == SquareOfChars(f', r') {
      SquareCharsInjective(f, r, f', r');
    }
  }

  /** The strings `IsMoveStr` accepts are exactly the texts made of two
      different square names and an optional promotion letter. */
  lemma IsMoveStrIff(from: Square, to: Square, suffix: string)
    requires |suffix| <= 1
    ensures IsMoveStr(SquareName(from) + SquareName(to) + suffix)
      <==> from != to && (|suffix| == 1 ==> IsPromoChar(suffix[0]))
  {
    var s := SquareName(from) + SquareName(to) + suffix;
    MoveTextRoundTrip(from, to, suffix);
    assert s[0] == SquareName(from)[0] && s[1] == SquareName(from)[1];
    assert s[2] == SquareName(to)[0] && s[3] == SquareName(to)[1];
    if |suffix| == 1 {
      assert s[4] == suffix[0];
    }
  }

  /** Every accepted string is such a text: its squares are valid and
      different, and it is their names followed by at most one letter. */
  lemma IsMoveStrShape(str: string)
    requires IsMoveStr(str)
    ensures SquaresValid(str) && FromOf(str) != ToOf(str)
    ensures str == SquareName(FromOf(str)) + SquareName(ToOf(str)) + str[4..]
    ensures |str| == 5 ==> IsPromoChar(str[4])
  {
    SquareCharsRoundTrip(str[0], str[1]);
    SquareCharsRoundTrip(str[2], str[3]);
  }

  /** `ParseMove(str, board)`: the first generated move that the text
      selects, or `Move::none()`. */
  method ParseMove(str: string, b: Board) returns (m: Move)
    requires SquaresValid(str)
    requires MoveGen.Valid(b) && PawnsCanAdvance(b)
    requires |str| == 4 ==> !PromotionBetween(PseudoMoves(b), FromOf(str), ToOf(str))
    ensures m == FirstMatch(PseudoMoves(b), FromOf(str), ToOf(str), FifthChar(str))
  {
    var from := SquareOfChars(str[0], str[1]);
    var to := SquareOfChars(str[2], str[3]);
    var list := new MoveList();
    GeneratePseudoMoves(b, list);
    EmptyThen(PseudoMoves(b));
    m := FindMatch(list.moves, from, to, FifthChar(str));
  }
}
