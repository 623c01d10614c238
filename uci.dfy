/** `Uci::parseMove` of src/uci.h: the move named by a text, among the
    generated moves. Its string is a `std::string`, so for a four-character
    text the character after the squares is the terminating `'\0'`. The
    generator it calls, `ChessCpp::MoveGen::generate_pseudo_moves`, is not
    part of this model, so the generated list is a parameter. */
module Uci {
  import opened Types
  import opened MoveMatch

  /** `parseMove(str, board)`, given the list `generated` that
      `generate_pseudo_moves(board, list)` fills in: the earliest generated
      move with the decoded squares that is not a promotion to a piece other
      than the one `str[4]` names, or `Move::none()`. */
  method ParseMove(str: string, generated: seq<Move>) returns (m: Move)
    requires SquaresValid(str)
    ensures m == FirstMatch(generated, FromOf(str), ToOf(str), FifthChar(str))
  {
    var from := SquareOfChars(str[0], str[1]);
    var to := SquareOfChars(str[2], str[3]);
    m := FindMatch(generated, from, to, FifthChar(str));
  }

  /** A four-character text never selects a promotion. */
  lemma FourCharsNoPromotion(str: string, generated: seq<Move>)
    requires SquaresValid(str) && |str| == 4
    ensures FirstMatch(generated, FromOf(str), ToOf(str), FifthChar(str)).Move? ==>
      !FirstMatch(generated, FromOf(str), ToOf(str), FifthChar(str)).kind.Promotion?
  {
    NoLetterNoPromotion(generated, FromOf(str), ToOf(str));
  }
}
