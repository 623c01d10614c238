/** The static evaluation of src/evaluate.cpp: the material balance, seen
    from the side to move. */
module Evaluation {
  import opened Types

  /** The board's `material[WHITE]` and `material[BLACK]`. */
  datatype Material = Material(white: int, black: int)

  /** `evaluate(board)`: the material difference multiplied by the side to
      move's perspective (+1 for white, -1 for black). */
  function Evaluate(material: Material, sideToMove: Color): (score: int)
    ensures score == if sideToMove == White then material.white - material.black
                     else material.black - material.white
  {
    var perspective := if sideToMove == White then 1 else -1;
    (material.white - material.black) * perspective
  }

  /** The score is what the side to move has over its opponent. */
  lemma EvaluateIsOwnMinusTheirs(material: Material, sideToMove: Color)
    ensures sideToMove == White ==> Evaluate(material, sideToMove) == material.white - material.black
    ensures sideToMove == Black ==> Evaluate(material, sideToMove) == material.black - material.white
  {
  }

  /** Handing the move to the other side, material unchanged, negates the
      score. */
  lemma EvaluateFlip(material: Material, sideToMove: Color)
    ensures Evaluate(material, Opp(sideToMove)) == -Evaluate(material, sideToMove)
  {
  }

  /** The score is zero exactly when the material is level. */
  lemma EvaluateZero(material: Material, sideToMove: Color)
    ensures Evaluate(material, sideToMove) == 0 <==> material.white == material.black
  {
  }

  /** Colour symmetry: swapping the two sides' material and the side to move
      leaves the score unchanged. */
  lemma EvaluateMirror(material: Material, sideToMove: Color)
    ensures Evaluate(Material(material.black, material.white), Opp(sideToMove)) == Evaluate(material, sideToMove)
  {
  }
}
