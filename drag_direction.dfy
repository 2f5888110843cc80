/**
 * Semantic drag direction (`useDragDirection`): horizontal movement takes
 * precedence; the direction depends only on the latest update.
 */
module DragDirection {
  import opened Wrappers
  import opened DragTypes

  /** The direction named by a delta pair, characterised case by case. */
  function Classify(dx: real, dy: real): (r: Option<Direction>)
    ensures r == Some(Right) <==> dx > 0.0
    ensures r == Some(Left) <==> dx < 0.0
    ensures r == Some(Bottom) <==> dx == 0.0 && dy > 0.0
    ensures r == Some(Top) <==> dx == 0.0 && dy < 0.0
    ensures r == None <==> dx == 0.0 && dy == 0.0
  {
    if dx != 0.0 then Some(if dx > 0.0 then Right else Left)
    else if dy != 0.0 then Some(if dy > 0.0 then Bottom else Top)
    else None
  }

  class DirectionTracker {
    var direction: Option<Direction>

    constructor ()
      ensures direction == None
    {
      direction := None;
    }

    /** `update(dx, dy)`: the new direction does not depend on the previous one. */
    method Update(dx: real, dy: real)
      modifies this
      ensures direction == Classify(dx, dy)
    {
      if dx != 0.0 {
        direction := Some(if dx > 0.0 then Right else Left);
      } else if dy != 0.0 {
        direction := Some(if dy > 0.0 then Bottom else Top);
      } else {
        direction := None;
      }
    }

    method Reset()
      modifies this
      ensures direction == None
    {
      direction := None;
    }
  }
}
