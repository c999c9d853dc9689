/** Cursor movement over the board: one step per arrow key, wrapping around at the edges. */
module Navigation {
  import opened Fields

  /** The keys the game tells apart: the four arrows, the confirm key (space) and every other key. */
  datatype Key = Up | Down | Left | Right | Confirm | Other {
    predicate IsArrow() {
      Up? || Down? || Left? || Right?
    }
  }

  /**
   * The position one step from currentPosition in direction side. Up and Down move the row,
   * Left and Right the column; a step off an edge lands on the opposite edge.
   */
  function MoveSelection(currentPosition: (int, int), side: Key): (r: (int, int))
    requires InBounds(currentPosition) && side.IsArrow()
    ensures InBounds(r)
    ensures side.Up? || side.Down? ==> r.1 == currentPosition.1
    ensures side.Left? || side.Right? ==> r.0 == currentPosition.0
    ensures side.Up? ==> r.0 - 1 == (currentPosition.0 - 2) % 3
    ensures side.Down? ==> r.0 - 1 == currentPosition.0 % 3
    ensures side.Left? ==> r.1 - 1 == (currentPosition.1 - 2) % 3
    ensures side.Right? ==> r.1 - 1 == currentPosition.1 % 3
  {
    var (row, col) := currentPosition;
    match side
    case Up => (if row - 1 == 0 then 3 else row - 1, col)
    case Down => (if row + 1 == 4 then 1 else row + 1, col)
    case Left => (row, if col - 1 == 0 then 3 else col - 1)
    case Right => (row, if col + 1 == 4 then 1 else col + 1)
  }

  /** The arrow pointing the other way. */
  function Opposite(side: Key): (r: Key)
    requires side.IsArrow()
    ensures r.IsArrow() && r != side
  {
    match side
    case Up => Down
    case Down => Up
    case Left => Right
    case Right => Left
  }

  /** A step followed by a step back returns to the start. */
  lemma MoveUndone(pos: (int, int), side: Key)
    requires InBounds(pos) && side.IsArrow()
    ensures MoveSelection(MoveSelection(pos, side), Opposite(side)) == pos
  {
  }

  /** Three steps in one direction go once around the board and back. */
  lemma MoveCycle(pos: (int, int), side: Key)
    requires InBounds(pos) && side.IsArrow()
    ensures MoveSelection(MoveSelection(MoveSelection(pos, side), side), side) == pos
  {
  }

  /** Stepping off an edge lands on the opposite edge of the same line. */
  lemma EdgesWrap(row: int, col: int)
    requires InBounds((row, col))
    ensures MoveSelection((1, col), Up) == (3, col)
    ensures MoveSelection((3, col), Down) == (1, col)
    ensures MoveSelection((row, 1), Left) == (row, 3)
    ensures MoveSelection((row, 3), Right) == (row, 1)
  {
  }
}
