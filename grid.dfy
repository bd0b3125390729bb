/** Integer grid coordinates (Unity's Vector2Int) and the knight offsets the player moves by. */
module Grid {

  datatype Coord = Coord(x: int, y: int)

  function Add(a: Coord, b: Coord): Coord {
    Coord(a.x + b.x, a.y + b.y)
  }

  function Sub(a: Coord, b: Coord): Coord {
    Coord(a.x - b.x, a.y - b.y)
  }

  /** The eight moves a knight can make, in the order of the source's table. */
  const KnightMoves: seq<Coord> :=
    [Coord(1, 2), Coord(2, 1), Coord(1, -2), Coord(2, -1),
     Coord(-1, 2), Coord(-2, 1), Coord(-1, -2), Coord(-2, -1)]

  predicate IsKnightMove(d: Coord) {
    d in KnightMoves
  }

  function Abs(n: int): nat {
    if n < 0 then -n else n
  }

  /** An independent description of the table: one coordinate moves by one, the other by two. */
  lemma KnightMoveShape(d: Coord)
    ensures IsKnightMove(d) <==> (Abs(d.x) == 1 && Abs(d.y) == 2) || (Abs(d.x) == 2 && Abs(d.y) == 1)
  {
  }

  /** The table has no zero move and no repeated entry. */
  lemma KnightMovesDistinctNonZero()
    ensures !IsKnightMove(Coord(0, 0))
    ensures forall i, j :: 0 <= i < j < |KnightMoves| ==> KnightMoves[i] != KnightMoves[j]
  {
  }
}
