/**
 Cell positions on the unbounded Life plane.

 A coordinate is a pair of integers in canvas units; neighbouring cells are one
 cell width apart horizontally and one cell height apart vertically. Equality is
 structural: two coordinates are the same cell exactly when both components agree.
 */
module Coordinates {

  /** Horizontal distance between neighbouring cells. */
  const CellWidth: int := 15
  /** Vertical distance between neighbouring cells. */
  const CellHeight: int := 15

  datatype Coord = Coord(x: int, y: int)

  /** The neighbour to the north: same column, one row up (y grows downwards on the canvas). */
  function N(c: Coord): (r: Coord)
    ensures r.x == c.x && r.y < c.y
  {
    Coord(c.x, c.y - CellHeight)
  }

  /** The north-east neighbour. */
  function NE(c: Coord): (r: Coord)
    ensures r.x > c.x && r.y < c.y
  {
    Coord(c.x + CellWidth, c.y - CellHeight)
  }

  /** The neighbour to the east: same row, one column right. */
  function E(c: Coord): (r: Coord)
    ensures r.x > c.x && r.y == c.y
  {
    Coord(c.x + CellWidth, c.y)
  }

  /** The south-east neighbour. */
  function SE(c: Coord): (r: Coord)
    ensures r.x > c.x && r.y > c.y
  {
    Coord(c.x + CellWidth, c.y + CellHeight)
  }

  /** The neighbour to the south: same column, one row down. */
  function S(c: Coord): (r: Coord)
    ensures r.x == c.x && r.y > c.y
  {
    Coord(c.x, c.y + CellHeight)
  }

  /** The south-west neighbour. */
  function SW(c: Coord): (r: Coord)
    ensures r.x < c.x && r.y > c.y
  {
    Coord(c.x - CellWidth, c.y + CellHeight)
  }

  /** The neighbour to the west: same row, one column left. */
  function W(c: Coord): (r: Coord)
    ensures r.x < c.x && r.y == c.y
  {
    Coord(c.x - CellWidth, c.y)
  }

  /** The north-west neighbour. */
  function NW(c: Coord): (r: Coord)
    ensures r.x < c.x && r.y < c.y
  {
    Coord(c.x - CellWidth, c.y - CellHeight)
  }

  /** `d` is one of -quantum, 0, +quantum. */
  predicate IsStep(d: int, quantum: int) {
    d == -quantum || d == 0 || d == quantum
  }

  /**
   Reference definition of adjacency, independent of the eight accessors:
   `d` differs from `c` by at most one cell on each axis and is not `c` itself.
   */
  predicate Adjacent(c: Coord, d: Coord) {
    IsStep(d.x - c.x, CellWidth) && IsStep(d.y - c.y, CellHeight) && c != d
  }

  /**
   The eight neighbours in the order north, north-east, east, south-east, south,
   south-west, west, north-west. They are pairwise distinct, none of them is `c`,
   and they are exactly the cells adjacent to `c`.
   */
  function Neighbours(c: Coord): (r: seq<Coord>)
    ensures |r| == 8
    ensures forall i, j :: 0 <= i < j < |r| ==> r[i] != r[j]
    ensures forall d :: d in r <==> Adjacent(c, d)
    ensures c !in r
  {
    [N(c), NE(c), E(c), SE(c), S(c), SW(c), W(c), NW(c)]
  }

  /**
   Each accessor yields a cell adjacent to `c`. Together with its direction, this
   fixes it to the offset of one cell width and/or height.
   */
  lemma AccessorsAdjacent(c: Coord)
    ensures Adjacent(c, N(c)) && Adjacent(c, NE(c)) && Adjacent(c, E(c)) && Adjacent(c, SE(c))
    ensures Adjacent(c, S(c)) && Adjacent(c, SW(c)) && Adjacent(c, W(c)) && Adjacent(c, NW(c))
  {
  }

  /** Neighbourhood is symmetric: every offset's opposite is also an offset. */
  lemma NeighbourSymmetric(c: Coord, d: Coord)
    requires d in Neighbours(c)
    ensures c in Neighbours(d)
  {
    assert Adjacent(c, d);
    assert Adjacent(d, c);
  }
}
