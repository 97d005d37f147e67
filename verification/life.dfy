/**
 One generation of Conway's Game of Life, as a pure function of the live cells
 at the start of the step.

 All three rule lists (under-population deaths, over-population deaths, births)
 are judged against the same pre-step grid; only afterwards are they applied.
 */
module Life {
  import opened Coordinates
  import opened Grids

  /** How many entries of `cs` are live in `g`. */
  function CountFilled(g: Grid, cs: seq<Coord>): (n: nat)
    ensures n <= |cs|
    ensures n == 0 <==> forall i :: 0 <= i < |cs| ==> Unfilled(g, cs[i])
  {
    if |cs| == 0 then 0
    else (if Filled(g, cs[0]) then 1 else 0) + CountFilled(g, cs[1..])
  }

  /** The live cells adjacent to `c`: the reference for neighbour counting. */
  ghost function LiveAdjacent(g: Grid, c: Coord): set<Coord> {
    set d | d in g.filledCells && Adjacent(c, d)
  }

  /** Number of live cells among the eight neighbours of `c`. */
  function LiveNeighbours(g: Grid, c: Coord): (n: nat)
    ensures n <= 8
  {
    CountFilled(g, Neighbours(c))
  }

  /** Counting over a duplicate-free sequence is the size of its live part. */
  lemma {:induction false} CountFilledIsCardinality(g: Grid, cs: seq<Coord>)
    requires forall i, j :: 0 <= i < j < |cs| ==> cs[i] != cs[j]
    ensures CountFilled(g, cs) == |set d | d in cs && Filled(g, d)|
    decreases |cs|
  {
    var live := set d | d in cs && Filled(g, d);
    if |cs| == 0 {
      assert live == {};
    } else {
      var tail := cs[1..];
      var liveTail := set d | d in tail && Filled(g, d);
      CountFilledIsCardinality(g, tail);
      assert cs[0] !in tail;
      if Filled(g, cs[0]) {
        assert live == liveTail + {cs[0]};
      } else {
        assert live == liveTail;
      }
    }
  }

  /** The neighbour count is the number of live cells adjacent to `c`. */
  lemma LiveNeighboursCountsAdjacent(g: Grid, c: Coord)
    ensures LiveNeighbours(g, c) == |LiveAdjacent(g, c)|
  {
    CountFilledIsCardinality(g, Neighbours(c));
    assert (set d | d in Neighbours(c) && Filled(g, d)) == LiveAdjacent(g, c);
  }

  /** `c` has at least one live neighbour exactly when its neighbour count is positive. */
  lemma HasLiveNeighbour(g: Grid, c: Coord)
    ensures LiveNeighbours(g, c) > 0 <==> exists d :: Filled(g, d) && Adjacent(c, d)
  {
    var ns := Neighbours(c);
    if LiveNeighbours(g, c) > 0 {
      var i :| 0 <= i < |ns| && Filled(g, ns[i]);
      assert Adjacent(c, ns[i]);
    }
    if d :| Filled(g, d) && Adjacent(c, d) {
      assert d in ns;
      var i :| 0 <= i < |ns| && ns[i] == d;
      assert !Unfilled(g, ns[i]);
    }
  }

  /**
   The dead cells next to at least one live cell: the only candidates for birth.
   A set, so each candidate appears once however many live cells it touches.
   */
  function DeadCellsNeighbouringWithLiveCells(g: Grid): (r: set<Coord>)
    ensures forall c :: c in r <==> Unfilled(g, c) && LiveNeighbours(g, c) > 0
  {
    var r := set l, d | l in g.filledCells && d in Neighbours(l) && Unfilled(g, d) :: d;
    assert forall c :: c in r <==> Unfilled(g, c) && LiveNeighbours(g, c) > 0 by {
      forall c
        ensures c in r <==> Unfilled(g, c) && LiveNeighbours(g, c) > 0
      {
        HasLiveNeighbour(g, c);
        if Unfilled(g, c) && LiveNeighbours(g, c) > 0 {
          var l :| Filled(g, l) && Adjacent(c, l);
          assert c in Neighbours(l);
        }
        if c in r {
          var l :| l in g.filledCells && c in Neighbours(l) && Unfilled(g, c);
          NeighbourSymmetric(l, c);
        }
      }
    }
    r
  }

  /**
   Rule 1, under-population: live cells with fewer than two live neighbours.
   A live cell escapes it exactly when it has at least two.
   */
  function Rule1Cells(g: Grid): (r: set<Coord>)
    ensures r <= g.filledCells
    ensures forall c :: Filled(g, c) ==> (c !in r <==> LiveNeighbours(g, c) >= 2)
  {
    set c | c in g.filledCells && LiveNeighbours(g, c) < 2
  }

  /**
   Rule 3, over-population: live cells with more than three live neighbours.
   No cell is caught by both rule 1 and rule 3.
   */
  function Rule3Cells(g: Grid): (r: set<Coord>)
    ensures r <= g.filledCells
    ensures r !! Rule1Cells(g)
    ensures forall c :: Filled(g, c) ==> (c !in r <==> LiveNeighbours(g, c) <= 3)
  {
    set c | c in g.filledCells && LiveNeighbours(g, c) > 3
  }

  /**
   Rule 4, reproduction: birth candidates with exactly three live neighbours.
   Looking only at the candidates misses no dead cell with three live neighbours.
   */
  function Rule4Cells(g: Grid): (r: set<Coord>)
    ensures r !! g.filledCells
    ensures forall c :: c in r <==> Unfilled(g, c) && LiveNeighbours(g, c) == 3
  {
    set c | c in DeadCellsNeighbouringWithLiveCells(g) && LiveNeighbours(g, c) == 3
  }

  /**
   The next generation: the rule 1 and rule 3 cells die, the rule 4 cells are
   born, every rule judged against `g`. A cell is live afterwards exactly when it
   was live with two or three live neighbours, or dead with exactly three.
   */
  function Step(g: Grid): (r: Grid)
    ensures forall c :: Filled(r, c) <==>
      (Filled(g, c) && 2 <= LiveNeighbours(g, c) <= 3) || (Unfilled(g, c) && LiveNeighbours(g, c) == 3)
  {
    Grid((g.filledCells - Rule1Cells(g) - Rule3Cells(g)) + Rule4Cells(g))
  }

  /** A dead cell with no live neighbour stays dead. */
  lemma IsolatedDeadCellStaysDead(g: Grid, c: Coord)
    requires Unfilled(g, c)
    requires forall d :: Filled(g, d) ==> !Adjacent(c, d)
    ensures Unfilled(Step(g), c)
  {
    HasLiveNeighbour(g, c);
  }

  /** Stepping only ever adds cells within one cell of a live one. */
  lemma StepStaysNearLiveCells(g: Grid, c: Coord)
    ensures Filled(Step(g), c) ==> Filled(g, c) || exists d :: Filled(g, d) && Adjacent(c, d)
  {
    HasLiveNeighbour(g, c);
  }
}
