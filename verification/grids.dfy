/**
 The live-cell set owned by the grid.

 The grid's only simulation state is the set of filled (live) coordinates; the
 canvas it also owns is a rendering concern and is not modelled. Membership is
 structural, so filling a coordinate that is already live adds nothing.
 */
module Grids {
  import opened Coordinates

  datatype Grid = Grid(filledCells: set<Coord>)

  /** A grid with no live cell, as a freshly constructed grid has. */
  function Empty(): (r: Grid)
    ensures forall c :: !Filled(r, c)
  {
    Grid({})
  }

  /** `filled?`: the cell is live, so the live set is not empty. */
  predicate Filled(g: Grid, c: Coord)
    ensures Filled(g, c) ==> |g.filledCells| >= 1
  {
    c in g.filledCells
  }

  /** The complement of `Filled`, for every coordinate. */
  predicate Unfilled(g: Grid, c: Coord)
    ensures Unfilled(g, c) <==> !Filled(g, c)
  {
    c !in g.filledCells
  }

  /**
   Marks `c` live. Idempotent: filling a live cell changes neither the set nor its
   size, and no other coordinate changes either way.
   */
  function FillCell(g: Grid, c: Coord): (r: Grid)
    ensures Filled(r, c)
    ensures forall d :: d != c ==> (Filled(r, d) <==> Filled(g, d))
    ensures Filled(g, c) ==> r == g
    ensures |r.filledCells| == if Filled(g, c) then |g.filledCells| else |g.filledCells| + 1
  {
    Grid(g.filledCells + {c})
  }

  /**
   Marks `c` dead. Unfilling a dead cell is a no-op, and no other coordinate
   changes either way.
   */
  function UnfillCell(g: Grid, c: Coord): (r: Grid)
    ensures Unfilled(r, c)
    ensures forall d :: d != c ==> (Filled(r, d) <==> Filled(g, d))
    ensures Unfilled(g, c) ==> r == g
    ensures |r.filledCells| == if Filled(g, c) then |g.filledCells| - 1 else |g.filledCells|
  {
    Grid(g.filledCells - {c})
  }

  /** Fills each coordinate of `cs` in order: the result's live cells are the old ones plus those of `cs`. */
  function FillCells(g: Grid, cs: seq<Coord>): (r: Grid)
    ensures forall d :: Filled(r, d) <==> Filled(g, d) || d in cs
    decreases |cs|
  {
    if |cs| == 0 then g
    else
      var r := FillCells(FillCell(g, cs[0]), cs[1..]);
      assert forall d :: d in cs <==> d == cs[0] || d in cs[1..];
      r
  }

  /** Unfills each coordinate of `cs` in order: the result's live cells are the old ones minus those of `cs`. */
  function UnfillCells(g: Grid, cs: seq<Coord>): (r: Grid)
    ensures forall d :: Filled(r, d) <==> Filled(g, d) && d !in cs
    decreases |cs|
  {
    if |cs| == 0 then g
    else
      var r := UnfillCells(UnfillCell(g, cs[0]), cs[1..]);
      assert forall d :: d in cs <==> d == cs[0] || d in cs[1..];
      r
  }

  /** `s` lists every element of `cells` exactly once. */
  ghost predicate Enumerates(s: seq<Coord>, cells: set<Coord>) {
    && (forall i, j :: 0 <= i < j < |s| ==> s[i] != s[j])
    && (forall c :: c in s <==> c in cells)
  }

  /** Lists the elements of `cells`, each exactly once, in an unspecified order. */
  method ToSeq(cells: set<Coord>) returns (s: seq<Coord>)
    ensures Enumerates(s, cells)
    ensures |s| == |cells|
  {
    s := [];
    var rest := cells;
    while rest != {}
      invariant rest !! (set c | c in s)
      invariant forall c :: c in s || c in rest <==> c in cells
      invariant forall i, j :: 0 <= i < j < |s| ==> s[i] != s[j]
      invariant |s| + |rest| == |cells|
      decreases |rest|
    {
      var c :| c in rest;
      s := s + [c];
      rest := rest - {c};
    }
  }

  /**
   The live cells as a fresh sequence (`live_cells.to_a` in `GOL#reset_cells`),
   so that callers can iterate over a snapshot while mutating the grid.
   */
  method LiveCells(g: Grid) returns (s: seq<Coord>)
    ensures Enumerates(s, g.filledCells)
    ensures |s| == |g.filledCells|
  {
    s := ToSeq(g.filledCells);
  }

  /** Unfilling every entry of a snapshot of the live cells leaves the grid empty. */
  lemma UnfillSnapshotEmpties(g: Grid, snapshot: seq<Coord>)
    requires Enumerates(snapshot, g.filledCells)
    ensures UnfillCells(g, snapshot) == Empty()
  {
    var r := UnfillCells(g, snapshot);
    assert r.filledCells == {} by {
      forall d | d in r.filledCells
        ensures false
      {
        assert Filled(r, d);
      }
    }
  }
}
