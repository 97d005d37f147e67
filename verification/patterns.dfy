/**
 Known small patterns under `Life.Step`: the blinker (the first built-in preset)
 oscillates with period two, the block is a still life, and an L-tromino
 completes to a block in one generation.
 */
module Patterns {
  import opened Coordinates
  import opened Grids
  import Life
  import Gol

  /** 1 for a live cell, 0 for a dead one. */
  function Live(g: Grid, c: Coord): nat {
    if Filled(g, c) then 1 else 0
  }

  /** The live-neighbour count written out over the eight accessors. */
  function CountAround(g: Grid, c: Coord): nat {
    Live(g, N(c)) + Live(g, NE(c)) + Live(g, E(c)) + Live(g, SE(c))
      + Live(g, S(c)) + Live(g, SW(c)) + Live(g, W(c)) + Live(g, NW(c))
  }

  /** Whether the rules make `c` live in the generation after `g`, judged by `CountAround`. */
  predicate LiveNext(g: Grid, c: Coord) {
    (Filled(g, c) && 2 <= CountAround(g, c) <= 3) || (Unfilled(g, c) && CountAround(g, c) == 3)
  }

  lemma CountFilledUnfold(g: Grid, cs: seq<Coord>, k: nat)
    requires k < |cs|
    ensures Life.CountFilled(g, cs[k..]) == Live(g, cs[k]) + Life.CountFilled(g, cs[k + 1..])
  {
    assert cs[k..][1..] == cs[k + 1..];
  }

  /** Counting the live entries of an eight-entry list, written out term by term. */
  lemma CountEight(g: Grid, cs: seq<Coord>)
    requires |cs| == 8
    ensures Life.CountFilled(g, cs) == Live(g, cs[0]) + Live(g, cs[1]) + Live(g, cs[2]) + Live(g, cs[3])
      + Live(g, cs[4]) + Live(g, cs[5]) + Live(g, cs[6]) + Live(g, cs[7])
  {
    CountFilledUnfold(g, cs, 0);
    CountFilledUnfold(g, cs, 1);
    CountFilledUnfold(g, cs, 2);
    CountFilledUnfold(g, cs, 3);
    CountFilledUnfold(g, cs, 4);
    CountFilledUnfold(g, cs, 5);
    CountFilledUnfold(g, cs, 6);
    CountFilledUnfold(g, cs, 7);
    assert cs[0..] == cs;
    assert cs[8..] == [];
  }

  /** The neighbour count used by the step is the written-out sum. */
  lemma LiveNeighboursExpanded(g: Grid, c: Coord)
    ensures Life.LiveNeighbours(g, c) == CountAround(g, c)
  {
    CountEight(g, Neighbours(c));
  }

  /** If the written-out rules single out exactly `expected`, the step yields exactly `expected`. */
  lemma StepIs(g: Grid, expected: set<Coord>)
    requires forall c :: LiveNext(g, c) <==> c in expected
    ensures Life.Step(g) == Grid(expected)
  {
    var r := Life.Step(g);
    forall c
      ensures c in r.filledCells <==> c in expected
    {
      LiveNeighboursExpanded(g, c);
      assert Filled(r, c) <==> LiveNext(g, c);
    }
  }

  /** The first built-in preset: three cells in a row. */
  function BlinkerHorizontal(): set<Coord> {
    {Coord(270, 135), Coord(285, 135), Coord(300, 135)}
  }

  /** The blinker turned a quarter: three cells in a column through the same centre. */
  function BlinkerVertical(): set<Coord> {
    {Coord(285, 120), Coord(285, 135), Coord(285, 150)}
  }

  function Block(): set<Coord> {
    {Coord(0, 0), Coord(15, 0), Coord(0, 15), Coord(15, 15)}
  }

  /** A block missing its south-east cell. */
  function LTromino(): set<Coord> {
    {Coord(0, 0), Coord(15, 0), Coord(0, 15)}
  }

  lemma HorizontalRule(g: Grid, c: Coord)
    requires g == Grid(BlinkerHorizontal())
    ensures LiveNext(g, c) <==> c in BlinkerVertical()
  {
  }

  lemma VerticalRule(g: Grid, c: Coord)
    requires g == Grid(BlinkerVertical())
    ensures LiveNext(g, c) <==> c in BlinkerHorizontal()
  {
  }

  lemma BlockRule(g: Grid, c: Coord)
    requires g == Grid(Block())
    ensures LiveNext(g, c) <==> c in Block()
  {
  }

  lemma LTrominoRule(g: Grid, c: Coord)
    requires g == Grid(LTromino())
    ensures LiveNext(g, c) <==> c in Block()
  {
  }

  /** A row of three becomes a column of three after one step. */
  lemma BlinkerTurns(g: Grid)
    requires g == Grid(BlinkerHorizontal())
    ensures Life.Step(g) == Grid(BlinkerVertical())
  {
    forall c
      ensures LiveNext(g, c) <==> c in BlinkerVertical()
    {
      HorizontalRule(g, c);
    }
    StepIs(g, BlinkerVertical());
  }

  /** A column of three becomes a row of three after one step. */
  lemma BlinkerTurnsBack(g: Grid)
    requires g == Grid(BlinkerVertical())
    ensures Life.Step(g) == Grid(BlinkerHorizontal())
  {
    forall c
      ensures LiveNext(g, c) <==> c in BlinkerHorizontal()
    {
      VerticalRule(g, c);
    }
    StepIs(g, BlinkerHorizontal());
  }

  /** The block is a still life. */
  lemma BlockIsStill(g: Grid)
    requires g == Grid(Block())
    ensures Life.Step(g) == g
  {
    forall c
      ensures LiveNext(g, c) <==> c in Block()
    {
      BlockRule(g, c);
    }
    StepIs(g, Block());
  }

  /** Three cells of a block give birth to the fourth, and none of them dies. */
  lemma LTrominoBecomesBlock(g: Grid)
    requires g == Grid(LTromino())
    ensures Life.Step(g) == Grid(Block())
  {
    forall c
      ensures LiveNext(g, c) <==> c in Block()
    {
      LTrominoRule(g, c);
    }
    StepIs(g, Block());
  }

  /** The first entry of the built-in presets, as the cell list `load_preset` fills. */
  function BlinkerPreset(): (r: seq<Coord>)
    ensures forall c :: c in r <==> c in BlinkerHorizontal()
  {
    [Coord(270, 135), Coord(285, 135), Coord(300, 135)]
  }

  /**
   Loading the blinker preset and stepping twice brings back its cells, at
   generation two, whatever state the simulation was in.
   */
  lemma BlinkerPresetPeriodTwo(s: Gol.Simulation)
    ensures Gol.Step(Gol.Step(Gol.LoadPreset(s, BlinkerPreset()))).grid == Grid(BlinkerHorizontal())
    ensures Gol.Step(Gol.Step(Gol.LoadPreset(s, BlinkerPreset()))).currentGeneration == 2
  {
    var loaded := Gol.LoadPreset(s, BlinkerPreset());
    assert loaded.grid.filledCells == BlinkerHorizontal();
    BlinkerTurns(loaded.grid);
    BlinkerTurnsBack(Gol.Step(loaded).grid);
  }
}
