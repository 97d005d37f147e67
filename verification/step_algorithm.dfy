/**
 The generation step as `GOL#step` in app/conway.rb performs it: snapshot the live cells, select
 the three rule lists by counting live neighbours in the untouched grid, build
 the birth candidates by walking each live cell's neighbours, and only then
 unfill and fill cell by cell. The result is the pure `Life.Step`.
 */
module StepAlgorithm {
  import opened Coordinates
  import opened Grids
  import Life

  /** The selection predicates of rules 1, 3 and 4, by live-neighbour count. */
  datatype Rule = Underpopulation | Overpopulation | Reproduction

  predicate Selects(rule: Rule, count: nat) {
    match rule
    case Underpopulation => count < 2
    case Overpopulation => count > 3
    case Reproduction => count == 3
  }

  /** The cells of `cells` whose live-neighbour count in `g` the rule selects, in their order. */
  ghost function Filter(g: Grid, cells: seq<Coord>, rule: Rule): seq<Coord> {
    if |cells| == 0 then []
    else
      var last := cells[|cells| - 1];
      Filter(g, cells[..|cells| - 1], rule) + (if Selects(rule, Life.LiveNeighbours(g, last)) then [last] else [])
  }

  /** Filtering a list extended by one cell extends the filtered list by that cell when it is selected. */
  lemma FilterAppend(g: Grid, cells: seq<Coord>, c: Coord, rule: Rule)
    ensures Filter(g, cells + [c], rule)
      == Filter(g, cells, rule) + (if Selects(rule, Life.LiveNeighbours(g, c)) then [c] else [])
  {
    assert (cells + [c])[..|cells|] == cells;
  }

  /** The filtered list holds exactly the selected cells of `cells`, and is no longer than it. */
  lemma {:induction false} FilterMembers(g: Grid, cells: seq<Coord>, rule: Rule)
    ensures forall c :: c in Filter(g, cells, rule) <==> c in cells && Selects(rule, Life.LiveNeighbours(g, c))
    ensures |Filter(g, cells, rule)| <= |cells|
    decreases |cells|
  {
    if |cells| > 0 {
      var init := cells[..|cells| - 1];
      FilterMembers(g, init, rule);
      assert cells == init + [cells[|cells| - 1]];
    }
  }

  /** Keeps the cells of `cells` whose live-neighbour count in `g` the rule selects, in order. */
  method Select(g: Grid, cells: seq<Coord>, rule: Rule) returns (r: seq<Coord>)
    ensures r == Filter(g, cells, rule)
    ensures forall c :: c in r <==> c in cells && Selects(rule, Life.LiveNeighbours(g, c))
    ensures |r| <= |cells|
  {
    r := [];
    var k := 0;
    while k < |cells|
      invariant 0 <= k <= |cells|
      invariant r == Filter(g, cells[..k], rule)
    {
      var c := cells[k];
      FilterAppend(g, cells[..k], c, rule);
      assert cells[..k + 1] == cells[..k] + [c];
      if Selects(rule, Life.LiveNeighbours(g, c)) {
        r := r + [c];
      }
      k := k + 1;
    }
    assert cells[..k] == cells;
    FilterMembers(g, cells, rule);
  }

  /** The dead neighbours of the live cells `live[..k]`. */
  ghost function FrontierOf(g: Grid, live: seq<Coord>): set<Coord> {
    set l, d | l in live && d in Neighbours(l) && Unfilled(g, d) :: d
  }

  /**
   Collects the dead neighbours of every live cell into one set, walking a
   snapshot of the live cells and, for each, its eight neighbours.
   */
  method CollectBirthCandidates(g: Grid) returns (candidates: set<Coord>)
    ensures candidates == Life.DeadCellsNeighbouringWithLiveCells(g)
  {
    var live := LiveCells(g);
    candidates := {};
    var k := 0;
    while k < |live|
      invariant 0 <= k <= |live|
      invariant candidates == FrontierOf(g, live[..k])
    {
      var ns := Neighbours(live[k]);
      var j := 0;
      while j < |ns|
        invariant 0 <= j <= |ns|
        invariant forall c :: c in candidates <==>
          c in FrontierOf(g, live[..k]) || (c in ns[..j] && Unfilled(g, c))
      {
        if Unfilled(g, ns[j]) {
          candidates := candidates + {ns[j]};
        }
        assert ns[..j + 1] == ns[..j] + [ns[j]];
        j := j + 1;
      }
      assert ns[..j] == ns;
      assert live[..k + 1] == live[..k] + [live[k]];
      assert candidates == FrontierOf(g, live[..k + 1]) by {
        forall c
          ensures c in candidates <==> c in FrontierOf(g, live[..k + 1])
        {
          if c in FrontierOf(g, live[..k + 1]) {
            var l :| l in live[..k + 1] && c in Neighbours(l) && Unfilled(g, c);
            if l != live[k] {
              assert l in live[..k];
            }
          }
        }
      }
      k := k + 1;
    }
    assert live[..k] == live;
    assert candidates == Life.DeadCellsNeighbouringWithLiveCells(g) by {
      forall c
        ensures c in candidates <==> c in Life.DeadCellsNeighbouringWithLiveCells(g)
      {
        if c in Life.DeadCellsNeighbouringWithLiveCells(g) {
          var l :| l in g.filledCells && c in Neighbours(l) && Unfilled(g, c);
          assert l in live;
        }
      }
    }
  }

  /**
   One generation, computed as `GOL#step` does: all three rule lists against
   the pre-step grid, then the deaths, then the births. Agrees with `Life.Step`.
   */
  method StepInPlace(g: Grid) returns (r: Grid)
    ensures r == Life.Step(g)
  {
    var live := LiveCells(g);
    var rule1 := Select(g, live, Underpopulation);
    var rule3 := Select(g, live, Overpopulation);
    var candidateSet := CollectBirthCandidates(g);
    var candidates := ToSeq(candidateSet);
    var rule4 := Select(g, candidates, Reproduction);

    var afterRule1 := UnfillCells(g, rule1);
    var afterRule3 := UnfillCells(afterRule1, rule3);
    r := FillCells(afterRule3, rule4);

    var next := Life.Step(g);
    forall c
      ensures c in r.filledCells <==> c in next.filledCells
    {
      var n := Life.LiveNeighbours(g, c);
      assert Filled(r, c) <==> (Filled(g, c) && c !in rule1 && c !in rule3) || c in rule4;
      assert c in rule4 <==> Unfilled(g, c) && n == 3;
      assert Filled(g, c) ==> (c in rule1 <==> n < 2) && (c in rule3 <==> n > 3);
      assert Filled(next, c) <==> (Filled(g, c) && 2 <= n <= 3) || (Unfilled(g, c) && n == 3);
    }
    assert r.filledCells == next.filledCells;
  }
}
