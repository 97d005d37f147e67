/**
 The simulation object: a grid, a generation counter, and the run/stop machinery.

 The periodic timer is an optional handle recording the period it was started
 with; the notifications the simulation raises for its observers are appended
 to an event log. Every operation is total.
 */
module Gol {
  import opened Coordinates
  import opened Grids
  import Life

  /** Step times below this floor are refused. */
  const MinStepTime: int := 30
  /** The step time of a fresh simulation. */
  const InitialStepTime: int := 500

  datatype Status = Stopped | Running

  /** The handle of an active periodic timer, with the period it ticks at. */
  datatype Interval = Interval(period: int)

  datatype Option<T> = None | Some(value: T)

  /** The notifications raised for observers: 'start', 'stop', 'reset' and 'change'. */
  datatype Event = StartEvent | StopEvent | ResetEvent | ChangeEvent

  datatype Simulation = Simulation(
    grid: Grid,
    currentGeneration: nat,
    status: Status,
    stepTime: int,
    interval: Option<Interval>,
    events: seq<Event>)

  /**
   The simulation is running exactly when a timer handle exists, the active timer
   ticks at the current step time, and the step time respects the floor.
   */
  predicate Valid(s: Simulation) {
    && (s.status == Running <==> s.interval.Some?)
    && (s.interval.Some? ==> s.interval.value.period == s.stepTime)
    && s.stepTime >= MinStepTime
  }

  /** Everything except the timer state and the event log is as in `s`. */
  predicate SameCellsAndTiming(s: Simulation, r: Simulation) {
    r.grid == s.grid && r.currentGeneration == s.currentGeneration && r.stepTime == s.stepTime
  }

  /** A fresh simulation: no live cell, generation 0, stopped, default step time. */
  function Init(): (r: Simulation)
    ensures Valid(r)
    ensures r.status == Stopped && r.currentGeneration == 0 && r.events == []
    ensures r.stepTime == InitialStepTime && r.interval == None
    ensures forall c :: Unfilled(r.grid, c)
  {
    Simulation(Empty(), 0, Stopped, InitialStepTime, None, [])
  }

  /**
   Starts the periodic timer at the current step time, unless a timer handle
   already exists, in which case nothing changes.
   */
  function Start(s: Simulation): (r: Simulation)
    ensures s.interval.Some? ==> r == s
    ensures s.interval.None? ==>
      && r.status == Running
      && r.interval == Some(Interval(s.stepTime))
      && r.events == s.events + [StartEvent]
      && SameCellsAndTiming(s, r)
    ensures Valid(s) ==> Valid(r)
  {
    if s.interval.Some? then s
    else s.(interval := Some(Interval(s.stepTime)), status := Running, events := s.events + [StartEvent])
  }

  /** Cancels the periodic timer, unless there is none, in which case nothing changes. */
  function Stop(s: Simulation): (r: Simulation)
    ensures s.interval.None? ==> r == s
    ensures s.interval.Some? ==>
      && r.status == Stopped
      && r.interval == None
      && r.events == s.events + [StopEvent]
      && SameCellsAndTiming(s, r)
    ensures Valid(s) ==> Valid(r)
  {
    if s.interval.None? then s
    else s.(interval := None, status := Stopped, events := s.events + [StopEvent])
  }

  /** Kills every live cell and sets the generation back to 0; the timer is left alone. */
  function ResetCells(s: Simulation): (r: Simulation)
    ensures forall c :: Unfilled(r.grid, c)
    ensures r.currentGeneration == 0
    ensures r.events == s.events + [ResetEvent]
    ensures r.status == s.status && r.interval == s.interval && r.stepTime == s.stepTime
    ensures Valid(s) ==> Valid(r)
  {
    s.(grid := Empty(), currentGeneration := 0, events := s.events + [ResetEvent])
  }

  /** Stops the timer, then clears the cells and the generation counter. */
  function Reset(s: Simulation): (r: Simulation)
    ensures r.interval == None
    ensures Valid(s) ==> r.status == Stopped
    ensures forall c :: Unfilled(r.grid, c)
    ensures r.currentGeneration == 0 && r.stepTime == s.stepTime
    ensures r.events == s.events + (if s.interval.Some? then [StopEvent, ResetEvent] else [ResetEvent])
    ensures Valid(s) ==> Valid(r)
  {
    ResetCells(Stop(s))
  }

  /**
   Changes the step time. A value below the floor is ignored. Otherwise a running
   simulation is stopped and restarted so that its timer ticks at the new step
   time; a stopped one only records it.
   */
  function SetStepTime(s: Simulation, stepTime: int): (r: Simulation)
    ensures stepTime < MinStepTime ==> r == s
    ensures stepTime >= MinStepTime ==>
      && r.stepTime == stepTime
      && r.status == s.status
      && r.grid == s.grid
      && r.currentGeneration == s.currentGeneration
    ensures stepTime >= MinStepTime && s.status == Running && s.interval.Some? ==>
      && r.interval == Some(Interval(stepTime))
      && r.events == s.events + [StopEvent, StartEvent]
    ensures stepTime >= MinStepTime && s.status == Stopped ==>
      r.interval == s.interval && r.events == s.events
    ensures Valid(s) ==> Valid(r)
  {
    if stepTime < MinStepTime then s
    else
      var status := s.status;
      var stopped := if status == Running then Stop(s) else s;
      var updated := stopped.(stepTime := stepTime);
      if status == Running then Start(updated) else updated
  }

  /**
   Advances one generation: the grid becomes `Life.Step` of the old grid, the
   counter goes up by exactly one, and a 'change' notification is raised.
   */
  function Step(s: Simulation): (r: Simulation)
    ensures forall c :: Filled(r.grid, c) <==>
      (Filled(s.grid, c) && 2 <= Life.LiveNeighbours(s.grid, c) <= 3)
      || (Unfilled(s.grid, c) && Life.LiveNeighbours(s.grid, c) == 3)
    ensures r.currentGeneration == s.currentGeneration + 1
    ensures r.events == s.events + [ChangeEvent]
    ensures r.status == s.status && r.interval == s.interval && r.stepTime == s.stepTime
    ensures Valid(s) ==> Valid(r)
  {
    s.(grid := Life.Step(s.grid), currentGeneration := s.currentGeneration + 1,
       events := s.events + [ChangeEvent])
  }

  /**
   Clears the cells and the generation counter, then fills the preset's cells.
   The live cells are then exactly the preset's; the timer is left alone.
   */
  function LoadPreset(s: Simulation, preset: seq<Coord>): (r: Simulation)
    ensures forall c :: Filled(r.grid, c) <==> c in preset
    ensures r.currentGeneration == 0
    ensures r.events == s.events + [ResetEvent]
    ensures r.status == s.status && r.interval == s.interval && r.stepTime == s.stepTime
    ensures Valid(s) ==> Valid(r)
  {
    var cleared := ResetCells(s);
    cleared.(grid := FillCells(cleared.grid, preset))
  }

  /** Starting twice has the effect of starting once: at most one timer is ever active. */
  lemma StartIdempotent(s: Simulation)
    ensures Start(Start(s)) == Start(s)
  {
  }

  /** Stopping twice has the effect of stopping once, with a single 'stop' notification. */
  lemma StopIdempotent(s: Simulation)
    ensures Stop(Stop(s)) == Stop(s)
  {
  }

  /** Stopping a started simulation restores it, apart from the two notifications. */
  lemma StartThenStop(s: Simulation)
    requires Valid(s) && s.status == Stopped
    ensures Stop(Start(s)) == s.(events := s.events + [StartEvent, StopEvent])
  {
  }

  /** Resetting a reset simulation changes nothing but raises one more 'reset'. */
  lemma ResetTwice(s: Simulation)
    ensures Reset(Reset(s)) == Reset(s).(events := Reset(s).events + [ResetEvent])
  {
  }
}
