/**
 * The state the component's effect closes over, and the handlers that change
 * it: the per-frame recycling, the `keydown` speed handler, `handleClick` and
 * the arrival of the car model.
 */
module Canvas {
  import opened Dimensions
  import opened Recycler
  import opened SpeedControl
  import opened Explode
  import Terrain
  import Decorations

  /** Everything the handlers read or write. */
  datatype State = State(segments: Offsets, speed: real, car: CarState)

  /** The events that reach the closure state. */
  datatype Event =
    | KeyDown(key: string)
    | AnimationFrame
    | Click(rayHitsCar: bool)
    | CarLoaded

  /** The state right after set-up: segments at 0 and -SEG_LEN, speed 0.2, no car yet. */
  function Initial(): State {
    State(START, INITIAL_SPEED, NO_CAR)
  }

  /**
   * The effect of one event; each event touches only its own part of the state.
   * The new values are given by `OnKey`, `Recycle` and `HandleClick`, whose
   * contracts state them.
   */
  function Step(st: State, e: Event): (r: State)
    ensures e.KeyDown? ==> r.segments == st.segments && r.car == st.car
    ensures e.AnimationFrame? ==> r.speed == st.speed && r.car == st.car
    ensures e.Click? || e.CarLoaded? ==> r.segments == st.segments && r.speed == st.speed
    ensures e.CarLoaded? ==> r.car.loaded && r.car.exploded == st.car.exploded &&
                             r.car.labelVisible == st.car.labelVisible
  {
    match e
    case KeyDown(key) => st.(speed := OnKey(st.speed, key))
    case AnimationFrame => st.(segments := Recycle(st.segments, st.speed))
    case Click(rayHitsCar) => st.(car := HandleClick(st.car, rayHitsCar))
    case CarLoaded => st.(car := st.car.(loaded := true))
  }

  /** The state after a sequence of events, applied first to last. */
  function Run(st: State, events: seq<Event>): State
    decreases |events|
  {
    if events == [] then st else Step(Run(st, events[..|events| - 1]), events[|events| - 1])
  }

  /** Speed is one of the eight levels and the segments are in the steady loop. */
  ghost predicate Invariant(st: State) {
    st.speed in LEVELS && Looping(st.segments)
  }

  lemma StepPreservesInvariant(st: State, e: Event)
    requires Invariant(st)
    ensures Invariant(Step(st, e))
  {
  }

  lemma {:induction false} RunPreservesInvariant(st: State, events: seq<Event>)
    requires Invariant(st)
    ensures Invariant(Run(st, events))
    decreases |events|
  {
    if events != [] {
      var prefix := events[..|events| - 1];
      RunPreservesInvariant(st, prefix);
      StepPreservesInvariant(Run(st, prefix), events[|events| - 1]);
    }
  }

  /**
   * Whatever keys, frames and clicks arrive, the speed stays within [0, 0.7]
   * and the segments stay exactly one length apart with neither past HALF.
   */
  lemma {:induction false} ReachableStatesLoop(events: seq<Event>)
    ensures var st := Run(Initial(), events);
            && 0.0 <= st.speed <= MAX_SPEED
            && (st.segments.z1 - st.segments.z2 == LENGTH || st.segments.z2 - st.segments.z1 == LENGTH)
            && st.segments.z1 <= LIMIT && st.segments.z2 <= LIMIT
  {
    RunPreservesInvariant(Initial(), events);
    LevelsInRange(Run(Initial(), events).speed);
  }

  lemma RunAppend(st: State, events: seq<Event>, e: Event)
    ensures Run(st, events + [e]) == Step(Run(st, events), e)
  {
  }

  /** One road segment: a group at a travel-axis offset holding terrain and decorations. */
  class Segment {
    var z: real
    const terrain: array<real>
    const stripes: seq<Decorations.Mesh>
    const trees: seq<Decorations.Mesh>

    /**
     * `createRoadSegment(initialZ)`. `grid` is the flat plane's position
     * buffer as the geometry library builds it.
     */
    constructor (initialZ: real, noise: Terrain.Noise, grid: seq<real>)
      ensures z == initialZ
      ensures fresh(terrain)
      ensures terrain[..] == Terrain.Displaced(noise, grid)
      ensures Decorations.StripesPlaced(stripes)
      ensures Decorations.TreesPlaced(trees)
    {
      z := initialZ;
      var buffer := new real[|grid|](j requires 0 <= j < |grid| => grid[j]);
      assert buffer[..] == grid;
      Terrain.DisplaceTerrain(noise, buffer);
      terrain := buffer;
      var stripeGroup := Decorations.PlaceStripes();
      var treeGroup := Decorations.PlaceTrees();
      stripes, trees := stripeGroup, treeGroup;
    }
  }

  /** The closure state of the component's effect. */
  class ThreeCanvas {
    const segment1: Segment
    const segment2: Segment
    var speed: real
    var carLoaded: bool
    var exploded: bool
    var labelVisible: bool
    /** The events handled so far. */
    ghost var history: seq<Event>

    function Snapshot(): State
      reads this, segment1, segment2
    {
      State(Offsets(segment1.z, segment2.z), speed, CarState(carLoaded, exploded, labelVisible))
    }

    ghost predicate Valid()
      reads this, segment1, segment2
    {
      segment1 != segment2 && Snapshot() == Run(Initial(), history)
    }

    /** Set-up: two segments at 0 and -SEG_LEN, speed 0.2, no car, label hidden. */
    constructor (noise: Terrain.Noise, grid: seq<real>)
      ensures Valid() && history == []
      ensures fresh(segment1) && fresh(segment2)
      ensures Snapshot() == Initial()
    {
      segment1 := new Segment(0.0, noise, grid);
      segment2 := new Segment(-SEG_LEN as real, noise, grid);
      speed := INITIAL_SPEED;
      carLoaded, exploded, labelVisible := false, false, false;
      history := [];
    }

    /** The recycling part of `animate`. */
    method Tick()
      requires Valid()
      modifies this`history, segment1`z, segment2`z
      ensures Valid() && history == old(history) + [AnimationFrame]
      ensures Snapshot() == Step(old(Snapshot()), AnimationFrame)
      ensures segment1.z - segment2.z == LENGTH || segment2.z - segment1.z == LENGTH
      ensures segment1.z <= LIMIT && segment2.z <= LIMIT
    {
      segment1.z := segment1.z + speed;
      segment2.z := segment2.z + speed;
      if segment1.z > LIMIT {
        segment1.z := segment2.z - LENGTH;
      }
      if segment2.z > LIMIT {
        segment2.z := segment1.z - LENGTH;
      }
      RunAppend(Initial(), history, AnimationFrame);
      history := history + [AnimationFrame];
      ReachableStatesLoop(history);
    }

    /** The `keydown` listener. */
    method OnKeyDown(key: string)
      requires Valid()
      modifies this`history, this`speed
      ensures Valid() && history == old(history) + [KeyDown(key)]
      ensures Snapshot() == Step(old(Snapshot()), KeyDown(key))
      ensures 0.0 <= speed <= MAX_SPEED
    {
      if key == "ArrowUp" {
        speed := Min(MAX_SPEED, speed + SPEED_STEP);
      }
      if key == "ArrowDown" {
        speed := Max(0.0, speed - SPEED_STEP);
      }
      RunAppend(Initial(), history, KeyDown(key));
      history := history + [KeyDown(key)];
      ReachableStatesLoop(history);
    }

    /** `handleClick`, given whether the ray through the pointer meets the loaded car. */
    method HandleClick(rayHitsCar: bool)
      requires Valid()
      modifies this`history, this`exploded, this`labelVisible
      ensures Valid() && history == old(history) + [Click(rayHitsCar)]
      ensures Snapshot() == Step(old(Snapshot()), Click(rayHitsCar))
    {
      var hit := carLoaded && rayHitsCar;
      if hit {
        exploded := !exploded;
        labelVisible := true;
      }
      RunAppend(Initial(), history, Click(rayHitsCar));
      history := history + [Click(rayHitsCar)];
    }

    /** The loader callback assigning `carModel`. */
    method OnCarLoaded()
      requires Valid()
      modifies this`history, this`carLoaded
      ensures Valid() && history == old(history) + [CarLoaded]
      ensures Snapshot() == Step(old(Snapshot()), CarLoaded)
    {
      carLoaded := true;
      RunAppend(Initial(), history, CarLoaded);
      history := history + [CarLoaded];
    }
  }
}
