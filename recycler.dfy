/**
 * The seamless-recycling step of the animation loop: both segments advance by
 * the current speed, then segment 1 and after it segment 2 are moved behind the
 * other one if they have passed HALF.
 */
module Recycler {
  import opened Dimensions

  /** The travel-axis offsets (`position.z`) of segment 1 and segment 2. */
  datatype Offsets = Offsets(z1: real, z2: real)

  const LENGTH: real := SEG_LEN as real
  const LIMIT: real := HALF as real

  /** The offsets of the two segments at scene set-up. */
  const START: Offsets := Offsets(0.0, -LENGTH)

  /** The two segments lie exactly one segment length apart. */
  ghost predicate Spaced(o: Offsets) {
    o.z1 - o.z2 == LENGTH || o.z2 - o.z1 == LENGTH
  }

  /** The offset of the segment further along the travel axis. */
  function Leader(o: Offsets): real {
    Max(o.z1, o.z2)
  }

  /**
   * The steady state of the loop: spaced one length apart, neither past HALF,
   * and the leading segment beyond -HALF.
   */
  ghost predicate Looping(o: Offsets) {
    Spaced(o) && o.z1 <= LIMIT && o.z2 <= LIMIT && Leader(o) > -LIMIT
  }

  /** Segment 1 is moved in this tick: its advanced offset is strictly past HALF. */
  predicate RecyclesFirst(o: Offsets, speed: real) {
    o.z1 + speed > LIMIT
  }

  /** Segment 2 is moved in this tick. */
  predicate RecyclesSecond(o: Offsets, speed: real) {
    o.z2 + speed > LIMIT
  }

  /** True when the road plane of a segment at offset `z` spans the point `p` of the travel axis. */
  predicate Covers(z: real, p: real) {
    z - LIMIT <= p <= z + LIMIT
  }

  /**
   * One tick. Segment 1 is checked first against the advanced offset of
   * segment 2; segment 2 is then checked against segment 1's offset as it
   * stands after segment 1's own check.
   */
  function Recycle(o: Offsets, speed: real): (r: Offsets)
    // the spacing survives a tick at any speed, and any recycling restores it
    ensures Spaced(o) || RecyclesFirst(o, speed) || RecyclesSecond(o, speed) ==> Spaced(r)
    // within the speed bound the steady state is kept and at most one segment moves
    ensures Looping(o) && 0.0 <= speed <= LENGTH ==>
              Looping(r) && !(RecyclesFirst(o, speed) && RecyclesSecond(o, speed))
    // a segment that is not recycled is exactly advanced by the speed
    ensures !RecyclesFirst(o, speed) ==> r.z1 == o.z1 + speed
    ensures !RecyclesSecond(o, speed) ==> r.z2 == o.z2 + speed
    // with the scene standing still nothing moves
    ensures speed == 0.0 && o.z1 <= LIMIT && o.z2 <= LIMIT ==> r == o
  {
    var z1 := o.z1 + speed;
    var z2 := o.z2 + speed;
    var z1' := if z1 > LIMIT then z2 - LENGTH else z1;
    var z2' := if z2 > LIMIT then z1' - LENGTH else z2;
    Offsets(z1', z2')
  }

  /** The trigger is strict: a segment that lands exactly on HALF stays there. */
  lemma TriggerIsStrict(o: Offsets, speed: real)
    ensures o.z1 + speed == LIMIT ==> Recycle(o, speed).z1 == LIMIT
    ensures o.z2 + speed == LIMIT ==> Recycle(o, speed).z2 == LIMIT
  {
  }

  /** A recycled segment lands exactly one length behind the other segment's new offset. */
  lemma RecycledLandsBehind(o: Offsets, speed: real)
    ensures RecyclesFirst(o, speed) ==> Recycle(o, speed).z1 == o.z2 + speed - LENGTH
    ensures RecyclesSecond(o, speed) ==> Recycle(o, speed).z2 == Recycle(o, speed).z1 - LENGTH
  {
  }

  /**
   * In the steady state the two road planes abut without gap or overlap, and
   * together they span the stretch from the car (z = 0) one segment length ahead.
   */
  lemma RoadAheadCovered(o: Offsets, p: real)
    requires Looping(o)
    requires -LENGTH <= p <= 0.0
    ensures Covers(o.z1, p) || Covers(o.z2, p)
    ensures Max(o.z1, o.z2) - LIMIT == Min(o.z1, o.z2) + LIMIT
  {
  }

  /**
   * Reference tick that evaluates both triggers on the advanced offsets taken
   * before either segment is moved.
   */
  function RecycleFromSnapshot(o: Offsets, speed: real): (r: Offsets)
    ensures !RecyclesFirst(o, speed) && !RecyclesSecond(o, speed) ==> r == Offsets(o.z1 + speed, o.z2 + speed)
  {
    var z1 := o.z1 + speed;
    var z2 := o.z2 + speed;
    Offsets(if z1 > LIMIT then z2 - LENGTH else z1, if z2 > LIMIT then z1 - LENGTH else z2)
  }

  /** In the steady state and within the speed bound the evaluation order does not matter. */
  lemma OrderImmaterialInLoop(o: Offsets, speed: real)
    requires Looping(o)
    requires 0.0 <= speed <= LENGTH
    ensures Recycle(o, speed) == RecycleFromSnapshot(o, speed)
  {
  }

  /**
   * Beyond the speed bound both segments can pass HALF in one tick; then the
   * order used by the component still brings both back within HALF, and the
   * snapshot order leaves segment 2 past it.
   */
  lemma OrderMattersBeyondBound()
    ensures Recycle(START, 500.0) == Offsets(100.0, -100.0)
    ensures RecycleFromSnapshot(START, 500.0) == Offsets(100.0, 300.0)
    ensures RecycleFromSnapshot(START, 500.0).z2 > LIMIT
  {
  }
}
