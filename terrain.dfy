/**
 * The terrain displacement of `createRoadSegment`: every vertex of the ground
 * plane gets a height from two octaves of noise, clamped below the road.
 */
module Terrain {
  import opened Dimensions

  /** The noise field: opaque and total, with no range assumed. */
  type Noise = (real, real, real) -> real

  /** Scale from world coordinates to noise coordinates. */
  const SCALE: real := 0.05
  /** Weight of the second, doubled-frequency octave. */
  const DETAIL_WEIGHT: real := 0.3
  /** Third noise coordinate of the second octave (the first octave uses 0). */
  const DETAIL_PHASE: real := 10.0
  /** The clamp: terrain never rises above this height. */
  const ROAD_CLEARANCE: real := -0.2

  /** The unclamped two-octave height at plane coordinates (x, y). */
  function Layered(noise: Noise, x: real, y: real): real {
    noise(x * SCALE, y * SCALE, 0.0) * 1.0 + noise(x * SCALE * 2.0, y * SCALE * 2.0, DETAIL_PHASE) * DETAIL_WEIGHT
  }

  /** The height written into a vertex: the layered noise, clamped at ROAD_CLEARANCE. */
  function Height(noise: Noise, x: real, y: real): (h: real)
    ensures h <= ROAD_CLEARANCE
    ensures h <= Layered(noise, x, y)
    ensures h == ROAD_CLEARANCE || h == Layered(noise, x, y)
  {
    Min(Layered(noise, x, y), ROAD_CLEARANCE)
  }

  // A position buffer holds three numbers per vertex (x, y, z), vertex i at 3i .. 3i+2.

  /** Number of whole vertices in a position buffer. */
  function VertexCount(s: seq<real>): nat {
    |s| / 3
  }

  function GetX(s: seq<real>, i: nat): real
    requires i < VertexCount(s)
  {
    s[3 * i]
  }

  function GetY(s: seq<real>, i: nat): real
    requires i < VertexCount(s)
  {
    s[3 * i + 1]
  }

  function GetZ(s: seq<real>, i: nat): real
    requires i < VertexCount(s)
  {
    s[3 * i + 2]
  }

  /** The buffer after displacement: each z slot replaced by the height at its vertex's (x, y). */
  function Displaced(noise: Noise, s: seq<real>): (r: seq<real>)
    ensures |r| == |s|
    ensures forall i: nat :: i < VertexCount(s) ==>
              GetX(r, i) == GetX(s, i) && GetY(r, i) == GetY(s, i) &&
              GetZ(r, i) == Height(noise, GetX(s, i), GetY(s, i))
    ensures forall i: nat :: i < VertexCount(s) ==> GetZ(r, i) <= ROAD_CLEARANCE
    ensures forall j :: 3 * VertexCount(s) <= j < |s| ==> r[j] == s[j]
  {
    seq(|s|, j requires 0 <= j < |s| => if j % 3 == 2 then Height(noise, s[j - 2], s[j - 1]) else s[j])
  }

  /** The vertex loop, writing the heights into the buffer in place. */
  method DisplaceTerrain(noise: Noise, position: array<real>)
    modifies position
    ensures position[..] == Displaced(noise, old(position[..]))
  {
    var count := position.Length / 3;
    var i := 0;
    while i < count
      invariant 0 <= i <= count
      invariant forall j :: 0 <= j < position.Length ==>
                  position[j] == if j % 3 == 2 && j / 3 < i
                                 then Height(noise, old(position[j - 2]), old(position[j - 1]))
                                 else old(position[j])
    {
      var x := position[3 * i];
      var y0 := position[3 * i + 1];
      position[3 * i + 2] := Height(noise, x, y0);
      i := i + 1;
    }
    assert forall j :: 0 <= j < position.Length && j % 3 == 2 ==> j / 3 < count;
  }
}
