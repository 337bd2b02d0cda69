# Looping road scene: recycler, speed control, terrain, decorations, click toggle

This project models the logic inside the portfolio's `ThreeCanvas` component, a React/Three.js
scene. The scene shows a car driving down an endless road. Almost all of the component sets up
the rendering library. The parts with behaviour of their own are modelled and proved here:

- **Segment recycler**: two road segments start at z = 0 and z = −SEG_LEN. Each animation frame
  both advance by `speed`. Segment 1 is then checked, then segment 2. A segment whose offset is
  strictly greater than HALF is moved to the other segment's offset minus SEG_LEN.
- **Speed controller**: the `keydown` listener. ArrowUp adds 0.1 and caps at 0.7. ArrowDown
  subtracts 0.1 and floors at 0. Any other key does nothing.
- **Terrain displacement**: `createRoadSegment` walks the position buffer of the ground plane. It
  writes into each vertex's z `min(n1 + 0.3·n2, −0.2)`, where n1 and n2 are two octaves of noise.
- **Decoration placement**: lane stripes every 5 units over [−HALF, HALF) and a mirrored pair of
  trees every 10 units.
- **Click toggle**: `handleClick`. A ray hit on the loaded car flips `exploded` and shows the
  resume label. A miss, or a click before the car has loaded, changes nothing.

Layout:
- `dimensions.dfy` (module `Dimensions`): SEG_LEN, HALF, `Math.min` and `Math.max`.
- `recycler.dfy` (`Recycler`): the tick as a function on the two offsets, and its invariants.
- `speed.dfy` (`SpeedControl`): the key handler as a function, and the closed set of speeds.
- `terrain.dfy` (`Terrain`): the height formula, the displaced buffer, and the in-place loop over
  an `array<real>`.
- `decorations.dfy` (`Decorations`): the stripe and tree loops as methods that return the meshes
  added to each group.
- `explode.dfy` (`Explode`): the click outcome.
- `canvas.dfy` (`Canvas`): the closure state as the class `ThreeCanvas`, one `Segment` class per
  road group, the events that reach the state (key, frame, click, model arrival), and the
  reachability invariant over any sequence of events. The class keeps a ghost history of the
  events it has handled. `Valid()` ties its fields to the state obtained by running that history
  from the initial state.

Numbers are idealised. JavaScript computes in IEEE doubles, and the position buffer stores 32-bit
floats. The model uses exact `real` arithmetic for speeds, offsets and heights. For example, in the
model 0.2 + 0.1 is exactly 0.3. SEG_LEN, HALF and the decoration loop counters take only integer
values in the component, which doubles represent exactly, so they are `int`. No result that depends on
accumulating many frames is claimed.

External inputs are parameters:
- The noise field (`ImprovedNoise.noise`) is a total function `(real, real, real) -> real`. Nothing
  is assumed about its range, so the terrain bound holds for any noise.
- The ground plane's initial vertex buffer is built by the geometry library. It is passed to the
  `Segment` constructor.
- Whether the ray through the pointer meets the car is a boolean argument of the click handler.

Details of the code that the model keeps:
- The tick moves segment 1 relative to segment 2's advanced offset. It then moves segment 2
  relative to segment 1's offset after segment 1's check.
- `Math.min` lets a terrain height equal −0.2.
- Nothing assumes a range for the noise.

Two further results go beyond a single call:
- `Recycler.Recycle` keeps the spacing at any speed. Within 0 ≤ speed ≤ SEG_LEN it also keeps both
  offsets at or below HALF, with the leading segment above −HALF.
- `Canvas.ReachableStatesLoop` shows that every state reached from set-up keeps these facts,
  whatever keys, frames and clicks arrive in whatever order.

## Model

| member | source | states |
|---|---|---|
| `Dimensions.Min` | src/components/ThreeCanvas.jsx:91 | `Math.min` returns a value no larger than either argument, and that value is one of them |
| `Dimensions.Max` | src/components/ThreeCanvas.jsx:244 | `Math.max` returns a value no smaller than either argument, and that value is one of them |
| `Recycler.Recycle` | src/components/ThreeCanvas.jsx:321-330 | after a tick the offsets are exactly SEG_LEN apart if they were before or if either segment was recycled, at any speed; from the steady state with 0 ≤ speed ≤ SEG_LEN the steady state is kept (both ≤ HALF, leader > −HALF) and at most one segment is recycled; a segment not recycled is advanced by exactly the speed; at speed 0 below HALF nothing moves |
| `Recycler.TriggerIsStrict` | src/components/ThreeCanvas.jsx:325-330 | a segment whose advanced offset equals HALF exactly is not moved |
| `Recycler.RecycledLandsBehind` | src/components/ThreeCanvas.jsx:325-330 | a recycled segment 1 lands SEG_LEN behind segment 2's advanced offset; a recycled segment 2 lands SEG_LEN behind segment 1's offset after segment 1's check |
| `Recycler.RoadAheadCovered` | src/components/ThreeCanvas.jsx:69-78 | in the steady state the two road planes (each SEG_LEN long, centred on its group) meet end to end with no gap or overlap, and together they span every point from the car at z = 0 to −SEG_LEN |
| `Recycler.RecycleFromSnapshot` | src/components/ThreeCanvas.jsx:325-330 | a reference tick that evaluates both triggers before moving either segment; when neither triggers, both segments only advance |
| `Recycler.OrderImmaterialInLoop` | src/components/ThreeCanvas.jsx:325-330 | in the steady state with 0 ≤ speed ≤ SEG_LEN, the component's sequential order gives the same offsets as the snapshot order |
| `Recycler.OrderMattersBeyondBound` | src/components/ThreeCanvas.jsx:325-330 | from the initial offsets at speed 500 the component's order yields (100, −100), while the snapshot order leaves segment 2 at 300, past HALF |
| `SpeedControl.OnKey` | src/components/ThreeCanvas.jsx:242-245 | ArrowUp adds exactly 0.1, or gives 0.7 when that would pass 0.7; ArrowDown subtracts exactly 0.1, or gives 0 when that would go below 0; keys other than ArrowUp and ArrowDown leave the speed unchanged; a speed in [0, 0.7] stays in [0, 0.7]; a speed among the eight levels 0, 0.1, …, 0.7 stays among them; ArrowUp never lowers and ArrowDown never raises the speed; ArrowUp at 0.7 and ArrowDown at 0 change nothing |
| `SpeedControl.LevelsInRange` | src/components/ThreeCanvas.jsx:240-244 | every speed level lies in [0, 0.7] and is at most SEG_LEN, so it meets the recycler's speed bound |
| `SpeedControl.FirstStepFromInitial` | src/components/ThreeCanvas.jsx:240-244 | from the initial 0.2, one ArrowUp gives 0.3 and one ArrowDown gives 0.1; 0.2 is a level |
| `Explode.HandleClick` | src/components/ThreeCanvas.jsx:264-273 | with no car loaded, or with a ray that misses, the state is unchanged; a hit on the loaded car flips `exploded` and makes the label visible; whether the car is loaded never changes |
| `Explode.TwoHitsRestoreToggle` | src/components/ThreeCanvas.jsx:269-272 | two hits restore `exploded`, but the label stays visible |
| `Explode.LabelStaysVisible` | src/components/ThreeCanvas.jsx:271 | no click ever hides a label that is shown |
| `Terrain.Height` | src/components/ThreeCanvas.jsx:88-91 | the height is at most −0.2 and at most the two-octave noise sum, and equals one of the two, for any noise field |
| `Terrain.Displaced` | src/components/ThreeCanvas.jsx:85-93 | the displaced buffer has the same length; every whole vertex keeps its x and y, and its z becomes the clamped height at that (x, y), which is ≤ −0.2; trailing numbers past the last whole vertex are untouched |
| `Terrain.DisplaceTerrain` | src/components/ThreeCanvas.jsx:85-93 | the index loop leaves the array equal to `Displaced` of its former contents |
| `Decorations.PlaceStripes` | src/components/ThreeCanvas.jsx:193-197 | exactly SEG_LEN/5 = 40 stripes, the k-th at z = −HALF + 5k, each a 0.3×0.01×1 box at x = 0, y = 0.01, all within [−HALF, HALF) |
| `Decorations.StripesEvenlySpaced` | src/components/ThreeCanvas.jsx:193-195 | consecutive stripes are 5 apart; the first is at −HALF and the last at HALF − 5 |
| `Decorations.PlaceTrees` | src/components/ThreeCanvas.jsx:204-218 | exactly 20 rows of four meshes (80 meshes), row k at z = −HALF + 10k: left trunk, left crown, then right trunk and right crown; all z within [−HALF, HALF) |
| `Decorations.TreesMirrored` | src/components/ThreeCanvas.jsx:209-216 | in every row the right trunk and crown are the left ones with x negated; the left trunk is a cylinder at x = −3.5, y = −0.5; the crown is a sphere at y = 0.4; both stand at the row's z |
| `Canvas.Step` | src/components/ThreeCanvas.jsx:236-279 | a key changes only the speed; a frame changes only the offsets; a click or the model's arrival changes neither speed nor offsets; the arrival sets loaded and keeps the toggle and the label |
| `Canvas.StepPreservesInvariant` | src/components/ThreeCanvas.jsx:240-330 | any single event keeps the speed among the levels and the segments in the steady state |
| `Canvas.RunPreservesInvariant` | src/components/ThreeCanvas.jsx:240-330 | any sequence of events keeps the invariant |
| `Canvas.ReachableStatesLoop` | src/components/ThreeCanvas.jsx:224-330 | from set-up, after any sequence of keys, frames, clicks and the model's arrival, the speed is in [0, 0.7], the offsets are exactly SEG_LEN apart and both are ≤ HALF |
| `Canvas.Segment.constructor` | src/components/ThreeCanvas.jsx:69-222 | `createRoadSegment(initialZ)`: the group stands at `initialZ`, its terrain buffer is the displaced grid, and its stripe and tree groups hold the placed meshes |
| `Canvas.ThreeCanvas.constructor` | src/components/ThreeCanvas.jsx:224-255 | set-up gives two distinct fresh segments at 0 and −SEG_LEN, speed 0.2, no car, `exploded` false and the label hidden |
| `Canvas.ThreeCanvas.Tick` | src/components/ThreeCanvas.jsx:321-330 | the in-place updates of the two `position.z` fields give the offsets of `Recycle` and leave everything else alone; afterwards the offsets are SEG_LEN apart and both ≤ HALF |
| `Canvas.ThreeCanvas.OnKeyDown` | src/components/ThreeCanvas.jsx:242-245 | the reassignment of `speed` matches `OnKey`; nothing else changes; afterwards speed is in [0, 0.7] |
| `Canvas.ThreeCanvas.HandleClick` | src/components/ThreeCanvas.jsx:264-273 | the flag updates match `Explode.HandleClick`; nothing else changes |
| `Canvas.ThreeCanvas.OnCarLoaded` | src/components/ThreeCanvas.jsx:278-279 | assigning `carModel` marks the car loaded and changes nothing else |

## Left out

- Floating point: the model uses exact reals. It does not capture double rounding in the speed steps, in the per-frame accumulation of offsets, or in the noise arguments. It does not capture the rounding of heights to 32-bit floats when they are stored in the position buffer. NaN and signed-zero behaviour of `Math.min` and `Math.max` is also not modelled.
- Frame-count results: for example, "after 500 frames at 0.2 the offset is 100". These depend on how doubles accumulate, so they are not stated.
- `ImprovedNoise` internals: the noise is an opaque parameter, and no range is assumed.
- `PlaneGeometry` vertex generation: the initial grid is an input.
- `computeVertexNormals`: the normals are not modelled, because the computation is inside the geometry library.
- The two terrain clones and their placement at x = ±20: these are scene-graph set-up.
- Buffer length: three.js gives a buffer of `n` numbers a vertex count of `n / 3`. The model uses the floor. A buffer whose length is not a multiple of three never comes from `PlaneGeometry`. For such a buffer the model leaves the trailing numbers untouched.
- Renderer, label renderer, DOM mounting, window sizing and resize handling: these are browser I/O.
- Texture loading and GLTF model loading: these are asynchronous library calls. Only the moment `carModel` becomes non-null is kept, as the `CarLoaded` event.
- Traversal of the car's meshes, their original positions, and the exploded-view motion (`normalize`, `lerp`): this is floating-point vector geometry. Only the `exploded` flag is modelled.
- Raycasting and pointer-to-screen conversion: this is library geometry. Only its hit or miss outcome enters the model.
- The resume label's click, which opens `/resume.pdf`: this is browser I/O.
- Wind shader injection and the per-frame `uTime` traversal: this is GPU code.
- Random grass instancing: it depends on `Math.random`.
- Camera follow, orbit controls, lights, sun, fog and materials: these are library configuration. Mesh materials are not recorded in `Decorations.Mesh`.
- `requestAnimationFrame` scheduling and the React effect's cleanup: the model treats each frame, key and click as one atomic event.
