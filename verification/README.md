# Particle pool and hand-landmark conversion, modelled in Dafny

This project models two pieces of pure logic from a browser toy that draws
particle bursts where a tracked hand gestures.

- **The particle pool** (`src/particleSystem.ts`, module `Particles`).
  - `emit` fills four flat attribute buffers for `count` particles:
    position, velocity, size and colour. It indexes them as `i*3+k`. It then
    appends the new group to the pool with `life = 1`,
    `decay = 1/(lifeTime*60)` and a gravity that defaults to 0.
  - `update(deltaTime)` walks the pool from the last group to the first.
    Each group loses its own `decay` of life. A group at or below zero
    life is removed from the scene, its geometry and material are
    disposed, and it is spliced out of the pool. A surviving group's
    opacity becomes its life. Then every particle takes one explicit
    Euler step: the position moves by the pre-tick velocity times `dt`,
    gravity reduces the y velocity by `gravity*dt`, and all three velocity
    components are damped by a fixed 0.98 that does not depend on `dt`.
- **Landmark conversion** (`src/handTracking.ts`, module `HandTracking`).
  - `onResults` does nothing when no callback is registered.
  - It passes `null` when no hand was detected.
  - Otherwise it passes the first hand's landmarks. Each landmark is
    mirrored onto the canvas as `((1-x)*width, y*height)`. World landmarks
    become `(-x, -y, z)`.
  - `setCanvasSize` replaces both canvas dimensions. They default to 640
    by 480.

Modelling choices:
- Numbers are `real`s.
- Every `Math.random()` result is an input. One `Draw` record holds the
  five draws one particle takes, in call order.
- `Math.sin`, `Math.cos` and `Math.acos` are fields of a `Trig` record, so
  they stay uninterpreted. The two lemmas that need `sin² + cos² = 1`,
  `InitialSpeedIsSampledSpeed` and `FirstTickDisplacement`, take it as a
  hypothesis.
- A `THREE.Points` object is a `Handle`, taken from a counter.
- The scene is the set of handles that have been added to it and not yet
  removed.
- Disposal is a list of events (`SceneRemove`, `GeometryDispose`,
  `MaterialDispose`), in the order the backward walk produces them.
- `update` appears twice:
  - `Particles.Update` is a pure specification: keep the non-expiring
    groups and advance them.
  - `Particles.UpdateWalk` is the source's backward loop with `splice`. It
    is proved equal to `Update`.
- The buffer fill of `emit` is a loop whose invariants track the `i*3+k`
  writes.

Facts about the source that the model keeps:
- `emit` validates nothing. Any `count` and any `lifeTime` are accepted.
- Opacity is set to `life` without clamping.
- Retired groups are spliced out during the walk; there is no separate
  compaction pass.
- The `spread` option is never read.

Modules: `Optional` (optional values), `Seqs` (order-preserving map and
filter), `Vectors` (3-vectors and the flat item-size-3 buffer view),
`Particles`, `ParticleProperties` (ranges of emitted values and properties
of repeated ticks) and `HandTracking`.

## Model

| member | source | states |
|---|---|---|
| Seqs.Map | src/handTracking.ts:76-79 | the converted list has the input's length and order, element `i` being the conversion of input `i` |
| Seqs.FilterAppend | src/particleSystem.ts:82-96 | filtering a concatenation filters each part and keeps them in order, so removing groups keeps the survivors' relative order |
| Particles.DecayFor | src/particleSystem.ts:73 | decay times `lifeTime*60` is exactly 1; a zero lifetime gives an unbounded decay; a positive lifetime gives a positive decay |
| Particles.SetItem | src/particleSystem.ts:33-35 | writing components `3i`, `3i+1`, `3i+2` sets item `i` and leaves every other item of the buffer unchanged |
| Particles.FillBuffers | src/particleSystem.ts:24-54 | position, velocity and colour buffers have length `3*count` and sizes length `count`; every particle starts at `options.position`; particle `i` gets the velocity, size and colour computed from its own draws |
| Particles.NewSystem | src/particleSystem.ts:15-20 | a new system has an empty pool and no particle object in the scene, and satisfies the pool invariant |
| Particles.Emit | src/particleSystem.ts:22-79 | exactly one group is appended at the end and earlier groups are unchanged; it has `life = 1`, opacity 1, `decay = 1/(lifeTime*60)`, gravity `options.gravity` or 0, and a fresh identity that joins the scene; the pool invariant is preserved |
| Particles.Advance | src/particleSystem.ts:88-113 | a surviving group's life drops by exactly its own decay and stays positive, opacity equals the new life, and count, sizes, colours, identity, decay and gravity are unchanged |
| Particles.StepIsPerParticleEuler | src/particleSystem.ts:100-113 | per particle: new position = old position + pre-tick velocity × dt; new velocity = (vx, vy − gravity·dt, vz) × 0.98 |
| Particles.ItemsDetermine | src/particleSystem.ts:100 | two buffers of `count` whole items that agree item by item are equal, so a per-particle loop determines the whole buffer |
| Particles.Integrate | src/particleSystem.ts:100-113 | the per-particle loop, with position first, then gravity, then drag, computes exactly the reference position and velocity steps |
| Particles.WalkStep | src/particleSystem.ts:82-96 | visiting index `i` handles exactly the group at `i`: the survivors, retired identities and events from `i` on are those of that group followed by those of the rest |
| Particles.UpdateWalk | src/particleSystem.ts:81-117 | the backward walk that splices retired groups out visits every group once and produces exactly the pool, scene and disposal events of the filter-then-advance specification |
| Particles.SurvivorsAreAliveGroupsAdvanced | src/particleSystem.ts:82-96 | the groups left after a tick are exactly the groups whose new life is positive, each advanced one step, in their original relative order |
| Particles.SurvivorsComeFromAliveGroups | src/particleSystem.ts:88-98 | every group left after a tick is some non-expiring pooled group advanced one step |
| Particles.ExpiredHandlesAreExpiringGroups | src/particleSystem.ts:88-94 | an identity is retired iff it belongs to a pooled group whose life drops to 0 or below |
| Particles.UniqueAppend | src/particleSystem.ts:78 | pushing a group with a fresh identity keeps all pooled identities distinct |
| Particles.HandlesCons | src/particleSystem.ts:15 | the identities of a pool are those of its first group plus those of the rest |
| Particles.ExpiredHandlesArePooled | src/particleSystem.ts:90-94 | only objects in the pool are retired |
| Particles.SurvivorHandles | src/particleSystem.ts:90-95 | after a tick the pooled identities are the old ones minus the retired ones and remain distinct, so a retired group gets no update and is gone |
| Particles.RetireEventsOccurrences | src/particleSystem.ts:91-93 | retiring one object removes it from the scene once and disposes its geometry once and its material once, touching no other object |
| Particles.RetiredExactlyOnce | src/particleSystem.ts:90-94 | over a whole tick, each retired object is removed from the scene once and has its geometry and material disposed once; no other object sees any of these events |
| Particles.UpdatePreservesValid | src/particleSystem.ts:81-117 | `update` preserves the pool invariant: every group live with opacity equal to life, identities distinct, scene equal to the pooled objects |
| ParticleProperties.EmittedSizesInRange | src/particleSystem.ts:47 | with draws in [0,1) and a positive base size, every emitted size lies in [0.5·size, size) |
| ParticleProperties.SpeedInRange | src/particleSystem.ts:40 | with a draw in [0,1) and a positive speed, the sampled speed `r` lies in [0.5·speed, speed) |
| ParticleProperties.EmittedColorsShareOneFactor | src/particleSystem.ts:50-53 | every particle colour is the base colour with all three channels scaled by one common factor in [0.8, 1.2) |
| ParticleProperties.InitialSpeedIsSampledSpeed | src/particleSystem.ts:38-44 | given sin² + cos² = 1 at both angles, the initial velocity's length is exactly the sampled speed `r` |
| ParticleProperties.FirstTickDisplacement | src/particleSystem.ts:102-104 | on the first tick each particle moves away from the emission point by exactly its sampled speed times dt |
| ParticleProperties.LifeAfterTicks | src/particleSystem.ts:88-90 | with a positive decay, after `n` ticks life is `life − n·decay`, and the group survives `n` ticks iff that value is positive |
| ParticleProperties.OneSecondGroupLivesSixtyTicks | src/particleSystem.ts:73 | a group emitted with a one-second lifetime survives 59 ticks and is retired on the 60th, whatever the frame durations |
| ParticleProperties.DragCompounds | src/particleSystem.ts:109-112 | after `k` ticks an x or z velocity component, or a y component without gravity, equals its initial value times 0.98^k, whatever the frame durations |
| Vectors.Norm2OfScale | src/particleSystem.ts:102-104 | moving by velocity × dt moves by a squared distance of squared speed × dt² |
| HandTracking.NewTracker | src/handTracking.ts:21-22 | a new tracker has no callback and a 640 by 480 canvas |
| HandTracking.OnResults | src/handTracking.ts:67-94 | no callback means no call; no hand means `null`; otherwise one call with the first hand's landmarks, same length and order, each mirrored onto the canvas; world landmarks present iff a first world list exists, each mapped to (−x, −y, z) |
| HandTracking.NullIffNoHand | src/handTracking.ts:70-93 | with a callback registered, the callback receives `null` iff the landmark list is missing or empty |
| HandTracking.OnlyFirstHandUsed | src/handTracking.ts:72-73 | two results that agree on the first hand's landmark lists give the same callback argument |
| HandTracking.SetCanvasSize | src/handTracking.ts:62-65 | both canvas dimensions become the given width and height; whether a callback is registered is unchanged |
| HandTracking.CanvasPointInBounds | src/handTracking.ts:76-79 | a landmark in [0,1]² lands in [0, width] × [0, height] |
| HandTracking.CanvasMirrorsX | src/handTracking.ts:77 | on a canvas of positive width the x axis is reversed: a landmark further right in the image lands further left on the canvas |
| HandTracking.CanvasMappingInvertible | src/handTracking.ts:76-79 | on a non-degenerate canvas the normalised coordinates are recovered from the canvas point, so the mapping loses nothing |
| HandTracking.WorldMirrorIsInvolution | src/handTracking.ts:81-85 | mirroring a world landmark twice gives it back |
| HandTracking.CanvasSizeGovernsConversion | src/handTracking.ts:62-65 | after `setCanvasSize(w, h)` every converted landmark uses `w` and `h` |
| HandTracking.DefaultCanvasIs640By480 | src/handTracking.ts:21-22 | before any `setCanvasSize`, a landmark converts to `((1−x)·640, y·480)` |

## Left out

- The THREE.js scene graph, `BufferGeometry` and `PointsMaterial` internals are not modelled. Neither is the GPU upload flag `needsUpdate` (src/particleSystem.ts:115). The material settings other than opacity (src/particleSystem.ts:61-68) are left out. Disposal is modelled only as events.
- Parsing a colour string into `THREE.Color` (src/particleSystem.ts:29) is left out, along with any colour-space conversion. The base colour is an input RGB triple.
- Float32 storage, IEEE rounding, NaN and infinities are left out. An infinite decay from a zero lifetime is the one case modelled, as `Decay.Unbounded`. A lifetime of negative zero is not distinguished from zero.
- `count` is a natural number. JavaScript's behaviour for negative or fractional counts is left out: a `RangeError` from the typed array constructor, or writes past the end.
- `Math.random` is not modelled as a generator. The model makes no claim that the sphere sampling is uniform, because that is a statistical property.
- `ParticleProperties.InitialSpeedIsSampledSpeed`: assumes the Pythagorean identity at the two angles instead of proving it, because `sin` and `cos` are uninterpreted.
- `ParticleProperties.FirstTickDisplacement`: needs the same Pythagorean hypothesis for the particle's angles.
- `ParticleProperties.LifeAfterTicks`: counts ticks in exact arithmetic. In the program `life` is a double, and repeated subtraction of `1/(lifeTime*60)` can leave a residue near 1e-16 above zero, so for some lifetimes (0.5, 2, 3 among them) the program retires a group one tick later than `lifeTime*60`. For a lifetime of 1 the double result agrees with `OneSecondGroupLivesSixtyTicks`.
- `ParticleProperties.LifeAfterTicks`: covers only a positive decay. With a negative lifetime the decay is negative, life grows, and the group is never retired; no lemma states that case.
- `ParticleProperties.DragCompounds`: says nothing about the y component when gravity is non-zero. That component also accumulates the damped gravity terms.
- `ParticleProperties.SpeedInRange`: states the range of the speed factor `r` only. The velocity's length equals `r` only under the Pythagorean hypothesis of `InitialSpeedIsSampledSpeed`.
- The pool-wide invariant `Particles.Valid` covers pools built with `NewSystem`, `Emit` and `Update`. The source has no other way to build a pool.
- These parts of `HandTracker` are asynchronous I/O plumbing and are left out: MediaPipe loading and polling, `getUserMedia`, video playback, the `requestAnimationFrame` loop, `start`, `stop` and `isActive`. Whether `start` has registered a callback is the `hasCallback` flag of the tracker state.
- `src/types.ts` is not part of this model. `HandLandmarks` and `Point2D` are shaped after their use in `onResults`. Landmark fields other than x, y and z (such as `visibility`) are not read and are left out.
- `src/audioManager.ts` wires Web Audio nodes and computes nothing of its own, so it is left out.
- `vite.config.ts` is build configuration and is left out.
- Exceptions thrown by `dispose` are left out. The source does not guard against them.
