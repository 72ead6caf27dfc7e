# DotGlobe particle field

This project models the physics core of the DotGlobe component
(`components/DotGlobe.jsx`). DotGlobe draws a globe of dots. The dots are laid
out on the unit sphere along a golden-angle spiral. When the pointer hovers
over the globe, the dots near the hover point are pushed away from it and then
relax back.

The component keeps three flat, parallel buffers, each holding `3 * n` reals
(x, y, z triples):

- the rest positions (`basePositionsRef`);
- the displacements (`displacementsRef`);
- the rendered position array of the point cloud's geometry.

The model has five modules:

- `RealMath`: shared vocabulary. It defines optional values, 3-vectors, powers
  and magnitudes. It also defines the host math library (`Math.sqrt`,
  `Math.cos`, `Math.sin`, `Math.PI`). These are passed in as a `MathLib` value
  whose laws are stated as predicates: `sqrt` gives the non-negative root, and
  `cos² + sin² = 1`.
- `Sphere`: the position loop of `createPointCloud`. `FillPositions` writes a
  fresh array in a loop and is proved equal to the specification
  `SpherePositions`. Lemmas about `SpherePositions` give:
  - the layout of the array;
  - the range and monotonicity of the heights;
  - that every point lies on the unit sphere.
- `Scatter`: one step of `applyScatterPhysics`, stated slot by slot as pure
  functions over sequences:
  - `Repelled`: the repulsion pass;
  - `Damped`: the damping;
  - `Applied`: rest position plus displacement;
  - `Stepped`: `Damped` after `Repelled`.

  It also holds the lemmas about the push and about damping.
- `Globe`: the buffers as an abstract `Field` value, and the functions saying
  what each operation does to that value:
  - `StepField` for a simulation step;
  - `ClearField` for the clear-scatter button;
  - `Rebuilt` for (re)initialisation;
  - `Run` for a sequence of animation frames.

  The class `ParticleBuffers` holds the three nullable arrays and updates them
  in place. Its methods are:
  - `Step`, the two loops of `applyScatterPhysics`. The repulsion pass is
    `Repel`, with one iteration in `RepelParticle`. The damping-and-apply pass
    is `DampAndApply`, with one iteration in `DampParticle`;
  - `Clear`, for `clearScatter`;
  - `Rebuild`, for the buffer set-up of both effects.

  Each method is proved against its function on `Snapshot()`.
- `Animation`: how one frame of the animation loop turns the control panel
  (the scatter checkbox and the radius and strength sliders) into the hover
  point, radius and strength of the step. It models the loop both as written
  and as evidently intended (see "## Findings").

One might expect the `1e-6` floor on the squared distance to give a particle
lying exactly on the hover point a full-strength push. The code gives it
none: its offset is zero, so every component of its push is zero. The floor
only prevents a division by zero. `Scatter.CoincidentParticleNotPushed`
states this, and `Scatter.SubFloorPushGrows` shows that below the floor the
push grows from zero with the distance.

## Model

| member | source | states |
|---|---|---|
| `Sphere.FillPositions` | components/DotGlobe.jsx:346-362 | The loop allocates exactly `3 * count` slots and returns an array equal to `SpherePositions(count)`: slot `3i + c` is coordinate `c` of spiral point `i` times the sphere radius 1. |
| `Sphere.GoldenAngle` | components/DotGlobe.jsx:349-350 | The two constants computed before the loop give exactly the angle increment `2*pi/golden` of the specification. |
| `Sphere.PlacePoint` | components/DotGlobe.jsx:353-361 | One iteration writes slots `3i`, `3i+1`, `3i+2` with the x, y, z of spiral point `i` times the sphere radius and leaves every other slot unchanged. |
| `Sphere.SpherePositions` | components/DotGlobe.jsx:347-362 | The buffer the generator produces: `3 * count` slots, slot `k` being `PositionSlot(k)`. Its layout, heights and unit length are the lemmas below. |
| `Sphere.PositionSlot` | components/DotGlobe.jsx:359-361 | Slot `k` holds coordinate `k % 3` of spiral point `k / 3`, scaled by the radius 1. |
| `Sphere.SpiralPoint` | components/DotGlobe.jsx:353-358 | Point `i` is the ring point at height `Latitude(i)` and azimuth `Azimuth(i)`; `SpiralPointOnUnitSphere` puts it on the unit sphere. |
| `Sphere.Latitude` | components/DotGlobe.jsx:353-354 | Height `1 - 2 * (i / (count - 1))`; `LatitudeEnds`, `LatitudeBounds` and `LatitudeDecreasing` give its ends, range and order. |
| `Sphere.RingRadius` | components/DotGlobe.jsx:355 | The radius `sqrt(1 - y*y)` of the circle of latitude at height `y`. |
| `Sphere.Azimuth` | components/DotGlobe.jsx:356 | Point `i` is turned by `i` angle increments. |
| `Sphere.AngleIncrement` | components/DotGlobe.jsx:350 | The golden angle `2*pi/golden`. |
| `Sphere.RingPoint` | components/DotGlobe.jsx:355-358 | The point `(cos(phi) * r, y, sin(phi) * r)` with `r` the ring radius at height `y`. |
| `Sphere.SpiralPointFromLoop` | components/DotGlobe.jsx:353-358 | The loop's `t`, `y`, `r`, `phi`, `x`, `z` for index `i` are exactly the coordinates of `SpiralPoint(i)`. |
| `Sphere.RingPointFromLoop` | components/DotGlobe.jsx:355-358 | The loop's `r`, `x`, `z` for a height `y` and angle `phi` are exactly the coordinates of `RingPoint(y, phi)`. |
| `Sphere.SpherePositionsLayout` | components/DotGlobe.jsx:348-361 | The generated buffer has `3 * count` slots; slots `3i`, `3i+1`, `3i+2` hold the x, y, z of point `i`. |
| `Sphere.LatitudeEnds` | components/DotGlobe.jsx:353-354 | For `count >= 2` the first point has height 1 and the last height -1. |
| `Sphere.LatitudeBounds` | components/DotGlobe.jsx:353-354 | Every point's height `1 - 2i/(count-1)` lies in [-1, 1]. |
| `Sphere.LatitudeDecreasing` | components/DotGlobe.jsx:353-354 | Heights strictly decrease with the index. |
| `Sphere.SpiralPointOnUnitSphere` | components/DotGlobe.jsx:353-358 | Under the sqrt and trig laws, `x*x + z*z == 1 - y*y` and the squared norm of every point is 1. |
| `Sphere.RingPointOnUnitSphere` | components/DotGlobe.jsx:355-358 | For every height in [-1, 1] and every angle, the ring point has squared norm 1 under the sqrt and trig laws. |
| `Sphere.Golden` | components/DotGlobe.jsx:349 | The golden ratio `(1 + sqrt 5)/2` is at least 1/2, so the angle increment's division is defined. |
| `Scatter.Distance` | components/DotGlobe.jsx:414 | The distance used, `sqrt(max(d2, 1e-6))`, is positive, so the divisions by `d` are defined. |
| `Scatter.DistanceSquared` | components/DotGlobe.jsx:414 | The distance used is the non-negative root of `max(d2, 1e-6)`: it squares back to the floored squared distance. |
| `Scatter.Delta` | components/DotGlobe.jsx:408-411 | The offset of particle `i`'s rest position (slots `3i`..`3i+2`) from the hover point. |
| `Scatter.Falloff` | components/DotGlobe.jsx:415 | The falloff `1 - d/radius`. |
| `Scatter.PushScale` | components/DotGlobe.jsx:415-416 | The push length `strength * falloff * falloff`; `PushScaleBounds` and `PushScaleMonotone` give its range and order. |
| `Scatter.Push` | components/DotGlobe.jsx:414-419 | The push of a particle strictly inside the radius: its offset divided by `Distance` and scaled by `PushScale`; `PushAlongDelta` and `PushMagnitude` give its direction and length. |
| `Scatter.PushBy` | components/DotGlobe.jsx:417-419 | The three increments `(dx/d)*s`, `(dy/d)*s`, `(dz/d)*s`. |
| `Scatter.RepelledSlot` | components/DotGlobe.jsx:404-420 | Slot `k` after repulsion: unchanged with no hover point or outside the radius, otherwise plus component `k % 3` of the push of particle `k / 3`. |
| `Scatter.Repelled` | components/DotGlobe.jsx:404-422 | The displacements after the repulsion pass, slot by slot `RepelledSlot`; same length as before. |
| `Scatter.Damped` | components/DotGlobe.jsx:425-429 | Every displacement multiplied by `decay`; same length. |
| `Scatter.Applied` | components/DotGlobe.jsx:431-433 | Rendered slot `k` is rest slot `k` plus displacement slot `k`; same length. |
| `Scatter.Stepped` | components/DotGlobe.jsx:404-429 | The displacements after a whole step: damping applied to the repelled ones; same length. |
| `Scatter.PushFromLoop` | components/DotGlobe.jsx:414-419 | The loop's `d`, `falloff` and `s` for a particle inside the radius give exactly `Push`. |
| `Scatter.RepelledInside` | components/DotGlobe.jsx:408-419 | For a particle with `d2 < r2`, the repulsion pass adds exactly `(dx/d)*s`, `(dy/d)*s`, `(dz/d)*s` to its three slots, with the loop's `d`, `falloff` and `s`. |
| `Scatter.RepelledOutside` | components/DotGlobe.jsx:408-413 | A particle with `d2 >= r2` keeps its three displacement slots in the repulsion pass. |
| `Scatter.NoHoverOnlyDamps` | components/DotGlobe.jsx:404-429 | With no hover point a step's new displacements are exactly the old ones times `decay`, slot by slot. |
| `Scatter.ZeroStrengthOnlyDamps` | components/DotGlobe.jsx:413-429 | With strength 0 (what the component means to pass when scatter is disabled, see "## Findings") a step is pure damping, wherever the hover point is. |
| `Scatter.OutsideRadiusOnlyDamped` | components/DotGlobe.jsx:412-429 | A slot whose particle's squared distance to the hover point is at least `radius²` gets no push and is only multiplied by `decay`. |
| `Scatter.InsideRadiusPushedThenDamped` | components/DotGlobe.jsx:412-429 | A slot whose particle is strictly inside the radius becomes `(old + push component) * decay`: the push is added before damping. |
| `Scatter.PushAlongDelta` | components/DotGlobe.jsx:414-419 | The push is the offset from the hover point scaled by the non-negative factor `s/d`: it points away from the hover point. |
| `Scatter.PushMagnitude` | components/DotGlobe.jsx:414-419 | Beyond the distance floor the push has squared length `s*s`, i.e. length exactly `s = strength * (1 - d/radius)²`. |
| `Scatter.PushMonotone` | components/DotGlobe.jsx:414-419 | Of two particles inside the radius and at or beyond the distance floor, the farther one never gets a longer push. |
| `Scatter.ScalesOrdered` | components/DotGlobe.jsx:414-416 | From the floor up to the radius the push scale is non-negative and does not grow with the squared distance. |
| `Scatter.PushScaleBounds` | components/DotGlobe.jsx:414-416 | For `radius > 1e-3` and a particle inside the radius, the scale `s` lies in `[0, strength]`. |
| `Scatter.PushScaleMonotone` | components/DotGlobe.jsx:415-416 | The scale never increases with the distance and is 0 at the radius (quadratic falloff). |
| `Scatter.CoincidentParticleNotPushed` | components/DotGlobe.jsx:409-419 | A particle exactly at the hover point (zero offset) gets a zero push, so its displacement is only damped. |
| `Scatter.ZeroOffsetZeroPush` | components/DotGlobe.jsx:414-419 | The push of a zero offset is the zero vector, for every positive radius. |
| `Scatter.SubFloorPushGrows` | components/DotGlobe.jsx:414-419 | With radius `0.35` and strength `0.015`, a particle on the hover point gets no push while one at any distance `x` in `(0, 1e-3)` is pushed outwards: below the floor the push is not monotone. |
| `Scatter.StepIsLocal` | components/DotGlobe.jsx:407-429 | New displacement slot `k` depends only on the rest position of its own particle and its own old value. |
| `Scatter.RepelledSlotIsLocal` | components/DotGlobe.jsx:407-420 | The same locality for the repulsion pass alone. |
| `Globe.StepField` | components/DotGlobe.jsx:389-436 | A step on the buffers: nothing without buffers; otherwise displacements `Stepped` and rendered array `Applied` of them, rest positions kept. The result stays well-formed. |
| `Globe.ClearField` | components/DotGlobe.jsx:224-230 | Clearing: nothing without buffers; otherwise zero displacements of the same length and the rest positions as rendered array. The result stays well-formed. |
| `Globe.Rebuilt` | components/DotGlobe.jsx:196-198 | After (re)initialisation: the generated array as rest and rendered positions, and zeros as displacements. |
| `Globe.Run` | components/DotGlobe.jsx:136-159 | Successive frames of the loop with the radius and strength it was created with, frame `j` seeing hover point `hovers[j]`; well-formedness is kept. |
| `Globe.StepKeepsRestAndCoherence` | components/DotGlobe.jsx:425-434 | After a step the rest positions are unchanged, all lengths are kept, and every rendered slot equals rest position plus the updated displacement; with no buffers nothing changes. |
| `Globe.ClearZeroesEverything` | components/DotGlobe.jsx:224-230 | After clearing, every displacement is 0 and the rendered array equals the rest positions, whatever the prior state; lengths and rest positions are kept; with no buffers it does nothing. |
| `Globe.ClearIdempotent` | components/DotGlobe.jsx:224-230 | Clearing twice is the same as clearing once. |
| `Globe.RebuiltFromSphere` | components/DotGlobe.jsx:196-198 | After (re)initialisation the rest positions are an element-for-element copy of the `3 * count` generated slots, the rendered array is the generated array, and the displacements are `3 * count` zeros. |
| `Globe.RelaxationRun` | components/DotGlobe.jsx:425-430 | Over `T` frames with no hover point (or with strength 0) the displacements become `disp0 * decay^T` slot by slot and the rest positions are unchanged; after one frame or more the rendered array is coherent. |
| `Globe.RelaxationShrinks` | components/DotGlobe.jsx:427-429 | For `0 < decay < 1` pure relaxation never grows a displacement and, after at least one frame, strictly shrinks every non-zero one. |
| `Globe.DampedTwice` | components/DotGlobe.jsx:427-429 | Damping by `a` and then by `b` is damping by `a * b`. |
| `Globe.CopyOf` | components/DotGlobe.jsx:197 | A fresh array with the same contents as its argument. |
| `Globe.ZeroArray` | components/DotGlobe.jsx:198 | A fresh zero-filled array of the requested length. |
| `Globe.ParticleBuffers.constructor` | components/DotGlobe.jsx:35-36 | All buffers start out absent. |
| `Globe.ParticleBuffers.Step` | components/DotGlobe.jsx:389-436 | With no buffers nothing changes. Otherwise the buffers end up as `StepField` of the old ones: displacements `Stepped(base, disp)` and rendered slots rest plus new displacement. The buffers stay well-formed. |
| `Globe.ParticleBuffers.Repel` | components/DotGlobe.jsx:404-422 | The displacement array ends equal to `Repelled` of the rest positions and the old displacements. |
| `Globe.ParticleBuffers.RepelParticle` | components/DotGlobe.jsx:408-420 | One iteration writes exactly particle `i`'s three slots, each to its `Repelled` value, and nothing else. |
| `Globe.ParticleBuffers.Displace` | components/DotGlobe.jsx:417-419 | The three compound additions: slots `3i`..`3i+2` gain the three increments and no other slot changes. |
| `Globe.ParticleBuffers.DampAndApply` | components/DotGlobe.jsx:425-434 | The displacements end equal to `Damped(old, decay)` and the rendered array to `Applied(base, new displacements)`. |
| `Globe.ParticleBuffers.DampParticle` | components/DotGlobe.jsx:426-433 | One iteration damps particle `i`'s three displacements, writes its three rendered slots as rest plus displacement, and touches nothing else. |
| `Globe.ParticleBuffers.Clear` | components/DotGlobe.jsx:224-230 | With no buffers nothing changes. Otherwise the buffers end up as `ClearField` of the old ones: zero displacements and the rendered array a copy of the rest positions. |
| `Globe.ParticleBuffers.Rebuild` | components/DotGlobe.jsx:196-198 | The three buffers are fresh and distinct. The rendered array is the generated spiral, the rest positions are a copy of it, and the displacements are zeros of the same length. |
| `Animation.ArgumentsFrom` | components/DotGlobe.jsx:147-155 | From the controls: the radius is the slider's; with scatter off there is no hover point and strength 0; with it on the strength is the slider's and the hover point is passed exactly while hovering. |
| `Animation.ArgumentsAsWritten` | components/DotGlobe.jsx:136-181 | The frame as written: the arguments derived from the initial controls, whatever the current ones are. |
| `Animation.AnimationFrame` | components/DotGlobe.jsx:146-156 | One frame is the step with the arguments derived from the current controls; well-formedness is kept. |
| `Animation.DisabledFrameRelaxes` | components/DotGlobe.jsx:151-153 | With scatter switched off a frame only damps the displacements and recomputes the rendered array, wherever the pointer is. |
| `Animation.StaleControlsStillPush` | components/DotGlobe.jsx:136-181 | With scatter switched off while hovering, the loop as written still passes the hover point, radius `0.35` and strength `0.015`, and a particle near the hover point is pushed; the current controls would pass no hover point and strength 0. |

## Left out

- Rendering and library calls are not modelled, because they cannot be seen from the component. This covers the Three.js scene, camera, lights, renderer, orbit controls, the construction of geometry and material, `disposePoints`, the rotation set on the cloud and `needsUpdate`.
- Pointer handling and raycasting against the invisible sphere are left out. The model receives only their result, the hover point as an `Option<Vec3>`.
- The `requestAnimationFrame` loop, its `stopped` flag, resizing and effect cleanup are host scheduling. The model offers one `Step` call per frame, and `Run` is a sequence of frames.
- React state, the control panel, colour handling and `handleRandomColor` are UI only. The last also uses `Math.random`.
- `Float32Array` storage and IEEE arithmetic are modelled on `real`. Rounding to 32 bits, NaN and infinities are not modelled, and no tolerance bounds are stated.
- The host math library is not defined. `Math.sqrt`, `Math.cos`, `Math.sin` and `Math.PI` are parameters constrained only by the laws in `RealMath`.
- `Sphere.FillPositions`: requires `count >= 2` rather than modelling `count == 1`. With one point the source computes `0 / 0`, which is NaN, and reals have no NaN.
- The caller's values are parameters of `Step`. The decay is the constant `0.92`. The radius and strength are meant to come from the sliders, but the animation loop is created once, on mount, and keeps reading the initial values: scatter on, radius `0.35`, strength `0.015` (lines 20-22). Slider and checkbox changes never reach `applyScatterPhysics`, and the strength-0 branch of line 153 cannot be taken as written. `Animation` models both readings; see "## Findings". The defaults of `applyScatterPhysics` are never used by the caller. The source validates none of these values, so `Step` has no precondition on them. Only `Globe.RelaxationShrinks` asks for `0 < decay < 1`.
- `Scatter.PushMonotone`: stated only from the `1e-6` floor up. Below the floor the push grows from zero with the distance (`Scatter.SubFloorPushGrows`).
- The effect clean-up (lines 166-170) sets the point cloud to null but leaves the rest and displacement buffers in place. `applyScatterPhysics` (line 398) and `clearScatter` (line 225) then both return early. The model's `Field` has only "all present" and "all absent", so this mixed state is not modelled; it only arises on unmount.
- The three buffers must be all present or all absent, with equal lengths that are a multiple of three (`ParticleBuffers.Valid`). Both initialisation sites establish this, and only the unmount clean-up above breaks it. The source's out-of-range typed-array reads for mismatched lengths are not modelled.
- `app/page.js` and `app/layout.js` are page wrappers with no logic and are not part of this model.

## Findings

| source | as written | input that shows it | evidently intended | confidence | as-written member | corrected member |
|---|---|---|---|---|---|---|
| components/DotGlobe.jsx:136-181 | The animation loop is created by an effect with no dependencies, so it always reads the controls' initial values: scatter on, radius `0.35`, strength `0.015`. | Switch scatter off (or move a slider) while the pointer hovers: the step still gets the hover point and strength `0.015`, and nearby particles are pushed. | Each frame reads the current controls; with scatter off it passes no hover point and strength 0, so the particles only relax. | not executed | `Animation.StaleControlsStillPush` | `Animation.DisabledFrameRelaxes` |
