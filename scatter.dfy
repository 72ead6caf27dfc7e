/**
 * The scatter physics of `applyScatterPhysics` (components/DotGlobe.jsx),
 * stated as pure functions over the flat buffers: `base` holds the rest
 * positions and `disp` the displacements, both as x, y, z triples, one triple
 * per particle.  One step
 *   1. when a hover point is present, pushes every particle whose rest
 *      position lies strictly inside `radius` of it away from it, with a
 *      quadratic falloff (`Repelled`);
 *   2. multiplies every displacement by `decay` (`Damped`);
 *   3. sets each rendered position to rest position plus displacement
 *      (`Applied`).
 */
module Scatter {
  import opened RealMath

  /** The floor on the squared distance that keeps the push direction finite (`1e-6`). */
  const DistanceFloor: real := 0.000001

  /** Rest positions and displacements of the same length, made of whole particles. */
  predicate Shaped(base: seq<real>, disp: seq<real>)
  {
    |base| == |disp| && |disp| % 3 == 0
  }

  /** The offset of particle `i`'s rest position from the hover point `c`. */
  function Delta(base: seq<real>, i: nat, c: Vec3): Vec3
    requires 3 * i + 2 < |base|
  {
    Vec3(base[3 * i] - c.x, base[3 * i + 1] - c.y, base[3 * i + 2] - c.z)
  }

  /**
   * The distance used for a squared distance `d2`: `sqrt(max(d2, 1e-6))`.  It
   * is positive, so the push never divides by zero.
   */
  function Distance(d2: real, sqrt: real -> real): (r: real)
    requires SqrtLaw(sqrt)
    ensures 0.0 < r
  {
    DistanceSquared(d2, sqrt);
    sqrt(Max(d2, DistanceFloor))
  }

  /** The distance used is the non-negative root of the floored squared distance `max(d2, 1e-6)`. */
  lemma DistanceSquared(d2: real, sqrt: real -> real)
    requires SqrtLaw(sqrt)
    ensures 0.0 < sqrt(Max(d2, DistanceFloor))
    ensures sqrt(Max(d2, DistanceFloor)) * sqrt(Max(d2, DistanceFloor)) == Max(d2, DistanceFloor)
  {
    Root(sqrt, Max(d2, DistanceFloor));
  }

  function Falloff(d: real, radius: real): real
    requires radius != 0.0
  {
    1.0 - d / radius
  }

  /** The push magnitude at distance `d`: `strength * falloff^2`. */
  function PushScale(d: real, radius: real, strength: real): real
    requires radius != 0.0
  {
    strength * Falloff(d, radius) * Falloff(d, radius)
  }

  /** The push given to a particle at offset `delta` from the hover point, strictly inside the radius. */
  function Push(delta: Vec3, radius: real, strength: real, sqrt: real -> real): Vec3
    requires SqrtLaw(sqrt) && SquaredNorm(delta) < radius * radius
  {
    BelowSquareNonZero(SquaredNorm(delta), radius);
    var d := Distance(SquaredNorm(delta), sqrt);
    PushBy(delta, d, PushScale(d, radius, strength))
  }

  /** The offset `delta` divided by the distance `d` and scaled by `s`, component by component. */
  function PushBy(delta: Vec3, d: real, s: real): Vec3
    requires d != 0.0
  {
    Vec3((delta.x / d) * s, (delta.y / d) * s, (delta.z / d) * s)
  }

  /** Displacement slot `k` after the repulsion pass. */
  function RepelledSlot(base: seq<real>, disp: seq<real>, k: nat, hover: Option<Vec3>,
                        radius: real, strength: real, sqrt: real -> real): real
    requires Shaped(base, disp) && k < |disp| && SqrtLaw(sqrt)
  {
    match hover
    case None => disp[k]
    case Some(c) =>
      var delta := Delta(base, k / 3, c);
      if SquaredNorm(delta) < radius * radius then
        disp[k] + Component(Push(delta, radius, strength, sqrt), k % 3)
      else
        disp[k]
  }

  /** The displacements after the repulsion pass. */
  function Repelled(base: seq<real>, disp: seq<real>, hover: Option<Vec3>,
                    radius: real, strength: real, sqrt: real -> real): (r: seq<real>)
    requires Shaped(base, disp) && SqrtLaw(sqrt)
    ensures |r| == |disp|
  {
    seq(|disp|, k requires 0 <= k < |disp| => RepelledSlot(base, disp, k, hover, radius, strength, sqrt))
  }

  /** Every slot of `s` multiplied by `decay`. */
  function Damped(s: seq<real>, decay: real): (r: seq<real>)
    ensures |r| == |s|
  {
    seq(|s|, k requires 0 <= k < |s| => s[k] * decay)
  }

  /** Rendered positions: rest position plus displacement, slot by slot. */
  function Applied(base: seq<real>, disp: seq<real>): (r: seq<real>)
    requires |base| == |disp|
    ensures |r| == |base|
  {
    seq(|base|, k requires 0 <= k < |base| => base[k] + disp[k])
  }

  /** The displacements after one whole step: repulsion, then damping. */
  function Stepped(base: seq<real>, disp: seq<real>, hover: Option<Vec3>,
                   radius: real, strength: real, decay: real, sqrt: real -> real): (r: seq<real>)
    requires Shaped(base, disp) && SqrtLaw(sqrt)
    ensures |r| == |disp|
  {
    Damped(Repelled(base, disp, hover, radius, strength, sqrt), decay)
  }

  /** The values the source's loop body computes for one particle are its `Push`. */
  lemma PushFromLoop(delta: Vec3, radius: real, strength: real, sqrt: real -> real,
                     d2: real, d: real, falloff: real, s: real)
    requires SqrtLaw(sqrt) && d2 == SquaredNorm(delta) && d2 < radius * radius
    requires d == Distance(d2, sqrt) && falloff == 1.0 - d / radius
    requires s == strength * falloff * falloff
    ensures Push(delta, radius, strength, sqrt) == PushBy(delta, d, s)
  {
    BelowSquareNonZero(d2, radius);
    assert s == PushScale(d, radius, strength);
  }

  /**
   * For the offset `(dx, dy, dz)` and squared distance `d2` that the source's
   * loop body computes for particle `i` strictly inside the radius, with the
   * distance `d` and scale `s` it derives from them, slots `3i`, `3i+1`,
   * `3i+2` after the repulsion pass are the old ones plus `(dx/d)*s`, `(dy/d)*s`, `(dz/d)*s`.
   */
  lemma RepelledInside(base: seq<real>, disp: seq<real>, i: nat, c: Vec3, radius: real, strength: real,
                       sqrt: real -> real, dx: real, dy: real, dz: real, d2: real, d: real, falloff: real, s: real)
    requires Shaped(base, disp) && SqrtLaw(sqrt) && 3 * i + 2 < |disp|
    requires dx == base[3 * i] - c.x && dy == base[3 * i + 1] - c.y && dz == base[3 * i + 2] - c.z
    requires d2 == dx * dx + dy * dy + dz * dz && d2 < radius * radius
    requires d == Distance(d2, sqrt) && falloff == 1.0 - d / radius && s == strength * falloff * falloff
    ensures Repelled(base, disp, Some(c), radius, strength, sqrt)[3 * i] == disp[3 * i] + (dx / d) * s
    ensures Repelled(base, disp, Some(c), radius, strength, sqrt)[3 * i + 1] == disp[3 * i + 1] + (dy / d) * s
    ensures Repelled(base, disp, Some(c), radius, strength, sqrt)[3 * i + 2] == disp[3 * i + 2] + (dz / d) * s
  {
    var delta := Vec3(dx, dy, dz);
    assert Delta(base, i, c) == delta && SquaredNorm(delta) == d2;
    var p := Push(delta, radius, strength, sqrt);
    PushFromLoop(delta, radius, strength, sqrt, d2, d, falloff, s);
    PushByCoordinates(dx, dy, dz, d, s);
    RepelledAddsPush(base, disp, i, c, radius, strength, sqrt, p);
  }

  /** `PushBy` of an explicit offset, coordinate by coordinate. */
  lemma PushByCoordinates(dx: real, dy: real, dz: real, d: real, s: real)
    requires d != 0.0
    ensures PushBy(Vec3(dx, dy, dz), d, s) == Vec3((dx / d) * s, (dy / d) * s, (dz / d) * s)
  {
  }

  /** The three slots of a particle strictly inside the radius gain the components of its push `p`. */
  lemma RepelledAddsPush(base: seq<real>, disp: seq<real>, i: nat, c: Vec3, radius: real,
                         strength: real, sqrt: real -> real, p: Vec3)
    requires Shaped(base, disp) && SqrtLaw(sqrt) && 3 * i + 2 < |disp|
    requires SquaredNorm(Delta(base, i, c)) < radius * radius
    requires p == Push(Delta(base, i, c), radius, strength, sqrt)
    ensures Repelled(base, disp, Some(c), radius, strength, sqrt)[3 * i] == disp[3 * i] + p.x
    ensures Repelled(base, disp, Some(c), radius, strength, sqrt)[3 * i + 1] == disp[3 * i + 1] + p.y
    ensures Repelled(base, disp, Some(c), radius, strength, sqrt)[3 * i + 2] == disp[3 * i + 2] + p.z
  {
    assert (3 * i) / 3 == i && (3 * i) % 3 == 0;
    assert (3 * i + 1) / 3 == i && (3 * i + 1) % 3 == 1;
    assert (3 * i + 2) / 3 == i && (3 * i + 2) % 3 == 2;
  }

  /** A particle whose squared distance `d2` is not below `radius * radius` keeps its three slots. */
  lemma RepelledOutside(base: seq<real>, disp: seq<real>, i: nat, c: Vec3, radius: real, strength: real,
                        sqrt: real -> real, dx: real, dy: real, dz: real, d2: real)
    requires Shaped(base, disp) && SqrtLaw(sqrt) && 3 * i + 2 < |disp|
    requires dx == base[3 * i] - c.x && dy == base[3 * i + 1] - c.y && dz == base[3 * i + 2] - c.z
    requires d2 == dx * dx + dy * dy + dz * dz && radius * radius <= d2
    ensures Repelled(base, disp, Some(c), radius, strength, sqrt)[3 * i] == disp[3 * i]
    ensures Repelled(base, disp, Some(c), radius, strength, sqrt)[3 * i + 1] == disp[3 * i + 1]
    ensures Repelled(base, disp, Some(c), radius, strength, sqrt)[3 * i + 2] == disp[3 * i + 2]
  {
    assert Delta(base, i, c) == Vec3(dx, dy, dz);
    RepelledKeepsSlots(base, disp, i, c, radius, strength, sqrt);
  }

  /** The three slots of a particle not strictly inside the radius are kept. */
  lemma RepelledKeepsSlots(base: seq<real>, disp: seq<real>, i: nat, c: Vec3, radius: real,
                           strength: real, sqrt: real -> real)
    requires Shaped(base, disp) && SqrtLaw(sqrt) && 3 * i + 2 < |disp|
    requires radius * radius <= SquaredNorm(Delta(base, i, c))
    ensures Repelled(base, disp, Some(c), radius, strength, sqrt)[3 * i] == disp[3 * i]
    ensures Repelled(base, disp, Some(c), radius, strength, sqrt)[3 * i + 1] == disp[3 * i + 1]
    ensures Repelled(base, disp, Some(c), radius, strength, sqrt)[3 * i + 2] == disp[3 * i + 2]
  {
    assert (3 * i) / 3 == i;
    assert (3 * i + 1) / 3 == i;
    assert (3 * i + 2) / 3 == i;
  }

  /** With no hover point a step only damps: each displacement becomes exactly `old * decay`. */
  lemma NoHoverOnlyDamps(base: seq<real>, disp: seq<real>, radius: real, strength: real,
                         decay: real, sqrt: real -> real)
    requires Shaped(base, disp) && SqrtLaw(sqrt)
    ensures Stepped(base, disp, None, radius, strength, decay, sqrt) == Damped(disp, decay)
    ensures forall k :: 0 <= k < |disp| ==> Stepped(base, disp, None, radius, strength, decay, sqrt)[k] == disp[k] * decay
  {
    assert Repelled(base, disp, None, radius, strength, sqrt) == disp;
  }

  /** With zero strength (scatter switched off) a step only damps, wherever the hover point is. */
  lemma ZeroStrengthOnlyDamps(base: seq<real>, disp: seq<real>, hover: Option<Vec3>, radius: real,
                              decay: real, sqrt: real -> real)
    requires Shaped(base, disp) && SqrtLaw(sqrt)
    ensures Stepped(base, disp, hover, radius, 0.0, decay, sqrt) == Damped(disp, decay)
  {
    var rep := Repelled(base, disp, hover, radius, 0.0, sqrt);
    forall k | 0 <= k < |disp|
      ensures rep[k] == disp[k]
    {
      if hover.Some? {
        var delta := Delta(base, k / 3, hover.value);
        if SquaredNorm(delta) < radius * radius {
          assert PushScale(Distance(SquaredNorm(delta), sqrt), radius, 0.0) == 0.0;
          assert Push(delta, radius, 0.0, sqrt) == Vec3(0.0, 0.0, 0.0);
        }
      }
    }
    assert rep == disp;
  }

  /**
   * A particle whose squared distance to the hover point is at least
   * `radius * radius` gets no push: its three slots are only damped.
   */
  lemma OutsideRadiusOnlyDamped(base: seq<real>, disp: seq<real>, c: Vec3, radius: real, strength: real,
                                decay: real, sqrt: real -> real, k: nat)
    requires Shaped(base, disp) && SqrtLaw(sqrt) && k < |disp|
    requires SquaredNorm(Delta(base, k / 3, c)) >= radius * radius
    ensures Stepped(base, disp, Some(c), radius, strength, decay, sqrt)[k] == disp[k] * decay
  {
  }

  /** A particle strictly inside the radius gets its push added first and is damped afterwards. */
  lemma InsideRadiusPushedThenDamped(base: seq<real>, disp: seq<real>, c: Vec3, radius: real, strength: real,
                                     decay: real, sqrt: real -> real, k: nat)
    requires Shaped(base, disp) && SqrtLaw(sqrt) && k < |disp|
    requires SquaredNorm(Delta(base, k / 3, c)) < radius * radius
    ensures Stepped(base, disp, Some(c), radius, strength, decay, sqrt)[k]
         == (disp[k] + Component(Push(Delta(base, k / 3, c), radius, strength, sqrt), k % 3)) * decay
  {
  }

  /**
   * The push points away from the hover point: it is `delta` scaled by the
   * non-negative factor `s / d` (for non-negative strength).
   */
  lemma PushAlongDelta(delta: Vec3, radius: real, strength: real, sqrt: real -> real)
    requires SqrtLaw(sqrt) && SquaredNorm(delta) < radius * radius && 0.0 <= strength
    ensures var d := Distance(SquaredNorm(delta), sqrt);
      var f := PushScale(d, radius, strength) / d;
      0.0 <= f && Push(delta, radius, strength, sqrt) == Scale(delta, f)
  {
    BelowSquareNonZero(SquaredNorm(delta), radius);
    var d := Distance(SquaredNorm(delta), sqrt);
    var s := PushScale(d, radius, strength);
    var f := s / d;
    ScaleNonNegative(strength, Falloff(d, radius), d, s, f);
    PushByIsScale(delta, d, s, f);
    assert Push(delta, radius, strength, sqrt) == PushBy(delta, d, s);
  }

  /** Dividing a vector by `d` and scaling it by `s` is scaling it by `s / d`. */
  lemma PushByIsScale(delta: Vec3, d: real, s: real, f: real)
    requires d != 0.0 && f == s / d
    ensures PushBy(delta, d, s) == Scale(delta, f)
  {
    DivideThenScale(delta.x, d, s, f);
    DivideThenScale(delta.y, d, s, f);
    DivideThenScale(delta.z, d, s, f);
  }

  /** A non-negative strength times a squared falloff, divided by a positive distance, is non-negative. */
  lemma ScaleNonNegative(strength: real, falloff: real, d: real, s: real, f: real)
    requires 0.0 <= strength && 0.0 < d && s == strength * falloff * falloff && f == s / d
    ensures 0.0 <= s && 0.0 <= f
  {
    NonNegativeProduct(strength, falloff * falloff);
    assert s == strength * (falloff * falloff);
    assert f * d == s;
  }

  /** Dividing by `d` and then scaling by `s` is scaling by `s / d`. */
  lemma DivideThenScale(a: real, d: real, s: real, f: real)
    requires d != 0.0 && f == s / d
    ensures (a / d) * s == a * f
  {
    assert f * d == s;
    assert (a / d) * d == a;
    calc {
      (a / d) * s;
      (a / d) * (f * d);
      ((a / d) * d) * f;
      a * f;
    }
  }

  /**
   * Beyond the distance floor the push has length exactly `s`: its squared
   * norm is `s * s`, whatever the direction.
   */
  lemma PushMagnitude(delta: Vec3, radius: real, strength: real, sqrt: real -> real, s: real)
    requires SqrtLaw(sqrt) && DistanceFloor <= SquaredNorm(delta) < radius * radius && 0.0 <= strength
    requires s == PushScale(Distance(SquaredNorm(delta), sqrt), radius, strength)
    ensures SquaredNorm(Push(delta, radius, strength, sqrt)) == s * s
  {
    var n2 := SquaredNorm(delta);
    var d := Distance(n2, sqrt);
    DistanceSquared(n2, sqrt);
    assert n2 == d * d;
    var f := s / d;
    PushAlongDelta(delta, radius, strength, sqrt);
    ScaledNorm(delta, d, s, f);
  }

  /** A vector of squared length `d * d`, scaled by `f` with `f * d == s`, has squared length `s * s`. */
  lemma ScaledNorm(v: Vec3, d: real, s: real, f: real)
    requires SquaredNorm(v) == d * d && d != 0.0 && f == s / d
    ensures SquaredNorm(Scale(v, f)) == s * s
  {
    ScaledSquaredNorm(v.x, v.y, v.z, d, s, f);
  }

  /** The coordinate form of `ScaledNorm`. */
  lemma ScaledSquaredNorm(x: real, y: real, z: real, d: real, s: real, f: real)
    requires x * x + y * y + z * z == d * d && d != 0.0 && f == s / d
    ensures (x * f) * (x * f) + (y * f) * (y * f) + (z * f) * (z * f) == s * s
  {
    assert f * d == s;
    calc {
      (x * f) * (x * f) + (y * f) * (y * f) + (z * f) * (z * f);
      (f * f) * (x * x + y * y + z * z);
      (f * f) * (d * d);
      (f * d) * (f * d);
      s * s;
    }
  }

  /**
   * For a radius above `1e-3` the push scale of every particle inside the
   * radius lies in `[0, strength]`.
   */
  lemma PushScaleBounds(d2: real, radius: real, strength: real, sqrt: real -> real)
    requires SqrtLaw(sqrt) && 0.0 <= d2 < radius * radius && 0.001 < radius && 0.0 <= strength
    ensures 0.0 <= PushScale(Distance(d2, sqrt), radius, strength) <= strength
  {
    var d := Distance(d2, sqrt);
    DistanceSquared(d2, sqrt);
    if d2 >= DistanceFloor {
      assert d * d == d2;
      SquareLess(d, radius);
    } else {
      assert DistanceFloor == 0.001 * 0.001;
      SqrtUnique(sqrt, DistanceFloor, 0.001);
    }
    assert 0.0 < d < radius;
    var q := d / radius;
    assert q * radius == d;
    assert 0.0 < q < 1.0;
    var f := Falloff(d, radius);
    assert 0.0 < f <= 1.0;
    assert f * f <= f;
    assert 0.0 <= f * f <= 1.0;
    assert strength * (f * f) <= strength;
  }

  /**
   * The falloff is monotone: a farther particle (measured by the distance
   * used, up to the radius) never gets a larger push scale, and a particle
   * at the radius gets none.
   */
  lemma PushScaleMonotone(d1: real, d2: real, radius: real, strength: real)
    requires 0.0 <= d1 <= d2 <= radius && 0.0 < radius && 0.0 <= strength
    ensures PushScale(d2, radius, strength) <= PushScale(d1, radius, strength)
    ensures PushScale(radius, radius, strength) == 0.0
  {
    var f1, f2 := Falloff(d1, radius), Falloff(d2, radius);
    assert d1 / radius <= d2 / radius <= 1.0;
    assert 0.0 <= f2 <= f1;
    assert f2 * f2 <= f1 * f1 by {
      assert f2 * f2 <= f2 * f1;
      assert f2 * f1 <= f1 * f1;
    }
    assert strength * (f2 * f2) <= strength * (f1 * f1);
  }

  /**
   * A particle whose rest position is exactly the hover point has a zero
   * offset: the floored distance keeps the step finite, and the push is zero,
   * so the particle is only damped.
   */
  lemma CoincidentParticleNotPushed(base: seq<real>, disp: seq<real>, c: Vec3, radius: real, strength: real,
                                    decay: real, sqrt: real -> real, k: nat)
    requires Shaped(base, disp) && SqrtLaw(sqrt) && k < |disp|
    requires base[3 * (k / 3)] == c.x && base[3 * (k / 3) + 1] == c.y && base[3 * (k / 3) + 2] == c.z
    ensures Stepped(base, disp, Some(c), radius, strength, decay, sqrt)[k] == disp[k] * decay
  {
    var delta := Delta(base, k / 3, c);
    assert delta == Vec3(0.0, 0.0, 0.0);
    if 0.0 < radius * radius {
      ZeroOffsetZeroPush(radius, strength, sqrt);
      calc {
        Stepped(base, disp, Some(c), radius, strength, decay, sqrt)[k];
      == { InsideRadiusPushedThenDamped(base, disp, c, radius, strength, decay, sqrt, k); }
        (disp[k] + Component(Push(delta, radius, strength, sqrt), k % 3)) * decay;
      ==
        (disp[k] + 0.0) * decay;
      }
    } else {
      OutsideRadiusOnlyDamped(base, disp, c, radius, strength, decay, sqrt, k);
    }
  }

  /** A zero offset lies inside every non-zero radius and its push is the zero vector. */
  lemma ZeroOffsetZeroPush(radius: real, strength: real, sqrt: real -> real)
    requires SqrtLaw(sqrt) && 0.0 < radius * radius
    ensures SquaredNorm(Vec3(0.0, 0.0, 0.0)) < radius * radius
    ensures Push(Vec3(0.0, 0.0, 0.0), radius, strength, sqrt) == Vec3(0.0, 0.0, 0.0)
  {
    var zero := Vec3(0.0, 0.0, 0.0);
    calc {
      SquaredNorm(zero);
    ==
      0.0;
    <
      radius * radius;
    }
    var d := Distance(SquaredNorm(zero), sqrt);
    var s := PushScale(d, radius, strength);
    assert zero.x / d == 0.0 && zero.y / d == 0.0 && zero.z / d == 0.0;
    assert Push(zero, radius, strength, sqrt) == Vec3((zero.x / d) * s, (zero.y / d) * s, (zero.z / d) * s);
  }

  /**
   * From the distance floor up to the radius the push never grows with the
   * distance: of two particles inside the radius, the farther one gets a push
   * no longer than the nearer one's.
   */
  lemma PushMonotone(delta1: Vec3, delta2: Vec3, radius: real, strength: real, sqrt: real -> real)
    requires SqrtLaw(sqrt) && 0.0 < radius && 0.0 <= strength
    requires DistanceFloor <= SquaredNorm(delta1) <= SquaredNorm(delta2) < radius * radius
    ensures SquaredNorm(Push(delta2, radius, strength, sqrt)) <= SquaredNorm(Push(delta1, radius, strength, sqrt))
  {
    var n1, n2 := SquaredNorm(delta1), SquaredNorm(delta2);
    var s1 := PushScale(Distance(n1, sqrt), radius, strength);
    var s2 := PushScale(Distance(n2, sqrt), radius, strength);
    PushMagnitude(delta1, radius, strength, sqrt, s1);
    PushMagnitude(delta2, radius, strength, sqrt, s2);
    ScalesOrdered(n1, n2, radius, strength, sqrt);
    SquareMonotone(s2, s1);
  }

  /** From the floor up to the radius, the push scale is non-negative and does not grow with the squared distance. */
  lemma ScalesOrdered(n1: real, n2: real, radius: real, strength: real, sqrt: real -> real)
    requires SqrtLaw(sqrt) && 0.0 < radius && 0.0 <= strength
    requires DistanceFloor <= n1 <= n2 < radius * radius
    ensures 0.0 <= PushScale(Distance(n2, sqrt), radius, strength) <= PushScale(Distance(n1, sqrt), radius, strength)
  {
    var d1, d2 := Distance(n1, sqrt), Distance(n2, sqrt);
    DistanceSquared(n1, sqrt);
    DistanceSquared(n2, sqrt);
    assert d1 * d1 == n1 && d2 * d2 == n2;
    SquareLess(d2, d1);
    SquareLess(d2, radius);
    PushScaleMonotone(d1, d2, radius, strength);
    var s2 := PushScale(d2, radius, strength);
    ScaleNonNegative(strength, Falloff(d2, radius), d2, s2, s2 / d2);
  }

  /**
   * Below the distance floor the push is not monotone: with the caller's
   * radius `0.35` and strength `0.015`, a particle on the hover point gets no
   * push, while one at any distance `x` in `(0, 1e-3)` along the x axis is
   * pushed outwards.
   */
  lemma SubFloorPushGrows(x: real, sqrt: real -> real)
    requires SqrtLaw(sqrt) && 0.0 < x < 0.001
    ensures SquaredNorm(Vec3(x, 0.0, 0.0)) < 0.35 * 0.35
    ensures Push(Vec3(0.0, 0.0, 0.0), 0.35, 0.015, sqrt).x == 0.0
    ensures Push(Vec3(x, 0.0, 0.0), 0.35, 0.015, sqrt).x > 0.0
  {
    var delta := Vec3(x, 0.0, 0.0);
    SubFloorDistance(x, sqrt);
    assert Push(delta, 0.35, 0.015, sqrt).x > 0.0 by {
      var d := Distance(SquaredNorm(delta), sqrt);
      var falloff := Falloff(d, 0.35);
      assert falloff == 1.0 - 0.001 / 0.35;
      var s := PushScale(d, 0.35, 0.015);
      PositiveTimesPositive(0.015 * falloff, falloff);
      assert Push(delta, 0.35, 0.015, sqrt) == PushBy(delta, d, s);
      PositiveTimesPositive(x / d, s);
      assert PushBy(delta, d, s).x == (x / d) * s;
    }
    assert Push(Vec3(0.0, 0.0, 0.0), 0.35, 0.015, sqrt).x == 0.0 by {
      ZeroOffsetZeroPush(0.35, 0.015, sqrt);
    }
  }

  /** An offset `x` below `1e-3` along the x axis is under the floor, so the distance used is `1e-3`. */
  lemma SubFloorDistance(x: real, sqrt: real -> real)
    requires SqrtLaw(sqrt) && 0.0 < x < 0.001
    ensures SquaredNorm(Vec3(x, 0.0, 0.0)) < DistanceFloor < 0.35 * 0.35
    ensures Distance(SquaredNorm(Vec3(x, 0.0, 0.0)), sqrt) == 0.001
  {
    SquareLess(x, 0.001);
    calc {
      SquaredNorm(Vec3(x, 0.0, 0.0));
    ==
      x * x;
    <
      DistanceFloor;
    <
      0.35 * 0.35;
    }
    SqrtUnique(sqrt, DistanceFloor, 0.001);
  }


  /**
   * A step is local: slot `k` of the new displacements depends only on the
   * rest position of its own particle `k / 3` and on its own old value.
   */
  lemma StepIsLocal(b1: seq<real>, d1: seq<real>, b2: seq<real>, d2: seq<real>, k: nat, hover: Option<Vec3>,
                    radius: real, strength: real, decay: real, sqrt: real -> real)
    requires Shaped(b1, d1) && Shaped(b2, d2) && SqrtLaw(sqrt) && k < |d1| && k < |d2|
    requires b1[3 * (k / 3)] == b2[3 * (k / 3)]
    requires b1[3 * (k / 3) + 1] == b2[3 * (k / 3) + 1]
    requires b1[3 * (k / 3) + 2] == b2[3 * (k / 3) + 2]
    requires d1[k] == d2[k]
    ensures Stepped(b1, d1, hover, radius, strength, decay, sqrt)[k] == Stepped(b2, d2, hover, radius, strength, decay, sqrt)[k]
  {
    RepelledSlotIsLocal(b1, d1, b2, d2, k, hover, radius, strength, sqrt);
    var r1 := Repelled(b1, d1, hover, radius, strength, sqrt);
    var r2 := Repelled(b2, d2, hover, radius, strength, sqrt);
    assert r1[k] == r2[k];
  }

  /** The repulsion pass alone is local in the same sense. */
  lemma RepelledSlotIsLocal(b1: seq<real>, d1: seq<real>, b2: seq<real>, d2: seq<real>, k: nat, hover: Option<Vec3>,
                            radius: real, strength: real, sqrt: real -> real)
    requires Shaped(b1, d1) && Shaped(b2, d2) && SqrtLaw(sqrt) && k < |d1| && k < |d2|
    requires b1[3 * (k / 3)] == b2[3 * (k / 3)]
    requires b1[3 * (k / 3) + 1] == b2[3 * (k / 3) + 1]
    requires b1[3 * (k / 3) + 2] == b2[3 * (k / 3) + 2]
    requires d1[k] == d2[k]
    ensures RepelledSlot(b1, d1, k, hover, radius, strength, sqrt) == RepelledSlot(b2, d2, k, hover, radius, strength, sqrt)
  {
    if hover.Some? {
      assert Delta(b1, k / 3, hover.value) == Delta(b2, k / 3, hover.value);
    }
  }
}
