/**
 * The point-distribution generator of `createPointCloud`
 * (components/DotGlobe.jsx): `count` points laid on the unit sphere along a
 * golden-angle spiral, written into a flat buffer of `3 * count` reals as
 * x, y, z triples.
 */
module Sphere {
  import opened RealMath

  /** The sphere radius the generator scales every coordinate by. */
  const SphereRadius: real := 1.0

  /** The golden ratio `(1 + sqrt(5)) / 2`. */
  function Golden(m: MathLib): (g: real)
    requires SqrtLaw(m.sqrt)
    ensures g >= 0.5
  {
    Root(m.sqrt, 5.0);
    (1.0 + m.sqrt(5.0)) / 2.0
  }

  /** The angle between consecutive points of the spiral, `2 * pi / golden`. */
  function AngleIncrement(m: MathLib): real
    requires SqrtLaw(m.sqrt)
  {
    (2.0 * m.pi) / Golden(m)
  }

  /** The height of point `i`: `1 - 2 * i / (count - 1)`, from the north pole to the south pole. */
  function Latitude(i: nat, count: nat): real
    requires count >= 2
  {
    1.0 - 2.0 * ((i as real) / ((count - 1) as real))
  }

  /** The radius `sqrt(1 - y*y)` of the horizontal circle at height `y`. */
  function RingRadius(y: real, m: MathLib): real
  {
    m.sqrt(1.0 - y * y)
  }

  /** The azimuth of point `i`: `i` golden-angle increments. */
  function Azimuth(i: nat, m: MathLib): real
    requires SqrtLaw(m.sqrt)
  {
    (i as real) * AngleIncrement(m)
  }

  /** The point at height `y` and azimuth `phi` on the ring of radius `RingRadius(y, m)`. */
  function RingPoint(y: real, phi: real, m: MathLib): Vec3
  {
    Vec3(m.cos(phi) * RingRadius(y, m), y, m.sin(phi) * RingRadius(y, m))
  }

  /** Point `i` of the spiral of `count` points (before scaling by `SphereRadius`). */
  function SpiralPoint(i: nat, count: nat, m: MathLib): Vec3
    requires count >= 2 && SqrtLaw(m.sqrt)
  {
    RingPoint(Latitude(i, count), Azimuth(i, m), m)
  }

  /** Slot `k` of the generated buffer: coordinate `k % 3` of point `k / 3`. */
  function PositionSlot(k: nat, count: nat, m: MathLib): real
    requires count >= 2 && SqrtLaw(m.sqrt) && k < 3 * count
  {
    Component(SpiralPoint(k / 3, count, m), k % 3) * SphereRadius
  }

  /** The whole generated buffer. */
  function SpherePositions(count: nat, m: MathLib): seq<real>
    requires count >= 2 && SqrtLaw(m.sqrt)
  {
    seq(3 * count, k requires 0 <= k < 3 * count => PositionSlot(k, count, m))
  }

  /**
   * The position loop of `createPointCloud`: allocates a buffer of `3 * count`
   * slots and writes point `i` into slots `3i`, `3i+1`, `3i+2`.
   */
  method FillPositions(count: nat, m: MathLib) returns (positions: array<real>)
    requires count >= 2 && SqrtLaw(m.sqrt)
    ensures fresh(positions)
    ensures positions[..] == SpherePositions(count, m)
  {
    positions := new real[count * 3];
    var angleInc := GoldenAngle(m);
    ghost var target, p0 := SpherePositions(count, m), positions[..];
    var i := 0;
    while i < count
      invariant 0 <= i <= count
      invariant Agrees(positions[..], target, p0, 3 * i)
    {
      ghost var prev := positions[..];
      PlacePoint(positions, i, count, m, angleInc);
      assert Agrees(positions[..], target, p0, 3 * i + 3) by {
        SpherePositionsLayout(count, m, i);
        ExtendAgreement(prev, positions[..], target, p0, 3 * i);
      }
      i := i + 1;
    }
    AgreesEverywhere(positions[..], target, p0);
  }

  /** The golden ratio and the angle increment, computed once before the position loop. */
  method GoldenAngle(m: MathLib) returns (angleInc: real)
    requires SqrtLaw(m.sqrt)
    ensures angleInc == AngleIncrement(m)
  {
    var golden := (1.0 + m.sqrt(5.0)) / 2.0;
    assert golden == Golden(m);
    angleInc := (2.0 * m.pi) / golden;
  }

  /** One iteration of the position loop: computes point `i` and writes its three slots, and nothing else. */
  method PlacePoint(positions: array<real>, i: nat, count: nat, m: MathLib, angleInc: real)
    requires count >= 2 && SqrtLaw(m.sqrt) && i < count && positions.Length == 3 * count
    requires angleInc == AngleIncrement(m)
    modifies positions
    ensures forall k :: 0 <= k < positions.Length && (k < 3 * i || 3 * i + 3 <= k) ==> positions[k] == old(positions[k])
    ensures positions[3 * i] == SpiralPoint(i, count, m).x * SphereRadius
    ensures positions[3 * i + 1] == SpiralPoint(i, count, m).y * SphereRadius
    ensures positions[3 * i + 2] == SpiralPoint(i, count, m).z * SphereRadius
  {
    var radius := SphereRadius;
    var t := (i as real) / ((count - 1) as real);
    var y := 1.0 - 2.0 * t;
    var r := m.sqrt(1.0 - y * y);
    var phi := (i as real) * angleInc;
    var x := m.cos(phi) * r;
    var z := m.sin(phi) * r;
    assert y == Latitude(i, count) && phi == Azimuth(i, m);
    SpiralPointFromLoop(i, count, m, y, r, phi, x, z);
    positions[i * 3 + 0] := x * radius;
    positions[i * 3 + 1] := y * radius;
    positions[i * 3 + 2] := z * radius;
  }

  /** The values the loop body computes for point `i` are the coordinates of `SpiralPoint(i, count, m)`. */
  lemma SpiralPointFromLoop(i: nat, count: nat, m: MathLib, y: real, r: real, phi: real, x: real, z: real)
    requires count >= 2 && SqrtLaw(m.sqrt)
    requires y == Latitude(i, count) && r == m.sqrt(1.0 - y * y) && phi == Azimuth(i, m)
    requires x == m.cos(phi) * r && z == m.sin(phi) * r
    ensures SpiralPoint(i, count, m) == Vec3(x, y, z)
  {
    RingPointFromLoop(y, r, phi, x, z, m);
  }

  /** The loop's ring radius `r` and coordinates `x`, `z` at height `y` and azimuth `phi` form `RingPoint(y, phi, m)`. */
  lemma RingPointFromLoop(y: real, r: real, phi: real, x: real, z: real, m: MathLib)
    requires r == m.sqrt(1.0 - y * y) && x == m.cos(phi) * r && z == m.sin(phi) * r
    ensures RingPoint(y, phi, m) == Vec3(x, y, z)
  {
    assert r == RingRadius(y, m);
  }

  /** The generated buffer has exactly `3 * count` slots, holding point `i` at `3i`, `3i+1`, `3i+2`. */
  lemma SpherePositionsLayout(count: nat, m: MathLib, i: nat)
    requires count >= 2 && SqrtLaw(m.sqrt) && i < count
    ensures |SpherePositions(count, m)| == 3 * count
    ensures SpherePositions(count, m)[3 * i] == SpiralPoint(i, count, m).x
    ensures SpherePositions(count, m)[3 * i + 1] == SpiralPoint(i, count, m).y
    ensures SpherePositions(count, m)[3 * i + 2] == SpiralPoint(i, count, m).z
  {
    assert (3 * i) / 3 == i && (3 * i) % 3 == 0;
    assert (3 * i + 1) / 3 == i && (3 * i + 1) % 3 == 1;
    assert (3 * i + 2) / 3 == i && (3 * i + 2) % 3 == 2;
  }

  /** The first point sits at height 1 and the last at height -1. */
  lemma LatitudeEnds(count: nat)
    requires count >= 2
    ensures Latitude(0, count) == 1.0
    ensures Latitude(count - 1, count) == -1.0
  {
  }

  /** Every point's height lies in [-1, 1]. */
  lemma LatitudeBounds(i: nat, count: nat)
    requires count >= 2 && i < count
    ensures -1.0 <= Latitude(i, count) <= 1.0
  {
    var t := (i as real) / ((count - 1) as real);
    assert t * ((count - 1) as real) == i as real;
    assert 0.0 <= t <= 1.0;
  }

  /** Heights strictly decrease along the spiral. */
  lemma LatitudeDecreasing(i: nat, j: nat, count: nat)
    requires count >= 2 && i < j
    ensures Latitude(j, count) < Latitude(i, count)
  {
    var c := (count - 1) as real;
    assert (j as real) / c - (i as real) / c == ((j - i) as real) / c;
  }

  /**
   * Under the square-root and trigonometric laws every generated point lies
   * on the unit sphere: `x*x + z*z == 1 - y*y`, so the squared norm is 1.
   */
  lemma SpiralPointOnUnitSphere(i: nat, count: nat, m: MathLib)
    requires count >= 2 && i < count && Lawful(m)
    ensures var p := SpiralPoint(i, count, m);
      p.x * p.x + p.z * p.z == 1.0 - p.y * p.y && SquaredNorm(p) == 1.0
  {
    LatitudeBounds(i, count);
    RingPointOnUnitSphere(Latitude(i, count), Azimuth(i, m), m);
  }

  /** For a height `y` in [-1, 1] the ring point at any azimuth lies on the unit sphere. */
  lemma RingPointOnUnitSphere(y: real, phi: real, m: MathLib)
    requires -1.0 <= y <= 1.0 && Lawful(m)
    ensures var p := RingPoint(y, phi, m);
      p.x * p.x + p.z * p.z == 1.0 - p.y * p.y && SquaredNorm(p) == 1.0
  {
    NonNegativeProduct(1.0 - y, 1.0 + y);
    assert 1.0 - y * y == (1.0 - y) * (1.0 + y);
    var r := RingRadius(y, m);
    Root(m.sqrt, 1.0 - y * y);
    var c, s := m.cos(phi), m.sin(phi);
    Pythagoras(m.cos, m.sin, phi);
    calc {
      (c * r) * (c * r) + (s * r) * (s * r);
      (c * c + s * s) * (r * r);
      r * r;
    }
  }
}
