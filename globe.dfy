/**
 * The physics buffers of the DotGlobe component (components/DotGlobe.jsx):
 * the rest positions (`basePositionsRef`), the displacements
 * (`displacementsRef`) and the rendered position array of the point cloud's
 * geometry.  `Field` is their abstract value; `StepField`, `ClearField` and
 * `Rebuilt` say what one simulation step, the "clear scatter" button and a
 * (re)initialisation do to it; `ParticleBuffers` updates the arrays in place
 * and is proved against those functions.
 */
module Globe {
  import opened RealMath
  import opened Scatter
  import Sphere

  /** The three buffers, or none of them before the first initialisation. */
  datatype Field = Unallocated | Buffers(base: seq<real>, disp: seq<real>, pos: seq<real>)

  /** Three buffers of one length, made of whole particles. */
  predicate WellFormed(f: Field)
  {
    f.Buffers? ==> Shaped(f.base, f.disp) && |f.pos| == |f.disp|
  }

  /** Every rendered slot is its rest position plus its displacement. */
  predicate Coherent(f: Field)
    requires WellFormed(f)
  {
    f.Buffers? ==> f.pos == Applied(f.base, f.disp)
  }

  /** A freshly allocated, zero-filled buffer of `n` slots. */
  function Zeros(n: nat): (z: seq<real>)
    ensures |z| == n
  {
    seq(n, _ => 0.0)
  }

  /** One simulation step: new displacements, then positions recomputed from them. */
  function StepField(f: Field, hover: Option<Vec3>, radius: real, strength: real, decay: real,
                     sqrt: real -> real): (r: Field)
    requires WellFormed(f) && SqrtLaw(sqrt)
    ensures WellFormed(r) && r.Buffers? == f.Buffers?
  {
    match f
    case Unallocated => f
    case Buffers(b, d, _) =>
      var nd := Stepped(b, d, hover, radius, strength, decay, sqrt);
      Buffers(b, nd, Applied(b, nd))
  }

  /** "Clear scatter": displacements zero-filled, rest positions copied into the rendered array. */
  function ClearField(f: Field): (r: Field)
    requires WellFormed(f)
    ensures WellFormed(r)
  {
    match f
    case Unallocated => f
    case Buffers(b, d, _) => Buffers(b, Zeros(|d|), b)
  }

  /** The buffers after (re)initialisation from a freshly generated position array. */
  function Rebuilt(generated: seq<real>): Field
  {
    Buffers(generated, Zeros(|generated|), generated)
  }

  /** Successive animation frames, frame `j` seeing hover point `hovers[j]`. */
  function Run(f: Field, hovers: seq<Option<Vec3>>, radius: real, strength: real, decay: real,
               sqrt: real -> real): (r: Field)
    requires WellFormed(f) && SqrtLaw(sqrt)
    ensures WellFormed(r)
    decreases |hovers|
  {
    if hovers == [] then f
    else Run(StepField(f, hovers[0], radius, strength, decay, sqrt), hovers[1..], radius, strength, decay, sqrt)
  }

  /**
   * A step never writes the rest positions, keeps every length, and leaves
   * each rendered slot equal to rest position plus the updated displacement.
   */
  lemma StepKeepsRestAndCoherence(f: Field, hover: Option<Vec3>, radius: real, strength: real, decay: real,
                                  sqrt: real -> real)
    requires WellFormed(f) && SqrtLaw(sqrt)
    ensures var r := StepField(f, hover, radius, strength, decay, sqrt);
      Coherent(r) &&
      (f.Unallocated? ==> r == f) &&
      (f.Buffers? ==> r.base == f.base && |r.disp| == |f.disp| && |r.pos| == |f.pos|)
  {
  }

  /**
   * After "clear scatter" every displacement is zero and every rendered slot
   * equals its rest position, whatever the prior state; with no buffers it
   * does nothing.
   */
  lemma ClearZeroesEverything(f: Field)
    requires WellFormed(f)
    ensures var r := ClearField(f);
      (f.Unallocated? ==> r == f) &&
      (f.Buffers? ==>
         r.base == f.base && |r.disp| == |f.disp| && r.pos == r.base &&
         (forall k :: 0 <= k < |r.disp| ==> r.disp[k] == 0.0) &&
         Coherent(r))
  {
    if f.Buffers? {
      var r := ClearField(f);
      assert Applied(r.base, r.disp) == r.base;
    }
  }

  /** Clearing twice is the same as clearing once. */
  lemma ClearIdempotent(f: Field)
    requires WellFormed(f)
    ensures ClearField(ClearField(f)) == ClearField(f)
  {
  }

  /**
   * (Re)initialisation from the generator: the rest positions are an
   * element-for-element copy of the `3 * count` generated slots, the
   * displacements are as many zeros, and the rendered array is the generated
   * one itself.
   */
  lemma RebuiltFromSphere(count: nat, m: MathLib)
    requires count >= 2 && SqrtLaw(m.sqrt)
    ensures var g := Sphere.SpherePositions(count, m);
      var r := Rebuilt(g);
      WellFormed(r) && Coherent(r) &&
      |r.base| == 3 * count && r.base == g && r.pos == g &&
      |r.disp| == 3 * count && (forall k :: 0 <= k < |r.disp| ==> r.disp[k] == 0.0)
  {
    var g := Sphere.SpherePositions(count, m);
    assert Applied(g, Zeros(|g|)) == g;
  }

  /** Damping by `a` and then by `b` is damping by `c == a * b`. */
  lemma DampedTwice(s: seq<real>, a: real, b: real, c: real)
    requires c == a * b
    ensures Damped(Damped(s, a), b) == Damped(s, c)
  {
    forall k | 0 <= k < |s|
      ensures Damped(Damped(s, a), b)[k] == Damped(s, c)[k]
    {
      calc {
        Damped(Damped(s, a), b)[k];
        (s[k] * a) * b;
        s[k] * (a * b);
        s[k] * c;
      }
    }
  }

  /**
   * Pure relaxation: over `T` frames with no hover point (or with zero
   * strength, as when scatter is switched off) the displacements become
   * `disp0 * decay^T` slot by slot, the rest positions stay as they were,
   * and after at least one frame the rendered array is coherent.
   */
  lemma {:induction false} RelaxationRun(f: Field, hovers: seq<Option<Vec3>>, radius: real, strength: real,
                                         decay: real, sqrt: real -> real)
    requires WellFormed(f) && SqrtLaw(sqrt) && f.Buffers?
    requires strength == 0.0 || forall j :: 0 <= j < |hovers| ==> hovers[j] == None
    ensures var r := Run(f, hovers, radius, strength, decay, sqrt);
      r.Buffers? && r.base == f.base &&
      r.disp == Damped(f.disp, Pow(decay, |hovers|)) &&
      (|hovers| > 0 ==> Coherent(r))
    decreases |hovers|
  {
    if hovers == [] {
      assert Damped(f.disp, 1.0) == f.disp;
    } else {
      var f1 := StepField(f, hovers[0], radius, strength, decay, sqrt);
      if strength == 0.0 {
        ZeroStrengthOnlyDamps(f.base, f.disp, hovers[0], radius, decay, sqrt);
      } else {
        assert hovers[0] == None;
        NoHoverOnlyDamps(f.base, f.disp, radius, strength, decay, sqrt);
      }
      assert f1.disp == Damped(f.disp, decay);
      var rest := hovers[1..];
      assert strength == 0.0 || forall j :: 0 <= j < |rest| ==> rest[j] == None by {
        if strength != 0.0 {
          forall j | 0 <= j < |rest|
            ensures rest[j] == None
          {
            assert rest[j] == hovers[j + 1];
          }
        }
      }
      RelaxationRun(f1, rest, radius, strength, decay, sqrt);
      var r := Run(f, hovers, radius, strength, decay, sqrt);
      assert r == Run(f1, rest, radius, strength, decay, sqrt);
      calc {
        r.disp;
        Damped(f1.disp, Pow(decay, |rest|));
        Damped(Damped(f.disp, decay), Pow(decay, |rest|));
        { assert Pow(decay, |hovers|) == decay * Pow(decay, |rest|);
          DampedTwice(f.disp, decay, Pow(decay, |rest|), Pow(decay, |hovers|)); }
        Damped(f.disp, Pow(decay, |hovers|));
      }
      if rest == [] {
        StepKeepsRestAndCoherence(f, hovers[0], radius, strength, decay, sqrt);
      }
    }
  }

  /**
   * With the component's kind of decay factor, `0 < decay < 1`, pure
   * relaxation never grows a displacement, and after at least one frame it
   * strictly shrinks every non-zero one.
   */
  lemma RelaxationShrinks(f: Field, hovers: seq<Option<Vec3>>, radius: real, strength: real,
                          decay: real, sqrt: real -> real, k: nat)
    requires WellFormed(f) && SqrtLaw(sqrt) && f.Buffers? && k < |f.disp|
    requires strength == 0.0 || forall j :: 0 <= j < |hovers| ==> hovers[j] == None
    requires 0.0 < decay < 1.0
    ensures var r := Run(f, hovers, radius, strength, decay, sqrt);
      r.Buffers? && k < |r.disp| && Abs(r.disp[k]) <= Abs(f.disp[k]) &&
      (|hovers| > 0 && f.disp[k] != 0.0 ==> Abs(r.disp[k]) < Abs(f.disp[k]))
  {
    var p := Pow(decay, |hovers|);
    assert 0.0 < p <= 1.0 && (|hovers| > 0 ==> p < 1.0) by {
      PowBounds(decay, |hovers|);
      if |hovers| > 0 {
        PowBounds(decay, |hovers| - 1);
      }
    }
    RelaxationRun(f, hovers, radius, strength, decay, sqrt);
    DampedShrinks(f.disp, p, k);
  }

  /** Damping by `p` in (0, 1] never grows a slot's magnitude, and damping by `p < 1` shrinks a non-zero one. */
  lemma DampedShrinks(s: seq<real>, p: real, k: nat)
    requires 0.0 < p <= 1.0 && k < |s|
    ensures Abs(Damped(s, p)[k]) <= Abs(s[k])
    ensures p < 1.0 && s[k] != 0.0 ==> Abs(Damped(s, p)[k]) < Abs(s[k])
  {
    ScaledMagnitude(s[k], p);
  }

  /** Scaling by `p` in (0, 1] does not grow a magnitude, and scaling by `p < 1` shrinks a non-zero one. */
  lemma ScaledMagnitude(x: real, p: real)
    requires 0.0 < p <= 1.0
    ensures Abs(x * p) == Abs(x) * p
    ensures Abs(x * p) <= Abs(x)
    ensures p < 1.0 && x != 0.0 ==> Abs(x * p) < Abs(x)
  {
    if x < 0.0 {
      assert x * p < 0.0;
      assert Abs(x * p) == (-x) * p;
    } else {
      assert 0.0 <= x * p;
    }
  }

  /** `new Float32Array(a)`: a fresh element-for-element copy of `a`. */
  method CopyOf(a: array<real>) returns (c: array<real>)
    ensures fresh(c) && c[..] == a[..]
  {
    c := new real[a.Length];
    var k := 0;
    while k < a.Length
      invariant 0 <= k <= a.Length
      invariant forall j :: 0 <= j < k ==> c[j] == a[j]
    {
      c[k] := a[k];
      k := k + 1;
    }
  }

  /** `new Float32Array(n)`: a fresh zero-filled buffer of `n` slots. */
  method ZeroArray(n: nat) returns (z: array<real>)
    ensures fresh(z) && z[..] == Zeros(n)
  {
    z := new real[n];
    var k := 0;
    while k < n
      invariant 0 <= k <= n
      invariant forall j :: 0 <= j < k ==> z[j] == 0.0
    {
      z[k] := 0.0;
      k := k + 1;
    }
  }

  /**
   * The component's physics buffers: `base` is `basePositionsRef.current`,
   * `disp` is `displacementsRef.current` and `pos` is the position array of
   * `pointsRef.current`'s geometry.  All three start out null.
   */
  class ParticleBuffers {
    var base: array?<real>
    var disp: array?<real>
    var pos: array?<real>

    /** Either no buffers, or three distinct buffers of one length made of whole particles. */
    ghost predicate Valid()
      reads this
    {
      (base == null && disp == null && pos == null) ||
      (base != null && disp != null && pos != null &&
       base != disp && base != pos && disp != pos &&
       base.Length == disp.Length == pos.Length && pos.Length % 3 == 0)
    }

    /** The abstract value of the buffers. */
    ghost function Snapshot(): (f: Field)
      reads this, base, disp, pos
      ensures Valid() ==> WellFormed(f)
    {
      if base == null || disp == null || pos == null then Unallocated
      else Buffers(base[..], disp[..], pos[..])
    }

    constructor ()
      ensures Valid() && Snapshot() == Unallocated
    {
      base, disp, pos := null, null, null;
    }

    /**
     * `applyScatterPhysics`: the repulsion pass (only with a hover point),
     * then the damping pass that also writes the rendered positions.
     */
    method Step(hover: Option<Vec3>, radius: real, strength: real, decay: real, m: MathLib)
      requires Valid() && SqrtLaw(m.sqrt)
      modifies disp, pos
      ensures Valid()
      ensures Snapshot() == StepField(old(Snapshot()), hover, radius, strength, decay, m.sqrt)
    {
      if pos == null || base == null || disp == null {
        return;
      }
      var n := pos.Length / 3;
      assert 3 * n == pos.Length;
      ghost var b, d0 := base[..], disp[..];
      if hover.Some? {
        Repel(n, hover.value, radius, strength, m);
      } else {
        assert disp[..] == Repelled(b, d0, hover, radius, strength, m.sqrt);
      }
      DampAndApply(n, decay);
    }

    /** The repulsion pass: every particle strictly inside `radius` of `c` is pushed away from it. */
    method Repel(n: nat, c: Vec3, radius: real, strength: real, m: MathLib)
      requires Valid() && base != null && disp != null && pos != null && SqrtLaw(m.sqrt)
      requires 3 * n == pos.Length
      modifies disp
      ensures disp[..] == Repelled(base[..], old(disp[..]), Some(c), radius, strength, m.sqrt)
    {
      ghost var b, d0 := base[..], disp[..];
      ghost var target := Repelled(b, d0, Some(c), radius, strength, m.sqrt);
      var i := 0;
      while i < n
        invariant 0 <= i <= n
        invariant Agrees(disp[..], target, d0, 3 * i)
        invariant base[..] == b
      {
        ghost var prev := disp[..];
        AgreesAhead(prev, target, d0, 3 * i);
        RepelParticle(i, c, radius, strength, m, b, d0, target);
        ExtendAgreement(prev, disp[..], target, d0, 3 * i);
        i := i + 1;
      }
      AgreesEverywhere(disp[..], target, d0);
    }

    /**
     * One iteration of the repulsion loop: particle `i`'s offset from `c` and
     * squared distance, and, strictly inside `radius`, the push added to its
     * three displacement slots.
     */
    method RepelParticle(i: nat, c: Vec3, radius: real, strength: real, m: MathLib,
                         ghost b: seq<real>, ghost d0: seq<real>, ghost target: seq<real>)
      requires Valid() && base != null && disp != null && pos != null && SqrtLaw(m.sqrt)
      requires base[..] == b && |d0| == disp.Length && 3 * i + 2 < disp.Length
      requires target == Repelled(b, d0, Some(c), radius, strength, m.sqrt)
      requires disp[3 * i] == d0[3 * i] && disp[3 * i + 1] == d0[3 * i + 1] && disp[3 * i + 2] == d0[3 * i + 2]
      modifies disp
      ensures forall k :: 0 <= k < disp.Length && (k < 3 * i || 3 * i + 3 <= k) ==> disp[k] == old(disp[k])
      ensures disp[3 * i] == target[3 * i] && disp[3 * i + 1] == target[3 * i + 1] && disp[3 * i + 2] == target[3 * i + 2]
    {
      var bi := i * 3;
      var dx := base[bi] - c.x;
      var dy := base[bi + 1] - c.y;
      var dz := base[bi + 2] - c.z;
      var d2 := dx * dx + dy * dy + dz * dz;
      if d2 < radius * radius {
        var d := m.sqrt(Max(d2, 0.000001));
        assert d == Distance(d2, m.sqrt);
        var falloff := 1.0 - d / radius;
        var s := strength * falloff * falloff;
        RepelledInside(b, d0, i, c, radius, strength, m.sqrt, dx, dy, dz, d2, d, falloff, s);
        Displace(i, (dx / d) * s, (dy / d) * s, (dz / d) * s);
      } else {
        RepelledOutside(b, d0, i, c, radius, strength, m.sqrt, dx, dy, dz, d2);
      }
    }

    /** Adds `(px, py, pz)` to particle `i`'s three displacement slots and changes nothing else. */
    method Displace(i: nat, px: real, py: real, pz: real)
      requires disp != null && 3 * i + 2 < disp.Length
      modifies disp
      ensures forall k :: 0 <= k < disp.Length && (k < 3 * i || 3 * i + 3 <= k) ==> disp[k] == old(disp[k])
      ensures disp[3 * i] == old(disp[3 * i]) + px
      ensures disp[3 * i + 1] == old(disp[3 * i + 1]) + py
      ensures disp[3 * i + 2] == old(disp[3 * i + 2]) + pz
    {
      var bi := i * 3;
      disp[bi] := disp[bi] + px;
      disp[bi + 1] := disp[bi + 1] + py;
      disp[bi + 2] := disp[bi + 2] + pz;
    }

    /** The damping pass: every displacement times `decay`, then every position rest plus displacement. */
    method DampAndApply(n: nat, decay: real)
      requires Valid() && base != null && disp != null && pos != null
      requires 3 * n == pos.Length
      modifies disp, pos
      ensures disp[..] == Damped(old(disp[..]), decay)
      ensures pos[..] == Applied(base[..], disp[..])
    {
      ghost var d0 := disp[..];
      ghost var target := Damped(d0, decay);
      var i := 0;
      while i < n
        invariant 0 <= i <= n
        invariant forall k :: 0 <= k < 3 * i ==> disp[k] == target[k]
        invariant forall k :: 0 <= k < 3 * i ==> pos[k] == base[k] + disp[k]
        invariant forall k :: 3 * i <= k < disp.Length ==> disp[k] == d0[k]
      {
        DampParticle(i, decay, d0, target);
        forall k | 0 <= k < 3 * i + 3
          ensures disp[k] == target[k] && pos[k] == base[k] + disp[k]
        {
          if k >= 3 * i {
            assert k == 3 * i || k == 3 * i + 1 || k == 3 * i + 2;
          }
        }
        i := i + 1;
      }
      assert disp[..] == target;
    }

    /** One iteration of the damping loop: particle `i`'s three displacements are damped, then written out. */
    method DampParticle(i: nat, decay: real, ghost d0: seq<real>, ghost target: seq<real>)
      requires Valid() && base != null && disp != null && pos != null && 3 * i + 2 < disp.Length
      requires |d0| == disp.Length && target == Damped(d0, decay)
      requires disp[3 * i] == d0[3 * i] && disp[3 * i + 1] == d0[3 * i + 1] && disp[3 * i + 2] == d0[3 * i + 2]
      modifies disp, pos
      ensures forall k :: 0 <= k < disp.Length && (k < 3 * i || 3 * i + 3 <= k) ==> disp[k] == old(disp[k]) && pos[k] == old(pos[k])
      ensures disp[3 * i] == target[3 * i] && pos[3 * i] == base[3 * i] + disp[3 * i]
      ensures disp[3 * i + 1] == target[3 * i + 1] && pos[3 * i + 1] == base[3 * i + 1] + disp[3 * i + 1]
      ensures disp[3 * i + 2] == target[3 * i + 2] && pos[3 * i + 2] == base[3 * i + 2] + disp[3 * i + 2]
    {
      var bi := i * 3;
      disp[bi] := disp[bi] * decay;
      disp[bi + 1] := disp[bi + 1] * decay;
      disp[bi + 2] := disp[bi + 2] * decay;

      pos[bi] := base[bi] + disp[bi];
      pos[bi + 1] := base[bi + 1] + disp[bi + 1];
      pos[bi + 2] := base[bi + 2] + disp[bi + 2];
    }

    /** `clearScatter`: zero-fill the displacements, copy the rest positions into the rendered array. */
    method Clear()
      requires Valid()
      modifies disp, pos
      ensures Valid()
      ensures Snapshot() == ClearField(old(Snapshot()))
    {
      if pos == null || disp == null {
        return;
      }
      var k := 0;
      while k < disp.Length
        invariant 0 <= k <= disp.Length
        invariant forall j :: 0 <= j < k ==> disp[j] == 0.0
      {
        disp[k] := 0.0;
        k := k + 1;
      }
      k := 0;
      while k < base.Length
        invariant 0 <= k <= base.Length
        invariant forall j :: 0 <= j < k ==> pos[j] == base[j]
        invariant forall j :: 0 <= j < disp.Length ==> disp[j] == 0.0
      {
        pos[k] := base[k];
        k := k + 1;
      }
      assert disp[..] == Zeros(disp.Length);
    }

    /**
     * The buffer (re)initialisation of both effects: generate `count` points,
     * copy them into fresh rest positions, allocate zero displacements of the
     * same length, and only then swap all three in.
     */
    method Rebuild(count: nat, m: MathLib)
      requires count >= 2 && SqrtLaw(m.sqrt)
      modifies this
      ensures Valid() && fresh(base) && fresh(disp) && fresh(pos)
      ensures Snapshot() == Rebuilt(Sphere.SpherePositions(count, m))
    {
      var positions := Sphere.FillPositions(count, m);
      var copy := CopyOf(positions);
      var zeros := ZeroArray(positions.Length);
      base, disp, pos := copy, zeros, positions;
    }
  }
}
