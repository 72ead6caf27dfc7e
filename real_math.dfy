/**
 * Shared vocabulary of the particle-field model: optional values, 3-vectors,
 * and the host's real-number math library.
 *
 * The host's `Math.sqrt`, `Math.cos`, `Math.sin` and `Math.PI` cannot be
 * defined in Dafny over `real`, so the model receives them as a `MathLib`
 * value and states, as predicates, the laws each operation is assumed to
 * satisfy.  Every member that needs a law says so in its `requires`.
 */
module RealMath {

  /** A value that may be absent (the source's "point or null"). */
  datatype Option<T> = None | Some(value: T)

  /** A point or direction in space. */
  datatype Vec3 = Vec3(x: real, y: real, z: real)

  /** Component `c` (0 = x, 1 = y, 2 = z) of `v`, matching the x, y, z slots of a flat buffer. */
  function Component(v: Vec3, c: nat): real
    requires c < 3
  {
    if c == 0 then v.x else if c == 1 then v.y else v.z
  }

  /** `v` scaled by the factor `f`. */
  function Scale(v: Vec3, f: real): Vec3
  {
    Vec3(v.x * f, v.y * f, v.z * f)
  }

  /** The larger of `a` and `b`, as the host's `Math.max` returns it. */
  function Max(a: real, b: real): (r: real)
    ensures a <= r && b <= r && (r == a || r == b)
  {
    if a > b then a else b
  }

  /** The magnitude of `a`. */
  function Abs(a: real): (r: real)
    ensures 0.0 <= r && (r == a || r == -a)
  {
    if a < 0.0 then -a else a
  }

  /** The squared Euclidean length of `v`. */
  function SquaredNorm(v: Vec3): (r: real)
    ensures 0.0 <= r
  {
    v.x * v.x + v.y * v.y + v.z * v.z
  }

  /** The host's math operations. */
  datatype MathLib = MathLib(sqrt: real -> real, cos: real -> real, sin: real -> real, pi: real)

  /** `sqrt(x)` is the non-negative square root of `x`. */
  ghost predicate RootAt(sqrt: real -> real, x: real)
  {
    0.0 <= sqrt(x) && sqrt(x) * sqrt(x) == x
  }

  /**
   * `sqrt` returns the non-negative square root of every non-negative
   * argument.  The law is used at one argument at a time, through `Root`.
   */
  ghost predicate SqrtLaw(sqrt: real -> real)
  {
    forall x :: 0.0 <= x ==> RootAt(sqrt, x)
  }

  /** The square-root law at the argument `x`. */
  lemma Root(sqrt: real -> real, x: real)
    requires SqrtLaw(sqrt) && 0.0 <= x
    ensures 0.0 <= sqrt(x) && sqrt(x) * sqrt(x) == x
  {
    assert RootAt(sqrt, x);
  }

  /** `cos(a)^2 + sin(a)^2 == 1` at the angle `a`. */
  ghost predicate UnitCircleAt(cos: real -> real, sin: real -> real, a: real)
  {
    cos(a) * cos(a) + sin(a) * sin(a) == 1.0
  }

  /** The Pythagorean identity for every angle; used one angle at a time, through `Pythagoras`. */
  ghost predicate TrigLaw(cos: real -> real, sin: real -> real)
  {
    forall a :: UnitCircleAt(cos, sin, a)
  }

  /** The Pythagorean identity at the angle `a`. */
  lemma Pythagoras(cos: real -> real, sin: real -> real, a: real)
    requires TrigLaw(cos, sin)
    ensures cos(a) * cos(a) + sin(a) * sin(a) == 1.0
  {
    assert UnitCircleAt(cos, sin, a);
  }

  ghost predicate Lawful(m: MathLib)
  {
    SqrtLaw(m.sqrt) && TrigLaw(m.cos, m.sin)
  }

  /** Under the square-root law, the root of `x` is the unique non-negative `r` with `r * r == x`. */
  lemma SqrtUnique(sqrt: real -> real, x: real, r: real)
    requires SqrtLaw(sqrt)
    requires 0.0 <= r && r * r == x
    ensures sqrt(x) == r
  {
    var s := sqrt(x);
    Root(sqrt, x);
    assert 0.0 <= s && s * s == r * r;
    assert (s - r) * (s + r) == 0.0;
    if s + r == 0.0 {
      assert s == 0.0 && r == 0.0;
    } else {
      assert s - r == (s - r) * (s + r) / (s + r);
    }
  }

  /** The square of a non-zero real is positive. */
  lemma PositiveSquare(a: real)
    requires a != 0.0
    ensures 0.0 < a * a
  {
    if a < 0.0 {
      assert (-a) * (-a) == a * a;
    }
  }

  /** The product of two non-negative reals is non-negative. */
  lemma NonNegativeProduct(a: real, b: real)
    requires 0.0 <= a && 0.0 <= b
    ensures 0.0 <= a * b
  {
  }

  /** The product of two positive reals is positive. */
  lemma PositiveTimesPositive(a: real, b: real)
    requires 0.0 < a && 0.0 < b
    ensures 0.0 < a * b
  {
  }

  /** A non-negative quantity below `radius * radius` forces a non-zero radius. */
  lemma BelowSquareNonZero(n: real, radius: real)
    requires 0.0 <= n < radius * radius
    ensures radius != 0.0
  {
  }

  /** Squaring is monotone on the non-negative reals. */
  lemma SquareMonotone(a: real, b: real)
    requires 0.0 <= a <= b
    ensures a * a <= b * b
  {
    calc {
      a * a;
    <= a * b;
    <= b * b;
    }
  }

  /** For non-negative `a` and `b`, `a * a < b * b` exactly when `a < b`. */
  lemma SquareLess(a: real, b: real)
    requires 0.0 <= a && 0.0 <= b
    ensures a * a < b * b <==> a < b
  {
    if a < b {
      calc {
        a * a;
      <= a * b;
      <  b * b;
      }
    } else {
      assert b * b <= b * a;
      assert b * a <= a * a;
    }
  }

  /** `b` raised to the natural power `n`. */
  function Pow(b: real, n: nat): real
  {
    if n == 0 then 1.0 else b * Pow(b, n - 1)
  }

  /** Powers of a base in (0, 1) stay in (0, 1] and never increase. */
  lemma {:induction false} PowBounds(b: real, n: nat)
    requires 0.0 < b < 1.0
    ensures 0.0 < Pow(b, n) <= 1.0
    ensures n > 0 ==> Pow(b, n) < Pow(b, n - 1)
  {
    if n > 0 {
      PowBounds(b, n - 1);
      ShrinkingProduct(b, Pow(b, n - 1), Pow(b, n));
    }
  }

  /** For `0 < b < 1` and `0 < p`, the product `b * p` lies strictly between 0 and `p`. */
  lemma ShrinkingProduct(b: real, p: real, q: real)
    requires 0.0 < b < 1.0 && 0.0 < p && q == b * p
    ensures 0.0 < q < p
  {
    var c := 1.0 - b;
    assert 0.0 < c * p;
    assert p - q == c * p;
    assert 0.0 < q;
  }

  /** `s` matches `target` below slot `j` and `d0` from `j` on. */
  ghost predicate Agrees(s: seq<real>, target: seq<real>, d0: seq<real>, j: nat)
  {
    |s| == |target| == |d0| && j <= |s| && s[..j] == target[..j] && s[j..] == d0[j..]
  }

  /** Where `s` agrees with `target` below `j`, the three slots from `j` still hold `d0`'s values. */
  lemma AgreesAhead(s: seq<real>, target: seq<real>, d0: seq<real>, j: nat)
    requires Agrees(s, target, d0, j) && j + 3 <= |s|
    ensures s[j] == d0[j] && s[j + 1] == d0[j + 1] && s[j + 2] == d0[j + 2]
  {
    assert s[j..][0] == s[j] && s[j..][1] == s[j + 1] && s[j..][2] == s[j + 2];
    assert d0[j..][0] == d0[j] && d0[j..][1] == d0[j + 1] && d0[j..][2] == d0[j + 2];
  }

  /**
   * One more particle agrees: `next` differs from `prev` only in the three
   * slots from `j`, where it matches `target`.
   */
  lemma ExtendAgreement(prev: seq<real>, next: seq<real>, target: seq<real>, d0: seq<real>, j: nat)
    requires Agrees(prev, target, d0, j) && |next| == |prev| && j + 3 <= |next|
    requires forall k :: 0 <= k < |next| && (k < j || j + 3 <= k) ==> next[k] == prev[k]
    requires next[j] == target[j] && next[j + 1] == target[j + 1] && next[j + 2] == target[j + 2]
    ensures Agrees(next, target, d0, j + 3)
  {
    forall k | 0 <= k < j + 3
      ensures next[k] == target[k]
    {
      if k < j {
        assert prev[..j][k] == target[..j][k];
      } else {
        assert k == j || k == j + 1 || k == j + 2;
      }
    }
    forall k | j + 3 <= k < |next|
      ensures next[k] == d0[k]
    {
      assert prev[j..][k - j] == d0[j..][k - j];
    }
    assert next[..j + 3] == target[..j + 3];
    assert next[j + 3..] == d0[j + 3..];
  }

  /** Agreement up to the last slot is equality with `target`. */
  lemma AgreesEverywhere(s: seq<real>, target: seq<real>, d0: seq<real>)
    requires Agrees(s, target, d0, |s|)
    ensures s == target
  {
    assert s == s[..|s|] && target == target[..|s|];
  }
}
