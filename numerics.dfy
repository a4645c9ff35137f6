/** The transcendental operations the physics core borrows from numpy.
    Dafny's `real` has no trigonometry and no roots, so each of them is an
    uninterpreted function value handed to the operations that need it; nothing is
    assumed about them except where a lemma names a property explicitly,
    and then only at the one point it is used. */
module Numerics {

  /** numpy's pi is a floating-point approximation of an irrational number;
      all the model needs is that it is that number to seven places. */
  type PiValue = r: real | 3.1415926 < r < 3.1415927 witness 3.14159265

  /** The numpy operations used by game_state.py:
      `cos`, `sin` (radians), `arctan2(a, b)` (the angle of the point (b, a)),
      `sqrt`, and `pow32(t)`, the value of `t**(3/2)`. */
  datatype Np = Np(
    pi: PiValue,
    cos: real -> real,
    sin: real -> real,
    arctan2: (real, real) -> real,
    sqrt: real -> real,
    pow32: real -> real)

  // The numpy operations applied at a point.
  function Cos(np: Np, t: real): real { np.cos(t) }
  function Sin(np: Np, t: real): real { np.sin(t) }
  function Arctan2(np: Np, a: real, b: real): real { np.arctan2(a, b) }
  function Sqrt(np: Np, t: real): real { np.sqrt(t) }
  function Pow32(np: Np, t: real): real { np.pow32(t) }

  /** Degrees to radians, `np.pi * deg / 180`. */
  function Radians(np: Np, deg: real): real { np.pi * deg / 180.0 }

  /** `np.sqrt` returns the non-negative square root of `t`. */
  ghost predicate SqrtAt(np: Np, t: real)
  {
    0.0 <= Sqrt(np, t) && Sqrt(np, t) * Sqrt(np, t) == t
  }

  /** `t**(3/2)` is the non-negative number whose square is `t` cubed. */
  ghost predicate Pow32At(np: Np, t: real)
  {
    0.0 <= Pow32(np, t) && Pow32(np, t) * Pow32(np, t) == t * t * t
  }

  /** cos and sin of `th` lie on the unit circle. */
  ghost predicate UnitCircleAt(np: Np, th: real)
  {
    Cos(np, th) * Cos(np, th) + Sin(np, th) * Sin(np, th) == 1.0
  }

  /** `arctan2(a, b)` is the angle of the point `(b, a)`: its cosine and
      sine are a positive multiple of `(b, a)`, stated without dividing by
      the length. */
  ghost predicate Arctan2At(np: Np, a: real, b: real)
  {
    var t := Arctan2(np, a, b);
    Cos(np, t) * a == Sin(np, t) * b && 0.0 < Sin(np, t) * a + Cos(np, t) * b
  }

  /** Turning back a quarter turn from `t`: `cos(t - pi/2) = sin t` and
      `sin(t - pi/2) = -cos t`. */
  ghost predicate QuarterTurnAt(np: Np, t: real)
  {
    Cos(np, t - np.pi / 2.0) == Sin(np, t) && Sin(np, t - np.pi / 2.0) == -Cos(np, t)
  }

  /** An exact `t**(3/2)` of a non-negative `t` is 0 exactly at 0 and
      positive elsewhere. */
  lemma Pow32Vanishes(np: Np, t: real)
    requires Pow32At(np, t)
    requires 0.0 <= t
    ensures Pow32(np, t) == 0.0 <==> t == 0.0
    ensures 0.0 < t ==> 0.0 < Pow32(np, t)
  {
    var q := Pow32(np, t);
    if t == 0.0 {
      if q != 0.0 {
        calc {
          0.0;
          q * q;
        >
          0.0;
        }
      }
    } else {
      assert t * t > 0.0;
      assert t * t * t > 0.0;
    }
  }

  /** For non-negative `s`, `s < r` exactly when `r` is positive and
      `s * s < r * r`. */
  lemma RootBelow(s: real, r: real)
    requires 0.0 <= s
    ensures s < r <==> 0.0 < r && s * s < r * r
  {
    if s < r {
      calc {
        s * s;
      <=
        s * r;
      <
        r * r;
      }
    } else if 0.0 < r {
      calc {
        r * r;
      <=
        r * s;
      <=
        s * s;
      }
    }
  }

  /** The exact square root of a positive number is positive. */
  lemma RootPositive(np: Np, t: real)
    requires SqrtAt(np, t)
    requires 0.0 < t
    ensures 0.0 < Sqrt(np, t)
  {
  }

  /** A non-negative square root is unique: if `np.sqrt` is exact at `t`,
      it returns any other non-negative root of `t`. */
  lemma SqrtUnique(np: Np, t: real, s: real)
    requires SqrtAt(np, t)
    requires 0.0 <= s && s * s == t
    ensures Sqrt(np, t) == s
  {
    var q := Sqrt(np, t);
    assert (q - s) * (q + s) == 0.0;
    if q + s == 0.0 {
      assert q == 0.0 && s == 0.0;
    } else {
      assert q - s == (q - s) * (q + s) / (q + s);
    }
  }
}
