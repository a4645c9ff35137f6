/** A planet (`Planet` in game_state.py): a fixed disc with a mass. It
    answers three questions about a point: is the point inside the disc,
    which vector carries the point onto the disc's rim along the line
    through the centre, and what gravitational acceleration acts there. */
module Planets {
  import opened Numerics
  import opened Celestial

  /** A value that may be missing; `None` stands for the NaN pair or the
      division by zero the source runs into. */
  datatype Option<T> = None | Some(value: T)

  /** A planet never moves, so only its centre, mass and radius matter. */
  datatype Planet = Planet(x: real, y: real, m: real, radius: real)

  /** The displacement of the point `(x, y)` from the planet's centre. */
  function Displacement(p: Planet, x: real, y: real): Vec
  {
    Vec(x - p.x, y - p.y)
  }

  /** The squared distance between `(x, y)` and the centre. */
  function Dist2(p: Planet, x: real, y: real): real
  {
    Norm2(Displacement(p, x, y))
  }

  /** The squared distance is never negative, and it is positive exactly
      away from the centre. */
  lemma DistanceFacts(p: Planet, x: real, y: real)
    ensures 0.0 <= Dist2(p, x, y)
    ensures 0.0 < Dist2(p, x, y) <==> (x != p.x || y != p.y)
    ensures Displacement(p, x, y) != Vec(0.0, 0.0) <==> (x != p.x || y != p.y)
  {
    if x != p.x || y != p.y {
      NormPositive(Displacement(p, x, y));
    } else {
      assert Displacement(p, x, y) == Vec(0.0, 0.0);
    }
  }

  /** Planet.collision: the (numpy) distance to the centre is below the
      radius. */
  predicate Collision(np: Np, p: Planet, x: real, y: real)
  {
    Sqrt(np, Dist2(p, x, y)) < p.radius
  }

  /** Planet.vector_to_collision_from: the displacement to the centre,
      scaled by `(dist - radius) / dist`. The source squares the
      displacement towards the centre rather than away from it, which
      gives the same number. At the centre itself `dist` is 0 and numpy
      divides 0 by 0: the result is `None`. */
  function VectorToCollisionFrom(np: Np, p: Planet, x: real, y: real): Option<Vec>
  {
    var dist := Sqrt(np, Dist2(p, x, y));
    if dist == 0.0 then None
    else Some(Vec((dist - p.radius) * (p.x - x) / dist, (dist - p.radius) * (p.y - y) / dist))
  }

  /** Planet.gravity_at with gravitational constant `g`: the acceleration
      `-displ * g * m / dist2**(3/2)`, or `None` where the divisor is 0. */
  function GravityAt(np: Np, p: Planet, x: real, y: real, g: real): Option<Vec>
  {
    var d := Displacement(p, x, y);
    var q := Pow32(np, Dist2(p, x, y));
    if q == 0.0 then None
    else Some(Vec(-d.x * g * p.m / q, -d.y * g * p.m / q))
  }

  /** With an exact square root, a point collides exactly when it lies
      strictly inside a disc of positive radius. */
  lemma CollisionIffInside(np: Np, p: Planet, x: real, y: real)
    requires SqrtAt(np, Dist2(p, x, y))
    ensures Collision(np, p, x, y) <==> 0.0 < p.radius && Dist2(p, x, y) < p.radius * p.radius
  {
    RootBelow(Sqrt(np, Dist2(p, x, y)), p.radius);
  }

  /** Away from the centre, and with an exact square root, the vector is
      defined; it lies on the line through the centre, it carries the
      point exactly onto the rim, and it points away from the centre for a
      point inside the disc and towards it for a point outside. */
  lemma VectorToRim(np: Np, p: Planet, x: real, y: real)
    requires SqrtAt(np, Dist2(p, x, y))
    requires x != p.x || y != p.y
    ensures VectorToCollisionFrom(np, p, x, y).Some?
    ensures var r := VectorToCollisionFrom(np, p, x, y).value;
      var toCentre := Vec(p.x - x, p.y - y);
      && Dot(r, Perp(toCentre)) == 0.0
      && Dist2(p, x + r.x, y + r.y) == p.radius * p.radius
      && (Collision(np, p, x, y) ==> Dot(r, toCentre) < 0.0)
      && (p.radius < Sqrt(np, Dist2(p, x, y)) ==> Dot(r, toCentre) > 0.0)
  {
    var d := Displacement(p, x, y);
    var s := Sqrt(np, Dist2(p, x, y));
    VectorAsScale(np, p, x, y);
    var toCentre := Vec(p.x - x, p.y - y);
    assert toCentre == Scale(-1.0, d);
    var k := (s - p.radius) / s;
    RimGeometry(d, s, p.radius);
    RimPoint(p, x, y, k, p.radius / s);
  }

  /** The geometry of the rim for a displacement `d` of length `s > 0` from
      the centre: the vector `k (-d)` with `k = (s - r) / s` lies along
      `-d`, its dot product with `-d` is `(s - r) s`, which has the sign of
      `s - r`, and `d` scaled by `1 - k = r / s` has length `r`. */
  lemma RimGeometry(d: Vec, s: real, r: real)
    requires 0.0 < s && s * s == Norm2(d)
    ensures var k := (s - r) / s;
      && 1.0 - k == r / s
      && Dot(Scale(k, Scale(-1.0, d)), Perp(Scale(-1.0, d))) == 0.0
      && Dot(Scale(k, Scale(-1.0, d)), Scale(-1.0, d)) == (s - r) * s
      && Norm2(Scale(r / s, d)) == r * r
      && (s < r ==> (s - r) * s < 0.0)
      && (r < s ==> (s - r) * s > 0.0)
  {
    var k := (s - r) / s;
    var e := Scale(-1.0, d);
    ScaledGeometry(-1.0, d);
    assert Norm2(e) == Norm2(d);
    ScaledGeometry(k, e);
    RimArithmetic(s, r, Norm2(d));
    ScaledGeometry(r / s, d);
  }

  /** Moving `(x, y)` a fraction `k` of the way to the centre leaves it at
      the fraction `1 - k` of its displacement. */
  lemma RimPoint(p: Planet, x: real, y: real, k: real, j: real)
    requires 1.0 - k == j
    ensures Displacement(p, x + k * (p.x - x), y + k * (p.y - y)) == Scale(j, Displacement(p, x, y))
  {
    assert x + k * (p.x - x) - p.x == (1.0 - k) * (x - p.x);
    assert y + k * (p.y - y) - p.y == (1.0 - k) * (y - p.y);
  }

  /** Away from the centre, with an exact square root, the vector is the
      displacement to the centre scaled by `(dist - radius) / dist`. */
  lemma VectorAsScale(np: Np, p: Planet, x: real, y: real)
    requires SqrtAt(np, Dist2(p, x, y))
    requires x != p.x || y != p.y
    ensures 0.0 < Sqrt(np, Dist2(p, x, y))
    ensures var s := Sqrt(np, Dist2(p, x, y));
      VectorToCollisionFrom(np, p, x, y) == Some(Scale((s - p.radius) / s, Vec(p.x - x, p.y - y)))
  {
    var s := Sqrt(np, Dist2(p, x, y));
    DistanceFacts(p, x, y);
    RootPositive(np, Dist2(p, x, y));
    var k := (s - p.radius) / s;
    DivideThrough(s - p.radius, p.x - x, s);
    DivideThrough(s - p.radius, p.y - y, s);
    assert Scale(k, Vec(p.x - x, p.y - y)) == Vec(k * (p.x - x), k * (p.y - y));
    assert s != 0.0;
    assert VectorToCollisionFrom(np, p, x, y).value.x == (s - p.radius) * (p.x - x) / s;
    assert VectorToCollisionFrom(np, p, x, y).value.y == (s - p.radius) * (p.y - y) / s;
    assert VectorToCollisionFrom(np, p, x, y).value == Vec(k * (p.x - x), k * (p.y - y));
  }

  /** The arithmetic of the rim: with `s * s == n` and `s > 0`, scaling by
      `r / s` takes squared length `n` to `r * r`, and scaling by
      `(s - r) / s` gives a dot product `(s - r) s` of the sign of `s - r`. */
  lemma RimArithmetic(s: real, r: real, n: real)
    requires 0.0 < s && s * s == n
    ensures 1.0 - (s - r) / s == r / s
    ensures (r / s * (r / s)) * n == r * r
    ensures (s - r) / s * n == (s - r) * s
    ensures s < r ==> (s - r) * s < 0.0
    ensures r < s ==> (s - r) * s > 0.0
  {
    var k := (s - r) / s;
    var j := r / s;
    assert k * s == s - r;
    assert j * s == r;
    calc {
      (1.0 - k) * s;
      s - k * s;
      s - (s - r);
      j * s;
    }
    Cancel(1.0 - k, j, s);
    calc {
      (r / s * (r / s)) * (s * s);
      (r / s * s) * (r / s * s);
      r * r;
    }
    calc {
      (s - r) / s * (s * s);
      ((s - r) / s * s) * s;
      (s - r) * s;
    }
  }

  lemma DivideThrough(a: real, b: real, s: real)
    requires s != 0.0
    ensures a * b / s == (a / s) * b
  {
  }

  /** With an exact `**(3/2)`, gravity is defined exactly away from the
      centre. */
  lemma GravityDefinedIff(np: Np, p: Planet, x: real, y: real, g: real)
    requires Pow32At(np, Dist2(p, x, y))
    ensures GravityAt(np, p, x, y, g).Some? <==> (x != p.x || y != p.y)
  {
    DistanceFacts(p, x, y);
    Pow32Vanishes(np, Dist2(p, x, y));
  }

  /** A multiple of `d` lies along `d`. */
  lemma ScaledGeometry(k: real, d: Vec)
    ensures Dot(Scale(k, d), Perp(d)) == 0.0
    ensures Dot(Scale(k, d), d) == k * Norm2(d)
    ensures Norm2(Scale(k, d)) == (k * k) * Norm2(d)
  {
  }

  lemma DividedPositive(a: real, q: real)
    requires 0.0 < q
    ensures a / q * q == a
    ensures 0.0 < a ==> 0.0 < a / q
  {
  }

  /** The arithmetic behind the inverse-square law. */
  lemma InverseSquare(c: real, d2: real, q: real, gm: real)
    requires q * q == d2 * d2 * d2
    requires c * q == gm
    ensures (c * c) * d2 * (d2 * d2) == gm * gm
  {
    calc {
      (c * c) * d2 * (d2 * d2);
      (c * c) * (d2 * d2 * d2);
      (c * c) * (q * q);
      (c * q) * (c * q);
    }
  }

  /** Gravity is a central, attractive force (for a positive `g * m`), and
      its strength falls with the square of the distance:
      `|a|^2 * dist^4 == (g m)^2`. */
  lemma GravityCentral(np: Np, p: Planet, x: real, y: real, g: real)
    requires Pow32At(np, Dist2(p, x, y))
    requires x != p.x || y != p.y
    ensures GravityAt(np, p, x, y, g).Some?
    ensures var a := GravityAt(np, p, x, y, g).value;
      var d := Displacement(p, x, y);
      && Dot(a, Perp(d)) == 0.0
      && (0.0 < g * p.m ==> Dot(a, d) < 0.0)
      && Norm2(a) * (Dist2(p, x, y) * Dist2(p, x, y)) == (g * p.m) * (g * p.m)
  {
    var d := Displacement(p, x, y);
    var q := Pow32(np, Dist2(p, x, y));
    DistanceFacts(p, x, y);
    Pow32Vanishes(np, Dist2(p, x, y));
    var c := g * p.m / q;
    assert GravityAt(np, p, x, y, g).value == Scale(-c, d);
    CentralForce(d, q, g * p.m);
  }

  /** The arithmetic of an inverse-square pull: for `q` the cube of the
      length of a non-zero `d`, the vector `-(gm / q) d` lies along `d`,
      points against it when `gm > 0`, and has squared length
      `gm^2 / |d|^4`. */
  lemma CentralForce(d: Vec, q: real, gm: real)
    requires 0.0 < q && q * q == Norm2(d) * Norm2(d) * Norm2(d)
    requires 0.0 < Norm2(d)
    ensures var c := gm / q;
      && Dot(Scale(-c, d), Perp(d)) == 0.0
      && (0.0 < gm ==> Dot(Scale(-c, d), d) < 0.0)
      && Norm2(Scale(-c, d)) * (Norm2(d) * Norm2(d)) == gm * gm
  {
    var c := gm / q;
    ScaledGeometry(-c, d);
    DividedPositive(gm, q);
    InverseSquare(c, Norm2(d), q, gm);
  }
}
