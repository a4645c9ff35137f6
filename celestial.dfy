/** A body with a position, a velocity and a mass (`CelestialObject` in
    game_state.py): one integration step, and the collision response that
    teleports the body onto a boundary and reflects its velocity. */
module Celestial {

  /** A plane vector; the source carries each as a pair of scalars. */
  datatype Vec = Vec(x: real, y: real)

  function Add(a: Vec, b: Vec): Vec { Vec(a.x + b.x, a.y + b.y) }
  function Sub(a: Vec, b: Vec): Vec { Vec(a.x - b.x, a.y - b.y) }
  function Scale(k: real, a: Vec): Vec { Vec(k * a.x, k * a.y) }
  function Dot(a: Vec, b: Vec): real { a.x * b.x + a.y * b.y }
  function Norm2(a: Vec): real { Dot(a, a) }
  /** `a` turned a quarter turn: the direction of the line whose normal is `a`. */
  function Perp(a: Vec): Vec { Vec(-a.y, a.x) }

  /** Position and velocity of a body: everything an update can change. */
  datatype Kin = Kin(pos: Vec, vel: Vec)

  /** One integration step: the position advances with the velocity held
      BEFORE the step, then the velocity advances with the acceleration. */
  function Integrate(k: Kin, dt: real, a: Vec): Kin
  {
    Kin(Vec(k.pos.x + dt * k.vel.x, k.pos.y + dt * k.vel.y),
        Vec(k.vel.x + dt * a.x, k.vel.y + dt * a.y))
  }

  /** A non-zero vector has a positive squared length. */
  lemma NormPositive(r: Vec)
    requires r != Vec(0.0, 0.0)
    ensures Norm2(r) > 0.0
  {
    calc {
      Norm2(r);
      r.x * r.x + r.y * r.y;
    >
      0.0;
    }
  }

  /** The velocity after an elastic bounce off the line whose normal is `r`,
      computed as handle_collision does: split `v` into its part along `r`
      and the rest, then negate the part along `r`. */
  function Reflect(v: Vec, r: Vec): Vec
    requires r != Vec(0.0, 0.0)
  {
    NormPositive(r);
    var distSquared := Norm2(r);
    var parX := Dot(v, r) * r.x / distSquared;
    var parY := Dot(v, r) * r.y / distSquared;
    var perpX := v.x - parX;
    var perpY := v.y - parY;
    Vec(-parX + perpX, -parY + perpY)
  }

  /** The coefficient of the projection of `v` onto `r`: the part of `v`
      along `r` is `Coef(v, r) r`. */
  function Coef(v: Vec, r: Vec): (c: real)
    requires r != Vec(0.0, 0.0)
    ensures c * Norm2(r) == Dot(v, r)
  {
    NormPositive(r);
    Dot(v, r) / Norm2(r)
  }

  /** handle_collision on values: move by `r`, reflect about `r`. */
  function Collide(k: Kin, r: Vec): Kin
    requires r != Vec(0.0, 0.0)
  {
    Kin(Add(k.pos, r), Reflect(k.vel, r))
  }

  /** The reflection is `v - 2 q r` with `q` the projection coefficient. */
  lemma ReflectFormula(v: Vec, r: Vec)
    requires r != Vec(0.0, 0.0)
    ensures var q := Coef(v, r);
      Reflect(v, r) == Vec(v.x - 2.0 * q * r.x, v.y - 2.0 * q * r.y)
  {
    var q := Coef(v, r);
    NormPositive(r);
    assert Dot(v, r) * r.x / Norm2(r) == q * r.x;
    assert Dot(v, r) * r.y / Norm2(r) == q * r.y;
  }

  /** The component of the velocity along `r` is negated. */
  lemma ReflectNegatesNormal(v: Vec, r: Vec)
    requires r != Vec(0.0, 0.0)
    ensures Dot(Reflect(v, r), r) == -Dot(v, r)
  {
    ReflectFormula(v, r);
    var q := Coef(v, r);
    calc {
      Dot(Reflect(v, r), r);
      (v.x - 2.0 * q * r.x) * r.x + (v.y - 2.0 * q * r.y) * r.y;
      Dot(v, r) - 2.0 * q * Norm2(r);
    }
  }

  /** The component of the velocity perpendicular to `r` is kept. */
  lemma ReflectKeepsTangent(v: Vec, r: Vec)
    requires r != Vec(0.0, 0.0)
    ensures Dot(Reflect(v, r), Perp(r)) == Dot(v, Perp(r))
  {
    ReflectFormula(v, r);
    var q := Coef(v, r);
    calc {
      Dot(Reflect(v, r), Perp(r));
      (v.x - 2.0 * q * r.x) * -r.y + (v.y - 2.0 * q * r.y) * r.x;
      Dot(v, Perp(r)) + 2.0 * q * (r.x * r.y - r.y * r.x);
    }
  }

  /** The squared speed is preserved: the bounce is perfectly elastic. */
  lemma ReflectPreservesSpeed(v: Vec, r: Vec)
    requires r != Vec(0.0, 0.0)
    ensures Norm2(Reflect(v, r)) == Norm2(v)
  {
    ReflectFormula(v, r);
    var q := Coef(v, r);
    SquareExpand(v.x, r.x, q);
    SquareExpand(v.y, r.y, q);
    calc {
      Norm2(Reflect(v, r));
      (v.x - 2.0 * q * r.x) * (v.x - 2.0 * q * r.x) + (v.y - 2.0 * q * r.y) * (v.y - 2.0 * q * r.y);
      v.x * v.x - 4.0 * q * (v.x * r.x) + 4.0 * q * (q * (r.x * r.x))
        + (v.y * v.y - 4.0 * q * (v.y * r.y) + 4.0 * q * (q * (r.y * r.y)));
      Norm2(v) - 4.0 * q * Dot(v, r) + 4.0 * q * (q * Norm2(r));
      Norm2(v);
    }
  }

  lemma SquareExpand(a: real, b: real, q: real)
    ensures (a - 2.0 * q * b) * (a - 2.0 * q * b) == a * a - 4.0 * q * (a * b) + 4.0 * q * (q * (b * b))
  {
  }

  /** Bouncing twice off the same line restores the velocity. */
  lemma ReflectInvolution(v: Vec, r: Vec)
    requires r != Vec(0.0, 0.0)
    ensures Reflect(Reflect(v, r), r) == v
  {
    var w := Reflect(v, r);
    ReflectFormula(v, r);
    ReflectFormula(w, r);
    ReflectNegatesNormal(v, r);
    NormPositive(r);
    var q := Coef(v, r);
    var q' := Coef(w, r);
    Cancel(q', -q, Norm2(r));
  }

  /** The two component facts determine the reflection: any velocity that
      negates the part along `r` and keeps the part across it IS the
      reflection, so `Reflect` is the elastic bounce and nothing else. */
  lemma ReflectUnique(v: Vec, r: Vec, w: Vec)
    requires r != Vec(0.0, 0.0)
    requires Dot(w, r) == -Dot(v, r)
    requires Dot(w, Perp(r)) == Dot(v, Perp(r))
    ensures w == Reflect(v, r)
  {
    var u := Reflect(v, r);
    ReflectNegatesNormal(v, r);
    ReflectKeepsTangent(v, r);
    var d := Sub(w, u);
    assert Dot(d, r) == Dot(w, r) - Dot(u, r);
    assert Dot(d, Perp(r)) == Dot(w, Perp(r)) - Dot(u, Perp(r));
    OrthogonalToBoth(d, r);
  }

  /** Only the zero vector is orthogonal both to a non-zero `r` and to the
      line it is the normal of. */
  lemma OrthogonalToBoth(d: Vec, r: Vec)
    requires r != Vec(0.0, 0.0)
    requires Dot(d, r) == 0.0 && Dot(d, Perp(r)) == 0.0
    ensures d == Vec(0.0, 0.0)
  {
    NormPositive(r);
    calc {
      d.x * Norm2(r);
      Dot(d, r) * r.x - Dot(d, Perp(r)) * r.y;
      0.0 * Norm2(r);
    }
    calc {
      d.y * Norm2(r);
      Dot(d, r) * r.y + Dot(d, Perp(r)) * r.x;
      0.0 * Norm2(r);
    }
    Cancel(d.x, 0.0, Norm2(r));
    Cancel(d.y, 0.0, Norm2(r));
  }

  /** A wall along the y axis (normal `(a, 0)`) negates `vx` and keeps `vy`. */
  lemma ReflectAxisX(v: Vec, a: real)
    requires a != 0.0
    ensures Reflect(v, Vec(a, 0.0)) == Vec(-v.x, v.y)
  {
    var r := Vec(a, 0.0);
    ReflectFormula(v, r);
    assert Coef(v, r) * a == v.x;
  }

  /** A wall along the x axis (normal `(0, b)`) negates `vy` and keeps `vx`. */
  lemma ReflectAxisY(v: Vec, b: real)
    requires b != 0.0
    ensures Reflect(v, Vec(0.0, b)) == Vec(v.x, -v.y)
  {
    var r := Vec(0.0, b);
    ReflectFormula(v, r);
    assert Coef(v, r) * b == v.y;
  }

  /** Only the line matters, not the length or sense of its normal: any
      non-zero multiple of `r` gives the same bounce. */
  lemma ReflectScaleInvariant(v: Vec, r: Vec, k: real)
    requires r != Vec(0.0, 0.0)
    requires k != 0.0
    ensures Scale(k, r) != Vec(0.0, 0.0)
    ensures Reflect(v, Scale(k, r)) == Reflect(v, r)
  {
    var s := Scale(k, r);
    if r.x != 0.0 {
      assert s.x != 0.0;
    } else {
      assert s.y != 0.0;
    }
    NormPositive(r);
    var q := Coef(v, r);
    var q' := Coef(v, s);
    ScaleProducts(k, v, r);
    CoefScale(q, q', k, Norm2(r), Dot(v, r), Norm2(s), Dot(v, s));
    ReflectSameCoef(v, r, k);
  }

  /** Reflections in `r` and in `k r` agree when their projection
      coefficients are related by the factor `k`. */
  lemma ReflectSameCoef(v: Vec, r: Vec, k: real)
    requires r != Vec(0.0, 0.0) && Scale(k, r) != Vec(0.0, 0.0)
    requires Coef(v, Scale(k, r)) * k == Coef(v, r)
    ensures Reflect(v, Scale(k, r)) == Reflect(v, r)
  {
    var s := Scale(k, r);
    ReflectFormula(v, r);
    ReflectFormula(v, s);
    ScaledTerm(Coef(v, s), k, Coef(v, r), r.x);
    ScaledTerm(Coef(v, s), k, Coef(v, r), r.y);
  }

  lemma ScaledTerm(q': real, k: real, q: real, a: real)
    requires q' * k == q
    ensures 2.0 * q' * (k * a) == 2.0 * q * a
  {
    calc {
      2.0 * q' * (k * a);
      2.0 * (q' * k) * a;
    }
  }

  /** The projection coefficient onto `k r` is that onto `r` divided by
      `k`, in the form `q' k == q`. */
  lemma CoefScale(q: real, q': real, k: real, n: real, d: real, n': real, d': real)
    requires 0.0 < n && k != 0.0
    requires q * n == d
    requires n' == (k * k) * n && d' == k * d
    requires q' * n' == d'
    ensures q' * k == q
  {
    calc {
      ((q' * k) * n) * k;
      q' * ((k * k) * n);
      q' * n';
      k * d;
      (q * n) * k;
    }
    Cancel((q' * k) * n, q * n, k);
    Cancel(q' * k, q, n);
  }

  /** How dot products and squared lengths scale. */
  lemma ScaleProducts(k: real, v: Vec, r: Vec)
    ensures Dot(v, Scale(k, r)) == k * Dot(v, r)
    ensures Norm2(Scale(k, r)) == (k * k) * Norm2(r)
  {
  }

  lemma Cancel(a: real, b: real, c: real)
    requires c != 0.0
    requires a * c == b * c
    ensures a == b
  {
    assert (a - b) * c == 0.0;
  }

  /** `n` integration steps with the same acceleration `a`. */
  function Drift(k: Kin, dt: real, a: Vec, n: nat): Kin
  {
    if n == 0 then k else Integrate(Drift(k, dt, a, n - 1), dt, a)
  }

  /** `t (t - 1) / 2`, the number of step-lengths of acceleration that the
      position has absorbed after `t` steps. */
  function Tri(t: real): real { t * (t - 1.0) / 2.0 }

  /** Closed form of the position on one axis after `t` steps. */
  function AxisPos(x: real, v: real, a: real, dt: real, t: real): real
  {
    x + t * (dt * v) + Tri(t) * (dt * (dt * a))
  }

  /** Closed form of the velocity on one axis after `t` steps. */
  function AxisVel(v: real, a: real, dt: real, t: real): real
  {
    v + t * (dt * a)
  }

  /** One more step on one axis takes a value `(px, pv)` in closed form
      after `s` steps to the closed form after `s + 1` steps. */
  lemma AxisStep(px: real, pv: real, x: real, v: real, a: real, dt: real, s: real)
    requires px == AxisPos(x, v, a, dt, s) && pv == AxisVel(v, a, dt, s)
    ensures px + dt * pv == AxisPos(x, v, a, dt, s + 1.0)
    ensures pv + dt * a == AxisVel(v, a, dt, s + 1.0)
  {
    var w, c := dt * v, dt * (dt * a);
    assert Tri(s) + s == Tri(s + 1.0);
    assert dt * (v + s * (dt * a)) == w + s * c;
    calc {
      px + dt * pv;
      x + s * w + Tri(s) * c + (w + s * c);
      x + (s + 1.0) * w + (Tri(s) + s) * c;
    }
  }

  lemma IntegrateParts(p: Kin, dt: real, a: Vec)
    ensures Integrate(p, dt, a).pos.x == p.pos.x + dt * p.vel.x
    ensures Integrate(p, dt, a).pos.y == p.pos.y + dt * p.vel.y
    ensures Integrate(p, dt, a).vel.x == p.vel.x + dt * a.x
    ensures Integrate(p, dt, a).vel.y == p.vel.y + dt * a.y
  {
  }

  /** If `p` is in closed form after `s` steps from `k`, one integration step
      puts it in closed form after `s + 1` steps. */
  lemma IntegrateStep(k: Kin, p: Kin, dt: real, a: Vec, s: real)
    requires p.pos.x == AxisPos(k.pos.x, k.vel.x, a.x, dt, s)
    requires p.pos.y == AxisPos(k.pos.y, k.vel.y, a.y, dt, s)
    requires p.vel.x == AxisVel(k.vel.x, a.x, dt, s)
    requires p.vel.y == AxisVel(k.vel.y, a.y, dt, s)
    ensures Integrate(p, dt, a).pos.x == AxisPos(k.pos.x, k.vel.x, a.x, dt, s + 1.0)
    ensures Integrate(p, dt, a).pos.y == AxisPos(k.pos.y, k.vel.y, a.y, dt, s + 1.0)
    ensures Integrate(p, dt, a).vel.x == AxisVel(k.vel.x, a.x, dt, s + 1.0)
    ensures Integrate(p, dt, a).vel.y == AxisVel(k.vel.y, a.y, dt, s + 1.0)
  {
    IntegrateParts(p, dt, a);
    AxisStep(p.pos.x, p.vel.x, k.pos.x, k.vel.x, a.x, dt, s);
    AxisStep(p.pos.y, p.vel.y, k.pos.y, k.vel.y, a.y, dt, s);
  }

  /** Closed form of `n` explicit Euler steps under a constant acceleration
      `a`: the velocity gains `n dt a` and the position `n dt v + n(n-1)/2 dt^2 a`. */
  lemma {:induction false} DriftClosedForm(k: Kin, dt: real, a: Vec, n: nat)
    ensures Drift(k, dt, a, n).pos.x == AxisPos(k.pos.x, k.vel.x, a.x, dt, n as real)
    ensures Drift(k, dt, a, n).pos.y == AxisPos(k.pos.y, k.vel.y, a.y, dt, n as real)
    ensures Drift(k, dt, a, n).vel.x == AxisVel(k.vel.x, a.x, dt, n as real)
    ensures Drift(k, dt, a, n).vel.y == AxisVel(k.vel.y, a.y, dt, n as real)
  {
    if n > 0 {
      DriftClosedForm(k, dt, a, n - 1);
      var s := (n - 1) as real;
      assert n as real == s + 1.0;
      IntegrateStep(k, Drift(k, dt, a, n - 1), dt, a, s);
    }
  }

  /** A free body (no acceleration) moves by exactly `n dt v` in `n` steps,
      and its velocity does not change. */
  lemma FreeFlight(k: Kin, dt: real, n: nat)
    ensures Drift(k, dt, Vec(0.0, 0.0), n)
         == Kin(Add(k.pos, Scale(n as real * dt, k.vel)), k.vel)
  {
    var t := n as real;
    DriftClosedForm(k, dt, Vec(0.0, 0.0), n);
    assert AxisPos(k.pos.x, k.vel.x, 0.0, dt, t) == k.pos.x + t * dt * k.vel.x;
    assert AxisPos(k.pos.y, k.vel.y, 0.0, dt, t) == k.pos.y + t * dt * k.vel.y;
  }

  /** The mutable physical state of one object. The mass is fixed at
      construction and never reassigned. */
  class CelestialObject {
    var x: real
    var y: real
    var vx: real
    var vy: real
    const m: real

    constructor (x: real, y: real, vx: real, vy: real, m: real)
      ensures Kinematics() == Kin(Vec(x, y), Vec(vx, vy)) && this.m == m
    {
      this.x, this.y, this.vx, this.vy, this.m := x, y, vx, vy, m;
    }

    function Kinematics(): Kin
      reads this
    {
      Kin(Vec(x, y), Vec(vx, vy))
    }

    /** One integration step under acceleration `(ax, ay)`. */
    method Update(dt: real, ax: real, ay: real)
      modifies this
      ensures Kinematics() == Integrate(old(Kinematics()), dt, Vec(ax, ay))
    {
      x := x + dt * vx;
      y := y + dt * vy;
      vx := vx + dt * ax;
      vy := vy + dt * ay;
    }

    /** Teleport by `(rx, ry)` onto the boundary and reflect the velocity
        about the line whose normal is that vector. The source divides by
        `rx^2 + ry^2`, so the vector must not be zero. */
    method HandleCollision(rx: real, ry: real)
      requires rx != 0.0 || ry != 0.0
      modifies this
      ensures Kinematics() == Collide(old(Kinematics()), Vec(rx, ry))
    {
      x := x + rx;
      y := y + ry;
      NormPositive(Vec(rx, ry));
      var distSquared := rx * rx + ry * ry;
      var parallelX := (vx * rx + vy * ry) * rx / distSquared;
      var parallelY := (vx * rx + vy * ry) * ry / distSquared;
      var perpX := vx - parallelX;
      var perpY := vy - parallelY;
      vx := -parallelX + perpX;
      vy := -parallelY + perpY;
    }
  }
}
