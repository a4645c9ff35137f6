/** The game (`GameState` in game_state.py): one ship, a list of planets and
    a rectangular field. A frame turns the ship towards the pointer, bounces
    it off the walls and out of any planet it has entered (counting each
    planet hit), then integrates it under the planets' gravity and its own
    thrust.

    Where numpy would produce NaN (the ship exactly at a planet's centre,
    a zero collision vector, a zero divisor in the gravity law), the model
    raises a fault flag `ok == false` instead of computing with NaN. */
module Game {
  import opened Numerics
  import opened Celestial
  import opened Ships
  import opened Planets

  /** The gravitational constant of the game. */
  const G: real := 1000.0

  /** The single planet a new game starts with. */
  const Home: Planet := Planet(500.0, 600.0, 100.0, 20.0)

  /** The parts of a game that never change: the planets and the size of
      the field. */
  datatype Field = Field(planets: seq<Planet>, maxX: int, maxY: int)

  /** The parts of a game a frame or an input changes. */
  datatype World = World(ship: ShipState, pointTo: Vec, numCollisions: nat)

  // ---------------------------------------------------------------- walls

  function BounceRight(k: Kin, maxX: int): Kin
  {
    if k.pos.x > maxX as real then Collide(k, Vec(maxX as real - k.pos.x, 0.0)) else k
  }

  function BounceLeft(k: Kin): Kin
  {
    if k.pos.x < 0.0 then Collide(k, Vec(-k.pos.x, 0.0)) else k
  }

  function BounceTop(k: Kin, maxY: int): Kin
  {
    if k.pos.y > maxY as real then Collide(k, Vec(0.0, maxY as real - k.pos.y)) else k
  }

  function BounceBottom(k: Kin): Kin
  {
    if k.pos.y < 0.0 then Collide(k, Vec(0.0, -k.pos.y)) else k
  }

  /** The four wall checks of check_for_collisions, in the source's order:
      right, left, top, bottom, each seeing the result of the one before. */
  function Walls(k: Kin, maxX: int, maxY: int): Kin
  {
    BounceBottom(BounceTop(BounceLeft(BounceRight(k, maxX)), maxY))
  }

  /** A bounce off a vertical wall moves the body horizontally by `a`,
      negates `vx` and keeps everything else. */
  lemma CollideAxisX(k: Kin, a: real)
    requires a != 0.0
    ensures Collide(k, Vec(a, 0.0)) == Kin(Vec(k.pos.x + a, k.pos.y), Vec(-k.vel.x, k.vel.y))
  {
    ReflectAxisX(k.vel, a);
  }

  /** A bounce off a horizontal wall moves the body vertically by `b`,
      negates `vy` and keeps everything else. */
  lemma CollideAxisY(k: Kin, b: real)
    requires b != 0.0
    ensures Collide(k, Vec(0.0, b)) == Kin(Vec(k.pos.x, k.pos.y + b), Vec(k.vel.x, -k.vel.y))
  {
    ReflectAxisY(k.vel, b);
  }

  /** `v` pulled back into `[0, hi]`. */
  function Clamp(v: real, hi: real): real
  {
    if v > hi then hi else if v < 0.0 then 0.0 else v
  }

  /** `v` lies outside `[0, hi]`. */
  predicate Outside(v: real, hi: real)
  {
    v > hi || v < 0.0
  }

  /** The walls, described axis by axis: each coordinate outside the field
      is put back on the wall it crossed and the matching velocity
      component is negated; a coordinate inside the field and the other
      velocity component are untouched. */
  lemma WallsEffect(k: Kin, maxX: int, maxY: int)
    requires 0 <= maxX && 0 <= maxY
    ensures Walls(k, maxX, maxY) ==
      Kin(Vec(Clamp(k.pos.x, maxX as real), Clamp(k.pos.y, maxY as real)),
          Vec(if Outside(k.pos.x, maxX as real) then -k.vel.x else k.vel.x,
              if Outside(k.pos.y, maxY as real) then -k.vel.y else k.vel.y))
  {
    if k.pos.x > maxX as real {
      CollideAxisX(k, maxX as real - k.pos.x);
    }
    var k1 := BounceRight(k, maxX);
    if k1.pos.x < 0.0 {
      CollideAxisX(k1, -k1.pos.x);
    }
    var k2 := BounceLeft(k1);
    if k2.pos.y > maxY as real {
      CollideAxisY(k2, maxY as real - k2.pos.y);
    }
    var k3 := BounceTop(k2, maxY);
    if k3.pos.y < 0.0 {
      CollideAxisY(k3, -k3.pos.y);
    }
  }

  /** After the walls the body is inside the field, its speed is unchanged,
      and a body already inside is not touched. */
  lemma WallsConfine(k: Kin, maxX: int, maxY: int)
    requires 0 <= maxX && 0 <= maxY
    ensures var w := Walls(k, maxX, maxY);
      && 0.0 <= w.pos.x <= maxX as real
      && 0.0 <= w.pos.y <= maxY as real
      && Norm2(w.vel) == Norm2(k.vel)
    ensures 0.0 <= k.pos.x <= maxX as real && 0.0 <= k.pos.y <= maxY as real ==> Walls(k, maxX, maxY) == k
  {
    WallsEffect(k, maxX, maxY);
    AxisConfine(k.pos.x, k.vel.x, maxX as real);
    AxisConfine(k.pos.y, k.vel.y, maxY as real);
  }

  /** One axis of the walls: the clamped coordinate lies in `[0, hi]`, the
      (possibly negated) velocity component has the same square, and an
      inside coordinate is left alone. */
  lemma AxisConfine(x: real, v: real, hi: real)
    requires 0.0 <= hi
    ensures 0.0 <= Clamp(x, hi) <= hi
    ensures var v' := if Outside(x, hi) then -v else v;
      v' * v' == v * v
    ensures 0.0 <= x <= hi ==> Clamp(x, hi) == x && !Outside(x, hi)
  {
    assert (-v) * (-v) == v * v;
  }

  // -------------------------------------------------------------- planets

  /** The state of the planet loop of check_for_collisions: the ship's
      kinematics, the planets hit so far, and whether the state is still a
      number (`ok`). */
  datatype Resolution = Resolution(kin: Kin, hits: nat, ok: bool)

  /** One turn of the planet loop: a planet the ship is inside counts as a
      hit and moves the ship to its rim, reflecting the velocity. At a
      planet's centre, or with a zero vector, the source computes NaN: the
      hit still counts and the state faults. A faulted state compares false
      with every radius, so nothing changes after a fault. */
  function ResolvePlanet(np: Np, r: Resolution, p: Planet): Resolution
  {
    if !r.ok || !Collision(np, p, r.kin.pos.x, r.kin.pos.y) then r
    else match VectorToCollisionFrom(np, p, r.kin.pos.x, r.kin.pos.y)
      case None => Resolution(r.kin, r.hits + 1, false)
      case Some(v) =>
        if v == Vec(0.0, 0.0) then Resolution(r.kin, r.hits + 1, false)
        else Resolution(Collide(r.kin, v), r.hits + 1, true)
  }

  /** The planet loop over `ps`, in order, each planet seeing the ship as
      the planets before it left it. */
  function ResolvePlanets(np: Np, r: Resolution, ps: seq<Planet>): Resolution
    decreases |ps|
  {
    if ps == [] then r
    else ResolvePlanet(np, ResolvePlanets(np, r, ps[..|ps| - 1]), ps[|ps| - 1])
  }

  /** Resolving `ps + qs` is resolving `ps`, then `qs` from where `ps` left
      the ship. */
  lemma {:induction false} ResolveAppend(np: Np, r: Resolution, ps: seq<Planet>, qs: seq<Planet>)
    ensures ResolvePlanets(np, r, ps + qs) == ResolvePlanets(np, ResolvePlanets(np, r, ps), qs)
    decreases |qs|
  {
    if qs == [] {
      assert ps + qs == ps;
    } else {
      assert (ps + qs)[..|ps + qs| - 1] == ps + qs[..|qs| - 1];
      assert (ps + qs)[|ps + qs| - 1] == qs[|qs| - 1];
      ResolveAppend(np, r, ps, qs[..|qs| - 1]);
    }
  }

  /** Each planet is hit at most once per loop, hits are never taken back,
      and a fault is final. */
  lemma {:induction false} ResolveCounts(np: Np, r: Resolution, ps: seq<Planet>)
    ensures r.hits <= ResolvePlanets(np, r, ps).hits <= r.hits + |ps|
    ensures ResolvePlanets(np, r, ps).ok ==> r.ok
    ensures !r.ok ==> ResolvePlanets(np, r, ps) == r
    decreases |ps|
  {
    if ps != [] {
      ResolveCounts(np, r, ps[..|ps| - 1]);
    }
  }

  /** A ship that touches no planet on the way through the loop is left as
      it is. */
  lemma {:induction false} ResolveMisses(np: Np, r: Resolution, ps: seq<Planet>)
    requires forall i :: 0 <= i < |ps| ==> !Collision(np, ps[i], r.kin.pos.x, r.kin.pos.y)
    ensures ResolvePlanets(np, r, ps) == r
    decreases |ps|
  {
    if ps != [] {
      ResolveMisses(np, r, ps[..|ps| - 1]);
    }
  }

  /** Entering a planet (away from its centre, with an exact square root)
      counts one hit, puts the ship on the planet's rim, and reflects the
      velocity in the tangent at the rim: the radial part is negated and
      the tangential part kept. This happens whichever way the ship was
      moving, so a ship already leaving the planet is turned back into it. */
  lemma BounceOffPlanet(np: Np, r: Resolution, p: Planet)
    requires r.ok
    requires SqrtAt(np, Dist2(p, r.kin.pos.x, r.kin.pos.y))
    requires r.kin.pos.x != p.x || r.kin.pos.y != p.y
    requires Collision(np, p, r.kin.pos.x, r.kin.pos.y)
    ensures var r' := ResolvePlanet(np, r, p);
      var toCentre := Vec(p.x - r.kin.pos.x, p.y - r.kin.pos.y);
      && r'.ok && r'.hits == r.hits + 1
      && Dist2(p, r'.kin.pos.x, r'.kin.pos.y) == p.radius * p.radius
      && toCentre != Vec(0.0, 0.0)
      && r'.kin.vel == Reflect(r.kin.vel, toCentre)
  {
    var x, y := r.kin.pos.x, r.kin.pos.y;
    VectorToRim(np, p, x, y);
    var v := VectorToCollisionFrom(np, p, x, y).value;
    var toCentre := Vec(p.x - x, p.y - y);
    var s := Sqrt(np, Dist2(p, x, y));
    assert v != Vec(0.0, 0.0) by {
      assert Dot(v, toCentre) < 0.0;
    }
    assert toCentre != Vec(0.0, 0.0);
    var k := (s - p.radius) / s;
    assert v == Scale(k, toCentre);
    assert k != 0.0;
    ReflectScaleInvariant(r.kin.vel, toCentre, k);
  }

  // -------------------------------------------------------------- gravity

  /** The sum of the planets' pulls on the point `pos` (accel_on_ship),
      added in the planets' order; `ok` is false if any planet's pull has
      a zero divisor. */
  datatype Pull = Pull(acc: Vec, ok: bool)

  function GravitySum(np: Np, ps: seq<Planet>, pos: Vec): Pull
    decreases |ps|
  {
    if ps == [] then Pull(Vec(0.0, 0.0), true)
    else
      var prev := GravitySum(np, ps[..|ps| - 1], pos);
      match GravityAt(np, ps[|ps| - 1], pos.x, pos.y, G)
        case None => Pull(prev.acc, false)
        case Some(a) => Pull(Add(prev.acc, a), prev.ok)
  }

  /** The pull of `ps + qs` is the pull of `ps` plus the pull of `qs`. */
  lemma {:induction false} GravitySumAppend(np: Np, ps: seq<Planet>, qs: seq<Planet>, pos: Vec)
    ensures GravitySum(np, ps + qs, pos) ==
      Pull(Add(GravitySum(np, ps, pos).acc, GravitySum(np, qs, pos).acc),
           GravitySum(np, ps, pos).ok && GravitySum(np, qs, pos).ok)
    decreases |qs|
  {
    if qs == [] {
      assert ps + qs == ps;
    } else {
      assert (ps + qs)[..|ps + qs| - 1] == ps + qs[..|qs| - 1];
      assert (ps + qs)[|ps + qs| - 1] == qs[|qs| - 1];
      GravitySumAppend(np, ps, qs[..|qs| - 1], pos);
    }
  }

  /** Swapping two blocks of planets does not change the net pull. */
  lemma GravitySumSwap(np: Np, ps: seq<Planet>, qs: seq<Planet>, pos: Vec)
    ensures GravitySum(np, ps + qs, pos) == GravitySum(np, qs + ps, pos)
  {
    GravitySumAppend(np, ps, qs, pos);
    GravitySumAppend(np, qs, ps, pos);
  }

  /** The net pull does not depend on the order of the planets: any two
      lists holding the same planets give the same sum. */
  lemma {:induction false} GravitySumPerm(np: Np, ps: seq<Planet>, qs: seq<Planet>, pos: Vec)
    requires multiset(ps) == multiset(qs)
    ensures GravitySum(np, ps, pos) == GravitySum(np, qs, pos)
    decreases |ps|
  {
    if ps == [] {
      assert |qs| == |multiset(qs)| == 0;
    } else {
      var x := ps[|ps| - 1];
      assert x in multiset(qs) by {
        assert x in multiset(ps);
      }
      var j :| 0 <= j < |qs| && qs[j] == x;
      var init, front, back := ps[..|ps| - 1], qs[..j], qs[j + 1..];
      RemoveLast(ps, qs, j);
      GravitySumPerm(np, init, front + back, pos);
      assert ps == init + [x];
      assert qs == (front + [x]) + back;
      GravitySumAppend(np, init, [x], pos);
      GravitySumAppend(np, front + [x], back, pos);
      GravitySumAppend(np, front, [x], pos);
      GravitySumAppend(np, front, back, pos);
      PullRotate(GravitySum(np, front, pos), GravitySum(np, [x], pos), GravitySum(np, back, pos));
    }
  }

  /** Taking the last element off `ps` and the same element off `qs` at
      `j` leaves two lists with the same elements. */
  lemma RemoveLast<T>(ps: seq<T>, qs: seq<T>, j: int)
    requires multiset(ps) == multiset(qs)
    requires ps != [] && 0 <= j < |qs| && qs[j] == ps[|ps| - 1]
    ensures multiset(ps[..|ps| - 1]) == multiset(qs[..j] + qs[j + 1..])
  {
    var x := ps[|ps| - 1];
    var init, front, back := ps[..|ps| - 1], qs[..j], qs[j + 1..];
    assert ps == init + [x];
    assert qs == front + ([x] + back);
    calc {
      multiset(init) + multiset([x]);
      multiset(ps);
      multiset(qs);
      multiset(front) + (multiset([x]) + multiset(back));
      multiset(front + back) + multiset([x]);
    }
    assert multiset(init) == multiset(init) + multiset([x]) - multiset([x]);
    assert multiset(front + back) == multiset(front + back) + multiset([x]) - multiset([x]);
  }

  /** Adding `x` then `t` to `p` is adding `t` then `x`. */
  lemma PullRotate(p: Pull, x: Pull, t: Pull)
    ensures Pull(Add(Add(p.acc, x.acc), t.acc), p.ok && x.ok && t.ok)
         == Pull(Add(Add(p.acc, t.acc), x.acc), p.ok && t.ok && x.ok)
  {
  }

  /** The sum is defined exactly when every planet's pull is. */
  lemma {:induction false} GravitySumOk(np: Np, ps: seq<Planet>, pos: Vec)
    ensures GravitySum(np, ps, pos).ok <==> forall i :: 0 <= i < |ps| ==> GravityAt(np, ps[i], pos.x, pos.y, G).Some?
    decreases |ps|
  {
    if ps != [] {
      GravitySumOk(np, ps[..|ps| - 1], pos);
    }
  }

  // ---------------------------------------------------------- orientation

  /** ship_orientation_update: the angle, in degrees, of the pointer seen
      from the ship, as `180 arctan2(dx, dy) / pi - 90`. */
  function Bearing(np: Np, dx: real, dy: real): real
  {
    180.0 * Arctan2(np, dx, dy) / np.pi - 90.0
  }

  /** Turning the ship by `Bearing` makes the thruster push straight
      towards the pointer: the thrust is parallel to the offset `(dx, dy)`
      of the pointer from the ship and has a positive component along it.
      The swapped arguments of arctan2, the 90-degree offset and the minus
      sign on the thrust's y component cancel out. */
  lemma ThrustTowardPointer(np: Np, fuel: real, dx: real, dy: real)
    requires 0.0 < fuel
    requires Arctan2At(np, dx, dy)
    requires QuarterTurnAt(np, Arctan2(np, dx, dy))
    ensures var a := RocketAccel(np, true, fuel, Bearing(np, dx, dy));
      Dot(a, Perp(Vec(dx, dy))) == 0.0 && 0.0 < Dot(a, Vec(dx, dy))
  {
    var t := Arctan2(np, dx, dy);
    var pi: real := np.pi;
    calc {
      Radians(np, Bearing(np, dx, dy));
      pi * (180.0 * t / pi - 90.0) / 180.0;
      t - pi / 2.0;
    }
    var a := RocketAccel(np, true, fuel, Bearing(np, dx, dy));
    assert a == Vec(50.0 * Sin(np, t), 50.0 * Cos(np, t));
  }

  // ---------------------------------------------------------------- frame

  /** The outcome of a frame or an input: the new world, and whether every
      quantity stayed a number. */
  datatype Step = Step(world: World, ok: bool)

  /** GameState.update on values, in the source's order: orientation,
      collisions (walls, then planets), gravity at the resolved position,
      then the ship's own update. */
  function Frame(np: Np, f: Field, w: World, dt: real): Step
  {
    var pos := w.ship.kin.pos;
    var rotation := Bearing(np, w.pointTo.x - pos.x, w.pointTo.y - pos.y);
    var res := ResolvePlanets(np, Resolution(Walls(w.ship.kin, f.maxX, f.maxY), 0, true), f.planets);
    var pull := GravitySum(np, f.planets, res.kin.pos);
    var ship := ShipStep(np, w.ship.(kin := res.kin, rotation := rotation), dt, pull.acc);
    Step(World(ship, w.pointTo, w.numCollisions + res.hits), res.ok && pull.ok)
  }

  /** Frame, named by its intermediate results. */
  lemma FrameSteps(np: Np, f: Field, w: World, dt: real, rotation: real, res: Resolution, pull: Pull)
    requires rotation == Bearing(np, w.pointTo.x - w.ship.kin.pos.x, w.pointTo.y - w.ship.kin.pos.y)
    requires res == ResolvePlanets(np, Resolution(Walls(w.ship.kin, f.maxX, f.maxY), 0, true), f.planets)
    requires pull == GravitySum(np, f.planets, res.kin.pos)
    ensures Frame(np, f, w, dt) ==
      Step(World(ShipStep(np, w.ship.(kin := res.kin, rotation := rotation), dt, pull.acc), w.pointTo, w.numCollisions + res.hits),
           res.ok && pull.ok)
  {
  }

  /** A frame faces the ship towards the pointer, keeps the pointer and the
      thrust switch, adds at most one collision per planet, and (for a
      non-negative step) never adds fuel or leaves the tank negative. */
  lemma FrameInvariants(np: Np, f: Field, w: World, dt: real)
    requires 0.0 <= w.ship.fuel
    requires 0.0 <= dt
    ensures var w' := Frame(np, f, w, dt).world;
      && w'.pointTo == w.pointTo
      && w'.ship.rocket == w.ship.rocket
      && w'.ship.rotation == Bearing(np, w.pointTo.x - w.ship.kin.pos.x, w.pointTo.y - w.ship.kin.pos.y)
      && w.numCollisions <= w'.numCollisions <= w.numCollisions + |f.planets|
      && 0.0 <= w'.ship.fuel <= w.ship.fuel
  {
    ResolveCounts(np, Resolution(Walls(w.ship.kin, f.maxX, f.maxY), 0, true), f.planets);
    FuelStep(w.ship.rocket, w.ship.fuel, dt);
  }

  /** A ship that starts inside the field, away from every planet, and is
      not pulled anywhere by gravity keeps drifting in a straight line
      while it stays in the field: a frame is then one plain integration
      step. */
  lemma QuietFrame(np: Np, f: Field, w: World, dt: real)
    requires 0 <= f.maxX && 0 <= f.maxY
    requires 0.0 <= w.ship.kin.pos.x <= f.maxX as real && 0.0 <= w.ship.kin.pos.y <= f.maxY as real
    requires forall i :: 0 <= i < |f.planets| ==> !Collision(np, f.planets[i], w.ship.kin.pos.x, w.ship.kin.pos.y)
    requires !Firing(w.ship.rocket, w.ship.fuel)
    requires GravitySum(np, f.planets, w.ship.kin.pos) == Pull(Vec(0.0, 0.0), true)
    ensures Frame(np, f, w, dt).ok
    ensures Frame(np, f, w, dt).world.numCollisions == w.numCollisions
    ensures Frame(np, f, w, dt).world.ship.kin == Integrate(w.ship.kin, dt, Vec(0.0, 0.0))
  {
    WallsConfine(w.ship.kin, f.maxX, f.maxY);
    ResolveMisses(np, Resolution(w.ship.kin, 0, true), f.planets);
  }

  // --------------------------------------------------------------- inputs

  /** What can happen to a game between frames: a frame of length `dt`,
      the pointer moving, and the thruster switched on or off. */
  datatype Event = Tick(dt: real) | PointAt(x: real, y: real) | Press | Release

  /** One event applied to the world. */
  function Apply(np: Np, f: Field, w: World, e: Event): Step
  {
    match e
      case Tick(dt) => Frame(np, f, w, dt)
      case PointAt(x, y) => Step(w.(pointTo := Vec(x, y)), true)
      case Press => Step(w.(ship := w.ship.(rocket := true)), true)
      case Release => Step(w.(ship := w.ship.(rocket := false)), true)
  }

  /** A run of events, applied in order; `ok` holds while nothing faulted. */
  function Run(np: Np, f: Field, w: World, es: seq<Event>): Step
    decreases |es|
  {
    if es == [] then Step(w, true)
    else
      var first := Apply(np, f, w, es[0]);
      var rest := Run(np, f, first.world, es[1..]);
      Step(rest.world, first.ok && rest.ok)
  }

  /** The number of frames in a run of events. */
  function Ticks(es: seq<Event>): nat
    decreases |es|
  {
    if es == [] then 0 else (if es[0].Tick? then 1 else 0) + Ticks(es[1..])
  }

  /** One event keeps the fuel between 0 and its old level and adds at
      most one collision per planet, and only a frame adds any. */
  lemma ApplyInvariants(np: Np, f: Field, w: World, e: Event)
    requires 0.0 <= w.ship.fuel
    requires e.Tick? ==> 0.0 <= e.dt
    ensures var w' := Apply(np, f, w, e).world;
      && 0.0 <= w'.ship.fuel <= w.ship.fuel
      && w.numCollisions <= w'.numCollisions
      && w'.numCollisions <= w.numCollisions + (if e.Tick? then |f.planets| else 0)
  {
    if e.Tick? {
      FrameInvariants(np, f, w, e.dt);
    }
  }

  lemma Distribute(n: int, a: int, b: int)
    ensures n * (a + b) == n * a + n * b
  {
  }

  /** Over any run of events with non-negative frame lengths, the fuel
      stays between 0 and what the ship started with, and the collision
      counter never decreases and grows by at most one per planet per
      frame. */
  lemma {:induction false} RunInvariants(np: Np, f: Field, w: World, es: seq<Event>)
    requires 0.0 <= w.ship.fuel
    requires forall i :: 0 <= i < |es| && es[i].Tick? ==> 0.0 <= es[i].dt
    ensures var w' := Run(np, f, w, es).world;
      && 0.0 <= w'.ship.fuel <= w.ship.fuel
      && w.numCollisions <= w'.numCollisions <= w.numCollisions + |f.planets| * Ticks(es)
    decreases |es|
  {
    if es != [] {
      var first := Apply(np, f, w, es[0]).world;
      ApplyInvariants(np, f, w, es[0]);
      assert forall i :: 0 <= i < |es[1..]| && es[1..][i].Tick? ==> 0.0 <= es[1..][i].dt by {
        forall i | 0 <= i < |es[1..]| && es[1..][i].Tick?
          ensures 0.0 <= es[1..][i].dt
        {
          assert es[1..][i] == es[i + 1];
        }
      }
      RunInvariants(np, f, first, es[1..]);
      var n := |f.planets|;
      var e: nat := if es[0].Tick? then 1 else 0;
      assert Ticks(es) == e + Ticks(es[1..]);
      Distribute(n, e, Ticks(es[1..]));
    }
  }

  // ------------------------------------------------------------- examples

  /** A ship 15 below the starting planet's centre, already moving
      straight away from it with speed 10, is put back on the rim 20 below
      the centre and sent back towards the centre with the same speed,
      after one hit: the bounce does not look at the direction of motion. */
  lemma BounceExample(np: Np)
    requires SqrtAt(np, 225.0)
    ensures ResolvePlanets(np, Resolution(Kin(Vec(500.0, 585.0), Vec(0.0, -10.0)), 0, true), [Home])
      == Resolution(Kin(Vec(500.0, 580.0), Vec(0.0, 10.0)), 1, true)
  {
    var k := Kin(Vec(500.0, 585.0), Vec(0.0, -10.0));
    var r := Resolution(k, 0, true);
    assert [Home][..0] == [];
    assert ResolvePlanets(np, r, [Home]) == ResolvePlanet(np, r, Home);
    assert Displacement(Home, 500.0, 585.0) == Vec(0.0, -15.0);
    assert Dist2(Home, 500.0, 585.0) == 225.0;
    SqrtUnique(np, 225.0, 15.0);
    assert Collision(np, Home, 500.0, 585.0);
    assert VectorToCollisionFrom(np, Home, 500.0, 585.0) == Some(Vec(0.0, -5.0));
    assert ResolvePlanet(np, r, Home) == Resolution(Collide(k, Vec(0.0, -5.0)), 1, true);
    CollideAxisY(k, -5.0);
    assert Collide(k, Vec(0.0, -5.0)) == Kin(Vec(500.0, 580.0), Vec(0.0, 10.0));
  }

  /** A ship 3 past the right wall, moving right at 4, is put back on the
      wall and moves left at 4; its vertical motion is untouched. */
  lemma WallExample(maxX: int, maxY: int, y: real, vy: real)
    requires 0 <= maxX && 0 <= maxY
    requires 0.0 <= y <= maxY as real
    ensures Walls(Kin(Vec(maxX as real + 3.0, y), Vec(4.0, vy)), maxX, maxY)
      == Kin(Vec(maxX as real, y), Vec(-4.0, vy))
  {
    WallsEffect(Kin(Vec(maxX as real + 3.0, y), Vec(4.0, vy)), maxX, maxY);
  }

  // ------------------------------------------------------------ the class

  /** The game object. The ship and the planets are fixed at construction;
      the pointer and the collision counter change. */
  class GameState {
    const ship: Ship
    const planets: seq<Planet>
    var pointToX: real
    var pointToY: real
    const maxX: int
    const maxY: int
    var numCollisions: nat

    /** The ship's own invariant. */
    ghost predicate Valid()
      reads this, ship, ship.body
    {
      ship.Valid()
    }

    function Setting(): Field
    {
      Field(planets, maxX, maxY)
    }

    function Snapshot(): World
      reads this, ship, ship.body
    {
      World(ship.State(), Vec(pointToX, pointToY), numCollisions)
    }

    /** A new game: the ship at rest at (250, 500) with a full tank, the
        starting planet, the pointer at the origin, no collisions yet. */
    constructor (maxX: int, maxY: int)
      ensures Valid() && fresh(ship) && fresh(ship.body)
      ensures Setting() == Field([Home], maxX, maxY)
      ensures Snapshot() == World(ShipState(Kin(Vec(250.0, 500.0), Vec(0.0, 0.0)), 0.0, false, MaxFuel), Vec(0.0, 0.0), 0)
    {
      ship := new Ship(250.0, 500.0, 0.0, 0.0);
      planets := [Home];
      pointToX := 0.0;
      pointToY := 0.0;
      this.maxX := maxX;
      this.maxY := maxY;
      numCollisions := 0;
    }

    /** Record where the pointer is; nothing else changes. */
    method PointTo(x: real, y: real)
      modifies this`pointToX, this`pointToY
      ensures Snapshot() == old(Snapshot()).(pointTo := Vec(x, y))
    {
      pointToX := x;
      pointToY := y;
    }

    /** Turn the ship towards the pointer; nothing else changes. */
    method ShipOrientationUpdate(np: Np)
      modifies ship`rotation
      ensures Snapshot() == old(Snapshot()).(ship := old(ship.State()).(rotation :=
        Bearing(np, pointToX - ship.body.x, pointToY - ship.body.y)))
    {
      var deltay := pointToY - ship.body.y;
      var deltax := pointToX - ship.body.x;
      var angleToMouse := 180.0 * Arctan2(np, deltax, deltay) / np.pi - 90.0;
      ship.Angle(angleToMouse);
    }

    /** The wall half of check_for_collisions: right, left, top, bottom. */
    method BounceOffWalls()
      modifies ship.body
      ensures ship.body.Kinematics() == Walls(old(ship.body.Kinematics()), maxX, maxY)
    {
      var obj := ship.body;
      if obj.x > maxX as real {
        obj.HandleCollision(maxX as real - obj.x, 0.0);
      }
      if obj.x < 0.0 {
        obj.HandleCollision(-obj.x, 0.0);
      }
      if obj.y > maxY as real {
        obj.HandleCollision(0.0, maxY as real - obj.y);
      }
      if obj.y < 0.0 {
        obj.HandleCollision(0.0, -obj.y);
      }
    }

    /** Bounce the ship off the walls, then out of each planet it is
        inside, counting the planets hit. Returns false when the ship's
        state has become NaN. */
    method CheckForCollisions(np: Np) returns (ok: bool)
      modifies this`numCollisions, ship.body
      ensures var r := ResolvePlanets(np, Resolution(Walls(old(ship.body.Kinematics()), maxX, maxY), 0, true), planets);
        && ship.body.Kinematics() == r.kin
        && numCollisions == old(numCollisions) + r.hits
        && ok == r.ok
    {
      var obj := ship.body;
      BounceOffWalls();
      ghost var start := Resolution(obj.Kinematics(), 0, true);
      assert start.kin == Walls(old(obj.Kinematics()), maxX, maxY);
      ok := true;
      var i := 0;
      while i < |planets|
        invariant 0 <= i <= |planets|
        invariant var r := ResolvePlanets(np, start, planets[..i]);
          && obj.Kinematics() == r.kin
          && numCollisions == old(numCollisions) + r.hits
          && ok == r.ok
      {
        var planet := planets[i];
        assert planets[..i + 1][..i] == planets[..i];
        if ok && Collision(np, planet, obj.x, obj.y) {
          numCollisions := numCollisions + 1;
          var v := VectorToCollisionFrom(np, planet, obj.x, obj.y);
          if v.None? || v.value == Vec(0.0, 0.0) {
            ok := false;
          } else {
            obj.HandleCollision(v.value.x, v.value.y);
          }
        }
        i := i + 1;
      }
      assert planets[..|planets|] == planets;
    }

    /** The planets' total pull on the ship; `ok` is false when a pull has
        a zero divisor. */
    method AccelOnShip(np: Np) returns (ok: bool, accelX: real, accelY: real)
      ensures GravitySum(np, planets, ship.body.Kinematics().pos) == Pull(Vec(accelX, accelY), ok)
    {
      ok := true;
      accelX := 0.0;
      accelY := 0.0;
      for i := 0 to |planets|
        invariant GravitySum(np, planets[..i], ship.body.Kinematics().pos) == Pull(Vec(accelX, accelY), ok)
      {
        assert planets[..i + 1][..i] == planets[..i];
        match GravityAt(np, planets[i], ship.body.x, ship.body.y, G)
        case None =>
          ok := false;
        case Some(a) =>
          accelX := accelX + a.x;
          accelY := accelY + a.y;
      }
      assert planets[..|planets|] == planets;
    }

    /** One frame: orientation, collisions, gravity, ship update. Returns
        false when some quantity has become NaN. */
    method Update(np: Np, dt: real) returns (ok: bool)
      modifies ship`rotation, ship`fuel, ship.body, this`numCollisions
      ensures Step(Snapshot(), ok) == Frame(np, Setting(), old(Snapshot()), dt)
      ensures old(Valid()) && 0.0 <= dt ==> Valid()
    {
      ghost var w := old(Snapshot());
      ghost var rotation := Bearing(np, w.pointTo.x - w.ship.kin.pos.x, w.pointTo.y - w.ship.kin.pos.y);
      ghost var res := ResolvePlanets(np, Resolution(Walls(w.ship.kin, maxX, maxY), 0, true), planets);
      ghost var pull := GravitySum(np, planets, res.kin.pos);
      ShipOrientationUpdate(np);
      var collisionsOk := CheckForCollisions(np);
      var gravityOk, accelX, accelY := AccelOnShip(np);
      ship.Update(np, dt, accelX, accelY);
      ok := collisionsOk && gravityOk;
      FrameSteps(np, Setting(), w, dt, rotation, res, pull);
    }
  }
}
