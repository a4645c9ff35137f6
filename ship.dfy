/** The player's ship (`Ship` in game_state.py): a body with an orientation,
    a thrust switch and a fuel tank. The thruster fires only while the
    switch is on and fuel is left, and firing drains fuel at a fixed rate,
    clamped at zero. */
module Ships {
  import opened Numerics
  import opened Celestial

  /** Fuel the ship starts with; also the capacity of the tank. */
  const MaxFuel: real := 10.0
  /** The ship's fixed mass. */
  const ShipMass: real := 10.0

  /** Everything about the ship that the physics reads or writes. */
  datatype ShipState = ShipState(kin: Kin, rotation: real, rocket: bool, fuel: real)

  /** The thruster fires when the switch is on and fuel is left. */
  predicate Firing(rocket: bool, fuel: real)
  {
    rocket && fuel > 0.0
  }

  /** The thruster's acceleration for orientation `rotation` (degrees):
      magnitude 50 along the orientation with the y axis flipped, or nothing. */
  function RocketAccel(np: Np, rocket: bool, fuel: real, rotation: real): Vec
  {
    if Firing(rocket, fuel) then
      Vec(50.0 * Cos(np, Radians(np, rotation)), -50.0 * Sin(np, Radians(np, rotation)))
    else
      Vec(0.0, 0.0)
  }

  /** Fuel after a step of length `dt`: drained at 0.5 per unit of time
      while firing, never below 0. */
  function FuelAfter(rocket: bool, fuel: real, dt: real): real
  {
    if Firing(rocket, fuel) then
      (if fuel - dt * 0.5 > 0.0 then fuel - dt * 0.5 else 0.0)
    else
      fuel
  }

  /** Ship.update on values: adjust fuel and integrate under the external
      acceleration `a` plus the thruster's. */
  function ShipStep(np: Np, s: ShipState, dt: real, a: Vec): ShipState
  {
    var rocketAccel := RocketAccel(np, s.rocket, s.fuel, s.rotation);
    s.(kin := Integrate(s.kin, dt, Add(a, rocketAccel)),
       fuel := FuelAfter(s.rocket, s.fuel, dt))
  }

  /** A step never leaves the tank negative, and for a non-negative step
      length never adds fuel. When the thruster fires, the fuel drops by
      `dt * 0.5` or to 0, whichever is higher; when it does not fire,
      the fuel is unchanged. */
  lemma FuelStep(rocket: bool, fuel: real, dt: real)
    requires 0.0 <= fuel
    ensures 0.0 <= FuelAfter(rocket, fuel, dt)
    ensures 0.0 <= dt ==> FuelAfter(rocket, fuel, dt) <= fuel
    ensures Firing(rocket, fuel) && dt * 0.5 < fuel ==> FuelAfter(rocket, fuel, dt) == fuel - dt * 0.5
    ensures Firing(rocket, fuel) && fuel <= dt * 0.5 ==> FuelAfter(rocket, fuel, dt) == 0.0
    ensures !Firing(rocket, fuel) ==> FuelAfter(rocket, fuel, dt) == fuel
  {
  }

  /** An empty tank stays empty and the thruster contributes nothing,
      whatever the switch says. */
  lemma EmptyTankIsFinal(np: Np, rocket: bool, rotation: real, dt: real)
    ensures FuelAfter(rocket, 0.0, dt) == 0.0
    ensures RocketAccel(np, rocket, 0.0, rotation) == Vec(0.0, 0.0)
  {
  }

  /** While firing, the thruster's acceleration has magnitude 50 exactly, provided cos and sin of the angle lie on the unit circle. */
  lemma ThrustMagnitude(np: Np, rocket: bool, fuel: real, rotation: real)
    requires Firing(rocket, fuel)
    requires UnitCircleAt(np, Radians(np, rotation))
    ensures Norm2(RocketAccel(np, rocket, fuel, rotation)) == 2500.0
  {
    var th := Radians(np, rotation);
    calc {
      Norm2(RocketAccel(np, rocket, fuel, rotation));
      Norm2(Vec(50.0 * Cos(np, th), -50.0 * Sin(np, th)));
      (50.0 * Cos(np, th)) * (50.0 * Cos(np, th)) + (-50.0 * Sin(np, th)) * (-50.0 * Sin(np, th));
      2500.0 * (Cos(np, th) * Cos(np, th) + Sin(np, th) * Sin(np, th));
    }
  }

  /** The fuel left after a run of steps, each with the switch position and
      step length it had at the time. */
  function FuelAfterAll(fuel: real, steps: seq<(bool, real)>): real
    decreases |steps|
  {
    if steps == [] then fuel
    else FuelAfterAll(FuelAfter(steps[0].0, fuel, steps[0].1), steps[1..])
  }

  /** Over any run of non-negative steps, fuel stays between 0 and what it
      started with, so a tank filled to `MaxFuel` stays within `[0, MaxFuel]`. */
  lemma {:induction false} FuelStaysInTank(fuel: real, steps: seq<(bool, real)>)
    requires 0.0 <= fuel
    requires forall i :: 0 <= i < |steps| ==> 0.0 <= steps[i].1
    ensures 0.0 <= FuelAfterAll(fuel, steps) <= fuel
    decreases |steps|
  {
    if steps != [] {
      FuelStep(steps[0].0, fuel, steps[0].1);
      FuelStaysInTank(FuelAfter(steps[0].0, fuel, steps[0].1), steps[1..]);
    }
  }

  /** The ship object. It owns its physical state (composition in place of
      the source's subclassing of CelestialObject). */
  class Ship {
    const body: CelestialObject
    var rotation: real
    var rocket: bool
    var fuel: real
    const maxFuel: real

    /** The tank is never overfull or negative; capacity and mass are the
        constants of the source. */
    ghost predicate Valid()
      reads this, body
    {
      0.0 <= fuel <= maxFuel && maxFuel == MaxFuel && body.m == ShipMass
    }

    function State(): ShipState
      reads this, body
    {
      ShipState(body.Kinematics(), rotation, rocket, fuel)
    }

    /** A ship at rest orientation with a full tank and the thruster off. */
    constructor (x: real, y: real, vx: real, vy: real)
      ensures Valid() && fresh(body)
      ensures State() == ShipState(Kin(Vec(x, y), Vec(vx, vy)), 0.0, false, MaxFuel)
    {
      body := new CelestialObject(x, y, vx, vy, ShipMass);
      fuel := MaxFuel;
      maxFuel := MaxFuel;
      rocket := false;
      rotation := 0.0;
    }

    /** Switch the thruster on; nothing else changes. */
    method StartAccel()
      modifies this`rocket
      ensures State() == old(State()).(rocket := true)
    {
      rocket := true;
    }

    /** Switch the thruster off; nothing else changes. */
    method StopAccel()
      modifies this`rocket
      ensures State() == old(State()).(rocket := false)
    {
      rocket := false;
    }

    /** Set the orientation (degrees); nothing else changes. */
    method Angle(th: real)
      modifies this`rotation
      ensures State() == old(State()).(rotation := th)
    {
      rotation := th;
    }

    /** Ship.update: burn fuel if the thruster fires, then integrate under
        the external acceleration `(ax, ay)` plus the thruster's. */
    method Update(np: Np, dt: real, ax: real, ay: real)
      modifies this`fuel, body
      ensures State() == ShipStep(np, old(State()), dt, Vec(ax, ay))
      ensures old(Valid()) && 0.0 <= dt ==> Valid() && fuel <= old(fuel)
    {
      var rocketAccelX := 0.0;
      var rocketAccelY := 0.0;
      if rocket && fuel > 0.0 {
        rocketAccelX := 50.0 * Cos(np, Radians(np, rotation));
        rocketAccelY := -50.0 * Sin(np, Radians(np, rotation));
        fuel := if fuel - dt * 0.5 > 0.0 then fuel - dt * 0.5 else 0.0;
      }
      var fullAccelX := ax + rocketAccelX;
      var fullAccelY := ay + rocketAccelY;
      body.Update(dt, fullAccelX, fullAccelY);
    }
  }
}
