# Dodge physics core in Dafny

A model of the physics of the small "dodge" space game (`game_state.py`).
It covers these parts:

- **The ship.** It has a position, a velocity, an orientation in degrees, a thrust switch and a fuel tank.
- **The planets.** Each is a fixed disc with a mass.
- **The game.** It runs one frame at a time. A frame does four things, in the source's order:
  1. It turns the ship towards the mouse pointer.
  2. It bounces the ship off the four walls of the field.
  3. It bounces the ship out of every planet it has entered, and counts each hit.
  4. It adds up the planets' inverse-square gravity and integrates the ship one explicit Euler step under gravity plus its own thrust.

The files, one module each:

- `numerics.dfy` (`Numerics`). The numpy operations the core uses: `pi`, `cos`, `sin`, `arctan2`, `sqrt` and `**(3/2)`. Dafny's `real` has none of them, so they are fields of a value `np` passed to the operations that need them. A lemma that needs a fact about one of them (an exact square root, a point on the unit circle) states that fact as a precondition at the one point it uses.
- `celestial.dfy` (`Celestial`). `CelestialObject`: an Euler step, and the collision response, which moves the object by a vector and reflects its velocity about the line with that normal. This module proves the properties of that reflection and the closed form of repeated steps.
- `ship.dfy` (`Ships`). `Ship`: thrust switch, orientation and fuel burn.
- `planet.dfy` (`Planets`). `Planet`: the collision test, the vector to the rim, and gravity.
- `game_state.dfy` (`Game`). `GameState`: walls, the planet loop, the gravity sum, orientation and the frame. The frame also appears as a function `Frame` on values, with lemmas about single frames and about runs of inputs.

Each class is written imperatively, as in the source. Each method's postcondition ties the new state to a function on values (`Collide`, `ShipStep`, `Walls`, `ResolvePlanets`, `GravitySum`, `Frame`), and the lemmas state the properties of those functions.

Floating-point NaN results are modelled as a fault flag `ok == false`. They arise when the ship sits exactly at a planet's centre, when the collision vector is zero, or when the gravity divisor is zero.

Four points about the code, which the model follows:

- **The integrator is explicit (forward) Euler.** The position advances by the velocity from *before* the step (`game_state.py:29-33`). It is not the semi-implicit scheme in which the position uses the updated velocity.
- **`vector_to_collision_from` points away from the centre for a point inside a planet.** It is the displacement to the centre scaled by `(dist - radius) / dist`, which is negative there (`game_state.py:191-199`). So it carries the ship outward onto the rim, not inward. `VectorToRim` proves both signs.
- **The collision negates the parallel part of the velocity.** The comment at `game_state.py:66` says "v_par --> v_par and v_perp --> -v_perp", but lines 67-68 negate `v_parallel` and keep `v_perp`. The model follows the code (`ReflectNegatesNormal`, `ReflectKeepsTangent`). This reflects the velocity in the wall or tangent line, which is the elastic bounce.
- **A planet bounce does not check which way the ship is moving.** A ship inside a planet but already moving away from its centre is still reflected, and so is turned back towards the centre (`game_state.py:274-278`, `BounceExample`).

## Model

| member | source | states |
|---|---|---|
| Celestial.Integrate | game_state.py:29-33 | `CelestialObject.update` on values, the function the method's contract and `DriftClosedForm` are stated against |
| Celestial.Reflect | game_state.py:56-68 | the velocity after `handle_collision`, computed as lines 56-68 do, on values |
| Celestial.CelestialObject.constructor | game_state.py:21-26 | the new object has exactly the given position, velocity and mass |
| Celestial.CelestialObject.Update | game_state.py:29-33 | the new state is one explicit Euler step (`Integrate`) of the old: position moves by `dt` times the old velocity, velocity by `dt` times the acceleration |
| Celestial.CelestialObject.HandleCollision | game_state.py:35-68 | the new state is `Collide(old, r)`: the position moves by `r` and the velocity becomes its reflection in the line with normal `r` |
| Celestial.ReflectFormula | game_state.py:56-68 | the reflected velocity is `v - 2 q r`, with `q` the coefficient of the projection of `v` on `r` |
| Celestial.ReflectNegatesNormal | game_state.py:58-68 | the component of the velocity along `r` changes sign |
| Celestial.ReflectKeepsTangent | game_state.py:58-68 | the component of the velocity perpendicular to `r` is unchanged |
| Celestial.ReflectPreservesSpeed | game_state.py:56-68 | a collision never changes the speed: `|v'|^2 == |v|^2` |
| Celestial.ReflectInvolution | game_state.py:56-68 | reflecting twice in the same `r` gives back the original velocity |
| Celestial.ReflectUnique | game_state.py:58-68 | any vector that negates the component along `r` and keeps the perpendicular component is the reflection |
| Celestial.ReflectAxisX | game_state.py:261-266 | a horizontal collision vector negates `vx` and keeps `vy` |
| Celestial.ReflectAxisY | game_state.py:267-272 | a vertical collision vector negates `vy` and keeps `vx` |
| Celestial.ReflectScaleInvariant | game_state.py:56-68 | the reflection depends only on the line, not on the length or sign of `r`: reflecting in `k r` (for `k != 0`) equals reflecting in `r` |
| Celestial.DriftClosedForm | game_state.py:29-33 | `n` steps under a constant acceleration `a` give velocity `v + n dt a` and position `x + n dt v + n(n-1)/2 dt^2 a` |
| Celestial.FreeFlight | game_state.py:29-33 | `n` steps without acceleration move the object by `n dt v` and keep its velocity |
| Ships.ShipStep | game_state.py:150-161 | `Ship.update` on values: fuel burn and thrust gated on `rocket && fuel > 0`, then one Euler step under external plus rocket acceleration |
| Ships.FuelStep | game_state.py:153-157 | one update never leaves the tank negative and, for `dt >= 0`, never adds fuel; while firing, the fuel drops by `dt/2` or to 0, and otherwise it is unchanged |
| Ships.EmptyTankIsFinal | game_state.py:153-157 | with an empty tank the thruster gives no acceleration and the tank stays empty, whatever the switch says |
| Ships.ThrustMagnitude | game_state.py:153-155 | while firing, the thrust has magnitude exactly 50 (given `cos^2 + sin^2 = 1` at the angle) |
| Ships.FuelStaysInTank | game_state.py:150-161 | over any run of updates with `dt >= 0`, the fuel stays between 0 and its starting level, so within `[0, max_fuel]` |
| Ships.Ship.constructor | game_state.py:89-117 | a new ship has mass 10, a full tank of 10, the thruster off and rotation 0, and satisfies its tank invariant |
| Ships.Ship.StartAccel | game_state.py:131-135 | the switch turns on and nothing else in the ship's state changes |
| Ships.Ship.StopAccel | game_state.py:138-141 | the switch turns off and nothing else in the ship's state changes |
| Ships.Ship.Angle | game_state.py:144-147 | the rotation is set and nothing else in the ship's state changes |
| Ships.Ship.Update | game_state.py:150-163 | the new state is `ShipStep`: fuel burn gated on `rocket && fuel > 0`, then an Euler step under the external plus rocket acceleration; for `dt >= 0` the tank invariant is kept and fuel never rises |
| Planets.Collision | game_state.py:183-189 | `Planet.collision`: the numpy distance from the point to the centre is below the radius |
| Planets.VectorToCollisionFrom | game_state.py:191-199 | `Planet.vector_to_collision_from`: the displacement to the centre scaled by `(dist - radius) / dist`, or `None` where `dist` is 0 (numpy's 0/0) |
| Planets.GravityAt | game_state.py:201-207 | `Planet.gravity_at`: `-displ * G * m / dist2**(3/2)` per component, or `None` where the divisor is 0 |
| Planets.CollisionIffInside | game_state.py:183-189 | with an exact square root, a collision happens exactly when the radius is positive and `dist^2 < radius^2` |
| Planets.VectorAsScale | game_state.py:191-199 | away from the centre, the vector is the displacement to the centre scaled by `(dist - radius) / dist` |
| Planets.VectorToRim | game_state.py:191-199 | away from the centre the vector is defined and parallel to the displacement to the centre; it lands exactly on the rim; it points away from the centre from inside the disc and towards it from outside |
| Planets.GravityDefinedIff | game_state.py:201-207 | with an exact `**(3/2)`, gravity is defined exactly when the point is not the planet's centre |
| Planets.GravityCentral | game_state.py:201-207 | gravity is parallel to the displacement, points towards the centre when `G m > 0`, and obeys `|a|^2 dist^4 == (G m)^2` |
| Game.Walls | game_state.py:259-272 | the four wall checks on values, right, left, top, bottom, each seeing the result of the one before |
| Game.ResolvePlanets | game_state.py:274-278 | the planet loop on values, in the planets' order, with the hit count and the fault flag |
| Game.GravitySum | game_state.py:281-289 | `accel_on_ship` on values: the planets' pulls added in order, with the fault flag |
| Game.Frame | game_state.py:304-308 | `GameState.update` on values: orientation, collisions, gravity at the resolved position, ship update |
| Game.CollideAxisX | game_state.py:261-266 | a left or right wall bounce moves the ship horizontally and negates `vx` only |
| Game.CollideAxisY | game_state.py:267-272 | a top or bottom wall bounce moves the ship vertically and negates `vy` only |
| Game.WallsEffect | game_state.py:259-272 | the four wall checks clamp each coordinate into the field and negate exactly the velocity components whose coordinate was outside |
| Game.WallsConfine | game_state.py:259-272 | after the walls the ship is inside the field with the same speed, and a ship already inside is untouched |
| Game.WallExample | game_state.py:261-263 | a ship 3 past the right wall moving right at 4 ends on the wall moving left at 4 |
| Game.ResolveAppend | game_state.py:274-278 | the planet loop over `ps + qs` is the loop over `ps` followed by the loop over `qs` |
| Game.ResolveCounts | game_state.py:274-278 | the loop adds between 0 and one hit per planet, and a fault is final |
| Game.ResolveMisses | game_state.py:274-275 | a ship that touches no planet leaves the loop unchanged |
| Game.BounceOffPlanet | game_state.py:274-278 | entering a planet away from its centre counts one hit, puts the ship exactly on the rim, and reflects its velocity in the tangent at the rim (radial part negated, tangential part kept), whichever way it was moving |
| Game.BounceExample | game_state.py:274-278 | with the starting planet, a ship at (500, 585) already moving away from the centre at (0, -10) ends on the rim at (500, 580) moving back towards the centre at (0, 10), after one hit |
| Game.GravitySumAppend | game_state.py:281-289 | the pull of `ps + qs` is the sum of the pulls of `ps` and of `qs` |
| Game.GravitySumSwap | game_state.py:281-289 | swapping two blocks of planets does not change the net pull |
| Game.GravitySumPerm | game_state.py:281-289 | the net pull does not depend on the order of the planets: any two lists with the same planets (as multisets) give the same sum and the same `ok` |
| Game.GravitySumOk | game_state.py:281-289 | the sum is defined exactly when every planet's pull is |
| Game.ThrustTowardPointer | game_state.py:297-301 | after orienting the ship by `arctan2(dx, dy)`, a firing thruster pushes straight towards the pointer: parallel to `(dx, dy)` with a positive component along it |
| Game.FrameInvariants | game_state.py:304-308 | a frame faces the ship towards the pointer, keeps the pointer and the switch, adds at most one collision per planet, and for `dt >= 0` keeps fuel in `[0, old fuel]` |
| Game.QuietFrame | game_state.py:304-308 | a ship inside the field, touching no planet, not firing and feeling no pull makes a frame one plain Euler step, with no collision |
| Game.ApplyInvariants | game_state.py:292-308 | for a frame with `dt >= 0`, or any other input, fuel stays between 0 and its old level; the collision counter never drops; only a frame adds collisions, at most one per planet |
| Game.RunInvariants | game_state.py:292-308 | over any run of inputs whose frames all have `dt >= 0`, fuel stays between 0 and its start, and the counter never decreases and grows by at most (planets × frames) |
| Game.GameState.constructor | game_state.py:231-247 | a new game has the ship at rest at (250, 500) with a full tank, the single planet (500, 600, m 100, r 20), the pointer at the origin and no collisions |
| Game.GameState.PointTo | game_state.py:292-294 | the pointer is recorded and nothing else changes |
| Game.GameState.ShipOrientationUpdate | game_state.py:297-301 | only the ship's rotation changes, to `180 arctan2(dx, dy) / pi - 90` |
| Game.GameState.BounceOffWalls | game_state.py:259-272 | the ship's new state is `Walls` of the old: right, left, top, bottom, in order |
| Game.GameState.CheckForCollisions | game_state.py:259-278 | the ship's new state and the counter's increase are those of the walls followed by the planet loop, and `ok` is false exactly when the loop faulted |
| Game.GameState.AccelOnShip | game_state.py:281-289 | returns the sum of the planets' pulls at the ship's position, in the planets' order |
| Game.GameState.Update | game_state.py:304-308 | the new game state is `Frame` of the old (orientation, collisions, gravity at the resolved position, ship update), and the ship's tank invariant is kept for `dt >= 0` |
| Numerics.Pow32Vanishes | game_state.py:204-206 | an exact `t**(3/2)` of `t >= 0` is zero exactly at `t = 0` and positive elsewhere, so gravity's divisor vanishes only at the centre |

## Left out

- Drawing and input: the pyglet shapes (ship polygon, plume, planet circle, fuel gauge), their positions and rotations, the batch, and the window and event loop in `main.py`. Inputs appear only as the abstract events `Tick`, `PointAt`, `Press` and `Release` of `Game.Run`.
- Logging: the `log.debug` calls do nothing observable.
- Floating point: everything is exact `real` arithmetic. Rounding, overflow and IEEE corner cases are not modelled. Python's int/float mix is a single `real`, except `max_x` and `max_y`, which stay `int`.
- numpy's transcendental functions: they are uninterpreted apart from the pointwise facts a lemma asks for, and no accuracy of numpy is modelled. `pi` is only known to seven places.
- NaN: every result that would be NaN or inf, or would raise, becomes the fault flag. At zero distance `gravity_at` raises `ZeroDivisionError` for plain Python floats. It yields inf or NaN (with a warning) for the numpy scalars the ship holds after any thrust or planet bounce. Both cases are the same fault in the model. A ship can reach a planet's centre only by way of the planet loop, which has already made its position NaN (0/0). Nothing downstream of a fault is tracked, the collision counter included. A ship whose position is NaN never collides again in the source, because `nan < radius` is false. The model instead carries on from the last real state: later frames of `Game.Run` can move the ship and count further hits. Only the `ok` flag of a run records that a fault happened.
- Celestial.CelestialObject.HandleCollision: requires a non-zero vector. With a zero vector the source divides 0 by 0. The callers never pass one: each wall passes a non-zero offset, and the planet loop raises the fault flag instead.
- Game.GameState.CheckForCollisions: after a fault, the remaining planets are skipped, and the model keeps the last real state in place of NaN. For a fault at a planet's centre this matches the source's counter: the position becomes NaN, and a NaN distance never compares below a radius. A zero collision vector leaves the source's position real, so later planets could still count there. Exact arithmetic never produces that vector (`VectorToRim`).
- Game.GameState.CheckForCollisions, Game.GameState.AccelOnShip, Game.GameState.Update: return an `ok` flag the source does not have. It is how the fault is reported.
- `Planet` is a value, not a `CelestialObject`: planets never move, so their velocity and `update` are unused. `Ship` holds its `CelestialObject` as a component rather than inheriting from it.
- `add_planet` is a stub that returns nothing, and the `num_planets` constructor argument is unused (its loop is commented out). A game always starts with the one planet.
- The defaults `accel_x=0, accel_y=0` of `CelestialObject.update` (`game_state.py:29`) are not modelled: every caller passes both accelerations, so `Celestial.CelestialObject.Update` takes them as plain parameters.
- `gravity_at`'s default `G=1` is unused: the game always passes its `G = 1000`.
