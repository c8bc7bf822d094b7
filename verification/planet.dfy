/** One orbiting body (`Planet` in the source): construction from its
    configuration entry, the density-driven colour saturation, and the
    per-frame semi-implicit Euler step under the fixed central mass. */
module Planet {
  import opened Numeric
  import opened Vectors
  import opened Options
  import opened Trail
  import Config

  /** Gravitational constant. */
  const G: real := 1.0

  /** Floor on the orbit radius when computing the initial speed. */
  const SpeedFloor: real := 0.000001

  /** Added to the centre distance so that it is never zero. */
  const Softening: real := 0.000000001

  /** A square root as far as the model needs one: non-negative on
      non-negative arguments. */
  type Root = f: real -> real | forall x: real :: 0.0 <= x ==> 0.0 <= f(x)
    witness (x: real) => 0.0

  /** The transcendental functions of the `math` module, taken as given.
      Nothing is assumed of `sin` and `cos`. */
  datatype MathLib = MathLib(sin: real -> real, cos: real -> real, sqrt: Root)

  /** `math.sqrt` of a negative number raises instead of returning. */
  datatype MathError = DomainError

  datatype Body = Body(
    name: string,
    radius: int,
    density: real,
    orbitRadius: real,
    phase: real,
    center: Vec,
    hue: real,
    pos: Vec,
    vel: Vec,
    trail: seq<Vec>,
    trailCap: Capacity)

  // ---------------------------------------------------------------------
  // Construction

  /** The divisor of the circular-orbit speed: the orbit radius, raised to
      `SpeedFloor` when smaller, so that a zero orbit cannot divide by 0. */
  function SpeedDivisor(orbitRadius: real): (d: real)
    ensures SpeedFloor <= d && 0.0 < d
    ensures orbitRadius <= d
    ensures SpeedFloor <= orbitRadius ==> d == orbitRadius
    ensures orbitRadius < SpeedFloor ==> d == SpeedFloor
  {
    Max(orbitRadius, SpeedFloor)
  }

  /** `G M / max(R, 1e-6)`, the square of the circular-orbit speed: negative
      exactly when the central mass is. */
  function SpeedSquared(sunMass: real, orbitRadius: real): (q: real)
    ensures q < 0.0 <==> sunMass < 0.0
  {
    G * sunMass / SpeedDivisor(orbitRadius)
  }

  /** A body placed on its orbit at its phase, moving counter-clockwise with
      the circular-orbit speed; `DomainError` when that speed would be the
      square root of a negative number (a negative central mass). */
  function Init(lib: MathLib, spec: Config.BodySpec, sunMass: real, center: Vec, hue: real)
    : (r: Result<Body, MathError>)
    ensures r.Ok? <==> 0.0 <= sunMass
    ensures r.Ok? ==> r.value == Launch(lib, spec, spec.phase.GetOr(0.0), center, hue,
                                        lib.sqrt(SpeedSquared(sunMass, spec.orbitRadius)))
  {
    var speedSquared := SpeedSquared(sunMass, spec.orbitRadius);
    if speedSquared < 0.0 then
      Err(DomainError)
    else
      Ok(Launch(lib, spec, spec.phase.GetOr(0.0), center, hue, lib.sqrt(speedSquared)))
  }

  /** The body of `spec` on its orbit around `center` at angle `phase`, moving counter-clockwise with speed `v`: its radius vector and
      velocity are orthogonal, its trail is empty and its cap fixed by its
      radius. */
  function Launch(lib: MathLib, spec: Config.BodySpec, phase: real, center: Vec, hue: real, v: real)
    : (b: Body)
    ensures b.name == spec.name && b.radius == spec.radius && b.density == spec.density
    ensures b.orbitRadius == spec.orbitRadius && b.phase == phase
    ensures b.center == center && b.hue == hue
    ensures Sub(b.pos, center) == Scale(spec.orbitRadius, Vec(lib.cos(phase), lib.sin(phase)))
    ensures b.vel == Scale(v, Vec(-lib.sin(phase), lib.cos(phase)))
    ensures Dot(Sub(b.pos, center), b.vel) == 0.0
    ensures b.trail == [] && b.trailCap == CapFor(spec.radius)
  {
    PerpendicularStart(center, spec.orbitRadius, v, lib.cos(phase), lib.sin(phase));
    Body(spec.name, spec.radius, spec.density, spec.orbitRadius, phase, center, hue,
         Vec(center.x + spec.orbitRadius * lib.cos(phase), center.y + spec.orbitRadius * lib.sin(phase)),
         Vec(v * -lib.sin(phase), v * lib.cos(phase)),
         [], CapFor(spec.radius))
  }

  /** A body at `center + R(c, s)` moving with `v(-s, c)`: its radius
      vector is `R(c, s)`, and that is orthogonal to the velocity whatever
      values `c` and `s` take. */
  lemma PerpendicularStart(center: Vec, radius: real, v: real, c: real, s: real)
    ensures Sub(Vec(center.x + radius * c, center.y + radius * s), center) == Scale(radius, Vec(c, s))
    ensures Vec(v * -s, v * c) == Scale(v, Vec(-s, c))
    ensures Dot(Scale(radius, Vec(c, s)), Scale(v, Vec(-s, c))) == 0.0
  {
    assert (radius * c) * (v * -s) == -(radius * v * c * s);
    assert (radius * s) * (v * c) == radius * v * c * s;
  }

  // ---------------------------------------------------------------------
  // Colour

  const DensityMin: real := 1.0
  const DensityMax: real := 12.0
  const SaturationMin: real := 0.05
  const SaturationMax: real := 0.98

  /** Colour saturation from density: the density's place in [1, 12],
      kept within [0.05, 0.98]. */
  function Saturation(density: real): (s: real)
    ensures SaturationMin <= s <= SaturationMax
    ensures s == SaturationMin <==> density <= 1.55
    ensures s == SaturationMax <==> 11.78 <= density
  {
    Clamp((density - DensityMin) / (DensityMax - DensityMin), SaturationMin, SaturationMax)
  }

  /** Denser bodies are never paler. */
  lemma SaturationMonotone(d1: real, d2: real)
    requires d1 <= d2
    ensures Saturation(d1) <= Saturation(d2)
  {
    ClampMonotone((d1 - DensityMin) / (DensityMax - DensityMin),
                  (d2 - DensityMin) / (DensityMax - DensityMin),
                  SaturationMin, SaturationMax);
  }

  /** Every saturation in range is reached, by the density that the linear
      map sends to it. */
  lemma SaturationInverse(s: real)
    requires SaturationMin <= s <= SaturationMax
    ensures Saturation(DensityMin + s * (DensityMax - DensityMin)) == s
  {
  }

  /** Between the two thresholds, denser bodies are strictly more saturated. */
  lemma SaturationStrict(d1: real, d2: real)
    requires 1.55 <= d1 < d2 <= 11.78
    ensures Saturation(d1) < Saturation(d2)
  {
  }

  /** Hue, saturation and value handed to the HSV conversion. */
  datatype Hsv = Hsv(h: real, s: real, v: real)

  const ColorValue: real := 0.90

  function ColorInputs(b: Body): (c: Hsv)
    ensures c.h == b.hue && c.v == ColorValue
    ensures c.s == Saturation(b.density)
    ensures SaturationMin <= c.s <= SaturationMax
  {
    Hsv(b.hue, Saturation(b.density), ColorValue)
  }

  /** Of two bodies, the denser one is drawn at least as saturated. */
  lemma DenserIsMoreSaturated(b1: Body, b2: Body)
    requires b1.density <= b2.density
    ensures ColorInputs(b1).s <= ColorInputs(b2).s
  {
    SaturationMonotone(b1.density, b2.density);
  }

  // ---------------------------------------------------------------------
  // The integration step

  /** Distance from the body to the centre, plus `Softening`. */
  function Separation(lib: MathLib, center: Vec, p: Vec): (r: real)
    ensures Softening <= r && 0.0 < r
  {
    var d := Sub(center, p);
    assert 0.0 <= d.x * d.x + d.y * d.y;
    lib.sqrt(d.x * d.x + d.y * d.y) + Softening
  }

  /** `G M / r^3`: the acceleration per unit of displacement toward the centre. */
  function PullFactor(lib: MathLib, sunMass: real, center: Vec, p: Vec): (k: real)
    ensures 0.0 < sunMass ==> 0.0 < k
    ensures sunMass == 0.0 ==> k == 0.0
    ensures sunMass < 0.0 ==> k < 0.0
  {
    InverseCube(G * sunMass, Separation(lib, center, p))
  }

  function InverseCube(m: real, r: real): (k: real)
    requires 0.0 < r
    ensures 0.0 < m ==> 0.0 < k
    ensures m == 0.0 ==> k == 0.0
    ensures m < 0.0 ==> k < 0.0
  {
    assert 0.0 < r * r * r;
    m / (r * r * r)
  }

  /** The acceleration of the source (`G M / r^2` along the unit vector toward
      the centre) is `PullFactor` times the displacement toward the centre. */
  function Acceleration(lib: MathLib, sunMass: real, center: Vec, p: Vec): (a: Vec)
    ensures a == Scale(PullFactor(lib, sunMass, center, p), Sub(center, p))
  {
    Attraction(G * sunMass, Separation(lib, center, p), Sub(center, p))
  }

  /** Magnitude `m / r^2` along `d / r`. */
  function Attraction(m: real, r: real, d: Vec): (a: Vec)
    requires 0.0 < r
    ensures a == Scale(InverseCube(m, r), d)
  {
    DivideTwice(m, r, d.x);
    DivideTwice(m, r, d.y);
    Vec(m / (r * r) * d.x / r, m / (r * r) * d.y / r)
  }

  /** Dividing by `r^2` and then by `r` is dividing by `r^3`. */
  lemma DivideTwice(m: real, r: real, x: real)
    requires 0.0 < r
    ensures m / (r * r) * x / r == m / (r * r * r) * x
  {
    DivideProduct(m / (r * r), r, x);
    assert m / (r * r) / r == m / (r * r * r);
  }

  lemma DivideProduct(m: real, r: real, x: real)
    requires 0.0 < r
    ensures (m * x) / r == (m / r) * x
  {
  }

  /** A position together with a velocity. */
  datatype Motion = Motion(pos: Vec, vel: Vec)

  /** Semi-implicit Euler: the velocity is advanced first and the position
      then moves with the NEW velocity, so the displacement carries a
      `dt^2 a` term that explicit Euler (moving with the old velocity)
      would not. */
  function Integrate(pos: Vec, vel: Vec, a: Vec, dt: real): (next: Motion)
    ensures Sub(next.vel, vel) == Scale(dt, a)
    ensures Sub(next.pos, pos) == Scale(dt, next.vel)
    ensures Sub(next.pos, pos) == Add(Scale(dt, vel), Scale(dt * dt, a))
  {
    var vx := vel.x + a.x * dt;
    var vy := vel.y + a.y * dt;
    Motion(Vec(pos.x + vx * dt, pos.y + vy * dt), Vec(vx, vy))
  }

  /** One frame of a body whose motion is advanced by `advance`: the
      trail receives the new position and nothing else changes. */
  function Frame(advance: Motion -> Motion, b: Body): (b': Body)
    ensures Motion(b'.pos, b'.vel) == advance(Motion(b.pos, b.vel))
    ensures b'.trail == Push(b.trail, b'.pos, b.trailCap)
    ensures b' == b.(pos := b'.pos, vel := b'.vel, trail := b'.trail)
  {
    var next := advance(Motion(b.pos, b.vel));
    b.(pos := next.pos, vel := next.vel, trail := Push(b.trail, next.pos, b.trailCap))
  }

  /** The motion update of `update`: accelerate toward `center` under mass
      `sunMass`, then integrate over `dt`.  The centre and mass are those
      passed in, not the body's stored centre. */
  function Gravity(lib: MathLib, sunMass: real, center: Vec, dt: real): (advance: Motion -> Motion)
    ensures forall m: Motion :: Sub(advance(m).vel, m.vel) == Scale(dt, Acceleration(lib, sunMass, center, m.pos))
    ensures forall m: Motion :: Sub(advance(m).pos, m.pos) == Scale(dt, advance(m).vel)
  {
    (m: Motion) => Integrate(m.pos, m.vel, Acceleration(lib, sunMass, center, m.pos), dt)
  }

  /** One frame of `update`. */
  function Step(lib: MathLib, sunMass: real, center: Vec, dt: real, b: Body): (b': Body)
    ensures Sub(b'.vel, b.vel) == Scale(dt, Acceleration(lib, sunMass, center, b.pos))
    ensures Sub(b'.pos, b.pos) == Scale(dt, b'.vel)
    ensures b'.trail == Push(b.trail, b'.pos, b.trailCap)
    ensures b' == b.(pos := b'.pos, vel := b'.vel, trail := b'.trail)
  {
    Frame(Gravity(lib, sunMass, center, dt), b)
  }

  /** What one frame does to the motion, with `d` the displacement toward
      the centre and `k = G M / r^3` (positive for a positive mass): the
      velocity changes by `dt k d`, the position by `dt` times the NEW
      velocity, which is `dt v + dt^2 k d`. */
  lemma StepMotion(lib: MathLib, sunMass: real, center: Vec, dt: real, b: Body)
    ensures Sub(Step(lib, sunMass, center, dt, b).vel, b.vel)
         == Scale(dt * PullFactor(lib, sunMass, center, b.pos), Sub(center, b.pos))
    ensures Sub(Step(lib, sunMass, center, dt, b).pos, b.pos)
         == Scale(dt, Step(lib, sunMass, center, dt, b).vel)
    ensures Sub(Step(lib, sunMass, center, dt, b).pos, b.pos)
         == Add(Scale(dt, b.vel),
                Scale(dt * dt * PullFactor(lib, sunMass, center, b.pos), Sub(center, b.pos)))
  {
    IntegrateToward(b.pos, b.vel, PullFactor(lib, sunMass, center, b.pos), Sub(center, b.pos), dt);
  }

  /** `Integrate` under an acceleration `k d`. */
  lemma IntegrateToward(pos: Vec, vel: Vec, k: real, d: Vec, dt: real)
    ensures
      var next := Integrate(pos, vel, Scale(k, d), dt);
      && Sub(next.vel, vel) == Scale(dt * k, d)
      && Sub(next.pos, pos) == Add(Scale(dt, vel), Scale(dt * dt * k, d))
  {
    ScaleTwice(dt, k, d);
    ScaleTwice(dt * dt, k, d);
  }

  lemma ScaleTwice(s: real, k: real, d: Vec)
    ensures Scale(s, Scale(k, d)) == Scale(s * k, d)
  {
  }

  // ---------------------------------------------------------------------
  // Many frames

  /** The body after `n` frames. */
  function Frames(advance: Motion -> Motion, b: Body, n: nat): (f: Body)
    ensures f == b.(pos := f.pos, vel := f.vel, trail := f.trail)
  {
    if n == 0 then b else Frame(advance, Frames(advance, b, n - 1))
  }

  /** The positions reached after frames 1 .. n, oldest first. */
  function Visited(advance: Motion -> Motion, b: Body, n: nat): seq<Vec> {
    if n == 0 then [] else Visited(advance, b, n - 1) + [Frames(advance, b, n).pos]
  }

  /** After `n` frames the trail holds exactly the newest `cap` entries of
      the old trail followed by every position reached since, whatever the
      motion. */
  lemma {:induction false} TrailIsWindow(advance: Motion -> Motion, b: Body, n: nat)
    requires |b.trail| <= b.trailCap
    ensures Frames(advance, b, n).trailCap == b.trailCap
    ensures Frames(advance, b, n).trail == Window(b.trail + Visited(advance, b, n), b.trailCap)
  {
    if n == 0 {
      assert b.trail + [] == b.trail;
      ShortTrailIsWindow(b.trail, b.trailCap);
    } else {
      TrailIsWindow(advance, b, n - 1);
      var prev := Frames(advance, b, n - 1);
      var next := Frames(advance, b, n);
      assert next == Frame(advance, prev);
      PushAfterHistory(b.trail, Visited(advance, b, n - 1), Visited(advance, b, n),
                       next.pos, b.trailCap);
    }
  }

  lemma {:induction false} LengthOfVisited(advance: Motion -> Motion, b: Body, n: nat)
    ensures |Visited(advance, b, n)| == n
  {
    if 0 < n {
      LengthOfVisited(advance, b, n - 1);
    }
  }

  /** A freshly built body: after `n` frames of `update` its trail has
      `min(n, cap)` entries, never more than the cap, and ends at the
      current position. */
  lemma {:induction false} TrailAfterSteps(lib: MathLib, sunMass: real, center: Vec, dt: real,
                        spec: Config.BodySpec, hue: real, b: Body, n: nat)
    requires Init(lib, spec, sunMass, center, hue) == Ok(b)
    ensures |Frames(Gravity(lib, sunMass, center, dt), b, n).trail| == MinNat(n, CapFor(spec.radius))
    ensures |Frames(Gravity(lib, sunMass, center, dt), b, n).trail| <= CapFor(spec.radius)
    ensures 0 < n ==> Frames(Gravity(lib, sunMass, center, dt), b, n).trail[|Frames(Gravity(lib, sunMass, center, dt), b, n).trail| - 1]
                      == Frames(Gravity(lib, sunMass, center, dt), b, n).pos
  {
    var advance := Gravity(lib, sunMass, center, dt);
    TrailIsWindow(advance, b, n);
    LengthOfVisited(advance, b, n);
    assert b.trail + Visited(advance, b, n) == Visited(advance, b, n);
    if 0 < n {
      assert Frames(advance, b, n) == Frame(advance, Frames(advance, b, n - 1));
    }
  }
}
