/** The persisted scenario and the generation of its defaults when no
    configuration file exists yet (`load_or_create_state`). */
module Config {
  import opened Options

  /** One entry of the scenario's body list.  `phase` may be absent from a
      stored file; the body constructor then uses 0. */
  datatype BodySpec = BodySpec(
    name: string,
    radius: int,
    density: real,
    orbitRadius: real,
    phase: Option<real>)

  datatype Rgb = Rgb(r: int, g: int, b: int)

  datatype Window = Window(width: int, height: int, fps: int, background: Rgb)

  datatype Sun = Sun(mass: real, radius: int, color: Rgb)

  datatype Timing = Timing(dt: real, timeScale: real)

  datatype Scenario = Scenario(
    window: Window,
    sun: Sun,
    time: Timing,
    commonHue: real,
    bodies: seq<BodySpec>)

  /** `math.pi` to 16 significant digits. */
  const Pi: real := 3.141592653589793
  const TwoPi: real := 2.0 * Pi

  const DensityLow: real := 1.2
  const DensityHigh: real := 12.0

  /** Nominal orbit radii of the six planets; each is perturbed by up to
      `PlanetJitter` either way. */
  const PlanetOrbits: seq<real> := [140.0, 210.0, 280.0, 360.0, 420.0, 470.0]
  const PlanetJitter: real := 10.0

  // ---------------------------------------------------------------------
  // The random source

  /** An abstract seeded generator: a state `S` threaded through each draw.
      `uniform(s, a, b)` and `randint(s, lo, hi)` return a value and the
      next state. */
  datatype Rng<!S> = Rng(
    uniform: (S, real, real) -> (real, S),
    randint: (S, int, int) -> (int, S))

  /** All the model assumes of the generator: `uniform` stays within its
      bounds and `randint` within its inclusive bounds. */
  ghost predicate Honest<S(!new)>(g: Rng<S>) {
    && (forall s, a, b :: a <= b ==> a <= g.uniform(s, a, b).0 <= b)
    && (forall s, lo, hi :: lo <= hi ==> lo <= g.randint(s, lo, hi).0 <= hi)
  }

  // ---------------------------------------------------------------------
  // Names

  function DigitChar(d: nat): char
    requires d < 10
  {
    ('0' as int + d) as char
  }

  /** Decimal notation of `n`, as produced by an f-string. */
  function Decimal(n: nat): (s: string)
    ensures 0 < |s|
    ensures forall i :: 0 <= i < |s| ==> '0' <= s[i] <= '9'
    ensures s[0] == '0' <==> n == 0
  {
    if n < 10 then [DigitChar(n)] else Decimal(n / 10) + [DigitChar(n % 10)]
  }

  /** The number a string of decimal digits denotes, most significant first. */
  function DecimalValue(s: string): nat
    requires forall i :: 0 <= i < |s| ==> '0' <= s[i] <= '9'
  {
    if s == [] then 0
    else DecimalValue(s[..|s| - 1]) * 10 + (s[|s| - 1] as int - '0' as int)
  }

  /** Reading back the written number gives the number. */
  lemma {:induction false} DecimalRoundTrip(n: nat)
    ensures DecimalValue(Decimal(n)) == n
  {
    var s := Decimal(n);
    if n < 10 {
      assert s[..0] == [];
    } else {
      assert s[..|s| - 1] == Decimal(n / 10);
      DecimalRoundTrip(n / 10);
    }
  }

  /** Different numbers are written differently. */
  lemma {:induction false} DecimalInjective(m: nat, n: nat)
    requires Decimal(m) == Decimal(n)
    ensures m == n
  {
    var a, b := Decimal(m), Decimal(n);
    if m < 10 && n < 10 {
      assert a[0] == b[0];
    } else if 10 <= m && 10 <= n {
      assert a[|a| - 1] == b[|b| - 1];
      assert m % 10 == n % 10;
      assert a[..|a| - 1] == Decimal(m / 10);
      assert b[..|b| - 1] == Decimal(n / 10);
      DecimalInjective(m / 10, n / 10);
    }
  }

  // ---------------------------------------------------------------------
  // The three groups of default bodies

  datatype Group = Planets | Moons | Asteroids {

    /** First letter of every name in the group. */
    function Prefix(): char {
      match this
      case Planets => 'P'
      case Moons => 'M'
      case Asteroids => 'A'
    }

    function Count(): nat {
      match this
      case Planets => |PlanetOrbits|
      case Moons => 6
      case Asteroids => 18
    }

    function RadiusLow(): int {
      match this
      case Planets => 9
      case Moons => 6
      case Asteroids => 2
    }

    function RadiusHigh(): int {
      match this
      case Planets => 22
      case Moons => 12
      case Asteroids => 4
    }

    /** Bounds of the group's uniform orbit draw: the absolute orbit for
        moons and asteroids, the jitter around the listed orbit for planets. */
    function OrbitLow(): real {
      match this
      case Planets => -PlanetJitter
      case Moons => 170.0
      case Asteroids => 120.0
    }

    function OrbitHigh(): real {
      match this
      case Planets => PlanetJitter
      case Moons => 520.0
      case Asteroids => 520.0
    }
  }

  /** The `i`-th name (counted from 0) of a group: prefix then `i + 1`. */
  function NameOf(g: Group, i: nat): string {
    [g.Prefix()] + Decimal(i + 1)
  }

  /** A generated name is the group's letter followed by the index in
      decimal, without a leading zero. */
  lemma NameShape(g: Group, i: nat)
    ensures 2 <= |NameOf(g, i)| && NameOf(g, i)[0] == g.Prefix()
    ensures forall k :: 1 <= k < |NameOf(g, i)| ==> '0' <= NameOf(g, i)[k] <= '9'
    ensures NameOf(g, i)[1] != '0'
  {
  }

  /** Where the `i`-th body of a group may orbit. */
  predicate OrbitAllowed(g: Group, i: nat, orbit: real)
    requires i < g.Count()
  {
    match g
    case Planets =>
      PlanetOrbits[i] - PlanetJitter <= orbit <= PlanetOrbits[i] + PlanetJitter
    case _ => g.OrbitLow() <= orbit <= g.OrbitHigh()
  }

  /** What the generator promises about the `i`-th body of group `g`. */
  predicate SlotOk(g: Group, i: nat, b: BodySpec)
    requires i < g.Count()
  {
    && b.name == NameOf(g, i)
    && g.RadiusLow() <= b.radius <= g.RadiusHigh()
    && DensityLow <= b.density <= DensityHigh
    && OrbitAllowed(g, i, b.orbitRadius)
    && b.phase.Some? && 0.0 <= b.phase.value <= TwoPi
  }

  /** Draws one body, in the source's call order: density, radius, orbit,
      phase. */
  function DrawBody<S(!new)>(rng: Rng<S>, s: S, g: Group, i: nat): (out: (BodySpec, S))
    requires Honest(rng)
    requires i < g.Count()
    ensures SlotOk(g, i, out.0)
  {
    var (density, s1) := rng.uniform(s, DensityLow, DensityHigh);
    var (radius, s2) := rng.randint(s1, g.RadiusLow(), g.RadiusHigh());
    var (offset, s3) := rng.uniform(s2, g.OrbitLow(), g.OrbitHigh());
    var orbit := if g == Planets then PlanetOrbits[i] + offset else offset;
    var (phase, s4) := rng.uniform(s3, 0.0, TwoPi);
    (BodySpec(NameOf(g, i), radius, density, orbit, Some(phase)), s4)
  }

  /** Draws bodies `i .. Count()-1` of a group in order, threading the state. */
  function DrawGroup<S(!new)>(rng: Rng<S>, s: S, g: Group, i: nat): (out: (seq<BodySpec>, S))
    requires Honest(rng)
    requires i <= g.Count()
    ensures |out.0| == g.Count() - i
    ensures forall k :: 0 <= k < |out.0| ==> SlotOk(g, i + k, out.0[k])
    decreases g.Count() - i
  {
    if i == g.Count() then ([], s)
    else
      var (b, s1) := DrawBody(rng, s, g, i);
      var (rest, s2) := DrawGroup(rng, s1, g, i + 1);
      ([b] + rest, s2)
  }

  /** The group of position `k` of the default list, and where it starts. */
  function GroupAt(k: nat): Group {
    if k < 6 then Planets else if k < 12 then Moons else Asteroids
  }

  function GroupStart(g: Group): nat {
    match g
    case Planets => 0
    case Moons => 6
    case Asteroids => 12
  }

  /** Independent description of the default body list: thirty entries,
      six planets, six moons, eighteen asteroids, in that order. */
  predicate DefaultShape(bodies: seq<BodySpec>) {
    && |bodies| == 30
    && forall k :: 0 <= k < |bodies| ==>
         k - GroupStart(GroupAt(k)) < GroupAt(k).Count() &&
         SlotOk(GroupAt(k), k - GroupStart(GroupAt(k)), bodies[k])
  }

  /** The default body list: planets, then moons, then asteroids, all drawn
      from one generator started at `seed`. */
  function DefaultBodies<S(!new)>(rng: Rng<S>, seed: S): (bodies: seq<BodySpec>)
    requires Honest(rng)
    ensures DefaultShape(bodies)
  {
    var (planets, s1) := DrawGroup(rng, seed, Planets, 0);
    var (moons, s2) := DrawGroup(rng, s1, Moons, 0);
    var (asteroids, _) := DrawGroup(rng, s2, Asteroids, 0);
    ConcatenatedShape(planets, moons, asteroids);
    planets + moons + asteroids
  }

  /** Three groups drawn in full, put one after the other, have the
      default shape. */
  lemma ConcatenatedShape(planets: seq<BodySpec>, moons: seq<BodySpec>, asteroids: seq<BodySpec>)
    requires |planets| == Planets.Count() && |moons| == Moons.Count() && |asteroids| == Asteroids.Count()
    requires forall k :: 0 <= k < |planets| ==> SlotOk(Planets, k, planets[k])
    requires forall k :: 0 <= k < |moons| ==> SlotOk(Moons, k, moons[k])
    requires forall k :: 0 <= k < |asteroids| ==> SlotOk(Asteroids, k, asteroids[k])
    ensures DefaultShape(planets + moons + asteroids)
  {
    var bodies := planets + moons + asteroids;
    forall k | 0 <= k < |bodies|
      ensures k - GroupStart(GroupAt(k)) < GroupAt(k).Count()
      ensures SlotOk(GroupAt(k), k - GroupStart(GroupAt(k)), bodies[k])
    {
      if k < 6 {
        assert bodies[k] == planets[k];
      } else if k < 12 {
        assert bodies[k] == moons[k - 6];
      } else {
        assert bodies[k] == asteroids[k - 12];
      }
    }
  }

  /** Names differ as soon as the group or the index does. */
  lemma NamesDiffer(g: Group, a: nat, h: Group, b: nat)
    requires g != h || a != b
    ensures NameOf(g, a) != NameOf(h, b)
  {
    if NameOf(g, a) == NameOf(h, b) {
      assert NameOf(g, a)[0] == NameOf(h, b)[0];
      assert NameOf(g, a)[1..] == Decimal(a + 1);
      assert NameOf(h, b)[1..] == Decimal(b + 1);
      DecimalInjective(a + 1, b + 1);
    }
  }

  /** No two default bodies share a name. */
  lemma DefaultNamesDistinct(bodies: seq<BodySpec>, i: nat, j: nat)
    requires DefaultShape(bodies)
    requires i < j < |bodies|
    ensures bodies[i].name != bodies[j].name
  {
    var gi, gj := GroupAt(i), GroupAt(j);
    var a, b := i - GroupStart(gi), j - GroupStart(gj);
    assert SlotOk(gi, a, bodies[i]) && SlotOk(gj, b, bodies[j]);
    NamesDiffer(gi, a, gj, b);
  }

  /** The scenario written on first run: fixed window, sun and timing
      settings, shared hue 0.62, and the generated body list. */
  function DefaultScenario<S(!new)>(rng: Rng<S>, seed: S): (sc: Scenario)
    requires Honest(rng)
    ensures DefaultShape(sc.bodies)
    ensures sc.sun.mass == 26000.0 && sc.sun.radius == 20
    ensures sc.time.dt * sc.time.timeScale == 1.0 / 6.0
    ensures 0.0 <= sc.commonHue <= 1.0
  {
    Scenario(
      Window(1000, 1000, 120, Rgb(36, 36, 38)),
      Sun(26000.0, 20, Rgb(245, 222, 140)),
      Timing(1.0 / 60.0, 10.0),
      0.62,
      DefaultBodies(rng, seed))
  }
}
