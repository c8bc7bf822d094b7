# Planetary system core, modelled in Dafny

`planetki.py` simulates bodies (planets, moons, asteroids) orbiting a fixed
central mass. Each frame, every body is pulled toward the centre, integrated
with a semi-implicit Euler step, and its new position is recorded in a
bounded trail. On first run, a default scenario of 30 bodies is generated
from a seeded random generator. This project models the part of that
program that is not drawing or file I/O:

- `clamp` (module `Numeric`);
- the bounded trail, a first-in first-out queue capped at 60 or 120
  entries (module `Trail`);
- `Planet`: construction (`__init__`), the colour saturation of
  `color_rgb`, and one frame of `update` (module `Planet`);
- the body list that `load_or_create_state` generates when no
  configuration file exists (module `Config`).

All arithmetic is over exact `real`s. `math.sin`, `math.cos` and `math.sqrt`
are the fields of a `MathLib` value passed in as a parameter. Nothing is
assumed of `sin` and `cos`. Of `sqrt`, the model assumes only that it is
non-negative on non-negative inputs (the subset type `Root`). The random
generator `random.Random(42)` becomes an `Rng<S>` value whose state `S` is
threaded through every draw. The model assumes only that `uniform(a, b)`
lies in `[a, b]` and that `randint(lo, hi)` lies in `[lo, hi]`
(`Config.Honest`). The seed is the generator's initial state, passed in as
a parameter.

Files: `numeric.dfy`, `vectors.dfy` (plane vectors), `options.dfy`
(`Option`/`Result`), `trail.dfy`, `planet.dfy`, `config.dfy`.

## Model

| member | source | states |
|---|---|---|
| `Numeric.Min` | planetki.py:7 | Python's two-argument `min`: a lower bound of both arguments that is one of them, so the result is their minimum. |
| `Numeric.Max` | planetki.py:67 | Python's two-argument `max`: an upper bound of both arguments that is one of them, so the result is their maximum. |
| `Numeric.Clamp` | planetki.py:7 | The result lies in `[lo, hi]` when `lo <= hi`. An input already in the interval is returned unchanged. Below `lo` gives `lo`; above `hi` gives `hi`. An inverted interval yields `lo`. |
| `Numeric.ClampMonotone` | planetki.py:7 | Clamping preserves the order of its inputs. |
| `Trail.CapFor` | planetki.py:72 | The trail cap is 120 exactly when the radius is at least 5, and 60 exactly when it is below 5. |
| `Trail.Push` | planetki.py:90-91 | Below the cap, the new entry is appended. At or over the cap, the oldest entry is dropped and the new one appended. |
| `Trail.PushBounded` | planetki.py:90-91 | From a trail within its cap, a push gives length `min(len + 1, cap)`, never more than the cap, and the pushed entry is last. |
| `Trail.PushExtendsWindow` | planetki.py:90-91 | Pushing onto the newest-`cap` window of a history gives the newest-`cap` window of the extended history. |
| `Planet.SpeedDivisor` | planetki.py:67 | `max(R, 1e-6)` is at least `1e-6`, so it is positive, and at least `R`. It equals `R` exactly when `R >= 1e-6`. |
| `Planet.SpeedSquared` | planetki.py:67 | `G M / max(R, 1e-6)` is negative exactly when the central mass is negative. |
| `Planet.Init` | planetki.py:55-72 | Construction fails with the square-root domain error exactly when the central mass is negative. Otherwise the body is `Launch` with speed `sqrt(G M / max(R, 1e-6))` and the stored phase, or 0 when absent. |
| `Planet.Launch` | planetki.py:56-72 | The body copies its configuration entry. Its radius vector is `R (cos φ, sin φ)` and its velocity `v (-sin φ, cos φ)`. The two are orthogonal. Its trail is empty, with the cap fixed by its radius. |
| `Planet.PerpendicularStart` | planetki.py:64-69 | The initial radius vector and velocity have dot product 0 for any values of cos and sin. |
| `Planet.Saturation` | planetki.py:75-77 | Saturation lies in `[0.05, 0.98]`. It is 0.05 exactly when density <= 1.55, and 0.98 exactly when density >= 11.78. |
| `Planet.SaturationMonotone` | planetki.py:75-77 | Saturation is non-decreasing in density. |
| `Planet.SaturationInverse` | planetki.py:75-77 | Every saturation in `[0.05, 0.98]` is produced by the density `1 + 11 s`. |
| `Planet.SaturationStrict` | planetki.py:75-77 | Between densities 1.55 and 11.78 saturation strictly increases, so distinct densities there give distinct colours. |
| `Planet.ColorInputs` | planetki.py:74-78 | The HSV triple passed to the conversion has the body's hue, value 0.90, and its density's saturation, which lies within `[0.05, 0.98]`. |
| `Planet.DenserIsMoreSaturated` | planetki.py:75-78 | Of two bodies, the denser one is never drawn less saturated. |
| `Planet.Separation` | planetki.py:83-85 | The softened distance to the centre is at least `1e-9`, so the divisions that follow are defined. |
| `Planet.PullFactor` | planetki.py:86-87 | `G M / r^3` has the sign of the central mass: positive for an attracting mass, zero for none. |
| `Planet.Acceleration` | planetki.py:83-87 | The source's `(G M / r^2) (dx / r, dy / r)` equals `PullFactor` times the displacement toward the centre, so a positive mass pulls inward. |
| `Planet.Integrate` | planetki.py:88-89 | The velocity changes by `dt a`. The position then moves by `dt` times the NEW velocity, i.e. by `dt v + dt^2 a`. |
| `Planet.Frame` | planetki.py:88-91 | One frame replaces position and velocity by the advanced motion and pushes the new position onto the trail. All other fields are unchanged. |
| `Planet.Gravity` | planetki.py:82-89 | The motion update of `update`: for every position and velocity, the velocity changes by `dt` times the acceleration toward the centre, and the position then moves by `dt` times the new velocity. |
| `Planet.Step` | planetki.py:81-91 | One call of `update`: the velocity changes by `dt` times the acceleration at the old position. The position moves by `dt` times the new velocity and is pushed onto the trail. Name, radius, density, hue, centre and cap are unchanged. |
| `Planet.Frames` | planetki.py:81-91 | Repeated calls of `update` change only the position, velocity and trail of a body. |
| `Planet.StepMotion` | planetki.py:81-89 | In one `update`, the velocity changes by `dt k d` and the position by `dt v + dt^2 k d`. Here `d` points to the centre and `k = G M / r^3`. |
| `Planet.TrailIsWindow` | planetki.py:90-91 | After `n` frames of any motion, the trail is the newest `cap` entries of the old trail followed by every position reached since. The cap never changes. |
| `Planet.TrailAfterSteps` | planetki.py:71-91 | After `n` updates of a freshly built body, the trail has exactly `min(n, cap)` entries, never more than the cap. For `n > 0`, it ends at the current position. |
| `Config.Decimal` | planetki.py:26 | The f-string rendering of a number: a non-empty string of decimal digits whose first digit is `0` exactly when the number is 0, i.e. no leading zeros. |
| `Config.DecimalRoundTrip` | planetki.py:26 | Reading the rendered digits back as a decimal number gives the original number. |
| `Config.DecimalInjective` | planetki.py:26 | Different indices give different decimal suffixes in the generated names. |
| `Config.NameShape` | planetki.py:26 | A generated name is the group's letter followed by at least one decimal digit, with no leading zero. |
| `Config.DrawBody` | planetki.py:24-30 | One drawn body has its group's name for its index, a radius in the group's range, density in `[1.2, 12.0]`, an orbit within the group's rule, and a phase in `[0, 2π]`. |
| `Config.DrawGroup` | planetki.py:23-49 | Drawing a group from index `i` yields `Count - i` bodies, the `k`-th of which satisfies the slot rules for index `i + k`. |
| `Config.DefaultBodies` | planetki.py:21-49 | The generated list has 30 entries: P1..P6, then M1..M6, then A1..A18. Radii are in [9, 22], [6, 12] and [2, 4] by group. Each planet orbit is within 10 of 140, 210, 280, 360, 420, 470 in turn. Moon orbits are in [170, 520] and asteroid orbits in [120, 520]. Every density is in [1.2, 12.0]. |
| `Config.NamesDiffer` | planetki.py:26 | Names of different groups or different indices differ. |
| `Config.DefaultNamesDistinct` | planetki.py:22-49 | No two bodies of the default list share a name. |
| `Config.DefaultScenario` | planetki.py:14-52 | The first-run scenario has a body list of the default shape, a sun of mass 26000 and radius 20, an effective step `dt × time_scale` of 1/6, and a hue in `[0, 1]`. |

## Left out

- Drawing (`draw`, `draw_orbit_guide`), the `main` loop, event handling, frame pacing and the exit codes (planetki.py:93-145). These are rendering and process control. `main` derives `dt × time_scale` and the centre `(W//2, H//2)` and then calls `update` on every body each frame. The model takes the centre, mass and `dt` as parameters instead.
- Reading an existing configuration file and writing the generated one (planetki.py:10-12, 50-51). This is file I/O. The model covers only what is generated.
- The exact Mersenne-Twister sequence behind `random.Random(42)`. The generator is an abstract range-respecting oracle.
- `colorsys.hsv_to_rgb` and the `int(... * 255)` truncation (planetki.py:78-79). These are a library conversion and float-to-int truncation. The model stops at the HSV triple.
- Floating-point rounding, and the precision of `sqrt`, `sin` and `cos`. The model works over exact reals.
- The `int(...)`/`float(...)` coercions of configuration values (planetki.py:57-62). A `BodySpec` already carries typed fields.
- `Planet.Separation`: states only that the distance is at least `1e-9`. It does not state that it equals `|d| + 1e-9`, because `sqrt` is modelled as an arbitrary non-negative function.
- `Config.DrawBody`: the phase range is the closed `[0, 2π]`, because `random.uniform` may return its upper bound (planetki.py:30).
- `Planet.Init`: a negative central mass makes `math.sqrt` raise `ValueError` (planetki.py:67). The model returns `Err(DomainError)` instead of raising.
