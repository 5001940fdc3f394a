# Day/night garden and solar-system clocks in Dafny

This project models the time-keeping logic of two Three.js scenes and proves
properties about it.

**The garden scene** (`assignment02/client/src/main.js`) keeps a day phase
`dayTime` in [0, 1]:
- Four buttons control it: Start/Stop, faster, slower and reset. The speed
  multiplier runs from 1 to 10, and each frame adds `0.001 × multiplier` to
  the phase while the clock runs.
- From the phase the scene derives:
  - the sun light's position and the sun and ambient intensities;
  - the sky colour, chosen from six segments tested in order, some of which
    interpolate between two colours;
  - a time-of-day label.
- At load, a fixed list of 18 flower spots is filtered. Spots in the pond or
  on a path are dropped.

**The solar-system scene** (`assignment01/src/script.js`) runs a simulation
clock:
- Its signed speed lies in [-5, 5] in steps of 0.5. There is also a pause flag.
- Every frame advances the clock by `deltaTime × timeSpeed` unless paused.
  The frame then:
  - places five planets and a blue cube on circles around the star;
  - places the two moons on circles around their parent planet's position
    from the same frame;
  - refreshes the day count and the speed display.
- At load, one 129-point orbit trail is created for every body that circles
  the star. Buttons pause the clock, change its speed, and toggle the trails
  and the planet names.

State that the scripts keep in module-level variables is modelled as
classes:
- `GardenCycle.DayNightCycle` and `SolarScene.SolarSystem` hold the clock
  state.
- `SolarScene.Trail` holds the visibility each trail toggles in place.
- Each button handler and each frame update is a method whose `ensures`
  states the new state.

Classification logic becomes pure functions, with lemmas stating what the
scripts promise. This covers the lighting window, the sky segments, the time
labels, the speed text, the day count and the orbit positions.

The Dafny model follows the code in these places:
- **Phase wrap.** The phase step resets the phase to exactly 0 once it passes
  1. It does not carry the overshoot into the next day.
- **Phase 1 is reachable.** The phase can equal 1, which `NextPhase` allows
  and `PhaseReachesOne` shows.
- **Lighting window.** The window starts at 0.2, not 0.25, so the morning at
  0.25 is already inside the daylight window.
- **Negative time.** The solar clock's time goes below 0 when it runs in
  reverse. The day count is then negative.

Numbers are Dafny `real`s, so all arithmetic is exact:
- The solar speed is stored as a whole number of half-steps, `halves`, with
  `timeSpeed = halves / 2`.
- `sin`, `cos` and `π` are fields of a `Geometry.Trig` value passed in as a
  parameter. The model never assumes anything about them. A lemma that needs
  a trigonometric fact, such as `sin² + cos² = 1` or `sin 0 = 0`, lists it
  under `requires`.
- The frame time (`clock.getDelta()`) is a parameter of `Animate`.

## Model

| member | source | states |
|---|---|---|
| Text.NatToString | assignment02/client/src/main.js:677 | the numeral of a multiplier is a non-empty string of digits, has no leading zero, and is one character long exactly for values below 10 |
| Text.DigitsRoundTrip | assignment02/client/src/main.js:677 | reading the numeral back gives the number again |
| Text.NatToStringInjective | assignment02/client/src/main.js:677 | different multipliers are shown as different numerals |
| Colors.FromHex | assignment02/client/src/main.js:531-549 | a hex colour literal splits into three channels in [0, 255] that recombine into the literal |
| Colors.FromHexInjective | assignment02/client/src/main.js:531-549 | different hex literals give different colours |
| Colors.Lerp | assignment02/client/src/main.js:531 | componentwise linear interpolation between two colours, as lerpColors computes; its properties are LerpEndpoints and LerpChannelBetween |
| Colors.LerpEndpoints | assignment02/client/src/main.js:531 | interpolation at progress 0 gives the first colour and at 1 the second |
| Colors.LerpChannelBetween | assignment02/client/src/main.js:531-546 | for a progress in [0, 1] every interpolated channel lies between the two end channels |
| GardenSky.SunPosition | assignment02/client/src/main.js:502-509 | the light is never below height 0.5, never below the sine height, and is at one of the two |
| GardenSky.SunCirclesAtFixedDistance | assignment02/client/src/main.js:502-509 | seen from above, the light stays at distance 25 from the garden centre for every phase, given sin² + cos² = 1 |
| GardenSky.DayProgress | assignment02/client/src/main.js:512-514 | inside the window [0.2, 0.8], the day progress lies in [0, 1] and maps back to the phase |
| GardenSky.Intensity | assignment02/client/src/main.js:511-521 | outside the window the intensities are the night values 0.1 and 0.2; inside it the sun and ambient intensities follow the same sine term |
| GardenSky.IntensityBounds | assignment02/client/src/main.js:511-521 | if sine is in [0, 1] on [0, π], the sun stays in [0.1, 1] and the ambient in [0.2, 0.8], and inside the window neither drops below 0.3 and 0.4 |
| GardenSky.IntensityStepsAtWindowEdges | assignment02/client/src/main.js:512-521 | given sin 0 = sin π = 0, both window edges give 0.3 and 0.4 while every phase outside gives 0.1 and 0.2, so the intensities step at 0.2 and 0.8 |
| GardenSky.IntensityPeaksAtNoon | assignment02/client/src/main.js:514-516 | given sin(π/2) = 1, at noon the sun intensity is 1.0 and the ambient 0.8 |
| GardenSky.SkyPhaseAt | assignment02/client/src/main.js:528-550 | the chosen segment accepts the phase, no earlier-tested segment does, and an interpolating segment's progress lies in [0, 1] and maps back to the phase |
| GardenSky.SegmentColor | assignment02/client/src/main.js:528-550 | the colour a segment shows at a progress: fixed for the day and night segments, interpolated between the segment's two colours otherwise; its seams are SeamsMatch and EveningNightSeamDiffers |
| GardenSky.SkyColor | assignment02/client/src/main.js:528-550 | the sky colour of a phase is the colour of the first segment that accepts it (SkyPhaseAt), at that segment's progress |
| GardenSky.BoundaryGoesToEarlierSegment | assignment02/client/src/main.js:528-546 | a phase on the end point shared by two segments goes to the earlier one, at progress 1, and shows that segment's end colour |
| GardenSky.SeamsMatch | assignment02/client/src/main.js:528-546 | at 0.15, 0.25, 0.3, 0.7 and 0.8 the colour a segment shows at progress 1 is the colour the next segment shows at progress 0 |
| GardenSky.EveningNightSeamDiffers | assignment02/client/src/main.js:543-550 | at 0.9 the sky is 0x191970, above 0.9 it is 0x1a1a2e, and the two colours differ, so the sky jumps there |
| GardenSky.SkyBlueThroughMidday | assignment02/client/src/main.js:532-538 | every phase in [0.3, 0.7] gives the sky blue 0x87ceeb |
| GardenSky.LabelAt | assignment02/client/src/main.js:556-561 | each of the five labels is chosen exactly on its half-open band, so every phase gets exactly one label |
| GardenSky.LabelText | assignment02/client/src/main.js:557-561 | the text written for each label; LabelTextInjective shows the five texts differ |
| GardenSky.LabelTextInjective | assignment02/client/src/main.js:557-561 | the five labels have different texts |
| GardenSky.LabelBandsDifferFromSkySegments | assignment02/client/src/main.js:528-561 | at 0.27 the label is Sunrise while the sky is in its morning segment, and at 0.85 the label is Sunset while the sky is in its evening segment |
| GardenSky.PhaseOneLooksLikeMidnight | assignment02/client/src/main.js:499-561 | the reachable phase 1 has the label, sky colour and intensities of phase 0 |
| GardenCycle.TimeSpeedFor | assignment02/client/src/main.js:682-684 | the frame increment is 0 when stopped and the multiplier times 0.001 when running, so it lies in [0, 0.01] for multipliers 1 to 10 |
| GardenCycle.SpeedDisplay | assignment02/client/src/main.js:677 | the speed display text; SpeedDisplayReadsMultiplier states what it shows |
| GardenCycle.SpeedDisplayReadsMultiplier | assignment02/client/src/main.js:675-679 | the display is "Stopped" exactly when time is stopped; otherwise it is the numeral of the multiplier followed by "x" |
| GardenCycle.NextPhase | assignment02/client/src/main.js:498-499 | the next phase is at most 1; it is either the advanced phase or exactly 0; it is non-negative for a non-negative phase and speed; and it is the advanced phase whenever that is at most 1 |
| GardenCycle.WrapDropsOvershoot | assignment02/client/src/main.js:498-499 | a step from 0.9995 at base speed lands on 0, dropping the overshoot of 0.0005 |
| GardenCycle.PhaseReachesOne | assignment02/client/src/main.js:498-499 | a positive step can land exactly on 1, and the next step then resets the phase to 0 |
| GardenCycle.DayNightCycle.constructor | assignment02/client/src/main.js:473-485 | the state after loading: the declared values followed by the first frame init() draws (l.663, 576) before the controls are set up; phase 0.25, time stopped, multiplier 1, speed 0, display "Stopped", and the sun, intensities and sky of phase 0.25, so the sky is the sunrise orange 0xff6b35 |
| GardenCycle.DayNightCycle.UpdateTimeSpeed | assignment02/client/src/main.js:682-684 | the speed is recomputed from the running flag and the multiplier |
| GardenCycle.DayNightCycle.UpdateSpeedDisplay | assignment02/client/src/main.js:675-679 | the display is recomputed from the running flag and the multiplier |
| GardenCycle.DayNightCycle.StartStop | assignment02/client/src/main.js:688-695 | flips the running flag, sets the caption to "Stop" or "Start" and the class to "stopped" or none, and recomputes the speed and display; the multiplier and the phase are not modified; the invariant is kept |
| GardenCycle.DayNightCycle.SpeedUp | assignment02/client/src/main.js:699-707 | increments the multiplier below 10 and changes nothing at 10; the multiplier stays in [1, 10] and the speed and display stay consistent |
| GardenCycle.DayNightCycle.SpeedDown | assignment02/client/src/main.js:711-719 | decrements the multiplier above 1 and changes nothing at 1; the invariant is kept |
| GardenCycle.DayNightCycle.ResetTime | assignment02/client/src/main.js:723-727 | sets the phase to 0.25 and modifies nothing else |
| GardenCycle.DayNightCycle.UpdateDayNightCycle | assignment02/client/src/main.js:496-553 | the phase becomes NextPhase of the old phase, so it stays in [0, 1]; the light position, intensities and sky colour are those of the new phase |
| GardenCycle.DayNightCycle.UpdateSun | assignment02/client/src/main.js:501-525 | the sun angle, light position and intensities equal the pure functions of the current phase |
| GardenCycle.DayNightCycle.UpdateSky | assignment02/client/src/main.js:527-550 | the sky colour equals the colour of the current phase's segment |
| GardenFlowers.Planted | assignment02/client/src/main.js:460-470 | the kept spots are no more than the given ones, and every kept spot is outside the pond and off the three paths |
| GardenFlowers.PlantedMembership | assignment02/client/src/main.js:460-470 | a spot is kept exactly when it is in the list, outside the pond and off the paths |
| GardenFlowers.PlantedConcat | assignment02/client/src/main.js:460-470 | the filter keeps list order: filtering a concatenation concatenates the filtered parts |
| GardenFlowers.PlantFlowers | assignment02/client/src/main.js:460-470 | the loop pushes exactly the filtered list, in order |
| GardenFlowers.FlowerSpots | assignment02/client/src/main.js:436-458 | the 18 predefined spots with their colours, in list order; FourteenFlowersPlanted states which are kept |
| GardenFlowers.FourteenFlowersPlanted | assignment02/client/src/main.js:436-470 | 14 of the 18 predefined spots get a flower: (-10, -6) is on a side path, and (5, 10), (13, 8) and (11, 12) are in the pond |
| SolarClock.Increased | assignment01/src/script.js:515-517 | in speed terms, the increase adds 0.5 and caps at 5.0, and keeps the speed within [-5, 5] |
| SolarClock.Decreased | assignment01/src/script.js:519-521 | in speed terms, the decrease subtracts 0.5 and floors at -5.0, and keeps the speed within [-5, 5] |
| SolarClock.SpeedSaturates | assignment01/src/script.js:515-521 | at 5.0 the increase and at -5.0 the decrease change nothing; from the initial 1.0, n increases reach 1.0 + n/2 and stay at 5.0 after the eighth |
| SolarClock.Advanced | assignment01/src/script.js:405-409 | the time after a frame: unchanged when paused, otherwise advanced by delta × speed; AdvanceDirection states its direction |
| SolarClock.AdvanceDirection | assignment01/src/script.js:405-409 | paused, the time is unchanged for any delta; for a non-negative delta it does not decrease at non-negative speed and does not increase at non-positive speed; it grows strictly for a positive delta and speed |
| SolarClock.DaysPassed | assignment01/src/script.js:385 | the whole days behind the simulation time, ten units to the day; DaysPassedBrackets brackets it |
| SolarClock.DaysPassedBrackets | assignment01/src/script.js:385 | 10 × days ≤ time < 10 × (days + 1), and the day count is negative exactly when the time is |
| SolarClock.SpeedText | assignment01/src/script.js:396-401 | the speed display text; SpeedTextDirection, SpeedTextShowsMagnitude and SpeedTextInjective state what it shows |
| SolarClock.Fixed1 | assignment01/src/script.js:398-399 | a non-negative speed in half-steps written with one decimal, as toFixed(1) writes it; Fixed1ReadsBack reads it back |
| SolarClock.Fixed1ReadsBack | assignment01/src/script.js:398-399 | the one-decimal text is a decimal numeral, a point and 0 or 5, and reads back as the speed it renders |
| SolarClock.SpeedTextShowsMagnitude | assignment01/src/script.js:396-401 | for a non-zero speed, the text before the direction reads back as the absolute value of the speed |
| SolarClock.SpeedTextDirection | assignment01/src/script.js:396-401 | the text is "Paused" exactly at speed 0, ends in "x Forward" exactly for positive speeds and in "x Reverse" exactly for negative ones |
| SolarClock.SpeedTextInjective | assignment01/src/script.js:396-401 | different speeds are shown as different texts |
| SolarClock.Fixed1Examples | assignment01/src/script.js:398-399 | the one-decimal rendering of 1.0, 1.5 and 5.0 is "1.0", "1.5" and "5.0" |
| SolarClock.Fixed1Injective | assignment01/src/script.js:398-399 | different speed magnitudes are rendered differently |
| SolarClock.SpeedTextAtStart | assignment01/src/script.js:396-401 | the initial speed is shown as "1.0x Forward" |
| SolarClock.SpeedTextHalfSteps | assignment01/src/script.js:396-401 | speed -1.5 is shown as "1.5x Reverse" |
| SolarClock.SpeedTextAtMaximum | assignment01/src/script.js:396-401 | the top speed is shown as "5.0x Forward" |
| SolarOrbits.OrbitOf | assignment01/src/script.js:181-190 | the orbit table: radius, angular speed and colour of each body |
| SolarOrbits.ParentOf | assignment01/src/script.js:464-475 | a moon's parent is a planet whose orbit is wider than the moon's |
| SolarOrbits.BobOf | assignment01/src/script.js:422-484 | every body's vertical oscillation has an amplitude in (0, 1] |
| SolarOrbits.OrbitOffset | assignment01/src/script.js:422-484 | a body's offset from the centre it circles: its orbit circle in x and z and its vertical oscillation in y |
| SolarOrbits.Position | assignment01/src/script.js:422-484 | where a body is drawn at time t: its offset from the star, or, for a moon, its offset added to its parent's position at the same t; PlanetStaysOnOrbit, MoonStaysNearParent, PlanetBobBounded and StartingPosition state its properties |
| SolarOrbits.PlanetStaysOnOrbit | assignment01/src/script.js:422-484 | seen from above, a star-circling body is always at its orbit radius from the star, given sin² + cos² = 1 |
| SolarOrbits.MoonStaysNearParent | assignment01/src/script.js:464-475 | seen from above, a moon is always at its orbit radius from its parent's position of the same frame |
| SolarOrbits.PlanetBobBounded | assignment01/src/script.js:422-484 | a star-circling body's height never exceeds its oscillation amplitude |
| SolarOrbits.StartingPosition | assignment01/src/script.js:422-484 | at time 0, a planet is at (radius, 0, 0) and a moon at (parent radius + radius, 0, 0), given cos 0 = 1 and sin 0 = 0 |
| SolarOrbits.TableIndex | assignment01/src/script.js:181-190 | each body has a place in the orbit table, and the key at that place is the body |
| SolarOrbits.TableIndexOfKey | assignment01/src/script.js:181-190 | the key at each table place has that place, so no key is listed twice |
| SolarOrbits.TableOrderUnique | assignment01/src/script.js:193-197 | two lists of the same bodies, both in table order, are equal |
| SolarOrbits.TrailOrder | assignment01/src/script.js:181-197 | the star-circling bodies in table order are exactly Drelon, Vorka, Klynt, Xoron, Beldar and BlueCube, six trails |
| SolarOrbits.CreateOrbitPoints | assignment01/src/script.js:156-167 | a trail has 129 points, point i being at angle i/128 of a full turn on the orbit circle |
| SolarOrbits.TrailPoint | assignment01/src/script.js:160-167 | trail point i: at angle i/128 of a full turn on the orbit circle, in the plane y = 0; TrailPointOnOrbit and TrailCloses state its properties |
| SolarOrbits.TrailPointOnOrbit | assignment01/src/script.js:160-167 | every trail point lies in the orbital plane at the orbit radius, given sin² + cos² = 1 |
| SolarOrbits.TrailCloses | assignment01/src/script.js:158-167 | if sine and cosine repeat after 2π, the last trail point equals the first, so the line closes |
| SolarScene.Trail.constructor | assignment01/src/script.js:176-177 | a new trail holds its body and points and is visible |
| SolarScene.CreateTrails | assignment01/src/script.js:156-197 | a trail exists exactly for each body that is not a moon; each is new, visible, and has the 129 orbit points of its body; the creation order lists exactly those bodies, in table order, each once |
| SolarScene.SolarSystem.constructor | assignment01/src/script.js:323-340 | the scene after loading: speed 1.0, running, names shown, captions matching, the trails created, and the first frame drawn |
| SolarScene.SolarSystem.IncreaseSpeed | assignment01/src/script.js:515-517 | the speed becomes Increased of the old one; nothing else changes and the invariant is kept |
| SolarScene.SolarSystem.DecreaseSpeed | assignment01/src/script.js:519-521 | the speed becomes Decreased of the old one; nothing else changes and the invariant is kept |
| SolarScene.SolarSystem.TogglePause | assignment01/src/script.js:523-527 | flips the pause flag and sets the matching caption; the speed and the time are not modified |
| SolarScene.SolarSystem.ToggleLabels | assignment01/src/script.js:303-307 | flips whether names are shown and sets the matching caption |
| SolarScene.SolarSystem.ToggleTrails | assignment01/src/script.js:297-301 | every trail's visibility is the negation of its own previous visibility |
| SolarScene.SolarSystem.Animate | assignment01/src/script.js:404-492 | the time advances by delta × speed unless paused; every body is at its orbit position for the new time; the day count and speed text match the new state |
| SolarScene.SolarSystem.UpdateDateDisplay | assignment01/src/script.js:383-385 | the day count is the whole days of the current time |
| SolarScene.SolarSystem.UpdateSpeedDisplay | assignment01/src/script.js:396-401 | the speed text is that of the current speed |
| SolarScene.SolarSystem.PlaceBodies | assignment01/src/script.js:422-487 | after the position writes, in order, every body is at Position for the time; each moon is placed from its parent's position of the same frame |

## Left out

- Scene construction is left out, because these are library calls with no behaviour of their own to state. This covers meshes, materials, textures, lights, shadows, the renderer, camera controls and the resize handlers.
- The DOM is left out: element lookup, text writes, CSS classes, label elements and their screen placement. The displays are modelled as string fields.
- Picking planets by raycasting and the planet detail panel are left out. They are library geometry and UI.
- The calendar date is left out. Only the whole-day count it is computed from is modelled, because the month and day arithmetic belongs to the JavaScript Date library.
- Star and body rotations, the star light's pulse, and the sway of the garden's trees, flowers, water, fountain and splash are left out. They are decoration with no rule to state.
- The garden's time label is not stored on `GardenCycle.DayNightCycle`. Its rule is `GardenSky.LabelAt`, because the script only writes the label to the page.
- The random stone scaling is left out, because it is nondeterministic.
- Floating-point rounding is not modelled. Reals are exact, so accumulating 0.001 steps carries no rounding error here.
- Sine, cosine and π are not modelled. They are parameters, and each trigonometric fact a lemma uses is one of its preconditions.
- The flower filter's square root is not modelled. The distance test is stated on squared distances, which is equivalent for non-negative distances.
- THREE.Color's colour-space conversion is not modelled. Colours are the hex literals' channel values, and `lerpColors` is componentwise linear interpolation.
- The animation loop's scheduling is left out. Each frame is one call of `UpdateDayNightCycle` or `Animate`, with the frame time as a parameter.
- The Start/Stop caption and class before the first click are left out, because they come from the page markup, which is not part of this model. Only the value each click writes is modelled. The solar pause and labels captions are instead kept equal to the flag they describe from the start, which is what their first click would write.
- The `console.log` messages the garden's handlers print are left out, because they have no effect on the scene.
- SolarScene.SolarSystem.Animate: positions are a map from body to point, not the mesh objects the script moves. Aliasing between meshes does not arise in the script.
