// The garden scene's day/night appearance as functions of the cycle phase
// dayTime, a fraction of one day that starts and ends at midnight, with a
// quarter of it reaching six in the morning and a half of it noon:
// where the directional "sun" light stands, how bright the sun and the
// ambient light are, which sky-colour segment applies and the label shown
// for the time of day.

module GardenSky {
  import opened Geometry
  import opened Colors

  // ---------------------------------------------------------------------
  // Sun position

  const SunDistance: real := 25.0
  const SunHeightScale: real := 15.0
  /** The light never goes below this height, so shadows stay stable at night. */
  const MinLightHeight: real := 0.5

  function SunAngle(dayTime: real, trig: Trig): real {
    dayTime * trig.pi * 2.0
  }

  function SunPosition(dayTime: real, trig: Trig): (p: Vec3)
    ensures p.y >= MinLightHeight
    ensures p.y >= trig.sin(SunAngle(dayTime, trig)) * SunHeightScale
    ensures p.y == MinLightHeight || p.y == trig.sin(SunAngle(dayTime, trig)) * SunHeightScale
  {
    var a := SunAngle(dayTime, trig);
    Vec3(trig.cos(a) * SunDistance, Max(trig.sin(a) * SunHeightScale, MinLightHeight), trig.sin(a) * SunDistance)
  }

  /** The sun circles the garden at a fixed horizontal distance. */
  lemma SunCirclesAtFixedDistance(dayTime: real, trig: Trig)
    requires Pythagorean(trig)
    ensures var p := SunPosition(dayTime, trig);
      p.x * p.x + p.z * p.z == SunDistance * SunDistance
  {
    var a := SunAngle(dayTime, trig);
    var c, s := trig.cos(a), trig.sin(a);
    assert s * s + c * c == 1.0;
    calc {
      (c * SunDistance) * (c * SunDistance) + (s * SunDistance) * (s * SunDistance);
      (c * c + s * s) * (SunDistance * SunDistance);
      SunDistance * SunDistance;
    }
  }

  // ---------------------------------------------------------------------
  // Light intensity

  const DayStart: real := 0.2
  const DayEnd: real := 0.8
  const NightSun: real := 0.1
  const NightAmbient: real := 0.2
  const SunFloor: real := 0.3
  const SunSwing: real := 0.7
  const AmbientFloor: real := 0.4
  const AmbientSwing: real := 0.4

  predicate InDayWindow(dayTime: real) {
    DayStart <= dayTime <= DayEnd
  }

  /** How far through the day window dayTime is: 0 at its start, 1 at its end. */
  function DayProgress(dayTime: real): (p: real)
    requires InDayWindow(dayTime)
    ensures 0.0 <= p <= 1.0
    ensures DayStart + p * (DayEnd - DayStart) == dayTime
  {
    (dayTime - DayStart) / (DayEnd - DayStart)
  }

  /** The angle fed to the sine: the progress through the window scaled to [0, pi]. */
  function WaveAngle(progress: real, trig: Trig): real {
    progress * trig.pi
  }

  datatype Lighting = Lighting(sun: real, ambient: real)

  function Intensity(dayTime: real, trig: Trig): (l: Lighting)
    ensures !InDayWindow(dayTime) ==> l == Lighting(NightSun, NightAmbient)
    // Inside the window both lights follow the same sine, scaled differently.
    ensures InDayWindow(dayTime) ==>
      (l.sun - SunFloor) * AmbientSwing == (l.ambient - AmbientFloor) * SunSwing
  {
    if InDayWindow(dayTime) then
      var wave := trig.sin(WaveAngle(DayProgress(dayTime), trig));
      Lighting(SunFloor + wave * SunSwing, AmbientFloor + wave * AmbientSwing)
    else
      Lighting(NightSun, NightAmbient)
  }

  /** Sine is between 0 and 1 on [0, pi]. */
  ghost predicate SineHalfWave(trig: Trig) {
    0.0 <= trig.pi &&
    forall a :: 0.0 <= a <= trig.pi ==> 0.0 <= trig.sin(a) <= 1.0
  }

  lemma IntensityBounds(dayTime: real, trig: Trig)
    requires SineHalfWave(trig)
    ensures var l := Intensity(dayTime, trig);
      NightSun <= l.sun <= SunFloor + SunSwing && NightAmbient <= l.ambient <= AmbientFloor + AmbientSwing
    ensures InDayWindow(dayTime) ==>
      SunFloor <= Intensity(dayTime, trig).sun && AmbientFloor <= Intensity(dayTime, trig).ambient
  {
    if InDayWindow(dayTime) {
      var p := DayProgress(dayTime);
      ScaleWithin(trig.pi, p);
      assert 0.0 <= WaveAngle(p, trig) <= trig.pi;
      var wave := trig.sin(WaveAngle(p, trig));
      assert 0.0 <= wave <= 1.0;
    }
  }

  /**
   * The intensity is not continuous at the window edges: at 0.2 and 0.8
   * the sine term is zero, leaving the day floors 0.3 and 0.4, while just
   * outside the window the night values 0.1 and 0.2 apply.
   */
  lemma IntensityStepsAtWindowEdges(trig: Trig)
    requires trig.sin(0.0) == 0.0 && trig.sin(trig.pi) == 0.0
    ensures Intensity(DayStart, trig) == Lighting(SunFloor, AmbientFloor)
    ensures Intensity(DayEnd, trig) == Lighting(SunFloor, AmbientFloor)
    ensures forall d :: d < DayStart || DayEnd < d ==> Intensity(d, trig) == Lighting(NightSun, NightAmbient)
  {
    assert WaveAngle(DayProgress(DayStart), trig) == 0.0;
    assert WaveAngle(DayProgress(DayEnd), trig) == trig.pi;
  }

  /** At noon the sine term peaks and both lights are at their brightest. */
  lemma IntensityPeaksAtNoon(trig: Trig)
    requires trig.sin(trig.pi / 2.0) == 1.0
    ensures Intensity(0.5, trig) == Lighting(SunFloor + SunSwing, AmbientFloor + AmbientSwing)
  {
    assert DayProgress(0.5) == 0.5;
    assert WaveAngle(0.5, trig) == trig.pi / 2.0;
  }

  // ---------------------------------------------------------------------
  // Sky colour

  const NightHex: int := 0x1a1a2e
  const SunriseHex: int := 0xff6b35
  const SkyBlueHex: int := 0x87ceeb
  const SunsetHex: int := 0xff4500
  const EveningHex: int := 0x191970

  /** The branches of the sky-colour choice, in the order the update checks them. */
  datatype SkySegment = SunriseSky | MorningSky | DaySky | SunsetSky | EveningSky | NightSky

  function Rank(s: SkySegment): nat {
    match s
    case SunriseSky => 0
    case MorningSky => 1
    case DaySky => 2
    case SunsetSky => 3
    case EveningSky => 4
    case NightSky => 5
  }

  /** The closed interval each segment but the last tests dayTime against. */
  function SegStart(s: SkySegment): real {
    match s
    case SunriseSky => 0.15
    case MorningSky => 0.25
    case DaySky => 0.3
    case SunsetSky => 0.7
    case EveningSky => 0.8
    case NightSky => 0.9
  }

  function SegEnd(s: SkySegment): real {
    match s
    case SunriseSky => 0.25
    case MorningSky => 0.3
    case DaySky => 0.7
    case SunsetSky => 0.8
    case EveningSky => 0.9
    case NightSky => 1.0
  }

  /** Whether the branch for s accepts dayTime; night is the final else. */
  predicate Accepts(s: SkySegment, dayTime: real) {
    s == NightSky || SegStart(s) <= dayTime <= SegEnd(s)
  }

  predicate Interpolates(s: SkySegment) {
    s != DaySky && s != NightSky
  }

  datatype SkyPhase = SkyPhase(segment: SkySegment, progress: real)

  /** The first segment whose branch accepts dayTime, and how far through it dayTime is. */
  function SkyPhaseAt(dayTime: real): (p: SkyPhase)
    ensures Accepts(p.segment, dayTime)
    ensures forall s :: Rank(s) < Rank(p.segment) ==> !Accepts(s, dayTime)
    ensures 0.0 <= p.progress <= 1.0
    ensures Interpolates(p.segment) ==>
      SegStart(p.segment) + p.progress * (SegEnd(p.segment) - SegStart(p.segment)) == dayTime
  {
    if 0.15 <= dayTime <= 0.25 then SkyPhase(SunriseSky, (dayTime - 0.15) / 0.1)
    else if 0.25 <= dayTime <= 0.3 then SkyPhase(MorningSky, (dayTime - 0.25) / 0.05)
    else if 0.3 <= dayTime <= 0.7 then SkyPhase(DaySky, 0.0)
    else if 0.7 <= dayTime <= 0.8 then SkyPhase(SunsetSky, (dayTime - 0.7) / 0.1)
    else if 0.8 <= dayTime <= 0.9 then SkyPhase(EveningSky, (dayTime - 0.8) / 0.1)
    else SkyPhase(NightSky, 0.0)
  }

  /** The colours an interpolating segment runs between; flat segments have one colour. */
  function StartHex(s: SkySegment): int {
    match s
    case SunriseSky => NightHex
    case MorningSky => SunriseHex
    case DaySky => SkyBlueHex
    case SunsetSky => SkyBlueHex
    case EveningSky => SunsetHex
    case NightSky => NightHex
  }

  function EndHex(s: SkySegment): int {
    match s
    case SunriseSky => SunriseHex
    case MorningSky => SkyBlueHex
    case DaySky => SkyBlueHex
    case SunsetSky => SunsetHex
    case EveningSky => EveningHex
    case NightSky => NightHex
  }

  function SegmentColor(p: SkyPhase): Rgb {
    match p.segment
    case DaySky => FromHex(SkyBlueHex)
    case NightSky => FromHex(NightHex)
    case _ => Lerp(FromHex(StartHex(p.segment)), FromHex(EndHex(p.segment)), p.progress)
  }

  function SkyColor(dayTime: real): Rgb {
    SegmentColor(SkyPhaseAt(dayTime))
  }

  /** The segment that follows s around the cycle. */
  function Successor(s: SkySegment): SkySegment {
    match s
    case NightSky => SunriseSky
    case SunriseSky => MorningSky
    case MorningSky => DaySky
    case DaySky => SunsetSky
    case SunsetSky => EveningSky
    case EveningSky => NightSky
  }

  /** Every segment accepts its own end point, and a shared end point goes to the earlier segment. */
  lemma BoundaryGoesToEarlierSegment(s: SkySegment)
    requires s != NightSky
    ensures SkyPhaseAt(SegEnd(s)).segment == s
    ensures Interpolates(s) ==> SkyPhaseAt(SegEnd(s)).progress == 1.0
    ensures SkyColor(SegEnd(s)) == FromHex(EndHex(s))
  {
    LerpEndpoints(FromHex(StartHex(s)), FromHex(EndHex(s)));
  }

  /**
   * The sky colour has no jump at 0.15, 0.25, 0.3, 0.7 or 0.8: the colour
   * a segment shows at its end is the colour the next one shows at its start.
   */
  lemma SeamsMatch(s: SkySegment)
    requires s != EveningSky
    ensures SegmentColor(SkyPhase(s, 1.0)) == SegmentColor(SkyPhase(Successor(s), 0.0))
  {
    LerpEndpoints(FromHex(StartHex(s)), FromHex(EndHex(s)));
    LerpEndpoints(FromHex(StartHex(Successor(s))), FromHex(EndHex(Successor(s))));
  }

  /**
   * ... but it jumps at 0.9: the evening segment ends on 0x191970 while the
   * night that follows is 0x1a1a2e.
   */
  lemma EveningNightSeamDiffers()
    ensures SkyColor(0.9) == FromHex(EveningHex)
    ensures forall d :: 0.9 < d ==> SkyColor(d) == FromHex(NightHex)
    ensures FromHex(EveningHex) != FromHex(NightHex)
  {
    BoundaryGoesToEarlierSegment(EveningSky);
    assert FromHex(EveningHex).r == 25.0 && FromHex(NightHex).r == 26.0;
  }

  /** From 0.3 to 0.7 the sky is plain sky blue. */
  lemma SkyBlueThroughMidday(dayTime: real)
    requires 0.3 <= dayTime <= 0.7
    ensures SkyColor(dayTime) == FromHex(SkyBlueHex)
  {
    if dayTime == 0.3 {
      LerpEndpoints(FromHex(SunriseHex), FromHex(SkyBlueHex));
    }
  }

  // ---------------------------------------------------------------------
  // Time-of-day label

  datatype TimeLabel = Sunrise | Morning | Afternoon | Sunset | Night

  function LabelAt(dayTime: real): (l: TimeLabel)
    ensures l == Sunrise <==> 0.15 <= dayTime < 0.3
    ensures l == Morning <==> 0.3 <= dayTime < 0.5
    ensures l == Afternoon <==> 0.5 <= dayTime < 0.7
    ensures l == Sunset <==> 0.7 <= dayTime < 0.9
    ensures l == Night <==> dayTime < 0.15 || 0.9 <= dayTime
  {
    if 0.15 <= dayTime < 0.3 then Sunrise
    else if 0.3 <= dayTime < 0.5 then Morning
    else if 0.5 <= dayTime < 0.7 then Afternoon
    else if 0.7 <= dayTime < 0.9 then Sunset
    else Night
  }

  function LabelText(l: TimeLabel): (s: string) {
    match l
    case Sunrise => "Sunrise"
    case Morning => "Morning"
    case Afternoon => "Afternoon"
    case Sunset => "Sunset"
    case Night => "Night"
  }

  lemma LabelTextInjective(l1: TimeLabel, l2: TimeLabel)
    requires LabelText(l1) == LabelText(l2)
    ensures l1 == l2
  {
  }

  /**
   * The label bands are half-open and do not line up with the colour
   * segments: at 0.27 the label still says Sunrise while the sky is
   * already in its morning segment, and at 0.85 the label says Sunset
   * while the sky is in its evening segment.
   */
  lemma LabelBandsDifferFromSkySegments()
    ensures LabelAt(0.27) == Sunrise && SkyPhaseAt(0.27).segment == MorningSky
    ensures LabelAt(0.85) == Sunset && SkyPhaseAt(0.85).segment == EveningSky
    ensures LabelAt(0.25) == Sunrise && SkyPhaseAt(0.25).segment == SunriseSky
  {
  }

  /** Phase 1, which the cycle can reach, looks exactly like phase 0 apart from the light's position. */
  lemma PhaseOneLooksLikeMidnight(trig: Trig)
    ensures LabelAt(1.0) == LabelAt(0.0) == Night
    ensures SkyColor(1.0) == SkyColor(0.0) == FromHex(NightHex)
    ensures Intensity(1.0, trig) == Intensity(0.0, trig)
  {
  }
}
