// The garden's day/night clock: the module-level state of the scene script
// (dayTime, timeSpeed, speedMultiplier, isTimeRunning), the four control
// buttons that change it, and the per-frame update that advances the phase
// and recomputes the lighting and the sky.

module GardenCycle {
  import opened Geometry
  import opened Colors
  import opened GardenSky
  import Text

  const BaseTimeSpeed: real := 0.001
  const MinMultiplier: int := 1
  const MaxMultiplier: int := 10
  /** The phase the clock starts at and Reset returns to: 6am. */
  const MorningTime: real := 0.25

  /** The phase increment per frame for a running state and a multiplier. */
  function TimeSpeedFor(running: bool, multiplier: int): (speed: real)
    ensures !running ==> speed == 0.0
    ensures running ==> speed / BaseTimeSpeed == multiplier as real
    ensures MinMultiplier <= multiplier <= MaxMultiplier ==>
      0.0 <= speed <= BaseTimeSpeed * MaxMultiplier as real
  {
    if running then BaseTimeSpeed * multiplier as real else 0.0
  }

  /** The text of the speed display. */
  function SpeedDisplay(running: bool, multiplier: nat): string {
    if running then Text.NatToString(multiplier) + "x" else "Stopped"
  }

  /** The display names the multiplier, followed by "x", while time runs, and says "Stopped" otherwise. */
  lemma SpeedDisplayReadsMultiplier(running: bool, multiplier: nat)
    ensures var s := SpeedDisplay(running, multiplier);
      (s == "Stopped" <==> !running) &&
      (running ==> 2 <= |s| && s[|s| - 1] == 'x' && Text.AllDigits(s[..|s| - 1]) &&
                   Text.DigitsValue(s[..|s| - 1]) == multiplier)
  {
    var s := SpeedDisplay(running, multiplier);
    if running {
      var n := Text.NatToString(multiplier);
      assert s[..|s| - 1] == n;
      Text.DigitsRoundTrip(multiplier);
      assert Text.IsDigit(s[0]);
    }
  }

  /** The phase after one frame: advanced by speed, and back to exactly 0 once past 1. */
  function NextPhase(dayTime: real, speed: real): (next: real)
    ensures next <= 1.0
    ensures next == 0.0 || next == dayTime + speed
    ensures 0.0 <= dayTime && 0.0 <= speed ==> 0.0 <= next
    ensures dayTime + speed <= 1.0 ==> next == dayTime + speed
  {
    if dayTime + speed > 1.0 then 0.0 else dayTime + speed
  }

  /** The overshoot past 1 is dropped, not carried into the next day. */
  lemma WrapDropsOvershoot()
    ensures NextPhase(0.9995, BaseTimeSpeed) == 0.0
    ensures 0.9995 + BaseTimeSpeed - 1.0 == 0.0005
  {
  }

  /** The phase can land on 1 itself, which is only reset on the following frame. */
  lemma PhaseReachesOne(speed: real)
    requires 0.0 < speed <= 1.0
    ensures NextPhase(1.0 - speed, speed) == 1.0
    ensures NextPhase(1.0, speed) == 0.0
  {
  }

  class DayNightCycle {
    var dayTime: real
    var timeSpeed: real
    var speedMultiplier: int
    var isTimeRunning: bool
    var speedDisplay: string
    /** The Start/Stop button's caption and CSS class, written only by its own click. */
    var startStopText: string
    var startStopClass: string
    // Written by the per-frame update.
    var sunAngle: real
    var lightPosition: Vec3
    var sunIntensity: real
    var ambientIntensity: real
    var skyColor: Rgb

    /** What every control action and every frame keeps true. */
    ghost predicate Valid()
      reads this
      ensures Valid() ==> 0.0 <= timeSpeed <= 0.01
    {
      && MinMultiplier <= speedMultiplier <= MaxMultiplier
      && timeSpeed == TimeSpeedFor(isTimeRunning, speedMultiplier)
      && speedDisplay == SpeedDisplay(isTimeRunning, speedMultiplier)
      && 0.0 <= dayTime <= 1.0
    }

    /**
     * The state once the script has loaded: the declared initial values,
     * then the first frame, which init() draws before the controls are set
     * up. Time is stopped, so that frame stays at 6am and only recomputes
     * the light and the sky for it.
     */
    constructor (trig: Trig)
      ensures Valid()
      ensures dayTime == MorningTime && timeSpeed == 0.0
      ensures speedMultiplier == 1 && !isTimeRunning && speedDisplay == "Stopped"
      ensures sunAngle == SunAngle(MorningTime, trig) && lightPosition == SunPosition(MorningTime, trig)
      ensures Lighting(sunIntensity, ambientIntensity) == Intensity(MorningTime, trig)
      ensures skyColor == SkyColor(MorningTime) && skyColor == FromHex(SunriseHex)
    {
      dayTime := MorningTime;
      timeSpeed := 0.0;
      speedMultiplier := 1;
      isTimeRunning := false;
      sunAngle := 0.0;
      sunIntensity := 0.8;
      ambientIntensity := 0.6;
      skyColor := FromHex(0x87CEEB);
      lightPosition := Vec3(10.0, 10.0, 5.0);
      speedDisplay := SpeedDisplay(false, 1);
      new;
      UpdateDayNightCycle(trig);
      BoundaryGoesToEarlierSegment(SunriseSky);
    }

    method UpdateTimeSpeed()
      modifies this`timeSpeed
      ensures timeSpeed == TimeSpeedFor(isTimeRunning, speedMultiplier)
    {
      timeSpeed := if isTimeRunning then BaseTimeSpeed * speedMultiplier as real else 0.0;
    }

    method UpdateSpeedDisplay()
      requires 0 <= speedMultiplier
      modifies this`speedDisplay
      ensures speedDisplay == SpeedDisplay(isTimeRunning, speedMultiplier)
    {
      speedDisplay := if isTimeRunning then Text.NatToString(speedMultiplier) + "x" else "Stopped";
    }

    /** The Start/Stop button. */
    method StartStop()
      requires Valid()
      modifies this`isTimeRunning, this`timeSpeed, this`speedDisplay, this`startStopText, this`startStopClass
      ensures Valid()
      ensures isTimeRunning == !old(isTimeRunning)
      ensures startStopText == (if isTimeRunning then "Stop" else "Start")
      ensures startStopClass == (if isTimeRunning then "stopped" else "")
      ensures timeSpeed == (if isTimeRunning then BaseTimeSpeed * speedMultiplier as real else 0.0)
      ensures speedDisplay == (if isTimeRunning then Text.NatToString(speedMultiplier) + "x" else "Stopped")
    {
      isTimeRunning := !isTimeRunning;
      startStopText := if isTimeRunning then "Stop" else "Start";
      startStopClass := if isTimeRunning then "stopped" else "";
      UpdateTimeSpeed();
      UpdateSpeedDisplay();
    }

    /** The speed-up button: one more step, up to 10. */
    method SpeedUp()
      requires Valid()
      modifies this`speedMultiplier, this`timeSpeed, this`speedDisplay
      ensures Valid()
      ensures old(speedMultiplier) < MaxMultiplier ==> speedMultiplier == old(speedMultiplier) + 1
      ensures old(speedMultiplier) >= MaxMultiplier ==>
        speedMultiplier == old(speedMultiplier) && timeSpeed == old(timeSpeed) && speedDisplay == old(speedDisplay)
    {
      if speedMultiplier < MaxMultiplier {
        speedMultiplier := speedMultiplier + 1;
        UpdateTimeSpeed();
        UpdateSpeedDisplay();
      }
    }

    /** The speed-down button: one step less, down to 1. */
    method SpeedDown()
      requires Valid()
      modifies this`speedMultiplier, this`timeSpeed, this`speedDisplay
      ensures Valid()
      ensures old(speedMultiplier) > MinMultiplier ==> speedMultiplier == old(speedMultiplier) - 1
      ensures old(speedMultiplier) <= MinMultiplier ==>
        speedMultiplier == old(speedMultiplier) && timeSpeed == old(timeSpeed) && speedDisplay == old(speedDisplay)
    {
      if speedMultiplier > MinMultiplier {
        speedMultiplier := speedMultiplier - 1;
        UpdateTimeSpeed();
        UpdateSpeedDisplay();
      }
    }

    /** The reset button: back to morning; speed and running state stay as they are. */
    method ResetTime()
      requires Valid()
      modifies this`dayTime
      ensures Valid()
      ensures dayTime == MorningTime
    {
      dayTime := MorningTime;
    }

    /** One frame of the cycle: advance the phase, then recompute light and sky from the new phase. */
    method UpdateDayNightCycle(trig: Trig)
      requires Valid()
      modifies this`dayTime, this`sunAngle, this`lightPosition, this`sunIntensity, this`ambientIntensity, this`skyColor
      ensures Valid()
      ensures dayTime == NextPhase(old(dayTime), timeSpeed)
      ensures sunAngle == SunAngle(dayTime, trig)
      ensures lightPosition == SunPosition(dayTime, trig)
      ensures Lighting(sunIntensity, ambientIntensity) == Intensity(dayTime, trig)
      ensures skyColor == SkyColor(dayTime)
    {
      dayTime := dayTime + timeSpeed;
      if dayTime > 1.0 {
        dayTime := 0.0;
      }
      UpdateSun(trig);
      UpdateSky();
    }

    /** Sun position and light intensities for the current phase. */
    method UpdateSun(trig: Trig)
      modifies this`sunAngle, this`lightPosition, this`sunIntensity, this`ambientIntensity
      ensures sunAngle == SunAngle(dayTime, trig)
      ensures lightPosition == SunPosition(dayTime, trig)
      ensures Lighting(sunIntensity, ambientIntensity) == Intensity(dayTime, trig)
    {
      sunAngle := dayTime * trig.pi * 2.0;
      var sunHeight := trig.sin(sunAngle) * SunHeightScale;
      lightPosition := Vec3(trig.cos(sunAngle) * SunDistance, Max(sunHeight, MinLightHeight),
                            trig.sin(sunAngle) * SunDistance);

      if dayTime >= DayStart && dayTime <= DayEnd {
        var dayProgress := (dayTime - DayStart) / (DayEnd - DayStart);
        assert dayProgress == DayProgress(dayTime);
        sunIntensity := SunFloor + trig.sin(WaveAngle(dayProgress, trig)) * SunSwing;
        ambientIntensity := AmbientFloor + trig.sin(WaveAngle(dayProgress, trig)) * AmbientSwing;
      } else {
        sunIntensity := NightSun;
        ambientIntensity := NightAmbient;
      }
    }

    /** The sky colour for the current phase: the first branch whose interval holds it. */
    method UpdateSky()
      modifies this`skyColor
      ensures skyColor == SkyColor(dayTime)
    {
      if dayTime >= 0.15 && dayTime <= 0.25 {
        skyColor := Lerp(FromHex(NightHex), FromHex(SunriseHex), (dayTime - 0.15) / 0.1);
      } else if dayTime >= 0.25 && dayTime <= 0.3 {
        skyColor := Lerp(FromHex(SunriseHex), FromHex(SkyBlueHex), (dayTime - 0.25) / 0.05);
      } else if dayTime >= 0.3 && dayTime <= 0.7 {
        skyColor := FromHex(SkyBlueHex);
      } else if dayTime >= 0.7 && dayTime <= 0.8 {
        skyColor := Lerp(FromHex(SkyBlueHex), FromHex(SunsetHex), (dayTime - 0.7) / 0.1);
      } else if dayTime >= 0.8 && dayTime <= 0.9 {
        skyColor := Lerp(FromHex(SunsetHex), FromHex(EveningHex), (dayTime - 0.8) / 0.1);
      } else {
        skyColor := FromHex(NightHex);
      }
    }
  }
}
