// The solar-system scene's simulation clock: a signed speed between -5 and
// 5 in steps of 0.5, a pause flag, and the simulation time the animation
// loop advances. The speed is kept as a whole number of half-steps
// (timeSpeed = halves / 2), which is exact: 1.0 plus or minus multiples of
// 0.5 never leaves the 0.5 grid.

module SolarClock {
  import opened Geometry
  import Text

  const MinHalves: int := -10
  const MaxHalves: int := 10
  /** timeSpeed starts at 1.0. */
  const InitialHalves: int := 2
  /** Ten time units make one simulated day. */
  const TimeUnitsPerDay: real := 10.0

  function TimeSpeed(halves: int): real {
    halves as real / 2.0
  }

  /** The increase button: half a step faster, capped at 5. */
  function Increased(halves: int): (r: int)
    ensures TimeSpeed(r) == Min(TimeSpeed(halves) + 0.5, 5.0)
    ensures halves <= MaxHalves ==> r <= MaxHalves
    ensures MinHalves <= halves ==> MinHalves <= r
  {
    if halves + 1 < MaxHalves then halves + 1 else MaxHalves
  }

  /** The decrease button: half a step slower, floored at -5. */
  function Decreased(halves: int): (r: int)
    ensures TimeSpeed(r) == Max(TimeSpeed(halves) - 0.5, -5.0)
    ensures MinHalves <= halves ==> MinHalves <= r
    ensures halves <= MaxHalves ==> r <= MaxHalves
  {
    if halves - 1 > MinHalves then halves - 1 else MinHalves
  }

  /** At the ends of the range the buttons change nothing; repeated presses stay at the end. */
  lemma {:induction false} SpeedSaturates(n: nat)
    ensures Increased(MaxHalves) == MaxHalves && Decreased(MinHalves) == MinHalves
    ensures Iterate(n, InitialHalves, true) == if n <= 8 then InitialHalves + n else MaxHalves
    decreases n
  {
    if n > 0 {
      SpeedSaturates(n - 1);
    }
  }

  /** halves after n presses of one button. */
  function Iterate(n: nat, halves: int, up: bool): int
    decreases n
  {
    if n == 0 then halves
    else
      var h := Iterate(n - 1, halves, up);
      if up then Increased(h) else Decreased(h)
  }

  /** The simulation time after a frame of deltaTime seconds. */
  function Advanced(time: real, paused: bool, halves: int, deltaTime: real): real {
    if paused then time else time + deltaTime * TimeSpeed(halves)
  }

  /** Paused, time stands still; running forward it never goes back, running in reverse it never goes forward. */
  lemma AdvanceDirection(time: real, paused: bool, halves: int, deltaTime: real)
    ensures paused ==> Advanced(time, paused, halves, deltaTime) == time
    ensures 0.0 <= deltaTime && 0 <= halves ==> time <= Advanced(time, paused, halves, deltaTime)
    ensures 0.0 <= deltaTime && halves <= 0 ==> Advanced(time, paused, halves, deltaTime) <= time
    ensures 0.0 < deltaTime && 0 < halves && !paused ==> time < Advanced(time, paused, halves, deltaTime)
  {
    if !paused && 0.0 <= deltaTime {
      if 0 <= halves {
        NonNegativeProduct(deltaTime, TimeSpeed(halves));
      } else {
        NonNegativeProduct(deltaTime, -TimeSpeed(halves));
        assert deltaTime * TimeSpeed(halves) == -(deltaTime * -TimeSpeed(halves));
      }
      if 0.0 < deltaTime && 0 < halves {
        PositiveProduct(deltaTime, TimeSpeed(halves));
      }
    }
  }

  /** Whole days elapsed: the simulation time over ten, rounded down. */
  function DaysPassed(time: real): int {
    (time / TimeUnitsPerDay).Floor
  }

  /** The day count is the number of whole ten-unit days behind the clock; it turns negative once the clock runs back past 0. */
  lemma DaysPassedBrackets(time: real)
    ensures DaysPassed(time) as real * TimeUnitsPerDay <= time < (DaysPassed(time) + 1) as real * TimeUnitsPerDay
    ensures time < 0.0 <==> DaysPassed(time) < 0
  {
  }

  /** n / 2 with one decimal, as Number.prototype.toFixed(1) writes it. */
  function Fixed1(halves: nat): string {
    Text.NatToString(halves / 2) + "." + (if halves % 2 == 0 then "0" else "5")
  }

  predicate EndsWith(s: string, suffix: string) {
    |suffix| <= |s| && s[|s| - |suffix|..] == suffix
  }

  /** The speed display; it depends on the speed alone, not on whether the clock is paused. */
  function SpeedText(halves: int): string {
    if halves == 0 then "Paused"
    else if halves > 0 then Fixed1(halves) + "x Forward"
    else Fixed1(-halves) + "x Reverse"
  }

  /** The display says "Paused" exactly at speed 0, and otherwise names the direction last. */
  lemma SpeedTextDirection(halves: int)
    ensures SpeedText(halves) == "Paused" <==> halves == 0
    ensures EndsWith(SpeedText(halves), "x Forward") <==> 0 < halves
    ensures EndsWith(SpeedText(halves), "x Reverse") <==> halves < 0
  {
  }

  /**
   * v reads as h half-steps: whole units in decimal, a point, then "0" or
   * "5" for the half.
   */
  predicate ReadsAsHalves(v: string, h: nat) {
    && 3 <= |v|
    && v[|v| - 2] == '.'
    && (v[|v| - 1] == '0' || v[|v| - 1] == '5')
    && Text.AllDigits(v[..|v| - 2])
    && Text.DigitsValue(v[..|v| - 2]) * 2 + (if v[|v| - 1] == '5' then 1 else 0) == h
  }

  /** The one-decimal rendering reads back as the value it renders. */
  lemma Fixed1ReadsBack(h: nat)
    ensures ReadsAsHalves(Fixed1(h), h)
  {
    var u := Text.NatToString(h / 2);
    var s := Fixed1(h);
    assert s[..|s| - 2] == u;
    Text.DigitsRoundTrip(h / 2);
  }

  /** The number the speed display shows, before its direction, is the absolute speed. */
  lemma SpeedTextShowsMagnitude(halves: int)
    requires halves != 0
    ensures var s := SpeedText(halves);
      9 < |s| && ReadsAsHalves(s[..|s| - 9], if halves < 0 then -halves else halves)
  {
    var h: nat := if halves < 0 then -halves else halves;
    Fixed1ReadsBack(h);
    var s := SpeedText(halves);
    assert s[..|s| - 9] == Fixed1(h);
  }

  /** toFixed(1) of the speeds the buttons reach from the start. */
  lemma Fixed1Examples()
    ensures Fixed1(2) == "1.0" && Fixed1(3) == "1.5" && Fixed1(10) == "5.0"
  {
    assert Fixed1(2) == "1.0" by { assert Text.NatToString(1) == "1"; }
    assert Fixed1(3) == "1.5" by { assert Text.NatToString(1) == "1"; }
    assert Fixed1(10) == "5.0" by { assert Text.NatToString(5) == "5"; }
  }

  lemma SpeedTextAtStart()
    ensures SpeedText(InitialHalves) == "1.0x Forward"
  {
    Fixed1Examples();
  }
  lemma SpeedTextHalfSteps()
    ensures SpeedText(-3) == "1.5x Reverse"
  {
    Fixed1Examples();
  }
  lemma SpeedTextAtMaximum()
    ensures SpeedText(MaxHalves) == "5.0x Forward"
  {
    Fixed1Examples();
  }

  /** Different speeds are always displayed differently. */
  lemma SpeedTextInjective(h1: int, h2: int)
    requires SpeedText(h1) == SpeedText(h2)
    ensures h1 == h2
  {
    SpeedTextDirection(h1);
    SpeedTextDirection(h2);
    if h1 != 0 {
      var a, b := if h1 < 0 then -h1 else h1, if h2 < 0 then -h2 else h2;
      var s := SpeedText(h1);
      assert s[..|s| - 9] == Fixed1(a);
      assert s[..|s| - 9] == Fixed1(b);
      Fixed1Injective(a, b);
    }
  }

  lemma Fixed1Injective(a: nat, b: nat)
    requires Fixed1(a) == Fixed1(b)
    ensures a == b
  {
    var u, u' := Text.NatToString(a / 2), Text.NatToString(b / 2);
    var v, v' := if a % 2 == 0 then "0" else "5", if b % 2 == 0 then "0" else "5";
    assert Fixed1(a) == u + ['.'] + v;
    assert Fixed1(b) == u' + ['.'] + v';
    Text.SplitAtMarker(u, v, u', v', '.');
    Text.NatToStringInjective(a / 2, b / 2);
  }
}
