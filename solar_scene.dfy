// The solar-system scene's mutable state: the clock and display settings the
// buttons change, the orbit trails, and the body positions the animation
// loop writes each frame.

module SolarScene {
  import opened Geometry
  import opened SolarClock
  import opened SolarOrbits

  /** An orbit trail line. Its points are fixed when it is created; the trail toggle shows or hides it. */
  class Trail {
    const body: Body
    const points: seq<Vec3>
    var visible: bool

    constructor (body: Body, points: seq<Vec3>)
      ensures this.body == body && this.points == points && visible
    {
      this.body := body;
      this.points := points;
      visible := true;
    }
  }

  /** The trail of body b: 129 points on b's orbit circle, the first and last at angle 0 and a full turn. */
  ghost predicate TrailShape(trail: Trail, b: Body, trig: Trig) {
    && trail.body == b
    && |trail.points| == Segments + 1
    && forall i :: 0 <= i < |trail.points| ==> trail.points[i] == TrailPoint(OrbitOf(b).radius, i, trig)
  }

  /**
   * One trail per star-circling body, each created visible, following the
   * orbit table. order lists the trail keys in the order they were added,
   * which is the order a JavaScript object yields its values in.
   */
  method CreateTrails(trig: Trig) returns (trails: map<Body, Trail>, order: seq<Body>)
    ensures forall b :: b in trails <==> HasTrail(b)
    ensures forall b :: b in trails ==> fresh(trails[b]) && trails[b].visible && TrailShape(trails[b], b, trig)
    ensures (forall b :: b in order <==> b in trails) && InTableOrder(order) && Distinct(order)
  {
    trails, order := map[], [];
    var i := 0;
    while i < |OrbitKeys|
      invariant 0 <= i <= |OrbitKeys|
      invariant forall b :: b in trails <==> TableIndex(b) < i && HasTrail(b)
      invariant forall b :: b in trails ==> fresh(trails[b]) && trails[b].visible && TrailShape(trails[b], b, trig)
      invariant forall b :: b in order <==> b in trails
      invariant InTableOrder(order) && forall j :: 0 <= j < |order| ==> TableIndex(order[j]) < i
    {
      var name := OrbitKeys[i];
      TableIndexOfKey(i);
      if name != Minar && name != Poltu {
        var points := CreateOrbitPoints(OrbitOf(name).radius, trig);
        var trail := new Trail(name, points);
        trails := trails[name := trail];
        order := order + [name];
      }
      i := i + 1;
    }
  }

  function PauseButtonText(paused: bool): string {
    if paused then "\U{25B6}\U{FE0F} Resume" else "\U{23F8}\U{FE0F} Pause"
  }

  function LabelsButtonText(labelsVisible: bool): string {
    if labelsVisible then "Hide Planet Names" else "Show Planet Names"
  }

  class SolarSystem {
    /** timeSpeed, in half-steps: timeSpeed == TimeSpeed(speedHalves). */
    var speedHalves: int
    var isPaused: bool
    var simulationTime: real
    var labelsVisible: bool
    var pauseButtonText: string
    var labelsButtonText: string
    var trails: map<Body, Trail>
    /** The trail keys in creation order, the order the trail toggle visits them in. */
    var trailOrder: seq<Body>
    // Written by every frame.
    var positions: map<Body, Vec3>
    var daysPassed: int
    var speedText: string

    ghost predicate Valid()
      reads this`speedHalves, this`isPaused, this`labelsVisible, this`pauseButtonText, this`labelsButtonText
      reads this`trails, this`trailOrder
    {
      && MinHalves <= speedHalves <= MaxHalves
      && pauseButtonText == PauseButtonText(isPaused)
      && labelsButtonText == LabelsButtonText(labelsVisible)
      && (forall b :: b in trails <==> HasTrail(b))
      && (forall b :: b in trails ==> trails[b].body == b && |trails[b].points| == Segments + 1)
      && (forall b :: b in trailOrder <==> b in trails) && Distinct(trailOrder)
    }

    ghost function TrailObjects(): set<Trail>
      reads this
    {
      set b | b in trails :: trails[b]
    }

    /** Frame invariant of the animation: every body drawn where its orbit puts it at the current time. */
    ghost predicate PositionsAt(t: real, trig: Trig)
      reads this`positions
    {
      forall b :: b in positions && positions[b] == Position(b, t, trig)
    }

    /** The scene once the script has run: controls at their initial values, trails created, and the first frame drawn. */
    constructor (trig: Trig, firstDelta: real)
      ensures Valid()
      ensures speedHalves == InitialHalves && !isPaused && labelsVisible
      ensures simulationTime == Advanced(0.0, false, InitialHalves, firstDelta)
      ensures PositionsAt(simulationTime, trig)
      ensures daysPassed == DaysPassed(simulationTime) && speedText == SpeedText(speedHalves)
      ensures forall b :: b in trails ==> fresh(trails[b]) && trails[b].visible && TrailShape(trails[b], b, trig)
    {
      var created, order := CreateTrails(trig);
      speedHalves := InitialHalves;
      isPaused := false;
      simulationTime := 0.0;
      labelsVisible := true;
      pauseButtonText := PauseButtonText(false);
      labelsButtonText := LabelsButtonText(true);
      positions := map[];
      daysPassed := 0;
      speedText := "";
      trails := created;
      trailOrder := order;
      new;
      assert Valid();
      Animate(firstDelta, trig);
      assert trails == created;
    }

    /** The faster button: half a step more, up to 5. */
    method IncreaseSpeed()
      requires Valid()
      modifies this`speedHalves
      ensures Valid()
      ensures speedHalves == Increased(old(speedHalves))
    {
      speedHalves := if speedHalves + 1 < MaxHalves then speedHalves + 1 else MaxHalves;
    }

    /** The slower button: half a step less, down to -5; below 0 the clock runs backwards. */
    method DecreaseSpeed()
      requires Valid()
      modifies this`speedHalves
      ensures Valid()
      ensures speedHalves == Decreased(old(speedHalves))
    {
      speedHalves := if speedHalves - 1 > MinHalves then speedHalves - 1 else MinHalves;
    }

    /** The pause button: flips the pause flag and its caption; the speed is kept. */
    method TogglePause()
      requires Valid()
      modifies this`isPaused, this`pauseButtonText
      ensures Valid()
      ensures isPaused == !old(isPaused)
    {
      isPaused := !isPaused;
      pauseButtonText := if isPaused then "\U{25B6}\U{FE0F} Resume" else "\U{23F8}\U{FE0F} Pause";
    }

    /** The labels button: flips whether planet names are shown, and its caption. */
    method ToggleLabels()
      requires Valid()
      modifies this`labelsVisible, this`labelsButtonText
      ensures Valid()
      ensures labelsVisible == !old(labelsVisible)
    {
      labelsVisible := !labelsVisible;
      labelsButtonText := if labelsVisible then "Hide Planet Names" else "Show Planet Names";
    }

    /** The trails button: every trail flips its own visibility, so trails toggled apart stay apart. */
    method ToggleTrails()
      requires Valid()
      modifies TrailObjects()
      ensures Valid()
      ensures forall b :: b in trails ==> trails[b].visible == !old(trails[b].visible)
    {
      var keys := trailOrder;
      var i := 0;
      while i < |keys|
        invariant 0 <= i <= |keys|
        invariant forall j :: 0 <= j < i ==> trails[keys[j]].visible == !old(trails[keys[j]].visible)
        invariant forall j :: i <= j < |keys| ==> trails[keys[j]].visible == old(trails[keys[j]].visible)
      {
        var trail := trails[keys[i]];
        trail.visible := !trail.visible;
        i := i + 1;
      }
    }

    /**
     * One frame: advance the clock unless paused, then place every body for
     * the new time, a moon after its parent, and refresh the date and speed
     * displays.
     */
    method Animate(deltaTime: real, trig: Trig)
      requires Valid()
      modifies this`simulationTime, this`positions, this`daysPassed, this`speedText
      ensures Valid()
      ensures simulationTime == Advanced(old(simulationTime), isPaused, speedHalves, deltaTime)
      ensures PositionsAt(simulationTime, trig)
      ensures daysPassed == DaysPassed(simulationTime) && speedText == SpeedText(speedHalves)
    {
      if !isPaused {
        simulationTime := simulationTime + deltaTime * TimeSpeed(speedHalves);
      }
      var t := simulationTime;
      PlaceBodies(t, trig);
      UpdateDateDisplay();
      UpdateSpeedDisplay();
    }

    /** The date display: whole days since the start date, ten time units to the day. */
    method UpdateDateDisplay()
      modifies this`daysPassed
      ensures daysPassed == DaysPassed(simulationTime)
    {
      daysPassed := (simulationTime / TimeUnitsPerDay).Floor;
    }

    /** The speed display, rewritten every frame from the current speed. */
    method UpdateSpeedDisplay()
      modifies this`speedText
      ensures speedText == SpeedText(speedHalves)
    {
      speedText := if speedHalves == 0 then "Paused"
                   else if speedHalves > 0 then Fixed1(speedHalves) + "x Forward"
                   else Fixed1(-speedHalves) + "x Reverse";
    }

    /** The position writes of a frame, in the order the animation loop makes them. */
    method PlaceBodies(t: real, trig: Trig)
      modifies this`positions
      ensures PositionsAt(t, trig)
    {
      var frame := positions;
      frame := frame[Drelon := OrbitOffset(Drelon, t, trig)];
      frame := frame[Vorka := OrbitOffset(Vorka, t, trig)];
      frame := frame[Klynt := OrbitOffset(Klynt, t, trig)];
      frame := frame[Xoron := OrbitOffset(Xoron, t, trig)];
      frame := frame[Beldar := OrbitOffset(Beldar, t, trig)];
      frame := frame[Minar := Add(frame[Vorka], OrbitOffset(Minar, t, trig))];
      frame := frame[Poltu := Add(frame[Klynt], OrbitOffset(Poltu, t, trig))];
      frame := frame[BlueCube := OrbitOffset(BlueCube, t, trig)];
      assert frame[Drelon] == Position(Drelon, t, trig);
      assert frame[Vorka] == Position(Vorka, t, trig);
      assert frame[Klynt] == Position(Klynt, t, trig);
      assert frame[Xoron] == Position(Xoron, t, trig);
      assert frame[Beldar] == Position(Beldar, t, trig);
      assert frame[Minar] == Position(Minar, t, trig);
      assert frame[Poltu] == Position(Poltu, t, trig);
      assert frame[BlueCube] == Position(BlueCube, t, trig);
      positions := frame;
      forall b: Body
        ensures b in positions && positions[b] == Position(b, t, trig)
      {
        match b
        case Drelon => case Vorka => case Klynt => case Xoron =>
        case Beldar => case Minar => case Poltu => case BlueCube =>
      }
    }
  }
}
