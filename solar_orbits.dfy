// The solar-system scene's orbit table and the positions the animation loop
// gives each body at simulation time t. Five planets and the blue cube
// circle the star at the origin in the horizontal plane, each with a slight
// vertical bob; the two moons circle their parent planet's position of the
// same frame. Each star-circling body also gets a closed orbit trail of 129
// points.

module SolarOrbits {
  import opened Geometry

  datatype Body = Drelon | Vorka | Klynt | Xoron | Beldar | Minar | Poltu | BlueCube

  /** The keys of the orbit table, in the order the table lists them. */
  const OrbitKeys: seq<Body> := [Drelon, Vorka, Klynt, Xoron, Beldar, Minar, Poltu, BlueCube]

  datatype Orbit = Orbit(radius: real, speed: real, color: int)

  function OrbitOf(b: Body): Orbit {
    match b
    case Drelon => Orbit(5.0, 0.5, 0x66ddff)
    case Vorka => Orbit(7.0, 0.3, 0x44ff88)
    case Klynt => Orbit(9.0, 0.25, 0xff6699)
    case Xoron => Orbit(11.0, 0.4, 0xff99ff)
    case Beldar => Orbit(13.0, 0.2, 0xffaa66)
    case Minar => Orbit(1.2, 1.1, 0xffffff)
    case Poltu => Orbit(1.4, 1.3, 0xccccff)
    case BlueCube => Orbit(16.0, 0.22, 0x4488ff)
  }

  predicate IsMoon(b: Body) {
    b == Minar || b == Poltu
  }

  /** The planet a moon circles: Minar circles Vorka and Poltu circles Klynt. */
  function ParentOf(m: Body): (p: Body)
    requires IsMoon(m)
    ensures !IsMoon(p) && OrbitOf(m).radius < OrbitOf(p).radius
  {
    if m == Minar then Vorka else Klynt
  }

  /** The vertical oscillation y = sin(t * frequency) * amplitude. */
  datatype Bob = Bob(frequency: real, amplitude: real)

  function BobOf(b: Body): (bob: Bob)
    ensures 0.0 < bob.amplitude <= 1.0
  {
    match b
    case Drelon => Bob(0.2, 0.5)
    case Vorka => Bob(0.15, 0.3)
    case Klynt => Bob(0.1, 0.2)
    case Xoron => Bob(0.08, 0.4)
    case Beldar => Bob(0.05, 0.1)
    case Minar => Bob(OrbitOf(Minar).speed * 0.5, 0.2)
    case Poltu => Bob(OrbitOf(Poltu).speed * 0.3, 0.3)
    case BlueCube => Bob(0.03, 1.0)
  }

  /** A body's displacement from the centre it circles: the star for a planet, the parent for a moon. */
  function OrbitOffset(b: Body, t: real, trig: Trig): Vec3 {
    var orbit, bob := OrbitOf(b), BobOf(b);
    Vec3(trig.cos(t * orbit.speed) * orbit.radius,
         trig.sin(t * bob.frequency) * bob.amplitude,
         trig.sin(t * orbit.speed) * orbit.radius)
  }

  /**
   * Where a body is drawn at simulation time t: on its circle about the star,
   * or, for a moon, on its circle about its parent's position at the same t.
   */
  function Position(b: Body, t: real, trig: Trig): Vec3
    decreases if IsMoon(b) then 1 else 0
  {
    if IsMoon(b) then Add(Position(ParentOf(b), t, trig), OrbitOffset(b, t, trig))
    else OrbitOffset(b, t, trig)
  }

  /** Seen from above, a planet is always at its orbit radius from the star. */
  lemma PlanetStaysOnOrbit(b: Body, t: real, trig: Trig)
    requires Pythagorean(trig) && !IsMoon(b)
    ensures var p := Position(b, t, trig);
      p.x * p.x + p.z * p.z == OrbitOf(b).radius * OrbitOf(b).radius
  {
    OnCircle(trig, t * OrbitOf(b).speed, OrbitOf(b).radius);
  }

  /** Seen from above, a moon is always at its orbit radius from its parent. */
  lemma MoonStaysNearParent(m: Body, t: real, trig: Trig)
    requires Pythagorean(trig) && IsMoon(m)
    ensures var p, q := Position(m, t, trig), Position(ParentOf(m), t, trig);
      (p.x - q.x) * (p.x - q.x) + (p.z - q.z) * (p.z - q.z) == OrbitOf(m).radius * OrbitOf(m).radius
  {
    var o := OrbitOffset(m, t, trig);
    assert Position(m, t, trig) == Add(Position(ParentOf(m), t, trig), o);
    OnCircle(trig, t * OrbitOf(m).speed, OrbitOf(m).radius);
  }

  /** The bob keeps a planet within its amplitude of the orbital plane. */
  lemma PlanetBobBounded(b: Body, t: real, trig: Trig)
    requires Pythagorean(trig) && !IsMoon(b)
    ensures -BobOf(b).amplitude <= Position(b, t, trig).y <= BobOf(b).amplitude
  {
    var bob := BobOf(b);
    SineBounded(trig, t * bob.frequency);
    var s := trig.sin(t * bob.frequency);
    assert (1.0 - s) * bob.amplitude >= 0.0 && (1.0 + s) * bob.amplitude >= 0.0;
  }

  /**
   * Where the bodies start: with cos 0 = 1 and sin 0 = 0 every body is on the
   * positive x axis, a planet at its orbit radius and a moon beyond its parent
   * by its own radius.
   */
  lemma StartingPosition(b: Body, trig: Trig)
    requires trig.cos(0.0) == 1.0 && trig.sin(0.0) == 0.0
    ensures !IsMoon(b) ==> Position(b, 0.0, trig) == Vec3(OrbitOf(b).radius, 0.0, 0.0)
    ensures IsMoon(b) ==>
      Position(b, 0.0, trig) == Vec3(OrbitOf(ParentOf(b)).radius + OrbitOf(b).radius, 0.0, 0.0)
  {
    OnXAxisAtZero(b, trig);
    if IsMoon(b) {
      OnXAxisAtZero(ParentOf(b), trig);
    }
  }

  lemma OnXAxisAtZero(b: Body, trig: Trig)
    requires trig.cos(0.0) == 1.0 && trig.sin(0.0) == 0.0
    ensures OrbitOffset(b, 0.0, trig) == Vec3(OrbitOf(b).radius, 0.0, 0.0)
  {
    assert 0.0 * OrbitOf(b).speed == 0.0 && 0.0 * BobOf(b).frequency == 0.0;
  }

  // ---------------------------------------------------------------------
  // Orbit trails

  const Segments: nat := 128

  /** Only the bodies that circle the star get a trail. */
  predicate HasTrail(b: Body) {
    b != Minar && b != Poltu
  }

  /** A body's place in the orbit table, the order JavaScript lists the table's keys in. */
  function TableIndex(b: Body): (i: nat)
    ensures i < |OrbitKeys| && OrbitKeys[i] == b
  {
    match b
    case Drelon => 0
    case Vorka => 1
    case Klynt => 2
    case Xoron => 3
    case Beldar => 4
    case Minar => 5
    case Poltu => 6
    case BlueCube => 7
  }

  /** No body is listed twice in the table, so the key at place i has place i. */
  lemma TableIndexOfKey(i: nat)
    requires i < |OrbitKeys|
    ensures TableIndex(OrbitKeys[i]) == i
  {
    assert forall j, k :: 0 <= j < k < |OrbitKeys| ==> OrbitKeys[j] != OrbitKeys[k];
  }

  /** The bodies of keys come in the order the table lists them. */
  predicate InTableOrder(keys: seq<Body>) {
    forall j, k :: 0 <= j < k < |keys| ==> TableIndex(keys[j]) < TableIndex(keys[k])
  }

  /** No key occurs twice in a list. */
  predicate Distinct(keys: seq<Body>) {
    forall j, k :: 0 <= j < k < |keys| ==> keys[j] != keys[k]
  }

  /** A set of bodies can be listed in table order in one way only. */
  lemma {:induction false} TableOrderUnique(a: seq<Body>, b: seq<Body>)
    requires InTableOrder(a) && InTableOrder(b)
    requires forall x :: x in a <==> x in b
    ensures a == b
    decreases |a|
  {
    SameMembersBothEmpty(a, b);
    if a != [] {
      HeadsAgree(a, b);
      forall x
        ensures x in a[1..] <==> x in b[1..]
      {
        if x in a[1..] {
          TailMember(a, b, x);
        }
        if x in b[1..] {
          TailMember(b, a, x);
        }
      }
      TableOrderUnique(a[1..], b[1..]);
      assert a == [a[0]] + a[1..] && b == [b[0]] + b[1..];
    }
  }

  lemma SameMembersBothEmpty(a: seq<Body>, b: seq<Body>)
    requires forall x :: x in a <==> x in b
    ensures a == [] <==> b == []
  {
    if a != [] {
      assert a[0] in b;
    }
    if b != [] {
      assert b[0] in a;
    }
  }

  /** Two table-ordered lists of the same bodies start with the same body: the one earliest in the table. */
  lemma HeadsAgree(a: seq<Body>, b: seq<Body>)
    requires InTableOrder(a) && InTableOrder(b) && a != [] && b != []
    requires forall x :: x in a <==> x in b
    ensures a[0] == b[0]
  {
    assert a[0] in b && b[0] in a;
    var k :| 0 <= k < |b| && b[k] == a[0];
    var m :| 0 <= m < |a| && a[m] == b[0];
    assert TableIndex(a[0]) <= TableIndex(a[m]);
    assert TableIndex(b[0]) <= TableIndex(b[k]);
  }

  /** A body after the common head of a is after the common head of b too. */
  lemma TailMember(a: seq<Body>, b: seq<Body>, x: Body)
    requires InTableOrder(a) && a != [] && b != [] && a[0] == b[0]
    requires forall y :: y in a <==> y in b
    requires x in a[1..]
    ensures x in b[1..]
  {
    var j :| 0 <= j < |a| - 1 && a[1..][j] == x;
    assert a[j + 1] == x;
    assert TableIndex(a[0]) < TableIndex(a[j + 1]);
    assert x in b;
    var l :| 0 <= l < |b| && b[l] == x;
    assert b[1..][l - 1] == x;
  }

  /** Listed in table order, the star-circling bodies are the table without its two moons. */
  lemma TrailOrder(order: seq<Body>)
    requires InTableOrder(order)
    requires forall b :: b in order <==> HasTrail(b)
    ensures order == [Drelon, Vorka, Klynt, Xoron, Beldar, BlueCube]
  {
    var expected := [Drelon, Vorka, Klynt, Xoron, Beldar, BlueCube];
    assert InTableOrder(expected);
    forall b: Body
      ensures b in expected <==> HasTrail(b)
    {
      match b
      case Drelon => assert expected[0] == b;
      case Vorka => assert expected[1] == b;
      case Klynt => assert expected[2] == b;
      case Xoron => assert expected[3] == b;
      case Beldar => assert expected[4] == b;
      case Minar =>
      case Poltu =>
      case BlueCube => assert expected[5] == b;
    }
    TableOrderUnique(order, expected);
  }

  /** The angle of trail point i: i/128 of a full turn. */
  function TrailAngle(i: int, trig: Trig): real {
    (i as real / Segments as real) * trig.pi * 2.0
  }

  function TrailPoint(radius: real, i: int, trig: Trig): Vec3 {
    var angle := TrailAngle(i, trig);
    Vec3(trig.cos(angle) * radius, 0.0, trig.sin(angle) * radius)
  }

  /** The points of a trail of the given radius, one more than the segments so the line closes. */
  method CreateOrbitPoints(radius: real, trig: Trig) returns (points: seq<Vec3>)
    ensures |points| == Segments + 1
    ensures forall i :: 0 <= i < |points| ==> points[i] == TrailPoint(radius, i, trig)
  {
    points := [];
    var i := 0;
    while i <= Segments
      invariant 0 <= i <= Segments + 1
      invariant |points| == i
      invariant forall j :: 0 <= j < i ==> points[j] == TrailPoint(radius, j, trig)
    {
      var angle := TrailAngle(i, trig);
      points := points + [Vec3(trig.cos(angle) * radius, 0.0, trig.sin(angle) * radius)];
      i := i + 1;
    }
  }

  /** Every trail point lies in the orbital plane at the orbit radius. */
  lemma TrailPointOnOrbit(radius: real, i: int, trig: Trig)
    requires Pythagorean(trig)
    ensures var p := TrailPoint(radius, i, trig);
      p.y == 0.0 && p.x * p.x + p.z * p.z == radius * radius
  {
    OnCircle(trig, TrailAngle(i, trig), radius);
  }

  /** The last point is the first one again: the trail is a closed loop, given that sine and cosine repeat after 2 pi. */
  lemma TrailCloses(radius: real, trig: Trig)
    requires trig.cos(trig.pi * 2.0) == trig.cos(0.0) && trig.sin(trig.pi * 2.0) == trig.sin(0.0)
    ensures TrailPoint(radius, Segments, trig) == TrailPoint(radius, 0, trig)
  {
    assert TrailAngle(Segments, trig) == trig.pi * 2.0;
    assert TrailAngle(0, trig) == 0.0;
  }
}
