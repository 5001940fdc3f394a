// Which of the garden's predefined flower spots get a flower: a spot is
// planted unless it lies in the pond (closer than 6 to its centre (9, 7))
// or on one of the three paths (|x| < 2, |x + 10| < 1, |x - 10| < 1).
// The flowers are planted in the order of the list; each flower's sway is
// later phased by its index in that order.

module GardenFlowers {

  datatype FlowerSpot = FlowerSpot(x: int, z: int, color: int)

  const PondX: int := 9
  const PondZ: int := 7
  const PondRadius: int := 6

  function Abs(n: int): nat {
    if n < 0 then -n else n
  }

  /** distance > 6 compared on squares, which is equivalent for non-negative distances. */
  predicate OutsidePond(p: FlowerSpot) {
    (p.x - PondX) * (p.x - PondX) + (p.z - PondZ) * (p.z - PondZ) > PondRadius * PondRadius
  }

  predicate OffPaths(p: FlowerSpot) {
    Abs(p.x) >= 2 && Abs(p.x + 10) >= 1 && Abs(p.x - 10) >= 1
  }

  predicate Plantable(p: FlowerSpot) {
    OutsidePond(p) && OffPaths(p)
  }

  /** The spots that get a flower, in list order. */
  function Planted(spots: seq<FlowerSpot>): (r: seq<FlowerSpot>)
    ensures |r| <= |spots|
    ensures forall i :: 0 <= i < |r| ==> Plantable(r[i])
    decreases |spots|
  {
    if spots == [] then []
    else
      var last := spots[|spots| - 1];
      Planted(spots[..|spots| - 1]) + (if Plantable(last) then [last] else [])
  }

  /** A spot is planted exactly when it is in the list and plantable. */
  lemma {:induction false} PlantedMembership(spots: seq<FlowerSpot>, p: FlowerSpot)
    ensures p in Planted(spots) <==> p in spots && Plantable(p)
    decreases |spots|
  {
    if spots != [] {
      var init, last := spots[..|spots| - 1], spots[|spots| - 1];
      assert spots == init + [last];
      PlantedMembership(init, p);
    }
  }

  /** Filtering keeps the list order: it distributes over concatenation. */
  lemma {:induction false} PlantedConcat(a: seq<FlowerSpot>, b: seq<FlowerSpot>)
    ensures Planted(a + b) == Planted(a) + Planted(b)
    decreases |b|
  {
    if b == [] {
      assert a + b == a;
    } else {
      var init, last := b[..|b| - 1], b[|b| - 1];
      assert (a + b)[..|a + b| - 1] == a + init;
      assert (a + b)[|a + b| - 1] == last;
      PlantedConcat(a, init);
    }
  }

  /** The loop over the predefined spots, pushing a flower for each spot that passes the checks. */
  method PlantFlowers(spots: seq<FlowerSpot>) returns (flowers: seq<FlowerSpot>)
    ensures flowers == Planted(spots)
  {
    flowers := [];
    var i := 0;
    while i < |spots|
      invariant 0 <= i <= |spots|
      invariant flowers == Planted(spots[..i])
    {
      var pos := spots[i];
      var onMainPath := Abs(pos.x) < 2;
      var onSidePath1 := Abs(pos.x + 10) < 1;
      var onSidePath2 := Abs(pos.x - 10) < 1;
      var d2 := (pos.x - PondX) * (pos.x - PondX) + (pos.z - PondZ) * (pos.z - PondZ);
      if d2 > PondRadius * PondRadius && !onMainPath && !onSidePath1 && !onSidePath2 {
        flowers := flowers + [pos];
      }
      assert spots[..i + 1][..i] == spots[..i];
      i := i + 1;
    }
    assert spots[..i] == spots;
  }

  const FlowerSpots: seq<FlowerSpot> := [
    FlowerSpot(4, -9, 0xFF69B4),
    FlowerSpot(-6, 2, 0xFF4500),
    FlowerSpot(-10, -6, 0x9370DB),
    FlowerSpot(12, -5, 0x00CED1),
    FlowerSpot(-12, 8, 0xFFD700),
    FlowerSpot(5, 10, 0xFF69B4),
    FlowerSpot(-5, -12, 0x9370DB),
    FlowerSpot(16, 2, 0xFF4500),
    FlowerSpot(-16, -8, 0x00CED1),
    FlowerSpot(2, -13, 0xFFD700),
    FlowerSpot(-3, 11, 0xFF69B4),
    FlowerSpot(13, 8, 0x9370DB),
    FlowerSpot(-13, 3, 0xFF4500),
    FlowerSpot(7, -12, 0x00CED1),
    FlowerSpot(-7, -14, 0xFFD700),
    FlowerSpot(11, 12, 0xFF69B4),
    FlowerSpot(-11, -15, 0x9370DB),
    FlowerSpot(15, -8, 0xFF4500)
  ]

  /**
   * Of the 18 predefined spots, 14 get a flower: (-10, -6) is on the first
   * side path and (5, 10), (13, 8) and (11, 12) are in the pond.
   */
  lemma FourteenFlowersPlanted()
    ensures |Planted(FlowerSpots)| == 14
    ensures !OffPaths(FlowerSpots[2])
    ensures !OutsidePond(FlowerSpots[5]) && !OutsidePond(FlowerSpots[11]) && !OutsidePond(FlowerSpots[15])
  {
    var s := FlowerSpots;
    assert s == s[..6] + s[6..12] + s[12..];
    PlantedConcat(s[..6] + s[6..12], s[12..]);
    PlantedConcat(s[..6], s[6..12]);
    PlantedInFirstSix();
    PlantedInMiddleSix();
    PlantedInLastSix();
  }

  lemma PlantedInFirstSix()
    ensures |Planted(FlowerSpots[..6])| == 4
  {
    var a, b, c := FlowerSpot(4, -9, 0xFF69B4), FlowerSpot(-6, 2, 0xFF4500), FlowerSpot(-10, -6, 0x9370DB);
    var d, e, f := FlowerSpot(12, -5, 0x00CED1), FlowerSpot(-12, 8, 0xFFD700), FlowerSpot(5, 10, 0xFF69B4);
    assert FlowerSpots[..6] == [a, b, c, d, e, f];
    PlantedSix(a, b, c, d, e, f);
  }

  lemma PlantedInMiddleSix()
    ensures |Planted(FlowerSpots[6..12])| == 5
  {
    var a, b, c := FlowerSpot(-5, -12, 0x9370DB), FlowerSpot(16, 2, 0xFF4500), FlowerSpot(-16, -8, 0x00CED1);
    var d, e, f := FlowerSpot(2, -13, 0xFFD700), FlowerSpot(-3, 11, 0xFF69B4), FlowerSpot(13, 8, 0x9370DB);
    assert FlowerSpots[6..12] == [a, b, c, d, e, f];
    PlantedSix(a, b, c, d, e, f);
  }

  lemma PlantedInLastSix()
    ensures |Planted(FlowerSpots[12..])| == 5
  {
    var a, b, c := FlowerSpot(-13, 3, 0xFF4500), FlowerSpot(7, -12, 0x00CED1), FlowerSpot(-7, -14, 0xFFD700);
    var d, e, f := FlowerSpot(11, 12, 0xFF69B4), FlowerSpot(-11, -15, 0x9370DB), FlowerSpot(15, -8, 0xFF4500);
    assert FlowerSpots[12..] == [a, b, c, d, e, f];
    PlantedSix(a, b, c, d, e, f);
  }

  /** The spot as a list of the flowers it adds: itself when plantable, nothing otherwise. */
  function Kept(p: FlowerSpot): seq<FlowerSpot> {
    if Plantable(p) then [p] else []
  }

  /** Planting one more spot at the end appends it or leaves the list as it was. */
  lemma PlantedSnoc(spots: seq<FlowerSpot>, p: FlowerSpot)
    ensures Planted(spots + [p]) == Planted(spots) + Kept(p)
  {
    assert (spots + [p])[..|spots|] == spots;
  }

  lemma PlantedSix(a: FlowerSpot, b: FlowerSpot, c: FlowerSpot, d: FlowerSpot, e: FlowerSpot, f: FlowerSpot)
    ensures Planted([a, b, c, d, e, f]) == Kept(a) + Kept(b) + Kept(c) + Kept(d) + Kept(e) + Kept(f)
  {
    PlantedSnoc([], a);
    assert [] + [a] == [a];
    PlantedSnoc([a], b);
    assert [a] + [b] == [a, b];
    PlantedSnoc([a, b], c);
    assert [a, b] + [c] == [a, b, c];
    PlantedSnoc([a, b, c], d);
    assert [a, b, c] + [d] == [a, b, c, d];
    PlantedSnoc([a, b, c, d], e);
    assert [a, b, c, d] + [e] == [a, b, c, d, e];
    PlantedSnoc([a, b, c, d, e], f);
    assert [a, b, c, d, e] + [f] == [a, b, c, d, e, f];
  }
}
