/** Where an order is, and how long it has to go. Distances are exact reals; the trigonometric functions of
    the mathematics library are parameters, known only by their laws. */
module Eta {
  import opened Domain

  datatype Maths = Maths(pi: real, sin: real -> real, cos: real -> real, asin: real -> real, sqrt: real -> real)

  /** The addition theorems, for a difference. */
  predicate DifferenceLaw(m: Maths, x: real, y: real) {
    && m.cos(x - y) == m.cos(x) * m.cos(y) + m.sin(x) * m.sin(y)
    && m.sin(x - y) == m.sin(x) * m.cos(y) - m.cos(x) * m.sin(y)
  }

  predicate RootLaw(m: Maths, x: real) {
    0.0 <= x ==> 0.0 <= m.sqrt(x) && Square(m.sqrt(x)) == x
  }

  predicate ArcLaw(m: Maths, x: real, y: real) {
    && (0.0 <= x <= 1.0 ==> 0.0 <= m.asin(x) <= m.pi / 2.0 && m.sin(m.asin(x)) == x)
    && (0.0 <= x < y <= 1.0 ==> m.asin(x) < m.asin(y))
  }

  /** What is used of the library: angle differences, square roots, and the arc sine on [0, 1]. */
  ghost predicate Laws(m: Maths) {
    && m.pi > 0.0
    && m.sin(0.0) == 0.0 && m.cos(0.0) == 1.0 && m.asin(0.0) == 0.0
    && (forall x, y :: DifferenceLaw(m, x, y))
    && (forall x :: RootLaw(m, x))
    && (forall x, y :: ArcLaw(m, x, y))
  }

  function Square(r: real): real {
    r * r
  }

  const EarthRadius := 6371000.0

  function Radians(m: Maths, degrees: real): real {
    degrees * m.pi / 180.0
  }

  /** The haversine of the central angle. */
  function Hav(m: Maths, a: Location, b: Location): real {
    var lat1, lat2 := Radians(m, a.lat), Radians(m, b.lat);
    var sinLat := m.sin(Radians(m, b.lat - a.lat) / 2.0);
    var sinLng := m.sin(Radians(m, b.lng - a.lng) / 2.0);
    sinLat * sinLat + m.cos(lat1) * m.cos(lat2) * sinLng * sinLng
  }

  function HaversineMeters(m: Maths, a: Location, b: Location): real {
    2.0 * EarthRadius * m.asin(m.sqrt(Hav(m, a, b)))
  }

  // ---------- The haversine is a chord ----------

  datatype Point = Point(x: real, y: real, z: real)

  /** The place on the unit sphere. */
  function OnSphere(m: Maths, a: Location): Point {
    var lat, lng := Radians(m, a.lat), Radians(m, a.lng);
    Point(m.cos(lat) * m.cos(lng), m.cos(lat) * m.sin(lng), m.sin(lat))
  }

  function ChordSquared(u: Point, v: Point): real {
    Square(u.x - v.x) + Square(u.y - v.y) + Square(u.z - v.z)
  }

  lemma Pythagoras(m: Maths, x: real)
    requires Laws(m)
    ensures Square(m.sin(x)) + Square(m.cos(x)) == 1.0
  {
    assert DifferenceLaw(m, x, x);
    assert x - x == 0.0;
  }

  lemma HalfAngle(m: Maths, x: real)
    requires Laws(m)
    ensures Square(m.sin(x / 2.0)) == (1.0 - m.cos(x)) / 2.0
  {
    var h := x / 2.0;
    assert DifferenceLaw(m, 0.0, h);
    assert DifferenceLaw(m, h, 0.0 - h);
    assert h - (0.0 - h) == x;
    Pythagoras(m, h);
  }

  lemma RadiansDifference(m: Maths, a: real, b: real)
    ensures Radians(m, b - a) == Radians(m, b) - Radians(m, a)
  {
    assert (b - a) * m.pi == b * m.pi - a * m.pi;
  }

  /** The squared chord between two places given by the sines and cosines of their angles. */
  lemma ChordAlgebra(c1: real, s1: real, p1: real, q1: real, c2: real, s2: real, p2: real, q2: real)
    requires Square(s1) + Square(c1) == 1.0 && Square(q1) + Square(p1) == 1.0
    requires Square(s2) + Square(c2) == 1.0 && Square(q2) + Square(p2) == 1.0
    ensures ChordSquared(Point(c1 * p1, c1 * q1, s1), Point(c2 * p2, c2 * q2, s2)) ==
            2.0 - 2.0 * (c1 * c2 * (p2 * p1 + q2 * q1) + s1 * s2)
  {
    assert Square(c1 * p1 - c2 * p2) == Square(c1) * Square(p1) + Square(c2) * Square(p2) - 2.0 * (c1 * c2 * (p2 * p1));
    assert Square(c1 * q1 - c2 * q2) == Square(c1) * Square(q1) + Square(c2) * Square(q2) - 2.0 * (c1 * c2 * (q2 * q1));
    assert Square(s1 - s2) == Square(s1) + Square(s2) - 2.0 * (s1 * s2);
    assert Square(c1) * Square(p1) + Square(c1) * Square(q1) == Square(c1) * (Square(q1) + Square(p1));
    assert Square(c2) * Square(p2) + Square(c2) * Square(q2) == Square(c2) * (Square(q2) + Square(p2));
    assert c1 * c2 * (p2 * p1 + q2 * q1) == c1 * c2 * (p2 * p1) + c1 * c2 * (q2 * q1);
  }

  /** The haversine in terms of the cosines of the angle differences, where `k + z` is the cosine of the
      latitude difference. */
  lemma HavAlgebra(k: real, z: real, cosLng: real, sinLat: real, sinLng: real)
    requires Square(sinLat) == (1.0 - (k + z)) / 2.0 && Square(sinLng) == (1.0 - cosLng) / 2.0
    ensures sinLat * sinLat + k * sinLng * sinLng == (2.0 - 2.0 * (k * cosLng + z)) / 4.0
  {
    assert k * sinLng * sinLng == k * Square(sinLng);
    assert k * ((1.0 - cosLng) / 2.0) == (k - k * cosLng) / 2.0;
  }

  /** The quantity under the root is a quarter of the squared chord. */
  lemma HavIsChord(m: Maths, a: Location, b: Location)
    requires Laws(m)
    ensures Hav(m, a, b) == ChordSquared(OnSphere(m, a), OnSphere(m, b)) / 4.0
  {
    var lat1, lng1, lat2, lng2 := Radians(m, a.lat), Radians(m, a.lng), Radians(m, b.lat), Radians(m, b.lng);
    RadiansDifference(m, a.lat, b.lat);
    RadiansDifference(m, a.lng, b.lng);
    HalfAngle(m, lat2 - lat1);
    HalfAngle(m, lng2 - lng1);
    Pythagoras(m, lat1);
    Pythagoras(m, lng1);
    Pythagoras(m, lat2);
    Pythagoras(m, lng2);
    ChordAlgebra(m.cos(lat1), m.sin(lat1), m.cos(lng1), m.sin(lng1),
                 m.cos(lat2), m.sin(lat2), m.cos(lng2), m.sin(lng2));
    assert DifferenceLaw(m, lng2, lng1) && DifferenceLaw(m, lat2, lat1);
    HavAlgebra(m.cos(lat1) * m.cos(lat2), m.sin(lat1) * m.sin(lat2), m.cos(lng2 - lng1),
               m.sin((lat2 - lat1) / 2.0), m.sin((lng2 - lng1) / 2.0));
  }

  /** Hence it is symmetric, lies in [0, 1], and is zero exactly when the two places are the same. */
  lemma HavBounds(m: Maths, a: Location, b: Location)
    requires Laws(m)
    ensures Hav(m, a, b) == Hav(m, b, a)
    ensures 0.0 <= Hav(m, a, b) <= 1.0
    ensures Hav(m, a, b) == 0.0 <==> OnSphere(m, a) == OnSphere(m, b)
  {
    HavIsChord(m, a, b);
    HavIsChord(m, b, a);
    var u, v := OnSphere(m, a), OnSphere(m, b);
    UnitVector(m, a);
    UnitVector(m, b);
    Parallelogram(u, v);
    SquareFacts(u.x - v.x);
    SquareFacts(u.y - v.y);
    SquareFacts(u.z - v.z);
    assert ChordSquared(u, v) == ChordSquared(v, u) by {
      assert Square(u.x - v.x) == Square(v.x - u.x);
      assert Square(u.y - v.y) == Square(v.y - u.y);
      assert Square(u.z - v.z) == Square(v.z - u.z);
    }
  }

  function Times(a: real, b: real): real {
    a * b
  }

  lemma SameSign(a: real, b: real)
    requires (a > 0.0 && b > 0.0) || (a < 0.0 && b < 0.0)
    ensures Times(a, b) > 0.0
  {
  }

  lemma SquareFacts(r: real)
    ensures Square(r) >= 0.0 && (Square(r) == 0.0 <==> r == 0.0)
  {
    if r != 0.0 {
      SameSign(r, r);
      assert Square(r) == Times(r, r);
    }
  }

  function Norm(u: Point): real {
    Square(u.x) + Square(u.y) + Square(u.z)
  }

  lemma UnitVector(m: Maths, a: Location)
    requires Laws(m)
    ensures Norm(OnSphere(m, a)) == 1.0
  {
    var lat, lng := Radians(m, a.lat), Radians(m, a.lng);
    Pythagoras(m, lat);
    Pythagoras(m, lng);
    var c := m.cos(lat);
    assert Square(c * m.cos(lng)) + Square(c * m.sin(lng)) == Square(c) * (Square(m.sin(lng)) + Square(m.cos(lng)));
  }

  /** The diagonals of a parallelogram: a chord is at most the diameter. */
  lemma Parallelogram(u: Point, v: Point)
    ensures ChordSquared(u, v) <= 2.0 * Norm(u) + 2.0 * Norm(v)
  {
    SquareFacts(u.x + v.x);
    SquareFacts(u.y + v.y);
    SquareFacts(u.z + v.z);
    assert Square(u.x - v.x) + Square(u.x + v.x) == 2.0 * Square(u.x) + 2.0 * Square(v.x);
    assert Square(u.y - v.y) + Square(u.y + v.y) == 2.0 * Square(u.y) + 2.0 * Square(v.y);
    assert Square(u.z - v.z) + Square(u.z + v.z) == 2.0 * Square(u.z) + 2.0 * Square(v.z);
  }

  /** Distances are symmetric, at most half the circumference, and zero only between equal places. */
  lemma DistanceBounds(m: Maths, a: Location, b: Location)
    requires Laws(m)
    ensures HaversineMeters(m, a, b) == HaversineMeters(m, b, a)
    ensures 0.0 <= HaversineMeters(m, a, b) <= m.pi * EarthRadius
    ensures HaversineMeters(m, a, b) == 0.0 <==> OnSphere(m, a) == OnSphere(m, b)
  {
    HavBounds(m, a, b);
    var h := Hav(m, a, b);
    var r := m.sqrt(h);
    assert RootLaw(m, h);
    RootInUnit(r);
    SquareFacts(r);
    assert ArcLaw(m, r, 1.0) && ArcLaw(m, 0.0, r);
  }

  lemma AngleOfDistance(m: Maths, a: Location, b: Location)
    requires Laws(m)
    ensures var angle := HaversineMeters(m, a, b) / 6371000.0;
            0.0 <= angle <= m.pi && m.cos(angle) == 1.0 - 2.0 * Hav(m, a, b)
  {
    HavBounds(m, a, b);
    var h := Hav(m, a, b);
    var r := m.sqrt(h);
    var angle := HaversineMeters(m, a, b) / 6371000.0;
    assert RootLaw(m, h);
    RootInUnit(r);
    assert ArcLaw(m, r, 1.0);
    assert angle / 2.0 == m.asin(r);
    HalfAngle(m, angle);
  }

  /** The distance is the earth's radius times the central angle: its cosine is that of the spherical law of
      cosines, in degrees as given, and it lies in [0, pi]. */
  lemma DistanceIsArc(m: Maths, a: Location, b: Location)
    requires Laws(m)
    ensures var lat1, lng1 := a.lat * m.pi / 180.0, a.lng * m.pi / 180.0;
            var lat2, lng2 := b.lat * m.pi / 180.0, b.lng * m.pi / 180.0;
            var angle := HaversineMeters(m, a, b) / 6371000.0;
            && 0.0 <= angle <= m.pi
            && m.cos(angle) == m.sin(lat1) * m.sin(lat2) + m.cos(lat1) * m.cos(lat2) * m.cos(lng2 - lng1)
  {
    AngleOfDistance(m, a, b);
    HavIsCosine(m, a, b);
    assert a.lat * m.pi / 180.0 == Radians(m, a.lat) && b.lat * m.pi / 180.0 == Radians(m, b.lat);
    assert a.lng * m.pi / 180.0 == Radians(m, a.lng) && b.lng * m.pi / 180.0 == Radians(m, b.lng);
  }

  /** `1 - 2h` is the right-hand side of the law of cosines. */
  lemma HavIsCosine(m: Maths, a: Location, b: Location)
    requires Laws(m)
    ensures 1.0 - 2.0 * Hav(m, a, b) ==
            m.sin(Radians(m, a.lat)) * m.sin(Radians(m, b.lat))
            + m.cos(Radians(m, a.lat)) * m.cos(Radians(m, b.lat)) * m.cos(Radians(m, b.lng) - Radians(m, a.lng))
  {
    var lat1, lng1, lat2, lng2 := Radians(m, a.lat), Radians(m, a.lng), Radians(m, b.lat), Radians(m, b.lng);
    RadiansDifference(m, a.lat, b.lat);
    RadiansDifference(m, a.lng, b.lng);
    HalfAngle(m, lat2 - lat1);
    HalfAngle(m, lng2 - lng1);
    assert DifferenceLaw(m, lat2, lat1);
    HavAlgebra(m.cos(lat1) * m.cos(lat2), m.sin(lat1) * m.sin(lat2), m.cos(lng2 - lng1),
               m.sin((lat2 - lat1) / 2.0), m.sin((lng2 - lng1) / 2.0));
  }

  lemma RootInUnit(r: real)
    requires 0.0 <= r && Square(r) <= 1.0
    ensures r <= 1.0
  {
  }

  // ---------- Views of an order ----------

  /** The place an order is at, if it is known. */
  function CurrentLocation(order: Order, drone: Option<Drone>): Option<Location> {
    match order.status
    case Created => Some(order.origin)
    case Reserved => if order.handoffOrigin.Some? then order.handoffOrigin else Some(order.origin)
    case PickedUp => if drone.Some? then drone.value.lastLocation else None
    case HandoffRequested => order.handoffOrigin
    case _ => None
  }

  /** Conversion to an integer cuts off towards zero. */
  function Truncate(r: real): int {
    if r >= 0.0 then r.Floor else -((-r).Floor)
  }

  function TravelSeconds(m: Maths, from: Location, order: Order, speed: real): int
    requires speed > 0.0
  {
    var seconds := Truncate(HaversineMeters(m, from, order.destination) / speed);
    if seconds < 0 then 0 else seconds
  }

  function ComputeEta(m: Maths, order: Order, drone: Option<Drone>, speed: real): Option<int> {
    if IsTerminal(order.status) then None
    else if speed <= 0.0 then None
    else match order.status
      case Created => Some(TravelSeconds(m, order.origin, order, speed))
      case Reserved =>
        var from := if order.handoffOrigin.Some? then order.handoffOrigin.value else order.origin;
        Some(TravelSeconds(m, from, order, speed))
      case PickedUp =>
        if drone.None? || drone.value.lastLocation.None? then None
        else Some(TravelSeconds(m, drone.value.lastLocation.value, order, speed))
      case HandoffRequested =>
        if order.handoffOrigin.None? then None else Some(TravelSeconds(m, order.handoffOrigin.value, order, speed))
      case _ => None
  }

  datatype OrderView = OrderView(order: Order, currentLocation: Option<Location>, etaSeconds: Option<int>)

  /** An order as it is shown, given the row of its drone. */
  function ViewOf(m: Maths, order: Order, drone: Option<Drone>, speed: real): OrderView {
    OrderView(order, CurrentLocation(order, drone), ComputeEta(m, order, drone, speed))
  }

  lemma QuotientBounds(d: real, max: real, speed: real)
    requires 0.0 <= d <= max && speed > 0.0
    ensures 0.0 <= d / speed <= max / speed
  {
    assert (max - d) / speed >= 0.0;
    assert max / speed == d / speed + (max - d) / speed;
  }

  lemma TravelBounds(m: Maths, from: Location, order: Order, speed: real)
    requires Laws(m) && speed > 0.0
    ensures TravelSeconds(m, from, order, speed) == (HaversineMeters(m, from, order.destination) / speed).Floor
    ensures 0 <= TravelSeconds(m, from, order, speed) <= (m.pi * EarthRadius / speed).Floor
    ensures OnSphere(m, from) == OnSphere(m, order.destination) ==> TravelSeconds(m, from, order, speed) == 0
  {
    DistanceBounds(m, from, order.destination);
    QuotientBounds(HaversineMeters(m, from, order.destination), m.pi * EarthRadius, speed);
  }

  /** A moving fleet has an arrival time exactly for the orders with a known place; it is measured from
      that place, is never negative, and is at most the time to the far side of the earth. */
  lemma EtaFollowsLocation(m: Maths, order: Order, drone: Option<Drone>, speed: real)
    requires Laws(m) && speed > 0.0
    ensures var at, eta := CurrentLocation(order, drone), ComputeEta(m, order, drone, speed);
            && (eta.Some? <==> at.Some?)
            && (eta.Some? ==>
                && eta.value == (HaversineMeters(m, at.value, order.destination) / speed).Floor
                && 0 <= eta.value <= (m.pi * EarthRadius / speed).Floor
                && (OnSphere(m, at.value) == OnSphere(m, order.destination) ==> eta.value == 0))
  {
    var at := CurrentLocation(order, drone);
    if at.Some? {
      TravelBounds(m, at.value, order, speed);
      assert ComputeEta(m, order, drone, speed) == Some(TravelSeconds(m, at.value, order, speed));
    }
  }

  /** What is shown of an order agrees with itself: the arrival time is from the place shown. */
  lemma ViewAgrees(m: Maths, order: Order, drone: Option<Drone>, speed: real)
    requires Laws(m)
    ensures var v := ViewOf(m, order, drone, speed);
            && v.order == order
            && (v.etaSeconds.Some? <==> speed > 0.0 && v.currentLocation.Some?)
            && (v.etaSeconds.Some? ==>
                  v.etaSeconds.value == (HaversineMeters(m, v.currentLocation.value, order.destination) / speed).Floor)
  {
    if speed > 0.0 {
      EtaFollowsLocation(m, order, drone, speed);
    }
  }
}
