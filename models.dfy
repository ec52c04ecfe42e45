/**
 * The records of the traffic system (vehicles, routes, congestion points) and the two
 * generators that create them from random draws.
 */
module Models {
  import opened Geometry

  datatype VehicleType = Car | Truck | Bus | Motorcycle

  /** A simulated vehicle. `timestamp` is the opaque time of its last update. */
  datatype Vehicle = Vehicle(
    vehicleId: string,
    vehicleType: VehicleType,
    currentSpeed: real,
    maxSpeed: real,
    routeId: string,
    positionX: real,
    positionY: real,
    timestamp: int)

  /** A straight-line route; `distanceKm` is its Euclidean length divided by 100. */
  datatype Route = Route(
    routeId: string,
    startPoint: Point,
    endPoint: Point,
    distanceKm: real,
    routeName: string,
    speedLimit: int)

  /** The classifier's verdict; points only ever carry `Low`, `Medium` or `High`. */
  datatype CongestionLevel = NoCongestion | Low | Medium | High

  datatype CongestionPoint = CongestionPoint(
    locationX: real,
    locationY: real,
    congestionLevel: CongestionLevel,
    averageSpeed: real,
    vehicleCount: int,
    timestamp: int,
    routeId: string)

  // ---------------------------------------------------------------------------
  // Vehicle generation

  /** Lower end of the maximum-speed range of each vehicle type (km/h). */
  function SpeedRangeLow(t: VehicleType): real {
    match t
    case Car => 80.0
    case Truck => 60.0
    case Bus => 50.0
    case Motorcycle => 90.0
  }

  /** Upper end of the maximum-speed range of each vehicle type (km/h). */
  function SpeedRangeHigh(t: VehicleType): real {
    match t
    case Car => 120.0
    case Truck => 90.0
    case Bus => 80.0
    case Motorcycle => 140.0
  }

  /** The selection weight of each vehicle type. */
  function TypeWeight(t: VehicleType): real {
    match t
    case Car => 0.7
    case Truck => 0.15
    case Bus => 0.1
    case Motorcycle => 0.05
  }

  /** The total weight of the types listed before `t` (the cumulative weights of `random.choices`). */
  function WeightBefore(t: VehicleType): real {
    match t
    case Car => 0.0
    case Truck => TypeWeight(Car)
    case Bus => TypeWeight(Car) + TypeWeight(Truck)
    case Motorcycle => TypeWeight(Car) + TypeWeight(Truck) + TypeWeight(Bus)
  }

  /**
   * `random.choices` with the weights above: the draw, scaled by the total weight 1.0,
   * is located among the cumulative weights [0.7, 0.85, 0.95] by a right bisection.
   * The chosen type is the one whose weight interval holds the draw.
   */
  function ChooseType(d: Draw): (t: VehicleType)
    ensures WeightBefore(t) <= d < WeightBefore(t) + TypeWeight(t)
  {
    if d < 0.7 then Car
    else if d < 0.85 then Truck
    else if d < 0.95 then Bus
    else Motorcycle
  }

  /** The weight intervals tile [0, 1): a type is chosen exactly when the draw lies in its interval. */
  lemma ChooseTypeByWeight(d: Draw, t: VehicleType)
    ensures ChooseType(d) == t <==> WeightBefore(t) <= d < WeightBefore(t) + TypeWeight(t)
    ensures WeightBefore(Motorcycle) + TypeWeight(Motorcycle) == 1.0
  {
  }

  /**
   * The draws consumed by `Vehicle.generate_random`, in order: one maximum speed per
   * type (the dictionary of types is built eagerly), the type choice, the current
   * speed, and the two coordinates.
   */
  datatype VehicleDraws = VehicleDraws(
    carMaxSpeed: Draw,
    truckMaxSpeed: Draw,
    busMaxSpeed: Draw,
    motorcycleMaxSpeed: Draw,
    typeChoice: Draw,
    speed: Draw,
    positionX: Draw,
    positionY: Draw)

  function MaxSpeedDraw(d: VehicleDraws, t: VehicleType): Draw {
    match t
    case Car => d.carMaxSpeed
    case Truck => d.truckMaxSpeed
    case Bus => d.busMaxSpeed
    case Motorcycle => d.motorcycleMaxSpeed
  }

  /** The speed invariant of a vehicle: its maximum lies in its type's range and `0 <= current <= max`. */
  predicate SpeedOk(v: Vehicle) {
    && SpeedRangeLow(v.vehicleType) <= v.maxSpeed <= SpeedRangeHigh(v.vehicleType)
    && 0.0 <= v.currentSpeed <= v.maxSpeed
  }

  /** `Vehicle.generate_random(vehicle_id, route_id)` with its random draws made explicit. */
  function GenerateRandom(vehicleId: string, routeId: string, d: VehicleDraws, now: int): (v: Vehicle)
    ensures v.vehicleId == vehicleId && v.routeId == routeId && v.timestamp == now
    ensures v.vehicleType == ChooseType(d.typeChoice)
    ensures SpeedRangeLow(v.vehicleType) <= v.maxSpeed <= SpeedRangeHigh(v.vehicleType)
    ensures 50.0 <= v.maxSpeed
    ensures 0.0 <= v.currentSpeed <= 0.8 * v.maxSpeed
    ensures SpeedOk(v)
    ensures 0.0 <= v.positionX <= 1000.0 && 0.0 <= v.positionY <= 1000.0
  {
    var t := ChooseType(d.typeChoice);
    var maxSpeed := Uniform(SpeedRangeLow(t), SpeedRangeHigh(t), MaxSpeedDraw(d, t));
    Vehicle(
      vehicleId, t,
      Uniform(0.0, maxSpeed * 0.8, d.speed), maxSpeed,
      routeId,
      Uniform(0.0, 1000.0, d.positionX), Uniform(0.0, 1000.0, d.positionY),
      now)
  }

  // ---------------------------------------------------------------------------
  // Route generation

  const RouteNames: seq<string> := [
    "Main Street", "Highway 1", "Broadway", "Park Avenue", "Industrial Road",
    "City Center", "Suburban Loop", "Airport Highway", "University Drive", "Shopping District"
  ]

  const SpeedLimitChoices: seq<int> := [50, 60, 80, 100]

  /** An index drawn by `random.choice` over the four speed limits. */
  type ChoiceIndex = i: int | 0 <= i < 4

  /** The draws consumed by one iteration of `Route.generate_routes`. */
  datatype RouteDraws = RouteDraws(
    startX: Draw, startY: Draw, endX: Draw, endY: Draw, speedLimit: ChoiceIndex)

  function DigitChar(k: int): (c: char)
    requires 0 <= k < 10
  {
    ('0' as int + k) as char
  }

  /** `f"{n:02d}"` for `0 <= n < 100`. */
  function Pad2(n: int): (s: string)
    requires 0 <= n < 100
    ensures |s| == 2
  {
    [DigitChar(n / 10), DigitChar(n % 10)]
  }

  /** `f"route_{n:02d}"`. */
  function RouteId(n: int): string
    requires 0 <= n < 100
  {
    "route_" + Pad2(n)
  }

  /** Distinct route numbers give distinct identifiers. */
  lemma RouteIdInjective(a: int, b: int)
    requires 0 <= a < 100 && 0 <= b < 100
    requires a != b
    ensures RouteId(a) != RouteId(b)
  {
    var sa, sb := RouteId(a), RouteId(b);
    assert sa[6] == DigitChar(a / 10) && sb[6] == DigitChar(b / 10);
    assert sa[7] == DigitChar(a % 10) && sb[7] == DigitChar(b % 10);
    if a / 10 == b / 10 {
      assert a % 10 != b % 10;
      assert sa[7] != sb[7];
    } else {
      assert sa[6] != sb[6];
    }
  }

  /** A city coordinate lies in [0, 1000]. */
  predicate InCity(p: Point) {
    0.0 <= p.x <= 1000.0 && 0.0 <= p.y <= 1000.0
  }

  /** The route's stored length is its Euclidean length in kilometres (100 units per km). */
  predicate DistanceConsistent(r: Route) {
    && 0.0 <= r.distanceKm
    && (100.0 * r.distanceKm) * (100.0 * r.distanceKm) == SquaredDistance(r.startPoint, r.endPoint)
  }

  /** The number of routes `generate_routes(num_routes)` makes: `min(num_routes, 10)`, none if negative. */
  function RouteCount(numRoutes: int): (n: nat)
    ensures n <= |RouteNames|
    ensures n == 0 <==> numRoutes <= 0
    ensures 0 < numRoutes <= |RouteNames| ==> n == numRoutes
    ensures |RouteNames| <= numRoutes ==> n == |RouteNames|
  {
    if numRoutes <= 0 then 0
    else if numRoutes < |RouteNames| then numRoutes
    else |RouteNames|
  }

  /** The route built by iteration `i` of `Route.generate_routes`. */
  function MakeRoute(i: nat, d: RouteDraws, sqrt: real -> real): (r: Route)
    requires i < |RouteNames|
    requires IsSqrt(sqrt)
    ensures r.routeId == RouteId(i + 1)
    ensures r.routeName == RouteNames[i]
    ensures r.speedLimit in SpeedLimitChoices
    ensures InCity(r.startPoint) && InCity(r.endPoint)
    ensures DistanceConsistent(r)
  {
    var start := Point(Uniform(0.0, 1000.0, d.startX), Uniform(0.0, 1000.0, d.startY));
    var end := Point(Uniform(0.0, 1000.0, d.endX), Uniform(0.0, 1000.0, d.endY));
    var length := Distance(sqrt, start, end);
    DistanceZero(sqrt, start, end);
    assert length * length == SquaredDistance(start, end);
    assert 100.0 * (length / 100.0) == length;
    Route(RouteId(i + 1), start, end, length / 100.0, RouteNames[i], SpeedLimitChoices[d.speedLimit])
  }

  /**
   * `Route.generate_routes(num_routes)`: one route per iteration, iteration `i` using the
   * draws `draws(i)`. The identifiers are `route_01`, `route_02`, ... and pairwise distinct.
   */
  method GenerateRoutes(numRoutes: int, draws: nat -> RouteDraws, sqrt: real -> real)
    returns (routes: seq<Route>)
    requires IsSqrt(sqrt)
    ensures |routes| == RouteCount(numRoutes)
    ensures forall i :: 0 <= i < |routes| ==> routes[i] == MakeRoute(i, draws(i), sqrt)
    ensures forall i :: 0 <= i < |routes| ==> routes[i].routeId == RouteId(i + 1)
    ensures forall i, j :: 0 <= i < j < |routes| ==> routes[i].routeId != routes[j].routeId
  {
    var count := RouteCount(numRoutes);
    routes := [];
    var i := 0;
    while i < count
      invariant 0 <= i <= count
      invariant |routes| == i
      invariant forall k :: 0 <= k < i ==> routes[k] == MakeRoute(k, draws(k), sqrt)
    {
      routes := routes + [MakeRoute(i, draws(i), sqrt)];
      i := i + 1;
    }
    NumberedIdsDistinct(routes);
  }

  /** Routes numbered `route_01`, `route_02`, ... in order have pairwise distinct identifiers. */
  lemma NumberedIdsDistinct(routes: seq<Route>)
    requires |routes| < 100
    requires forall i :: 0 <= i < |routes| ==> routes[i].routeId == RouteId(i + 1)
    ensures forall i, j :: 0 <= i < j < |routes| ==> routes[i].routeId != routes[j].routeId
  {
    forall i, j | 0 <= i < j < |routes|
      ensures routes[i].routeId != routes[j].routeId
    {
      RouteIdInjective(i + 1, j + 1);
    }
  }
}
