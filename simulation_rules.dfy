/**
 * The rules of the traffic simulation engine stated on values: route lookup, the
 * movement and speed update of one vehicle, spawning, removal, congestion and the
 * order of the phases of one step. The `TrafficSimulation` class applies them to its
 * fields; the lemmas here say what each phase keeps and changes.
 */
module SimulationRules {
  import opened Wrappers
  import opened Geometry
  import opened Models

  // ---------------------------------------------------------------------------
  // Parameters of the engine

  const MaxVehiclesPerRoute: nat := 20
  const NormalSpawnRate: real := 0.3
  const RushHourSpawnRate: real := 0.5
  const DespawnRate: real := 0.1
  const SpeedVariationFactor: real := 0.2
  /** Length of one step in hours. */
  const TimeDelta: real := 0.1
  const ArrivalDistance: real := 50.0
  const CongestionChance: real := 0.3
  const RushHourFactor: real := 0.6
  const MinCongestedSpeed: real := 5.0

  // ---------------------------------------------------------------------------
  // Route lookup

  /** `_get_route_by_id`: the first route in the catalog with the id, if any. */
  function FindRoute(routes: seq<Route>, routeId: string): (r: Option<Route>)
    ensures r.Some? ==> r.value in routes && r.value.routeId == routeId
  {
    if |routes| == 0 then None
    else if routes[0].routeId == routeId then Some(routes[0])
    else FindRoute(routes[1..], routeId)
  }

  /** The lookup fails exactly when no route has the id, and otherwise answers with the first that does. */
  lemma {:induction false} FindRouteFirst(routes: seq<Route>, routeId: string)
    ensures FindRoute(routes, routeId).None? <==> forall i :: 0 <= i < |routes| ==> routes[i].routeId != routeId
    ensures forall k :: 0 <= k < |routes| && routes[k].routeId == routeId &&
                        (forall j :: 0 <= j < k ==> routes[j].routeId != routeId) ==>
                          FindRoute(routes, routeId) == Some(routes[k])
    decreases |routes|
  {
    if |routes| > 0 {
      var tail := routes[1..];
      FindRouteFirst(tail, routeId);
      assert forall i :: 0 <= i < |tail| ==> tail[i] == routes[i + 1];
      forall k | 0 <= k < |routes| && routes[k].routeId == routeId &&
                 (forall j :: 0 <= j < k ==> routes[j].routeId != routeId)
        ensures FindRoute(routes, routeId) == Some(routes[k])
      {
        if k > 0 {
          assert routes[0].routeId != routeId;
          assert tail[k - 1] == routes[k];
          assert forall j :: 0 <= j < k - 1 ==> tail[j].routeId != routeId by {
            forall j | 0 <= j < k - 1 ensures tail[j].routeId != routeId {
              assert tail[j] == routes[j + 1];
            }
          }
        }
      }
    }
  }

  // ---------------------------------------------------------------------------
  // Movement and speed of one vehicle

  function Position(v: Vehicle): Point {
    Point(v.positionX, v.positionY)
  }

  /**
   * The position after one step on route `r`: `current_speed * 0.1` units along the unit
   * vector from the route's start to its end; a route of length zero moves nothing.
   */
  function Moved(sqrt: real -> real, v: Vehicle, r: Route): Point {
    var total := Distance(sqrt, r.startPoint, r.endPoint);
    var travelled := v.currentSpeed * TimeDelta;
    if total > 0.0 then
      Point(Advance(v.positionX, r.endPoint.x - r.startPoint.x, total, travelled),
            Advance(v.positionY, r.endPoint.y - r.startPoint.y, total, travelled))
    else Position(v)
  }

  /** One coordinate moved by `travelled` along a direction component `delta` of a segment of length `total`. */
  function Advance(p: real, delta: real, total: real, travelled: real): real
    requires total != 0.0
  {
    p + delta / total * travelled
  }

  /** The speed after a uniform perturbation of at most 20% of the maximum, clamped to `[0, max_speed]`. */
  function PerturbedSpeed(v: Vehicle, d: Draw): real {
    var spread := v.maxSpeed * SpeedVariationFactor;
    Max(0.0, Min(v.maxSpeed, v.currentSpeed + Uniform(-spread, spread, d)))
  }

  /**
   * `_update_vehicle_position`: a vehicle whose route is not in the catalog is returned
   * as it is; otherwise it moves with its current speed, then gets a new speed and the
   * time of the step.
   */
  function UpdatedVehicle(sqrt: real -> real, routes: seq<Route>, v: Vehicle, d: Draw, now: int): (w: Vehicle)
    ensures w.vehicleId == v.vehicleId && w.vehicleType == v.vehicleType
    ensures w.maxSpeed == v.maxSpeed && w.routeId == v.routeId
    ensures FindRoute(routes, v.routeId).None? ==> w == v
  {
    match FindRoute(routes, v.routeId)
    case None => v
    case Some(r) =>
      var p := Moved(sqrt, v, r);
      v.(positionX := p.x, positionY := p.y, currentSpeed := PerturbedSpeed(v, d), timestamp := now)
  }

  /**
   * After an update on a known route the speed lies in `[0, max_speed]`, and it moved by
   * at most `0.2 * max_speed` from a speed that was already in that range.
   */
  lemma SpeedAfterUpdate(sqrt: real -> real, routes: seq<Route>, v: Vehicle, d: Draw, now: int)
    requires 0.0 <= v.maxSpeed
    requires FindRoute(routes, v.routeId).Some?
    ensures 0.0 <= UpdatedVehicle(sqrt, routes, v, d, now).currentSpeed <= v.maxSpeed
    ensures UpdatedVehicle(sqrt, routes, v, d, now).timestamp == now
    ensures 0.0 <= v.currentSpeed <= v.maxSpeed ==>
              -(SpeedVariationFactor * v.maxSpeed)
                <= UpdatedVehicle(sqrt, routes, v, d, now).currentSpeed - v.currentSpeed
                <= SpeedVariationFactor * v.maxSpeed
  {
    var spread := v.maxSpeed * SpeedVariationFactor;
    var delta := Uniform(-spread, spread, d);
    assert -spread <= delta <= spread;
  }

  /** Scaling the unit component `a / l` by `s` and then by the length `l` gives back `a * s`. */
  lemma ScaledComponent(a: real, l: real, s: real)
    requires 0.0 < l
    ensures (a / l * s) * l == a * s
  {
  }

  /**
   * On a route of positive length the step moves a vehicle by `current_speed * 0.1`
   * times the unit vector from the route's start to its end: each component of the
   * displacement times the route length is that component of the route times the
   * distance travelled. On a route whose ends coincide it does not move.
   */
  lemma MovementAlongRoute(sqrt: real -> real, v: Vehicle, r: Route, p: Point)
    requires IsSqrt(sqrt)
    requires p == Moved(sqrt, v, r)
    ensures r.startPoint == r.endPoint ==> p == Position(v)
    ensures r.startPoint != r.endPoint ==>
              && (p.x - v.positionX) * Distance(sqrt, r.startPoint, r.endPoint)
                   == (r.endPoint.x - r.startPoint.x) * (v.currentSpeed * TimeDelta)
              && (p.y - v.positionY) * Distance(sqrt, r.startPoint, r.endPoint)
                   == (r.endPoint.y - r.startPoint.y) * (v.currentSpeed * TimeDelta)
  {
    DistanceZero(sqrt, r.startPoint, r.endPoint);
    if r.startPoint != r.endPoint {
      var l := Distance(sqrt, r.startPoint, r.endPoint);
      ScaledComponent(r.endPoint.x - r.startPoint.x, l, v.currentSpeed * TimeDelta);
      ScaledComponent(r.endPoint.y - r.startPoint.y, l, v.currentSpeed * TimeDelta);
    }
  }


  // ---------------------------------------------------------------------------
  // The vehicle registry
  //
  // `active_vehicles` is a dictionary in which every vehicle is filed under its own id.
  // It is modelled by its values in insertion order, which is the order every loop over
  // it follows; its keys are the ids of those values.

  /**
   * The dictionary's keys, in insertion order. This projects the registry's vehicles;
   * `Samples.VehicleIds` projects the analytics' sample rows, a different record.
   */
  function Ids(s: seq<Vehicle>): (r: seq<string>)
    ensures |r| == |s|
    ensures forall i :: 0 <= i < |s| ==> r[i] == s[i].vehicleId
  {
    seq(|s|, i requires 0 <= i < |s| => s[i].vehicleId)
  }

  /** A key appears once. */
  predicate WellFormed(s: seq<Vehicle>) {
    forall i, j :: 0 <= i < j < |s| ==> s[i].vehicleId != s[j].vehicleId
  }

  /** The number of active vehicles on a route. */
  function RouteLoad(s: seq<Vehicle>, routeId: string): (n: nat)
    ensures n <= |s|
  {
    if |s| == 0 then 0
    else RouteLoad(s[..|s| - 1], routeId) + (if s[|s| - 1].routeId == routeId then 1 else 0)
  }

  /** The number of active vehicles of a type. */
  function TypeCount(s: seq<Vehicle>, t: VehicleType): (n: nat)
    ensures n <= |s|
  {
    if |s| == 0 then 0
    else TypeCount(s[..|s| - 1], t) + (if s[|s| - 1].vehicleType == t then 1 else 0)
  }

  /** The invariant of the registry: unique keys, every speed in range, at most 20 vehicles per route. */
  ghost predicate FleetOk(s: seq<Vehicle>) {
    && WellFormed(s)
    && (forall i :: 0 <= i < |s| ==> SpeedOk(s[i]))
    && (forall routeId :: RouteLoad(s, routeId) <= MaxVehiclesPerRoute)
  }

  lemma RouteLoadAppend(s: seq<Vehicle>, v: Vehicle, routeId: string)
    ensures RouteLoad(s + [v], routeId) == RouteLoad(s, routeId) + (if v.routeId == routeId then 1 else 0)
  {
    assert (s + [v])[..|s|] == s;
  }

  /** Registries that agree position by position on routes carry the same load on every route. */
  lemma {:induction false} RouteLoadAgree(s: seq<Vehicle>, t: seq<Vehicle>, routeId: string)
    requires |s| == |t|
    requires forall i :: 0 <= i < |s| ==> s[i].routeId == t[i].routeId
    ensures RouteLoad(s, routeId) == RouteLoad(t, routeId)
  {
    if |s| > 0 {
      RouteLoadAgree(s[..|s| - 1], t[..|t| - 1], routeId);
    }
  }

  /** `get_simulation_status`: the per-type counts cover every active vehicle. */
  lemma {:induction false} TypeCountsAddUp(s: seq<Vehicle>)
    ensures TypeCount(s, Car) + TypeCount(s, Truck) + TypeCount(s, Bus) + TypeCount(s, Motorcycle) == |s|
  {
    if |s| > 0 {
      TypeCountsAddUp(s[..|s| - 1]);
    }
  }

  // ---------------------------------------------------------------------------
  // A change applied to each vehicle in dictionary order

  /**
   * The registry after `g` has changed, in place, each of its first `k` vehicles (the
   * `for vehicle in self.active_vehicles.values()` loops).
   */
  function ApplyUpTo(s: seq<Vehicle>, k: nat, g: Vehicle -> Vehicle): (r: seq<Vehicle>)
    requires k <= |s|
    ensures |r| == |s|
  {
    seq(|s|, i requires 0 <= i < |s| => if i < k then g(s[i]) else s[i])
  }

  /** `w` is an admissible change of `v`: same id and route, and a speed in range stays in range. */
  predicate Keeps(v: Vehicle, w: Vehicle) {
    w.vehicleId == v.vehicleId && w.routeId == v.routeId && (SpeedOk(v) ==> SpeedOk(w))
  }

  /** Applying admissible changes keeps the registry invariant. */
  lemma ApplyKeepsOk(s: seq<Vehicle>, k: nat, g: Vehicle -> Vehicle)
    requires FleetOk(s) && k <= |s|
    requires forall i :: 0 <= i < |s| ==> Keeps(s[i], g(s[i]))
    ensures FleetOk(ApplyUpTo(s, k, g))
  {
    var t := ApplyUpTo(s, k, g);
    assert forall i :: 0 <= i < |s| ==> Keeps(s[i], t[i]);
    forall routeId
      ensures RouteLoad(t, routeId) <= MaxVehiclesPerRoute
    {
      RouteLoadAgree(s, t, routeId);
    }
  }

  /** The per-vehicle change of the movement phase. */
  function UpdateRule(sqrt: real -> real, routes: seq<Route>, d: string -> Draw, now: int): Vehicle -> Vehicle {
    (v: Vehicle) => UpdatedVehicle(sqrt, routes, v, d(v.vehicleId), now)
  }

  lemma UpdateKeeps(sqrt: real -> real, routes: seq<Route>, d: string -> Draw, now: int, v: Vehicle)
    ensures Keeps(v, UpdateRule(sqrt, routes, d, now)(v))
  {
    assert UpdateRule(sqrt, routes, d, now)(v) == UpdatedVehicle(sqrt, routes, v, d(v.vehicleId), now);
    if SpeedOk(v) && FindRoute(routes, v.routeId).Some? {
      assert 0.0 <= SpeedRangeLow(v.vehicleType);
      SpeedAfterUpdate(sqrt, routes, v, d(v.vehicleId), now);
    }
  }

  // ---------------------------------------------------------------------------
  // Spawning

  /** The argument of `random.randint(1000, 9999)`. */
  type SpawnNumber = n: int | 1000 <= n <= 9999 witness 1000

  /** The decimal digits of a four-digit number. */
  function Digits4(n: SpawnNumber): (s: string)
    ensures |s| == 4
  {
    [DigitChar(n / 1000), DigitChar(n / 100 % 10), DigitChar(n / 10 % 10), DigitChar(n % 10)]
  }

  /** `f"{route.route_id}_v{n}"`: the route id followed by `_v` and four digits. */
  function VehicleIdFor(routeId: string, n: SpawnNumber): (id: string)
    ensures |id| == |routeId| + 6 && id[..|routeId|] == routeId
  {
    routeId + "_v" + Digits4(n)
  }

  /** The draws of the spawning phase, indexed by the route's position in the catalog. */
  datatype SpawnDraws = SpawnDraws(chance: nat -> Draw, number: nat -> SpawnNumber, vehicle: nat -> VehicleDraws)

  /** A freshly generated vehicle placed at the start of its route. */
  function NewVehicle(r: Route, id: string, vd: VehicleDraws, now: int): (v: Vehicle)
    ensures v.vehicleId == id && v.routeId == r.routeId && Position(v) == r.startPoint
    ensures SpeedOk(v)
  {
    var v := GenerateRandom(id, r.routeId, vd, now);
    v.(positionX := r.startPoint.x, positionY := r.startPoint.y)
  }

  /** One iteration of `_spawn_new_vehicles`, for the route at position `i` of the catalog. */
  function SpawnOne(s: seq<Vehicle>, r: Route, i: nat, d: SpawnDraws, rate: real, now: int): seq<Vehicle> {
    if RouteLoad(s, r.routeId) < MaxVehiclesPerRoute && d.chance(i) < rate then
      var id := VehicleIdFor(r.routeId, d.number(i));
      if id !in Ids(s) then s + [NewVehicle(r, id, d.vehicle(i), now)] else s
    else s
  }

  /** A loop over the first `k` routes of the catalog, applying `step` to each route and its position. */
  function FoldRoutes(s: seq<Vehicle>, routes: seq<Route>, k: nat, step: (seq<Vehicle>, Route, nat) -> seq<Vehicle>): seq<Vehicle>
    requires k <= |routes|
  {
    if k == 0 then s else step(FoldRoutes(s, routes, k - 1, step), routes[k - 1], k - 1)
  }

  function SpawnStep(d: SpawnDraws, rate: real, now: int): (seq<Vehicle>, Route, nat) -> seq<Vehicle> {
    (t: seq<Vehicle>, r: Route, i: nat) => SpawnOne(t, r, i, d, rate, now)
  }

  /** `_spawn_new_vehicles` over the first `k` routes of the catalog. */
  function SpawnUpTo(s: seq<Vehicle>, routes: seq<Route>, k: nat, d: SpawnDraws, rate: real, now: int): seq<Vehicle>
    requires k <= |routes|
  {
    FoldRoutes(s, routes, k, SpawnStep(d, rate, now))
  }

  /** Spawning over one more route is one more spawn. */
  lemma SpawnUpToNext(s: seq<Vehicle>, routes: seq<Route>, k: nat, d: SpawnDraws, rate: real, now: int)
    requires k < |routes|
    ensures SpawnUpTo(s, routes, k + 1, d, rate, now) == SpawnOne(SpawnUpTo(s, routes, k, d, rate, now), routes[k], k, d, rate, now)
  {
  }

  /**
   * A spawn adds a vehicle exactly when its route has fewer than 20 vehicles, the draw
   * is below the rate and the generated id is not a key yet. It adds it after the
   * existing entries, which stay as they were, and places it at the route's start.
   */
  lemma SpawnOneEffect(s: seq<Vehicle>, r: Route, i: nat, d: SpawnDraws, rate: real, now: int)
    ensures |SpawnOne(s, r, i, d, rate, now)| != |s| <==>
              RouteLoad(s, r.routeId) < MaxVehiclesPerRoute && d.chance(i) < rate &&
              VehicleIdFor(r.routeId, d.number(i)) !in Ids(s)
    ensures |s| <= |SpawnOne(s, r, i, d, rate, now)| <= |s| + 1
    ensures SpawnOne(s, r, i, d, rate, now)[..|s|] == s
    ensures forall j :: |s| <= j < |SpawnOne(s, r, i, d, rate, now)| ==>
              SpawnOne(s, r, i, d, rate, now)[j].vehicleId == VehicleIdFor(r.routeId, d.number(i)) &&
              SpawnOne(s, r, i, d, rate, now)[j].routeId == r.routeId &&
              Position(SpawnOne(s, r, i, d, rate, now)[j]) == r.startPoint
  {
    assert (s + [NewVehicle(r, VehicleIdFor(r.routeId, d.number(i)), d.vehicle(i), now)])[..|s|] == s;
  }

  /** Adding a vehicle with a new id, a speed in range, on a route below the cap keeps the registry invariant. */
  lemma AddKeepsOk(s: seq<Vehicle>, v: Vehicle)
    requires FleetOk(s)
    requires v.vehicleId !in Ids(s) && SpeedOk(v)
    requires RouteLoad(s, v.routeId) < MaxVehiclesPerRoute
    ensures FleetOk(s + [v])
  {
    var t := s + [v];
    forall a, b | 0 <= a < b < |t| ensures t[a].vehicleId != t[b].vehicleId {
      assert Ids(s)[a] == t[a].vehicleId;
    }
    forall routeId
      ensures RouteLoad(t, routeId) <= MaxVehiclesPerRoute
    {
      RouteLoadAppend(s, v, routeId);
    }
  }

  /** A spawn keeps the registry invariant: in particular no route goes above 20 vehicles. */
  lemma SpawnOneKeepsOk(s: seq<Vehicle>, r: Route, i: nat, d: SpawnDraws, rate: real, now: int)
    requires FleetOk(s)
    ensures FleetOk(SpawnOne(s, r, i, d, rate, now))
  {
    var id := VehicleIdFor(r.routeId, d.number(i));
    if RouteLoad(s, r.routeId) < MaxVehiclesPerRoute && d.chance(i) < rate && id !in Ids(s) {
      AddKeepsOk(s, NewVehicle(r, id, d.vehicle(i), now));
    }
  }

  /** A loop over the routes whose every step keeps the registry invariant keeps it too. */
  lemma {:induction false} FoldKeepsOk(s: seq<Vehicle>, routes: seq<Route>, k: nat, step: (seq<Vehicle>, Route, nat) -> seq<Vehicle>)
    requires FleetOk(s) && k <= |routes|
    requires forall t, r, i :: FleetOk(t) ==> FleetOk(step(t, r, i))
    ensures FleetOk(FoldRoutes(s, routes, k, step))
  {
    if k > 0 {
      FoldKeepsOk(s, routes, k - 1, step);
    }
  }

  /** Spawning over the first `k` routes keeps the registry invariant. */
  lemma SpawnUpToKeepsOk(s: seq<Vehicle>, routes: seq<Route>, k: nat, d: SpawnDraws, rate: real, now: int)
    requires FleetOk(s) && k <= |routes|
    ensures FleetOk(SpawnUpTo(s, routes, k, d, rate, now))
  {
    var step := SpawnStep(d, rate, now);
    forall t, r, i | FleetOk(t) ensures FleetOk(step(t, r, i)) {
      SpawnOneKeepsOk(t, r, i, d, rate, now);
    }
    FoldKeepsOk(s, routes, k, step);
  }

  /** `u` is `t` with at most one vehicle appended, placed at the start of route `r`. */
  predicate Grows(t: seq<Vehicle>, u: seq<Vehicle>, r: Route) {
    && |t| <= |u| <= |t| + 1
    && u[..|t|] == t
    && forall j :: |t| <= j < |u| ==> u[j].routeId == r.routeId && Position(u[j]) == r.startPoint
  }

  /**
   * A loop over the first `k` routes whose every step appends at most one vehicle, at
   * the start of the step's route, keeps the existing entries and appends at most `k`
   * vehicles, each at the start of one of those routes.
   */
  lemma {:induction false} FoldEffect(s: seq<Vehicle>, routes: seq<Route>, k: nat, step: (seq<Vehicle>, Route, nat) -> seq<Vehicle>)
    requires k <= |routes|
    requires forall t, r, i :: Grows(t, step(t, r, i), r)
    ensures |s| <= |FoldRoutes(s, routes, k, step)| <= |s| + k
    ensures FoldRoutes(s, routes, k, step)[..|s|] == s
    ensures forall j :: |s| <= j < |FoldRoutes(s, routes, k, step)| ==>
              exists m :: 0 <= m < k && routes[m].routeId == FoldRoutes(s, routes, k, step)[j].routeId &&
                          routes[m].startPoint == Position(FoldRoutes(s, routes, k, step)[j])
  {
    if k > 0 {
      var prev := FoldRoutes(s, routes, k - 1, step);
      var t := FoldRoutes(s, routes, k, step);
      FoldEffect(s, routes, k - 1, step);
      assert Grows(prev, t, routes[k - 1]);
      assert t[..|s|] == prev[..|prev|][..|s|];
      forall j | |s| <= j < |t|
        ensures exists m :: 0 <= m < k && routes[m].routeId == t[j].routeId && routes[m].startPoint == Position(t[j])
      {
        if j >= |prev| {
          assert routes[k - 1].routeId == t[j].routeId;
        } else {
          assert t[j] == prev[j];
        }
      }
    }
  }

  /**
   * Spawning over the first `k` routes keeps every existing entry where it was, adds at
   * most `k` vehicles, and places each new vehicle at the start of one of those routes.
   */
  lemma SpawnUpToEffect(s: seq<Vehicle>, routes: seq<Route>, k: nat, d: SpawnDraws, rate: real, now: int)
    requires k <= |routes|
    ensures |s| <= |SpawnUpTo(s, routes, k, d, rate, now)| <= |s| + k
    ensures SpawnUpTo(s, routes, k, d, rate, now)[..|s|] == s
    ensures forall j :: |s| <= j < |SpawnUpTo(s, routes, k, d, rate, now)| ==>
              exists m :: 0 <= m < k && routes[m].routeId == SpawnUpTo(s, routes, k, d, rate, now)[j].routeId &&
                          routes[m].startPoint == Position(SpawnUpTo(s, routes, k, d, rate, now)[j])
  {
    var step := SpawnStep(d, rate, now);
    forall t, r, i ensures Grows(t, step(t, r, i), r) {
      SpawnOneEffect(t, r, i, d, rate, now);
    }
    FoldEffect(s, routes, k, step);
  }
  /** Some of the first `k` routes has the id `routeId`. */
  predicate RouteAmong(routes: seq<Route>, k: nat, routeId: string)
    requires k <= |routes|
  {
    exists m :: 0 <= m < k && routes[m].routeId == routeId
  }

  /**
   * A loop over `k` routes with distinct ids whose every step appends at most one vehicle,
   * on the step's route, appends vehicles on pairwise distinct routes, all among the `k`.
   */
  lemma {:induction false} FoldOnePerRoute(s: seq<Vehicle>, routes: seq<Route>, k: nat,
                                           step: (seq<Vehicle>, Route, nat) -> seq<Vehicle>)
    requires k <= |routes|
    requires forall t, r, i :: Grows(t, step(t, r, i), r)
    requires forall a, b :: 0 <= a < b < k ==> routes[a].routeId != routes[b].routeId
    ensures |s| <= |FoldRoutes(s, routes, k, step)|
    ensures forall j :: |s| <= j < |FoldRoutes(s, routes, k, step)| ==>
              RouteAmong(routes, k, FoldRoutes(s, routes, k, step)[j].routeId)
    ensures forall j1, j2 :: |s| <= j1 < j2 < |FoldRoutes(s, routes, k, step)| ==>
              FoldRoutes(s, routes, k, step)[j1].routeId != FoldRoutes(s, routes, k, step)[j2].routeId
  {
    if k > 0 {
      var prev := FoldRoutes(s, routes, k - 1, step);
      var t := FoldRoutes(s, routes, k, step);
      FoldOnePerRoute(s, routes, k - 1, step);
      assert Grows(prev, t, routes[k - 1]);
      forall j | 0 <= j < |prev| ensures t[j] == prev[j] {
        assert t[j] == t[..|prev|][j];
      }
      forall j | |s| <= j < |t| ensures RouteAmong(routes, k, t[j].routeId) {
        if j < |prev| {
          var m :| 0 <= m < k - 1 && routes[m].routeId == prev[j].routeId;
          assert routes[m].routeId == t[j].routeId;
        } else {
          assert routes[k - 1].routeId == t[j].routeId;
        }
      }
      forall j1, j2 | |s| <= j1 < j2 < |t| ensures t[j1].routeId != t[j2].routeId {
        if |prev| <= j2 {
          var m :| 0 <= m < k - 1 && routes[m].routeId == prev[j1].routeId;
          assert t[j2].routeId == routes[k - 1].routeId;
        }
      }
    }
  }

  /** Over a catalog with distinct route ids, spawning adds at most one vehicle per route. */
  lemma SpawnUpToOnePerRoute(s: seq<Vehicle>, routes: seq<Route>, k: nat, d: SpawnDraws, rate: real, now: int)
    requires k <= |routes|
    requires forall a, b :: 0 <= a < b < k ==> routes[a].routeId != routes[b].routeId
    ensures forall j1, j2 :: |s| <= j1 < j2 < |SpawnUpTo(s, routes, k, d, rate, now)| ==>
              SpawnUpTo(s, routes, k, d, rate, now)[j1].routeId != SpawnUpTo(s, routes, k, d, rate, now)[j2].routeId
  {
    var step := SpawnStep(d, rate, now);
    forall t, r, i ensures Grows(t, step(t, r, i), r) {
      SpawnOneEffect(t, r, i, d, rate, now);
    }
    FoldOnePerRoute(s, routes, k, step);
  }



  // ---------------------------------------------------------------------------
  // Removal

  /** A vehicle leaves when its route is unknown, when it is within 50 units of the route's end, or on the despawn draw. */
  predicate ShouldRemove(sqrt: real -> real, routes: seq<Route>, v: Vehicle, despawn: Draw) {
    match FindRoute(routes, v.routeId)
    case None => true
    case Some(r) => Distance(sqrt, Position(v), r.endPoint) < ArrivalDistance || despawn < DespawnRate
  }

  /**
   * Arrival is decided on squared lengths: a vehicle on a known route is removed exactly
   * when its squared distance to the end is below 2500 or the draw is below 0.1.
   */
  lemma RemovalRule(sqrt: real -> real, routes: seq<Route>, v: Vehicle, despawn: Draw)
    requires IsSqrt(sqrt)
    ensures FindRoute(routes, v.routeId).None? ==> ShouldRemove(sqrt, routes, v, despawn)
    ensures FindRoute(routes, v.routeId).Some? ==>
              (ShouldRemove(sqrt, routes, v, despawn) <==>
                SquaredDistance(Position(v), FindRoute(routes, v.routeId).value.endPoint) < 2500.0 || despawn < DespawnRate)
  {
    if FindRoute(routes, v.routeId).Some? {
      DistanceBelow(sqrt, Position(v), FindRoute(routes, v.routeId).value.endPoint, ArrivalDistance);
    }
  }

  /** The ids collected by the first loop of `_remove_vehicles`, in dictionary order. */
  function Doomed(sqrt: real -> real, routes: seq<Route>, s: seq<Vehicle>, d: string -> Draw): (r: seq<string>)
    ensures forall id :: id in r ==> id in Ids(s)
  {
    if |s| == 0 then []
    else
      var v := s[|s| - 1];
      var r := Doomed(sqrt, routes, s[..|s| - 1], d);
      assert forall id :: id in Ids(s[..|s| - 1]) ==> id in Ids(s) by {
        forall id | id in Ids(s[..|s| - 1]) ensures id in Ids(s) {
          var i :| 0 <= i < |s| - 1 && Ids(s[..|s| - 1])[i] == id;
          assert Ids(s)[i] == id;
        }
      }
      assert Ids(s)[|s| - 1] == v.vehicleId;
      if ShouldRemove(sqrt, routes, v, d(v.vehicleId)) then r + [v.vehicleId] else r
  }

  /** In a registry with unique keys, a vehicle's id is collected exactly when the vehicle is to be removed. */
  lemma {:induction false} DoomedMembers(sqrt: real -> real, routes: seq<Route>, s: seq<Vehicle>, d: string -> Draw)
    requires WellFormed(s)
    ensures forall i :: 0 <= i < |s| ==>
              (s[i].vehicleId in Doomed(sqrt, routes, s, d) <==> ShouldRemove(sqrt, routes, s[i], d(s[i].vehicleId)))
  {
    if |s| > 0 {
      var prefix, v := s[..|s| - 1], s[|s| - 1];
      DoomedMembers(sqrt, routes, prefix, d);
      assert v.vehicleId !in Ids(prefix) by {
        forall i | 0 <= i < |prefix| ensures Ids(prefix)[i] != v.vehicleId {
          assert prefix[i] == s[i];
        }
      }
      forall i | 0 <= i < |s| - 1
        ensures s[i].vehicleId != v.vehicleId && prefix[i] == s[i]
      {
      }
    }
  }

  /** `del self.active_vehicles[id]`: the registry without the entry filed under `id`. */
  function Delete(s: seq<Vehicle>, id: string): (r: seq<Vehicle>)
    ensures |r| <= |s|
  {
    if |s| == 0 then []
    else
      var r := Delete(s[..|s| - 1], id);
      if s[|s| - 1].vehicleId == id then r else r + [s[|s| - 1]]
  }

  /** Deleting an entry keeps exactly the entries filed under another id. */
  lemma {:induction false} DeleteMembers(s: seq<Vehicle>, id: string)
    ensures forall v :: v in Delete(s, id) <==> v in s && v.vehicleId != id
  {
    if |s| > 0 {
      var prefix, v := s[..|s| - 1], s[|s| - 1];
      DeleteMembers(prefix, id);
      assert forall w :: w in s <==> w in prefix || w == v;
    }
  }

  /** Deleting an entry never raises a route's load. */
  lemma {:induction false} DeleteLoad(s: seq<Vehicle>, id: string, routeId: string)
    ensures RouteLoad(Delete(s, id), routeId) <= RouteLoad(s, routeId)
  {
    if |s| > 0 {
      var prefix, v := s[..|s| - 1], s[|s| - 1];
      DeleteLoad(prefix, id, routeId);
      if v.vehicleId != id {
        RouteLoadAppend(Delete(prefix, id), v, routeId);
      }
    }
  }

  /** Deleting an entry keeps keys unique. */
  lemma {:induction false} DeleteWellFormed(s: seq<Vehicle>, id: string)
    requires WellFormed(s)
    ensures WellFormed(Delete(s, id))
  {
    if |s| > 0 {
      var prefix, v := s[..|s| - 1], s[|s| - 1];
      DeleteWellFormed(prefix, id);
      DeleteMembers(prefix, id);
      var r := Delete(prefix, id);
      if v.vehicleId != id {
        forall a, b | 0 <= a < b < |r| + 1 ensures (r + [v])[a].vehicleId != (r + [v])[b].vehicleId {
          if b == |r| {
            assert r[a] in prefix;
            var c :| 0 <= c < |prefix| && prefix[c] == r[a];
            assert s[c] == r[a];
          }
        }
      }
    }
  }

  /** Deleting an entry keeps the other entries, keeps keys unique and never raises a route's load. */
  lemma DeleteEffect(s: seq<Vehicle>, id: string)
    ensures forall v :: v in Delete(s, id) <==> v in s && v.vehicleId != id
    ensures WellFormed(s) ==> WellFormed(Delete(s, id))
    ensures forall routeId :: RouteLoad(Delete(s, id), routeId) <= RouteLoad(s, routeId)
  {
    DeleteMembers(s, id);
    if WellFormed(s) {
      DeleteWellFormed(s, id);
    }
    forall routeId ensures RouteLoad(Delete(s, id), routeId) <= RouteLoad(s, routeId) {
      DeleteLoad(s, id, routeId);
    }
  }

  /** Deleting the collected ids one after the other. */
  function DeleteAll(s: seq<Vehicle>, ids: seq<string>): seq<Vehicle> {
    if |ids| == 0 then s else Delete(DeleteAll(s, ids[..|ids| - 1]), ids[|ids| - 1])
  }

  /** Deleting a list of ids keeps exactly the entries whose id is not listed, and keeps the registry invariant. */
  lemma {:induction false} DeleteAllEffect(s: seq<Vehicle>, ids: seq<string>)
    ensures forall v :: v in DeleteAll(s, ids) <==> v in s && v.vehicleId !in ids
    ensures FleetOk(s) ==> FleetOk(DeleteAll(s, ids))
  {
    if |ids| > 0 {
      var prefix := ids[..|ids| - 1];
      var prev := DeleteAll(s, prefix);
      DeleteAllEffect(s, prefix);
      DeleteEffect(prev, ids[|ids| - 1]);
      assert forall id :: id in ids <==> id in prefix || id == ids[|ids| - 1];
      var t := DeleteAll(s, ids);
      if FleetOk(s) {
        forall i | 0 <= i < |t| ensures SpeedOk(t[i]) {
          assert t[i] in t;
          var j :| 0 <= j < |s| && s[j] == t[i];
        }
      }
    }
  }

  /** `_remove_vehicles`: collect the ids to remove in dictionary order, then delete them. */
  function Removed(sqrt: real -> real, routes: seq<Route>, s: seq<Vehicle>, d: string -> Draw): seq<Vehicle> {
    DeleteAll(s, Doomed(sqrt, routes, s, d))
  }

  /** The removal phase keeps exactly the vehicles that are not to be removed, unchanged, and keeps the registry invariant. */
  lemma RemovedEffect(sqrt: real -> real, routes: seq<Route>, s: seq<Vehicle>, d: string -> Draw)
    requires FleetOk(s)
    ensures forall i :: 0 <= i < |s| ==>
              (s[i] in Removed(sqrt, routes, s, d) <==> !ShouldRemove(sqrt, routes, s[i], d(s[i].vehicleId)))
    ensures forall v :: v in Removed(sqrt, routes, s, d) ==> v in s
    ensures FleetOk(Removed(sqrt, routes, s, d))
  {
    DoomedMembers(sqrt, routes, s, d);
    DeleteAllEffect(s, Doomed(sqrt, routes, s, d));
  }

  // ---------------------------------------------------------------------------
  // Congestion

  predicate IsRushHour(hour: int) {
    7 <= hour <= 9 || 17 <= hour <= 19
  }

  /** The spawn rate `_simulate_congestion` sets for the hour. */
  function SpawnRateAt(hour: int): (rate: real)
    ensures rate == RushHourSpawnRate <==> IsRushHour(hour)
    ensures rate == NormalSpawnRate <==> !IsRushHour(hour)
  {
    if IsRushHour(hour) then RushHourSpawnRate else NormalSpawnRate
  }

  /** The factor applied to an affected vehicle's speed. */
  function CongestionFactor(hour: int): (factor: real)
    ensures 0.0 < factor <= 1.0
    ensures factor < 1.0 <==> IsRushHour(hour)
    ensures IsRushHour(hour) ==> factor == 0.6
  {
    if IsRushHour(hour) then RushHourFactor else 1.0
  }

  /** A vehicle affected by congestion (draw below 0.3) gets `max(5, speed * factor)`; the others keep their speed. */
  function Congested(v: Vehicle, factor: real, d: Draw): Vehicle {
    if d < CongestionChance then v.(currentSpeed := Max(MinCongestedSpeed, v.currentSpeed * factor)) else v
  }

  /**
   * Congestion changes nothing but the speed of an affected vehicle, which never rises
   * above its old value except up to the floor of 5, and keeps a speed in range in range.
   */
  lemma CongestedSpeed(v: Vehicle, hour: int, d: Draw)
    requires 0.0 <= v.currentSpeed
    ensures d >= CongestionChance ==> Congested(v, CongestionFactor(hour), d) == v
    ensures Congested(v, CongestionFactor(hour), d) == v.(currentSpeed := Congested(v, CongestionFactor(hour), d).currentSpeed)
    ensures d < CongestionChance ==>
              MinCongestedSpeed <= Congested(v, CongestionFactor(hour), d).currentSpeed <= Max(MinCongestedSpeed, v.currentSpeed)
    ensures SpeedOk(v) ==> SpeedOk(Congested(v, CongestionFactor(hour), d))
  {
    var factor := CongestionFactor(hour);
    MulMonotone(factor, 1.0, v.currentSpeed);
    assert v.currentSpeed * factor <= v.currentSpeed;
  }

  /** The per-vehicle change of the congestion phase. */
  function CongestRule(hour: int, d: string -> Draw): Vehicle -> Vehicle {
    (v: Vehicle) => Congested(v, CongestionFactor(hour), d(v.vehicleId))
  }

  lemma CongestKeeps(hour: int, d: string -> Draw, v: Vehicle)
    requires SpeedOk(v)
    ensures Keeps(v, CongestRule(hour, d)(v))
  {
    CongestedSpeed(v, hour, d(v.vehicleId));
  }

  // ---------------------------------------------------------------------------
  // One step

  /** The draws one step consumes, per vehicle id or per route position. */
  datatype StepDraws = StepDraws(
    speedVariation: string -> Draw,
    spawn: SpawnDraws,
    despawn: string -> Draw,
    congestion: string -> Draw)

  /** The position of the first id whose database write fails, or the length if none does. */
  function FirstFailure(ids: seq<string>, fails: string -> bool): (k: nat)
    ensures k <= |ids|
    ensures forall j :: 0 <= j < k ==> !fails(ids[j])
    ensures k < |ids| ==> fails(ids[k])
  {
    if |ids| == 0 then 0
    else if fails(ids[0]) then 0
    else
      var k := FirstFailure(ids[1..], fails);
      assert forall j :: 1 <= j < k + 1 ==> ids[j] == ids[1..][j - 1];
      1 + k
  }

  datatype Outcome = Outcome(vehicles: seq<Vehicle>, spawnRate: real, completed: bool)

  /**
   * `_simulation_step`: move every vehicle (writing each to the database), then spawn,
   * remove and apply congestion. A failing write ends the step right after the vehicle
   * it concerns has been moved.
   */
  function Step(sqrt: real -> real, routes: seq<Route>, s: seq<Vehicle>, rate: real, d: StepDraws,
                writeFails: string -> bool, hour: int, now: int): Outcome
  {
    var k := FirstFailure(Ids(s), writeFails);
    if k < |s| then
      Outcome(ApplyUpTo(s, k + 1, UpdateRule(sqrt, routes, d.speedVariation, now)), rate, false)
    else
      var moved := ApplyUpTo(s, k, UpdateRule(sqrt, routes, d.speedVariation, now));
      var spawned := SpawnUpTo(moved, routes, |routes|, d.spawn, rate, now);
      var kept := Removed(sqrt, routes, spawned, d.despawn);
      Outcome(ApplyUpTo(kept, |kept|, CongestRule(hour, d.congestion)), SpawnRateAt(hour), true)
  }

  /** Every phase keeps the registry invariant, so a step does, whether it completes or not. */
  lemma StepKeepsOk(sqrt: real -> real, routes: seq<Route>, s: seq<Vehicle>, rate: real, d: StepDraws,
                    writeFails: string -> bool, hour: int, now: int)
    requires FleetOk(s)
    ensures FleetOk(Step(sqrt, routes, s, rate, d, writeFails, hour, now).vehicles)
  {
    var k := FirstFailure(Ids(s), writeFails);
    var rule := UpdateRule(sqrt, routes, d.speedVariation, now);
    forall i | 0 <= i < |s| ensures Keeps(s[i], rule(s[i])) {
      UpdateKeeps(sqrt, routes, d.speedVariation, now, s[i]);
    }
    var n := if k < |s| then k + 1 else k;
    ApplyKeepsOk(s, n, rule);
    if k == |s| {
      var moved := ApplyUpTo(s, k, rule);
      SpawnUpToKeepsOk(moved, routes, |routes|, d.spawn, rate, now);
      var spawned := SpawnUpTo(moved, routes, |routes|, d.spawn, rate, now);
      RemovedEffect(sqrt, routes, spawned, d.despawn);
      var kept := Removed(sqrt, routes, spawned, d.despawn);
      var congest := CongestRule(hour, d.congestion);
      forall i | 0 <= i < |kept| ensures Keeps(kept[i], congest(kept[i])) {
        CongestKeeps(hour, d.congestion, kept[i]);
      }
      ApplyKeepsOk(kept, |kept|, congest);
    }
  }

  /**
   * A step completes exactly when no write fails. An aborted step keeps the spawn rate,
   * has moved the vehicles up to and including the failing one, and leaves the vehicles
   * after it untouched.
   */
  lemma StepAbort(sqrt: real -> real, routes: seq<Route>, s: seq<Vehicle>, rate: real, d: StepDraws,
                  writeFails: string -> bool, hour: int, now: int)
    ensures Step(sqrt, routes, s, rate, d, writeFails, hour, now).completed <==>
              forall i :: 0 <= i < |s| ==> !writeFails(s[i].vehicleId)
    ensures !Step(sqrt, routes, s, rate, d, writeFails, hour, now).completed ==>
              && Step(sqrt, routes, s, rate, d, writeFails, hour, now).spawnRate == rate
              && |Step(sqrt, routes, s, rate, d, writeFails, hour, now).vehicles| == |s|
              && forall i :: 0 <= i < |s| ==>
                   Step(sqrt, routes, s, rate, d, writeFails, hour, now).vehicles[i] ==
                     if i <= FirstFailure(Ids(s), writeFails)
                     then UpdatedVehicle(sqrt, routes, s[i], d.speedVariation(s[i].vehicleId), now)
                     else s[i]
  {
    var k := FirstFailure(Ids(s), writeFails);
    if k == |s| {
      assert forall i :: 0 <= i < |s| ==> Ids(s)[i] == s[i].vehicleId;
    }
  }

  /** The vehicle sits at the start of a catalog route that has its route id. */
  predicate AtRouteStart(routes: seq<Route>, v: Vehicle) {
    exists m :: 0 <= m < |routes| && routes[m].routeId == v.routeId && routes[m].startPoint == Position(v)
  }

  /**
   * If the entries past the old registry's length are at a route start, then every entry
   * kept from them whose id was not registered before is at a route start.
   */
  lemma NewcomersAtStart(ids: seq<string>, spawned: seq<Vehicle>, kept: seq<Vehicle>, routes: seq<Route>)
    requires |ids| <= |spawned|
    requires forall j :: 0 <= j < |ids| ==> spawned[j].vehicleId == ids[j]
    requires forall j :: |ids| <= j < |spawned| ==> AtRouteStart(routes, spawned[j])
    requires forall v :: v in kept ==> v in spawned
    ensures forall i :: 0 <= i < |kept| && kept[i].vehicleId !in ids ==> AtRouteStart(routes, kept[i])
  {
    forall i | 0 <= i < |kept| && kept[i].vehicleId !in ids ensures AtRouteStart(routes, kept[i]) {
      assert kept[i] in spawned;
      var j :| 0 <= j < |spawned| && spawned[j] == kept[i];
      assert spawned[j].vehicleId !in ids;
      assert |ids| <= j;
    }
  }

  /**
   * After the movement phase, which keeps every id, spawning keeps the old ids in place
   * and puts every appended vehicle at a route start.
   */
  lemma SpawnedAfterMove(s: seq<Vehicle>, moved: seq<Vehicle>, routes: seq<Route>, d: SpawnDraws, rate: real, now: int)
    requires |moved| == |s|
    requires forall j :: 0 <= j < |s| ==> moved[j].vehicleId == s[j].vehicleId
    ensures |s| <= |SpawnUpTo(moved, routes, |routes|, d, rate, now)|
    ensures forall j :: 0 <= j < |s| ==> SpawnUpTo(moved, routes, |routes|, d, rate, now)[j].vehicleId == Ids(s)[j]
    ensures forall j :: |s| <= j < |SpawnUpTo(moved, routes, |routes|, d, rate, now)| ==>
              AtRouteStart(routes, SpawnUpTo(moved, routes, |routes|, d, rate, now)[j])
  {
    SpawnUpToEffect(moved, routes, |routes|, d, rate, now);
    var spawned := SpawnUpTo(moved, routes, |routes|, d, rate, now);
    forall j | 0 <= j < |s| ensures spawned[j].vehicleId == Ids(s)[j] {
      assert spawned[j] == spawned[..|s|][j];
    }
  }

  /** Congestion changes only speeds, so a vehicle at a route start stays there. */
  lemma CongestionKeepsStart(kept: seq<Vehicle>, routes: seq<Route>, hour: int, d: string -> Draw)
    ensures forall i :: 0 <= i < |kept| && AtRouteStart(routes, kept[i]) ==>
              AtRouteStart(routes, ApplyUpTo(kept, |kept|, CongestRule(hour, d))[i])
  {
    var t := ApplyUpTo(kept, |kept|, CongestRule(hour, d));
    forall i | 0 <= i < |kept| && AtRouteStart(routes, kept[i]) ensures AtRouteStart(routes, t[i]) {
      assert t[i] == Congested(kept[i], CongestionFactor(hour), d(kept[i].vehicleId));
      var m :| 0 <= m < |routes| && routes[m].routeId == kept[i].routeId && routes[m].startPoint == Position(kept[i]);
      assert routes[m].startPoint == Position(t[i]);
    }
  }

  /** A completed step sets the hour's spawn rate, and the vehicles it spawned are still at their route's start. */
  lemma StepSpawnedAtStart(sqrt: real -> real, routes: seq<Route>, s: seq<Vehicle>, rate: real, d: StepDraws,
                           writeFails: string -> bool, hour: int, now: int)
    requires FleetOk(s)
    requires Step(sqrt, routes, s, rate, d, writeFails, hour, now).completed
    ensures Step(sqrt, routes, s, rate, d, writeFails, hour, now).spawnRate == SpawnRateAt(hour)
    ensures forall i :: 0 <= i < |Step(sqrt, routes, s, rate, d, writeFails, hour, now).vehicles| &&
                        Step(sqrt, routes, s, rate, d, writeFails, hour, now).vehicles[i].vehicleId !in Ids(s) ==>
              AtRouteStart(routes, Step(sqrt, routes, s, rate, d, writeFails, hour, now).vehicles[i])
  {
    var rule := UpdateRule(sqrt, routes, d.speedVariation, now);
    forall i | 0 <= i < |s| ensures Keeps(s[i], rule(s[i])) {
      UpdateKeeps(sqrt, routes, d.speedVariation, now, s[i]);
    }
    ApplyKeepsOk(s, |s|, rule);
    var moved := ApplyUpTo(s, |s|, rule);
    SpawnedAfterMove(s, moved, routes, d.spawn, rate, now);
    SpawnUpToKeepsOk(moved, routes, |routes|, d.spawn, rate, now);
    var spawned := SpawnUpTo(moved, routes, |routes|, d.spawn, rate, now);
    RemovedEffect(sqrt, routes, spawned, d.despawn);
    var kept := Removed(sqrt, routes, spawned, d.despawn);
    NewcomersAtStart(Ids(s), spawned, kept, routes);
    CongestionKeepsStart(kept, routes, hour, d.congestion);
    assert Step(sqrt, routes, s, rate, d, writeFails, hour, now) ==
      Outcome(ApplyUpTo(kept, |kept|, CongestRule(hour, d.congestion)), SpawnRateAt(hour), true);
  }
}
