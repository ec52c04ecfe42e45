/**
 * The simulation engine: an object holding the route catalog, the registry of active
 * vehicles, the running flag and the current spawn rate, whose methods perform one
 * phase of a step each. Every method is proved against the function of
 * `SimulationRules` that describes its phase, and keeps the registry invariant.
 */
module Simulation {
  import opened Wrappers
  import opened Geometry
  import opened Models
  import opened SimulationRules

  /** The dictionary `get_simulation_status` returns. */
  datatype Status = Status(running: bool, activeVehicles: nat, routes: nat, vehicleTypes: map<VehicleType, nat>)

  class TrafficSimulation {
    /** The square root the engine's `** 0.5` computes. */
    const sqrt: real -> real
    /** The catalog created by `_initialize_routes`; no method changes it afterwards. */
    const routes: seq<Route>
    /** `active_vehicles`: the vehicles in the dictionary's insertion order, each filed under its id. */
    var activeVehicles: seq<Vehicle>
    var simulationRunning: bool
    var vehicleSpawnRate: real

    /** Unique keys, speeds in range, at most 20 vehicles per route, and a catalog with distinct route ids. */
    ghost predicate Valid()
      reads this
    {
      && IsSqrt(sqrt)
      && FleetOk(activeVehicles)
      && (forall a, b :: 0 <= a < b < |routes| ==> routes[a].routeId != routes[b].routeId)
    }

    /** `__init__` with `_initialize_routes`: ten generated routes, no vehicles, stopped, spawn rate 0.3. */
    constructor (draws: nat -> RouteDraws, sqrt: real -> real)
      requires IsSqrt(sqrt)
      ensures Valid()
      ensures |routes| == |RouteNames|
      ensures forall i :: 0 <= i < |routes| ==> routes[i] == MakeRoute(i, draws(i), sqrt)
      ensures forall i, j :: 0 <= i < j < |routes| ==> routes[i].routeId != routes[j].routeId
      ensures activeVehicles == [] && !simulationRunning && vehicleSpawnRate == NormalSpawnRate
    {
      this.sqrt := sqrt;
      var catalog := GenerateRoutes(10, draws, sqrt);
      routes := catalog;
      activeVehicles := [];
      simulationRunning := false;
      vehicleSpawnRate := NormalSpawnRate;
    }

    /** `_get_route_by_id`: the first route of the catalog with that id, if any. */
    method GetRouteById(routeId: string) returns (route: Option<Route>)
      ensures route == FindRoute(routes, routeId)
    {
      var i := 0;
      while i < |routes|
        invariant 0 <= i <= |routes|
        invariant FindRoute(routes, routeId) == FindRoute(routes[i..], routeId)
      {
        if routes[i].routeId == routeId {
          return Some(routes[i]);
        }
        assert routes[i..][1..] == routes[i + 1..];
        i := i + 1;
      }
      return None;
    }

    /** `_update_vehicle_position` with the speed draw `d` and the clock reading `now`. */
    method UpdateVehiclePosition(vehicle: Vehicle, d: Draw, now: int) returns (updated: Vehicle)
      ensures updated == UpdatedVehicle(sqrt, routes, vehicle, d, now)
    {
      var route := GetRouteById(vehicle.routeId);
      if route.None? {
        return vehicle;
      }
      var r := route.value;
      var distanceTravelled := vehicle.currentSpeed * TimeDelta;
      var dx := r.endPoint.x - r.startPoint.x;
      var dy := r.endPoint.y - r.startPoint.y;
      var totalDistance := Distance(sqrt, r.startPoint, r.endPoint);
      updated := vehicle;
      if totalDistance > 0.0 {
        var dxNorm, dyNorm := dx / totalDistance, dy / totalDistance;
        updated := updated.(positionX := updated.positionX + dxNorm * distanceTravelled,
                            positionY := updated.positionY + dyNorm * distanceTravelled);
        assert updated.positionX == Advance(vehicle.positionX, dx, totalDistance, distanceTravelled);
        assert updated.positionY == Advance(vehicle.positionY, dy, totalDistance, distanceTravelled);
      }
      assert Position(updated) == Moved(sqrt, vehicle, r);
      var spread := vehicle.maxSpeed * SpeedVariationFactor;
      var speedVariation := Uniform(-spread, spread, d);
      updated := updated.(currentSpeed := Max(0.0, Min(vehicle.maxSpeed, vehicle.currentSpeed + speedVariation)),
                          timestamp := now);
    }

    /** `sum(1 for v in active_vehicles.values() if v.route_id == route_id)`. */
    method CountOnRoute(routeId: string) returns (count: nat)
      ensures count == RouteLoad(activeVehicles, routeId)
    {
      count := 0;
      var k := 0;
      while k < |activeVehicles|
        invariant 0 <= k <= |activeVehicles|
        invariant count == RouteLoad(activeVehicles[..k], routeId)
      {
        assert activeVehicles[..k + 1][..k] == activeVehicles[..k];
        if activeVehicles[k].routeId == routeId {
          count := count + 1;
        }
        k := k + 1;
      }
      assert activeVehicles[..k] == activeVehicles;
    }

    /** One iteration of `_spawn_new_vehicles`: the route `route` at position `i` of the catalog. */
    method SpawnOnRoute(route: Route, i: nat, d: SpawnDraws, now: int)
      modifies this
      ensures activeVehicles == SpawnOne(old(activeVehicles), route, i, d, vehicleSpawnRate, now)
      ensures simulationRunning == old(simulationRunning) && vehicleSpawnRate == old(vehicleSpawnRate)
    {
      var vehiclesOnRoute := CountOnRoute(route.routeId);
      if vehiclesOnRoute < MaxVehiclesPerRoute && d.chance(i) < vehicleSpawnRate {
        var vehicleId := VehicleIdFor(route.routeId, d.number(i));
        if vehicleId !in Ids(activeVehicles) {
          var newVehicle := NewVehicle(route, vehicleId, d.vehicle(i), now);
          activeVehicles := activeVehicles + [newVehicle];
        }
      }
    }

    /**
     * `_spawn_new_vehicles`: for each route in catalog order, with the draws of that
     * route's position, add a vehicle at the route's start when the route holds fewer
     * than 20 vehicles, the draw is below the spawn rate and the generated id is new.
     */
    method SpawnNewVehicles(d: SpawnDraws, now: int)
      requires Valid()
      modifies this
      ensures Valid()
      ensures activeVehicles == SpawnUpTo(old(activeVehicles), routes, |routes|, d, vehicleSpawnRate, now)
      ensures forall j1, j2 :: |old(activeVehicles)| <= j1 < j2 < |activeVehicles| ==>
                activeVehicles[j1].routeId != activeVehicles[j2].routeId
      ensures simulationRunning == old(simulationRunning) && vehicleSpawnRate == old(vehicleSpawnRate)
    {
      var start := activeVehicles;
      var i := 0;
      while i < |routes|
        invariant 0 <= i <= |routes|
        invariant activeVehicles == SpawnUpTo(start, routes, i, d, vehicleSpawnRate, now)
        invariant simulationRunning == old(simulationRunning) && vehicleSpawnRate == old(vehicleSpawnRate)
      {
        SpawnUpToNext(start, routes, i, d, vehicleSpawnRate, now);
        SpawnOnRoute(routes[i], i, d, now);
        i := i + 1;
      }
      SpawnUpToKeepsOk(start, routes, |routes|, d, vehicleSpawnRate, now);
      SpawnUpToOnePerRoute(start, routes, |routes|, d, vehicleSpawnRate, now);
    }

    /** The first loop of `_remove_vehicles`: the ids to remove, in dictionary order. */
    method CollectDoomed(d: string -> Draw) returns (toRemove: seq<string>)
      ensures toRemove == Doomed(sqrt, routes, activeVehicles, d)
    {
      toRemove := [];
      var k := 0;
      while k < |activeVehicles|
        invariant 0 <= k <= |activeVehicles|
        invariant toRemove == Doomed(sqrt, routes, activeVehicles[..k], d)
      {
        var vehicle := activeVehicles[k];
        assert activeVehicles[..k + 1][..k] == activeVehicles[..k];
        assert activeVehicles[..k + 1][k] == vehicle;
        var route := GetRouteById(vehicle.routeId);
        if route.None? {
          toRemove := toRemove + [vehicle.vehicleId];
        } else {
          var distanceToEnd := Distance(sqrt, Position(vehicle), route.value.endPoint);
          if distanceToEnd < ArrivalDistance || d(vehicle.vehicleId) < DespawnRate {
            toRemove := toRemove + [vehicle.vehicleId];
          }
        }
        k := k + 1;
      }
      assert activeVehicles[..k] == activeVehicles;
    }

    /**
     * `_remove_vehicles`: collect the vehicles whose route is unknown, that are within 50
     * units of their route's end or that draw below 0.1, then delete them.
     */
    method RemoveVehicles(d: string -> Draw)
      requires Valid()
      modifies this
      ensures Valid()
      ensures activeVehicles == Removed(sqrt, routes, old(activeVehicles), d)
      ensures simulationRunning == old(simulationRunning) && vehicleSpawnRate == old(vehicleSpawnRate)
    {
      var start := activeVehicles;
      var toRemove := CollectDoomed(d);
      var j := 0;
      while j < |toRemove|
        invariant 0 <= j <= |toRemove|
        invariant activeVehicles == DeleteAll(start, toRemove[..j])
        invariant simulationRunning == old(simulationRunning) && vehicleSpawnRate == old(vehicleSpawnRate)
      {
        assert toRemove[..j + 1][..j] == toRemove[..j];
        activeVehicles := Delete(activeVehicles, toRemove[j]);
        j := j + 1;
      }
      assert toRemove[..j] == toRemove;
      RemovedEffect(sqrt, routes, start, d);
    }

    /**
     * `_simulate_congestion` at hour `hour`: set the spawn rate for the hour, then slow
     * each vehicle whose draw is below 0.3 by the hour's factor, to no less than 5.
     */
    method SimulateCongestion(hour: int, d: string -> Draw)
      requires Valid()
      modifies this
      ensures Valid()
      ensures vehicleSpawnRate == SpawnRateAt(hour)
      ensures activeVehicles == ApplyUpTo(old(activeVehicles), |old(activeVehicles)|, CongestRule(hour, d))
      ensures simulationRunning == old(simulationRunning)
    {
      var start := activeVehicles;
      var congestionFactor;
      if 7 <= hour <= 9 || 17 <= hour <= 19 {
        vehicleSpawnRate := RushHourSpawnRate;
        congestionFactor := RushHourFactor;
      } else {
        vehicleSpawnRate := NormalSpawnRate;
        congestionFactor := 1.0;
      }
      var k := 0;
      while k < |activeVehicles|
        invariant 0 <= k <= |activeVehicles| == |start|
        invariant activeVehicles == ApplyUpTo(start, k, CongestRule(hour, d))
        invariant vehicleSpawnRate == SpawnRateAt(hour) && simulationRunning == old(simulationRunning)
      {
        var vehicle := activeVehicles[k];
        if d(vehicle.vehicleId) < CongestionChance {
          vehicle := vehicle.(currentSpeed := Max(MinCongestedSpeed, vehicle.currentSpeed * congestionFactor));
        }
        assert vehicle == CongestRule(hour, d)(start[k]);
        activeVehicles := activeVehicles[k := vehicle];
        k := k + 1;
      }
      forall i | 0 <= i < |start| ensures Keeps(start[i], CongestRule(hour, d)(start[i])) {
        CongestKeeps(hour, d, start[i]);
      }
      ApplyKeepsOk(start, |start|, CongestRule(hour, d));
    }

    /**
     * The first loop of `_simulation_step`: move each vehicle in dictionary order and
     * write it to the database; a failing write ends the loop, with the vehicle it
     * concerns already moved.
     */
    method MoveVehicles(speedDraws: string -> Draw, writeFails: string -> bool, now: int) returns (failed: bool)
      requires Valid()
      modifies this
      ensures Valid()
      ensures failed <==> FirstFailure(Ids(old(activeVehicles)), writeFails) < |old(activeVehicles)|
      ensures activeVehicles == ApplyUpTo(old(activeVehicles),
                                          if failed then FirstFailure(Ids(old(activeVehicles)), writeFails) + 1
                                          else |old(activeVehicles)|,
                                          UpdateRule(sqrt, routes, speedDraws, now))
      ensures simulationRunning == old(simulationRunning) && vehicleSpawnRate == old(vehicleSpawnRate)
    {
      var start := activeVehicles;
      var rule := UpdateRule(sqrt, routes, speedDraws, now);
      var stop := FirstFailure(Ids(start), writeFails);
      forall i | 0 <= i < |start| ensures Keeps(start[i], rule(start[i])) {
        UpdateKeeps(sqrt, routes, speedDraws, now, start[i]);
      }
      var k := 0;
      failed := false;
      while k < |activeVehicles| && !failed
        invariant 0 <= k <= |activeVehicles| == |start|
        invariant if failed then 0 < k && k - 1 == stop else k <= stop
        invariant activeVehicles == ApplyUpTo(start, k, rule)
        invariant simulationRunning == old(simulationRunning) && vehicleSpawnRate == old(vehicleSpawnRate)
      {
        var vehicle := activeVehicles[k];
        var updated := UpdateVehiclePosition(vehicle, speedDraws(vehicle.vehicleId), now);
        assert updated == rule(start[k]) && Ids(start)[k] == updated.vehicleId;
        activeVehicles := activeVehicles[k := updated];
        failed := writeFails(updated.vehicleId);
        k := k + 1;
      }
      ApplyKeepsOk(start, k, rule);
    }

    /**
     * `_simulation_step`: the moving loop, then spawning, removal and congestion. The
     * step reports whether it ran to the end; a failing database write, which the
     * engine's handler only logs, ends it early.
     */
    method SimulationStep(d: StepDraws, writeFails: string -> bool, hour: int, now: int) returns (completed: bool)
      requires Valid()
      modifies this
      ensures Valid()
      ensures Outcome(activeVehicles, vehicleSpawnRate, completed)
                == Step(sqrt, routes, old(activeVehicles), old(vehicleSpawnRate), d, writeFails, hour, now)
      ensures simulationRunning == old(simulationRunning)
    {
      var failed := MoveVehicles(d.speedVariation, writeFails, now);
      if failed {
        return false;
      }
      SpawnNewVehicles(d.spawn, now);
      RemoveVehicles(d.despawn);
      SimulateCongestion(hour, d.congestion);
      return true;
    }

    /** `start_simulation`: sets the running flag; a second start changes nothing. */
    method StartSimulation()
      modifies this
      ensures simulationRunning
      ensures activeVehicles == old(activeVehicles) && vehicleSpawnRate == old(vehicleSpawnRate)
    {
      if simulationRunning {
        return;
      }
      simulationRunning := true;
    }

    /** `stop_simulation`: clears the running flag. */
    method StopSimulation()
      modifies this
      ensures !simulationRunning
      ensures activeVehicles == old(activeVehicles) && vehicleSpawnRate == old(vehicleSpawnRate)
    {
      if simulationRunning {
        simulationRunning := false;
      }
    }

    /** `sum(1 for v in active_vehicles.values() if v.vehicle_type == t)`. */
    method CountOfType(t: VehicleType) returns (count: nat)
      ensures count == TypeCount(activeVehicles, t)
    {
      count := 0;
      var k := 0;
      while k < |activeVehicles|
        invariant 0 <= k <= |activeVehicles|
        invariant count == TypeCount(activeVehicles[..k], t)
      {
        assert activeVehicles[..k + 1][..k] == activeVehicles[..k];
        if activeVehicles[k].vehicleType == t {
          count := count + 1;
        }
        k := k + 1;
      }
      assert activeVehicles[..k] == activeVehicles;
    }

    /**
     * `get_simulation_status`: the flag, the number of active vehicles and of routes,
     * and a count per vehicle type; the four counts add up to the number of vehicles.
     */
    method GetSimulationStatus() returns (status: Status)
      ensures status.running == simulationRunning
      ensures status.activeVehicles == |activeVehicles| && status.routes == |routes|
      ensures status.vehicleTypes.Keys == {Car, Truck, Bus, Motorcycle}
      ensures forall t :: t in status.vehicleTypes ==> status.vehicleTypes[t] == TypeCount(activeVehicles, t)
      ensures status.vehicleTypes[Car] + status.vehicleTypes[Truck] + status.vehicleTypes[Bus]
                + status.vehicleTypes[Motorcycle] == status.activeVehicles
    {
      var cars := CountOfType(Car);
      var trucks := CountOfType(Truck);
      var buses := CountOfType(Bus);
      var motorcycles := CountOfType(Motorcycle);
      TypeCountsAddUp(activeVehicles);
      status := Status(simulationRunning, |activeVehicles|, |routes|,
                       map[Car := cars, Truck := trucks, Bus := buses, Motorcycle := motorcycles]);
    }
  }
}
