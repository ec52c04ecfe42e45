/**
 * The traffic samples the analytics read (rows of the `traffic_data` table joined with
 * the route name), and the selections made on them: filtering, projecting and the
 * order-preserving `unique()`.
 */
module Samples {

  datatype Sample = Sample(
    vehicleId: string,
    routeId: string,
    speed: real,
    positionX: real,
    positionY: real,
    timestamp: int,
    routeName: string)

  /** The elements of `s` that satisfy `keep`, in their original order (a boolean-mask selection). */
  function Filter<T>(s: seq<T>, keep: T -> bool): (r: seq<T>)
    ensures |r| <= |s|
  {
    if |s| == 0 then []
    else
      var r := Filter(s[..|s| - 1], keep);
      if keep(s[|s| - 1]) then r + [s[|s| - 1]] else r
  }

  /** The selection holds exactly the elements of `s` that satisfy `keep`. */
  lemma {:induction false} FilterMembers<T>(s: seq<T>, keep: T -> bool)
    ensures forall i :: 0 <= i < |Filter(s, keep)| ==> Filter(s, keep)[i] in s && keep(Filter(s, keep)[i])
    ensures forall i :: 0 <= i < |s| && keep(s[i]) ==> s[i] in Filter(s, keep)
    decreases |s|
  {
    if |s| > 0 {
      var t := s[..|s| - 1];
      FilterMembers(t, keep);
      assert forall i :: 0 <= i < |t| ==> t[i] == s[i];
      assert s == t + [s[|s| - 1]];
    }
  }

  lemma FilterAppend<T>(s: seq<T>, x: T, keep: T -> bool)
    ensures Filter(s + [x], keep) == if keep(x) then Filter(s, keep) + [x] else Filter(s, keep)
  {
    assert (s + [x])[..|s|] == s;
  }

  /** A selection that keeps every element is the whole sequence. */
  lemma {:induction false} FilterAll<T>(s: seq<T>, keep: T -> bool)
    requires forall i :: 0 <= i < |s| ==> keep(s[i])
    ensures Filter(s, keep) == s
  {
    if |s| > 0 {
      FilterAll(s[..|s| - 1], keep);
      assert s[..|s| - 1] + [s[|s| - 1]] == s;
    }
  }

  /** Leaving out an element makes the filtered sequence strictly shorter. */
  lemma {:induction false} FilterDrops<T>(s: seq<T>, keep: T -> bool, k: int)
    requires 0 <= k < |s| && !keep(s[k])
    ensures |Filter(s, keep)| < |s|
    decreases |s|
  {
    var t, x := s[..|s| - 1], s[|s| - 1];
    assert s == t + [x];
    FilterAppend(t, x, keep);
    if k < |s| - 1 {
      assert t[k] == s[k];
      FilterDrops(t, keep, k);
    }
  }

  /** `route_data = traffic_data[traffic_data['route_id'] == route_id]`. */
  function OnRoute(s: seq<Sample>, routeId: string): seq<Sample> {
    Filter(s, (x: Sample) => x.routeId == routeId)
  }

  /** `vehicle_data = route_data[route_data['vehicle_id'] == vehicle_id]`. */
  function OfVehicle(s: seq<Sample>, vehicleId: string): seq<Sample> {
    Filter(s, (x: Sample) => x.vehicleId == vehicleId)
  }

  /** The `speed` column. */
  function Speeds(s: seq<Sample>): (r: seq<real>)
    ensures |r| == |s|
    ensures forall i :: 0 <= i < |s| ==> r[i] == s[i].speed
  {
    seq(|s|, i requires 0 <= i < |s| => s[i].speed)
  }

  /** The `position_x` column. */
  function PositionsX(s: seq<Sample>): (r: seq<real>)
    ensures |r| == |s|
    ensures forall i :: 0 <= i < |s| ==> r[i] == s[i].positionX
  {
    seq(|s|, i requires 0 <= i < |s| => s[i].positionX)
  }

  /** The `position_y` column. */
  function PositionsY(s: seq<Sample>): (r: seq<real>)
    ensures |r| == |s|
    ensures forall i :: 0 <= i < |s| ==> r[i] == s[i].positionY
  {
    seq(|s|, i requires 0 <= i < |s| => s[i].positionY)
  }

  /** The `route_id` column. */
  function RouteIds(s: seq<Sample>): (r: seq<string>)
    ensures |r| == |s|
    ensures forall i :: 0 <= i < |s| ==> r[i] == s[i].routeId
  {
    seq(|s|, i requires 0 <= i < |s| => s[i].routeId)
  }

  /** The `vehicle_id` column. */
  function VehicleIds(s: seq<Sample>): (r: seq<string>)
    ensures |r| == |s|
    ensures forall i :: 0 <= i < |s| ==> r[i] == s[i].vehicleId
  {
    seq(|s|, i requires 0 <= i < |s| => s[i].vehicleId)
  }

  /** `unique()`: each value once, in order of first appearance. */
  function Distinct(s: seq<string>): (r: seq<string>)
    ensures forall x :: x in r <==> x in s
    ensures forall i, j :: 0 <= i < j < |r| ==> r[i] != r[j]
  {
    if |s| == 0 then []
    else
      var r := Distinct(s[..|s| - 1]);
      assert forall x :: x in s <==> x in s[..|s| - 1] || x == s[|s| - 1];
      if s[|s| - 1] in r then r else r + [s[|s| - 1]]
  }

  /** A value of a sequence other than its last one occurs before the last. */
  lemma InEarlier(ids: seq<string>, r: string)
    requires r in ids && r != ids[|ids| - 1]
    ensures r in ids[..|ids| - 1]
  {
    var k :| 0 <= k < |ids| && ids[k] == r;
    assert ids[..|ids| - 1][k] == r;
  }

  /** A route's selection holds exactly the samples of that route. */
  lemma OnRouteMembers(s: seq<Sample>, routeId: string)
    ensures forall i :: 0 <= i < |OnRoute(s, routeId)| ==>
              OnRoute(s, routeId)[i] in s && OnRoute(s, routeId)[i].routeId == routeId
    ensures forall i :: 0 <= i < |s| && s[i].routeId == routeId ==> s[i] in OnRoute(s, routeId)
  {
    FilterMembers(s, (x: Sample) => x.routeId == routeId);
  }

  /** Every sample of a route that appears in the data is kept by its route's selection. */
  lemma OnRouteNonEmpty(s: seq<Sample>, k: int)
    requires 0 <= k < |s|
    ensures s[k] in OnRoute(s, s[k].routeId)
    ensures s[k].routeId in Distinct(RouteIds(s))
  {
    OnRouteMembers(s, s[k].routeId);
    assert RouteIds(s)[k] == s[k].routeId;
  }
}
