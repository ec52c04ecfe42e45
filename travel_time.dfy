/**
 * The travel-time analysis: per vehicle, the length of its path through the samples
 * (ordered by time) divided by its mean speed; per route, the mean, minimum and maximum
 * of those times.
 */
module TravelTime {
  import opened Wrappers
  import opened Geometry
  import opened Samples
  import opened Stats

  // ---------------------------------------------------------------------------
  // Ordering a vehicle's samples by time

  predicate SortedByTime(s: seq<Sample>) {
    forall i, j :: 0 <= i < j < |s| ==> s[i].timestamp <= s[j].timestamp
  }

  /** Inserts `x` before the first sample later than it. */
  function InsertByTime(x: Sample, s: seq<Sample>): (r: seq<Sample>)
    ensures |r| == |s| + 1
  {
    if |s| == 0 then [x]
    else if x.timestamp < s[0].timestamp then [x] + s
    else [s[0]] + InsertByTime(x, s[1..])
  }

  /** `sort_values('timestamp')`, as an insertion sort. */
  function SortByTime(s: seq<Sample>): (r: seq<Sample>)
    ensures |r| == |s|
  {
    if |s| == 0 then [] else InsertByTime(s[|s| - 1], SortByTime(s[..|s| - 1]))
  }

  /** Insertion adds `x` and keeps every other sample. */
  lemma {:induction false} InsertByTimePermutes(x: Sample, s: seq<Sample>)
    ensures multiset(InsertByTime(x, s)) == multiset(s) + multiset{x}
    decreases |s|
  {
    if |s| > 0 && s[0].timestamp <= x.timestamp {
      InsertByTimePermutes(x, s[1..]);
      assert s == [s[0]] + s[1..];
    }
  }

  /** Insertion into a time-ordered sequence keeps it time-ordered. */
  lemma {:induction false} InsertByTimeSorted(x: Sample, s: seq<Sample>)
    requires SortedByTime(s)
    ensures SortedByTime(InsertByTime(x, s))
    decreases |s|
  {
    if |s| > 0 && s[0].timestamp <= x.timestamp {
      var rest := InsertByTime(x, s[1..]);
      InsertByTimeSorted(x, s[1..]);
      InsertByTimePermutes(x, s[1..]);
      forall k | 0 <= k < |rest|
        ensures s[0].timestamp <= rest[k].timestamp
      {
        assert rest[k] in multiset(rest);
        if rest[k] != x {
          assert rest[k] in s[1..];
        }
      }
    }
  }

  /** The sort orders the samples by time. */
  lemma {:induction false} SortByTimeOrdered(s: seq<Sample>)
    ensures SortedByTime(SortByTime(s))
    decreases |s|
  {
    if |s| > 0 {
      SortByTimeOrdered(s[..|s| - 1]);
      InsertByTimeSorted(s[|s| - 1], SortByTime(s[..|s| - 1]));
    }
  }

  /** The sort keeps every sample, as many times as it occurs. */
  lemma {:induction false} SortByTimePermutes(s: seq<Sample>)
    ensures multiset(SortByTime(s)) == multiset(s)
    decreases |s|
  {
    if |s| > 0 {
      var prefix, x := s[..|s| - 1], s[|s| - 1];
      var sorted := SortByTime(prefix);
      SortByTimePermutes(prefix);
      InsertByTimePermutes(x, sorted);
      assert s == prefix + [x];
      InsertKeepsPermutation(prefix, x, sorted, InsertByTime(x, sorted));
    }
  }

  /** Inserting `x` into a permutation of `prefix` gives a permutation of `prefix + [x]`. */
  lemma InsertKeepsPermutation(prefix: seq<Sample>, x: Sample, sorted: seq<Sample>, inserted: seq<Sample>)
    requires multiset(sorted) == multiset(prefix)
    requires multiset(inserted) == multiset(sorted) + multiset{x}
    ensures multiset(inserted) == multiset(prefix + [x])
  {
  }

  /** The sort orders the samples by time and keeps every one of them. */
  lemma SortByTimeSorted(s: seq<Sample>)
    ensures SortedByTime(SortByTime(s))
    ensures multiset(SortByTime(s)) == multiset(s)
  {
    SortByTimeOrdered(s);
    SortByTimePermutes(s);
  }

  // ---------------------------------------------------------------------------
  // Distance along a track

  function Position(x: Sample): Point {
    Point(x.positionX, x.positionY)
  }

  /** One step of the track: the Euclidean distance divided by 100 (the "km" conversion). */
  function StepDistance(sqrt: real -> real, p: Sample, q: Sample): real {
    Distance(sqrt, Position(p), Position(q)) / 100.0
  }

  /** A step is never negative, and is zero exactly when the two positions coincide. */
  lemma StepDistanceZero(sqrt: real -> real, p: Sample, q: Sample)
    requires IsSqrt(sqrt)
    ensures 0.0 <= StepDistance(sqrt, p, q)
    ensures StepDistance(sqrt, p, q) == 0.0 <==> Position(p) == Position(q)
  {
    DistanceZero(sqrt, Position(p), Position(q));
  }

  /** The summed step distances between consecutive samples. */
  function PathLength(sqrt: real -> real, track: seq<Sample>): real {
    if |track| < 2 then 0.0
    else PathLength(sqrt, track[..|track| - 1]) + StepDistance(sqrt, track[|track| - 2], track[|track| - 1])
  }

  /** A track that never moves has length zero, and one that does move has positive length. */
  lemma {:induction false} PathLengthZero(sqrt: real -> real, track: seq<Sample>)
    requires IsSqrt(sqrt)
    ensures 0.0 <= PathLength(sqrt, track)
    ensures PathLength(sqrt, track) == 0.0 <==>
              forall i :: 0 < i < |track| ==> Position(track[i - 1]) == Position(track[i])
    decreases |track|
  {
    if |track| >= 2 {
      var t := track[..|track| - 1];
      PathLengthZero(sqrt, t);
      StepDistanceZero(sqrt, track[|track| - 2], track[|track| - 1]);
      assert forall i :: 0 <= i < |t| ==> t[i] == track[i];
    }
  }

  /**
   * `_estimate_route_distance`: no distance for fewer than two samples, otherwise the
   * path length but never below 0.1.
   */
  function DistanceEstimate(sqrt: real -> real, track: seq<Sample>): (d: real)
    ensures |track| < 2 ==> d == 0.0
    ensures |track| >= 2 ==> 0.1 <= d && PathLength(sqrt, track) <= d
    ensures |track| >= 2 && 0.1 <= PathLength(sqrt, track) ==> d == PathLength(sqrt, track)
    ensures |track| >= 2 && PathLength(sqrt, track) < 0.1 ==> d == 0.1
  {
    if |track| < 2 then 0.0 else Max(PathLength(sqrt, track), 0.1)
  }

  method EstimateRouteDistance(vehicleData: seq<Sample>, sqrt: real -> real) returns (d: real)
    ensures d == DistanceEstimate(sqrt, vehicleData)
  {
    if |vehicleData| < 2 {
      return 0.0;
    }
    var totalDistance := 0.0;
    var i := 1;
    while i < |vehicleData|
      invariant 1 <= i <= |vehicleData|
      invariant totalDistance == PathLength(sqrt, vehicleData[..i])
    {
      assert vehicleData[..i + 1][..i] == vehicleData[..i];
      totalDistance := totalDistance + StepDistance(sqrt, vehicleData[i - 1], vehicleData[i]);
      i := i + 1;
    }
    assert vehicleData[..i] == vehicleData;
    d := Max(totalDistance, 0.1);
  }

  // ---------------------------------------------------------------------------
  // Travel times

  lemma QuotientPositive(a: real, b: real)
    requires 0.0 < a && 0.0 < b
    ensures 0.0 < a / b * 60.0
  {
    assert a == b * (a / b);
  }

  /**
   * One vehicle's travel time in minutes: its distance estimate over its mean speed, for
   * vehicles with at least two samples and a positive mean speed.
   */
  function VehicleTravelTime(sqrt: real -> real, vehicleData: seq<Sample>): (r: Option<real>)
    ensures r.Some? <==> |vehicleData| >= 2 && 0.0 < Mean(Speeds(SortByTime(vehicleData)))
    ensures r.Some? ==> 0.0 < r.value
  {
    var track := SortByTime(vehicleData);
    if |track| >= 2 then
      var avgSpeed := Mean(Speeds(track));
      if avgSpeed > 0.0 then
        QuotientPositive(DistanceEstimate(sqrt, track), avgSpeed);
        Some(DistanceEstimate(sqrt, track) / avgSpeed * 60.0)
      else None
    else None
  }

  /** The result of each of the vehicles `vehicleIds` of a route, in order. */
  function VehicleResults(sqrt: real -> real, routeData: seq<Sample>, vehicleIds: seq<string>)
    : (r: seq<Option<real>>)
    ensures |r| == |vehicleIds|
  {
    if |vehicleIds| == 0 then []
    else
      var ids := vehicleIds[..|vehicleIds| - 1];
      VehicleResults(sqrt, routeData, ids) + [VehicleTravelTime(sqrt, OfVehicle(routeData, vehicleIds[|ids|]))]
  }

  /** Result `k` is the travel time of vehicle `vehicleIds[k]`. */
  lemma {:induction false} VehicleResultsAt(sqrt: real -> real, routeData: seq<Sample>, vehicleIds: seq<string>)
    ensures forall k :: 0 <= k < |vehicleIds| ==>
              VehicleResults(sqrt, routeData, vehicleIds)[k] == VehicleTravelTime(sqrt, OfVehicle(routeData, vehicleIds[k]))
    decreases |vehicleIds|
  {
    if |vehicleIds| > 0 {
      var ids := vehicleIds[..|vehicleIds| - 1];
      VehicleResultsAt(sqrt, routeData, ids);
      var r := VehicleResults(sqrt, routeData, vehicleIds);
      assert r == VehicleResults(sqrt, routeData, ids) + [VehicleTravelTime(sqrt, OfVehicle(routeData, vehicleIds[|ids|]))];
      forall k | 0 <= k < |vehicleIds|
        ensures r[k] == VehicleTravelTime(sqrt, OfVehicle(routeData, vehicleIds[k]))
      {
        if k < |ids| {
          assert ids[k] == vehicleIds[k];
        }
      }
    }
  }

  /** The values of the results that are present, in order. */
  function Present(results: seq<Option<real>>): (r: seq<real>)
    ensures |r| <= |results|
  {
    if |results| == 0 then []
    else
      var last := results[|results| - 1];
      Present(results[..|results| - 1]) + (if last.Some? then [last.value] else [])
  }

  /** Nothing is present exactly when every result is missing. */
  lemma {:induction false} PresentEmpty(results: seq<Option<real>>)
    ensures Present(results) == [] <==> forall k :: 0 <= k < |results| ==> results[k].None?
    decreases |results|
  {
    if |results| > 0 {
      var rest := results[..|results| - 1];
      PresentEmpty(rest);
      assert forall k :: 0 <= k < |rest| ==> rest[k] == results[k];
    }
  }

  lemma PresentAppend(results: seq<Option<real>>, o: Option<real>)
    ensures Present(results + [o]) == Present(results) + (if o.Some? then [o.value] else [])
  {
    assert (results + [o])[..|results|] == results;
  }

  lemma {:induction false} PresentPositive(results: seq<Option<real>>)
    requires forall k :: 0 <= k < |results| && results[k].Some? ==> 0.0 < results[k].value
    ensures forall k :: 0 <= k < |Present(results)| ==> 0.0 < Present(results)[k]
    decreases |results|
  {
    if |results| > 0 {
      var rest := results[..|results| - 1];
      assert forall k :: 0 <= k < |rest| ==> rest[k] == results[k];
      PresentPositive(rest);
    }
  }

  /** The travel times of the vehicles `vehicleIds` of a route, skipping those with none. */
  function RouteTravelTimes(sqrt: real -> real, routeData: seq<Sample>, vehicleIds: seq<string>): (r: seq<real>)
    ensures |r| <= |vehicleIds|
    ensures forall k :: 0 <= k < |r| ==> 0.0 < r[k]
  {
    var results := VehicleResults(sqrt, routeData, vehicleIds);
    VehicleResultsAt(sqrt, routeData, vehicleIds);
    PresentPositive(results);
    Present(results)
  }

  /** Whether vehicle `v` of a route has a travel time. */
  predicate Contributes(sqrt: real -> real, routeData: seq<Sample>, v: string)
  {
    VehicleTravelTime(sqrt, OfVehicle(routeData, v)).Some?
  }

  /** Contributes, as the mask selecting a route's vehicles that have a travel time. */
  function ContributesTo(sqrt: real -> real, routeData: seq<Sample>): string -> bool {
    (v: string) => Contributes(sqrt, routeData, v)
  }

  /** A route has as many travel times as it has contributing vehicles among `vehicleIds`. */
  lemma {:induction false} RouteTravelTimesCount(sqrt: real -> real, routeData: seq<Sample>, vehicleIds: seq<string>)
    ensures |RouteTravelTimes(sqrt, routeData, vehicleIds)| == |Filter(vehicleIds, ContributesTo(sqrt, routeData))|
    decreases |vehicleIds|
  {
    if |vehicleIds| > 0 {
      var ids := vehicleIds[..|vehicleIds| - 1];
      RouteTravelTimesCount(sqrt, routeData, ids);
      var o := VehicleTravelTime(sqrt, OfVehicle(routeData, vehicleIds[|ids|]));
      assert VehicleResults(sqrt, routeData, vehicleIds) == VehicleResults(sqrt, routeData, ids) + [o];
      PresentAppend(VehicleResults(sqrt, routeData, ids), o);
    }
  }

  /** A route has travel times exactly when one of its vehicles has one. */
  lemma RouteTravelTimesEmpty(sqrt: real -> real, routeData: seq<Sample>, vehicleIds: seq<string>)
    ensures RouteTravelTimes(sqrt, routeData, vehicleIds) == [] <==>
              forall v :: v in vehicleIds ==> !Contributes(sqrt, routeData, v)
  {
    var results := VehicleResults(sqrt, routeData, vehicleIds);
    PresentEmpty(results);
    VehicleResultsAt(sqrt, routeData, vehicleIds);
    if Present(results) == [] {
      forall v | v in vehicleIds
        ensures !Contributes(sqrt, routeData, v)
      {
        var k :| 0 <= k < |vehicleIds| && vehicleIds[k] == v;
        assert results[k].None?;
      }
    } else {
      var k :| 0 <= k < |results| && results[k].Some?;
      assert vehicleIds[k] in vehicleIds && Contributes(sqrt, routeData, vehicleIds[k]);
    }
  }

  /** One row of the travel-time table. */
  datatype TravelTimeSummary = TravelTimeSummary(
    routeId: string,
    routeName: string,
    avgTravelTimeMinutes: real,
    minTravelTimeMinutes: real,
    maxTravelTimeMinutes: real,
    sampleSize: int)

  /** The row of one route, if any of its vehicles has a travel time. */
  function RouteSummary(sqrt: real -> real, data: seq<Sample>, routeId: string): Option<TravelTimeSummary>
  {
    var routeData := OnRoute(data, routeId);
    var times := RouteTravelTimes(sqrt, routeData, Distinct(VehicleIds(routeData)));
    if |routeData| == 0 || |times| == 0 then None
    else Some(TravelTimeSummary(routeId, routeData[0].routeName, Mean(times), Minimum(times), Maximum(times), |times|))
  }

  /** The rows of the routes `routeIds`, in order, leaving out routes without a row. */
  function Summaries(sqrt: real -> real, data: seq<Sample>, routeIds: seq<string>): seq<TravelTimeSummary>
  {
    if |routeIds| == 0 then []
    else
      var row := RouteSummary(sqrt, data, routeIds[|routeIds| - 1]);
      Summaries(sqrt, data, routeIds[..|routeIds| - 1]) + (if row.Some? then [row.value] else [])
  }

  /**
   * A route's row: its times are positive with minimum <= mean <= maximum, and the sample
   * size is the number of the route's distinct vehicles that have a travel time.
   */
  lemma RouteSummaryBounds(sqrt: real -> real, data: seq<Sample>, routeId: string)
    ensures var row := RouteSummary(sqrt, data, routeId);
            row.Some? ==>
              && row.value.routeId == routeId
              && 0.0 < row.value.minTravelTimeMinutes <= row.value.avgTravelTimeMinutes <= row.value.maxTravelTimeMinutes
              && 1 <= row.value.sampleSize <= |Distinct(VehicleIds(OnRoute(data, routeId)))|
              && row.value.sampleSize ==
                   |Filter(Distinct(VehicleIds(OnRoute(data, routeId))), ContributesTo(sqrt, OnRoute(data, routeId)))|
  {
    var routeData := OnRoute(data, routeId);
    var times := RouteTravelTimes(sqrt, routeData, Distinct(VehicleIds(routeData)));
    RouteTravelTimesCount(sqrt, routeData, Distinct(VehicleIds(routeData)));
    if |routeData| > 0 && |times| > 0 {
      MeanBetween(times);
      assert Minimum(times) in times;
    }
  }

  /** A route is left out of the table exactly when none of its vehicles has a travel time. */
  lemma RouteOmitted(sqrt: real -> real, data: seq<Sample>, routeId: string)
    ensures RouteSummary(sqrt, data, routeId).None? <==>
              forall v :: v in VehicleIds(OnRoute(data, routeId)) ==> !Contributes(sqrt, OnRoute(data, routeId), v)
  {
    var routeData := OnRoute(data, routeId);
    RouteTravelTimesEmpty(sqrt, routeData, Distinct(VehicleIds(routeData)));
  }

  /** Every row belongs to a route of `routeIds`, and every row obeys the bounds. */
  lemma {:induction false} SummariesProperties(sqrt: real -> real, data: seq<Sample>, routeIds: seq<string>)
    ensures |Summaries(sqrt, data, routeIds)| <= |routeIds|
    ensures forall row :: row in Summaries(sqrt, data, routeIds) ==>
              && row.routeId in routeIds
              && 0.0 < row.minTravelTimeMinutes <= row.avgTravelTimeMinutes <= row.maxTravelTimeMinutes
              && 1 <= row.sampleSize
    decreases |routeIds|
  {
    if |routeIds| > 0 {
      var rest := routeIds[..|routeIds| - 1];
      SummariesProperties(sqrt, data, rest);
      RouteSummaryBounds(sqrt, data, routeIds[|routeIds| - 1]);
      assert forall r :: r in rest ==> r in routeIds;
    }
  }

  /** Every route of `routeIds` that has a row has it in the table. */
  lemma {:induction false} SummariesComplete(sqrt: real -> real, data: seq<Sample>, routeIds: seq<string>)
    ensures forall r :: r in routeIds && RouteSummary(sqrt, data, r).Some? ==>
              RouteSummary(sqrt, data, r).value in Summaries(sqrt, data, routeIds)
    decreases |routeIds|
  {
    if |routeIds| > 0 {
      var rest := routeIds[..|routeIds| - 1];
      var last := routeIds[|routeIds| - 1];
      SummariesComplete(sqrt, data, rest);
      SummariesNext(sqrt, data, routeIds);
      forall r | r in routeIds && RouteSummary(sqrt, data, r).Some?
        ensures RouteSummary(sqrt, data, r).value in Summaries(sqrt, data, routeIds)
      {
        if r != last {
          InEarlier(routeIds, r);
          assert RouteSummary(sqrt, data, r).value in Summaries(sqrt, data, rest);
        }
      }
    }
  }


  /** One more route adds its row, if it has one; that row carries the route's id. */
  lemma SummariesNext(sqrt: real -> real, data: seq<Sample>, routeIds: seq<string>)
    requires |routeIds| > 0
    ensures var row := RouteSummary(sqrt, data, routeIds[|routeIds| - 1]);
            && Summaries(sqrt, data, routeIds) ==
                 Summaries(sqrt, data, routeIds[..|routeIds| - 1]) + (if row.Some? then [row.value] else [])
            && (row.Some? ==> row.value.routeId == routeIds[|routeIds| - 1])
  {
  }

  /** Every row belongs to a route of `ids`. */
  predicate RowsAmong(rows: seq<TravelTimeSummary>, ids: seq<string>) {
    forall a :: 0 <= a < |rows| ==> rows[a].routeId in ids
  }

  /** No two rows belong to the same route. */
  predicate RowsDistinct(rows: seq<TravelTimeSummary>) {
    forall a, b :: 0 <= a < b < |rows| ==> rows[a].routeId != rows[b].routeId
  }

  /** Rows of distinct routes among `ids`, followed by at most one row of a new route `id`. */
  lemma AppendRowOfNewRoute(before: seq<TravelTimeSummary>, row: Option<TravelTimeSummary>, ids: seq<string>, id: string)
    requires RowsAmong(before, ids) && RowsDistinct(before)
    requires id !in ids
    requires row.Some? ==> row.value.routeId == id
    ensures var rows := before + (if row.Some? then [row.value] else []);
            RowsAmong(rows, ids + [id]) && RowsDistinct(rows)
  {
    var rows := before + (if row.Some? then [row.value] else []);
    forall a | 0 <= a < |rows| ensures rows[a].routeId in ids + [id] {
      if a < |before| {
        assert rows[a] == before[a];
      }
    }
    forall a, b | 0 <= a < b < |rows| ensures rows[a].routeId != rows[b].routeId {
      assert rows[a] == before[a];
    }
  }

  /** The last of distinct ids does not occur before it. */
  lemma LastIsNew(ids: seq<string>)
    requires |ids| > 0
    requires forall a, b :: 0 <= a < b < |ids| ==> ids[a] != ids[b]
    ensures ids[|ids| - 1] !in ids[..|ids| - 1]
    ensures ids[..|ids| - 1] + [ids[|ids| - 1]] == ids
  {
    var before := ids[..|ids| - 1];
    forall k | 0 <= k < |before| ensures before[k] != ids[|ids| - 1] {
      assert before[k] == ids[k];
    }
  }

  /** Over distinct route ids, no two rows of the table belong to the same route. */
  lemma {:induction false} SummariesOnePerRoute(sqrt: real -> real, data: seq<Sample>, routeIds: seq<string>)
    requires forall a, b :: 0 <= a < b < |routeIds| ==> routeIds[a] != routeIds[b]
    ensures RowsAmong(Summaries(sqrt, data, routeIds), routeIds)
    ensures RowsDistinct(Summaries(sqrt, data, routeIds))
    decreases |routeIds|
  {
    if |routeIds| > 0 {
      var rest := routeIds[..|routeIds| - 1];
      var last := routeIds[|routeIds| - 1];
      LastIsNew(routeIds);
      SummariesOnePerRoute(sqrt, data, rest);
      SummariesNext(sqrt, data, routeIds);
      AppendRowOfNewRoute(Summaries(sqrt, data, rest), RouteSummary(sqrt, data, last), rest, last);
    }
  }




  /**
   * `calculate_average_travel_times`: for each route in order of first appearance, the
   * travel times of its vehicles in order of first appearance, summarised when there
   * is at least one.
   */
  method CalculateAverageTravelTimes(trafficData: seq<Sample>, sqrt: real -> real)
    returns (travelTimes: seq<TravelTimeSummary>)
    ensures travelTimes == Summaries(sqrt, trafficData, Distinct(RouteIds(trafficData)))
  {
    travelTimes := [];
    if |trafficData| == 0 {
      return;
    }
    var routeIds := Distinct(RouteIds(trafficData));
    var k := 0;
    while k < |routeIds|
      invariant 0 <= k <= |routeIds|
      invariant travelTimes == Summaries(sqrt, trafficData, routeIds[..k])
    {
      var routeId := routeIds[k];
      var routeData := OnRoute(trafficData, routeId);
      var vehicleTravelTimes := VehicleTravelTimes(routeData, sqrt);
      assert routeIds[..k + 1][..k] == routeIds[..k];
      if |routeData| > 0 && |vehicleTravelTimes| > 0 {
        var routeInfo := routeData[0];
        travelTimes := travelTimes + [TravelTimeSummary(
          routeId, routeInfo.routeName, Mean(vehicleTravelTimes),
          Minimum(vehicleTravelTimes), Maximum(vehicleTravelTimes), |vehicleTravelTimes|)];
      }
      k := k + 1;
    }
    assert routeIds[..k] == routeIds;
  }

  /** The inner loop over one route's vehicles. */
  method VehicleTravelTimes(routeData: seq<Sample>, sqrt: real -> real) returns (times: seq<real>)
    ensures times == RouteTravelTimes(sqrt, routeData, Distinct(VehicleIds(routeData)))
  {
    var vehicleIds := Distinct(VehicleIds(routeData));
    times := [];
    var k := 0;
    while k < |vehicleIds|
      invariant 0 <= k <= |vehicleIds|
      invariant times == Present(VehicleResults(sqrt, routeData, vehicleIds[..k]))
    {
      var result := VehicleTime(OfVehicle(routeData, vehicleIds[k]), sqrt);
      PresentNext(sqrt, routeData, vehicleIds, k);
      if result.Some? {
        times := times + [result.value];
      }
      k := k + 1;
    }
    assert vehicleIds[..k] == vehicleIds;
  }

  /** Taking one more vehicle appends its travel time, if it has one. */
  lemma PresentNext(sqrt: real -> real, routeData: seq<Sample>, vehicleIds: seq<string>, k: nat)
    requires k < |vehicleIds|
    ensures var o := VehicleTravelTime(sqrt, OfVehicle(routeData, vehicleIds[k]));
            Present(VehicleResults(sqrt, routeData, vehicleIds[..k + 1])) ==
              Present(VehicleResults(sqrt, routeData, vehicleIds[..k])) + (if o.Some? then [o.value] else [])
  {
    assert vehicleIds[..k + 1][..k] == vehicleIds[..k];
    PresentAppend(VehicleResults(sqrt, routeData, vehicleIds[..k]),
                  VehicleTravelTime(sqrt, OfVehicle(routeData, vehicleIds[k])));
  }

  /** The body of the inner loop: one vehicle's samples, ordered by time, and its travel time. */
  method VehicleTime(samples: seq<Sample>, sqrt: real -> real) returns (result: Option<real>)
    ensures result == VehicleTravelTime(sqrt, samples)
  {
    var vehicleData := SortByTime(samples);
    result := None;
    if |vehicleData| >= 2 {
      var avgSpeed := Mean(Speeds(vehicleData));
      if avgSpeed > 0.0 {
        var estimatedDistance := EstimateRouteDistance(vehicleData, sqrt);
        var travelTimeHours := estimatedDistance / avgSpeed;
        result := Some(travelTimeHours * 60.0);
      }
    }
  }

  // ---------------------------------------------------------------------------
  // Worked examples

  /** A vehicle sampled twice, 1000 units (10 "km") apart, at 60 km/h takes 10 minutes. */
  lemma TenKilometresAtSixty(sqrt: real -> real)
    requires IsSqrt(sqrt)
    ensures var a := Sample("v", "route_01", 60.0, 0.0, 0.0, 0, "Main Street");
            var b := Sample("v", "route_01", 60.0, 1000.0, 0.0, 1, "Main Street");
            VehicleTravelTime(sqrt, [a, b]) == Some(10.0)
  {
    var a := Sample("v", "route_01", 60.0, 0.0, 0.0, 0, "Main Street");
    var b := Sample("v", "route_01", 60.0, 1000.0, 0.0, 1, "Main Street");
    SortedTrack(a, b);
    assert SquaredDistance(Position(a), Position(b)) == 1000.0 * 1000.0;
    SqrtOfSquare(sqrt, 1000.0);
    assert PathLength(sqrt, [a, b]) == 10.0 by {
      assert [a, b][..1] == [a];
    }
    MeanBounded(Speeds([a, b]), 60.0, 60.0);
  }

  /** A vehicle that does not move is still charged the minimum distance of 0.1. */
  lemma StationaryVehicle(sqrt: real -> real)
    requires IsSqrt(sqrt)
    ensures var a := Sample("v", "route_01", 60.0, 5.0, 5.0, 0, "Main Street");
            var b := Sample("v", "route_01", 60.0, 5.0, 5.0, 1, "Main Street");
            VehicleTravelTime(sqrt, [a, b]) == Some(0.1)
  {
    var a := Sample("v", "route_01", 60.0, 5.0, 5.0, 0, "Main Street");
    var b := Sample("v", "route_01", 60.0, 5.0, 5.0, 1, "Main Street");
    SortedTrack(a, b);
    PathLengthZero(sqrt, [a, b]);
    MeanBounded(Speeds([a, b]), 60.0, 60.0);
  }

  /** Two samples already in time order, ties included, are left in that order. */
  lemma SortedTrack(a: Sample, b: Sample)
    requires a.timestamp <= b.timestamp
    ensures SortByTime([a, b]) == [a, b]
  {
    assert [a, b][..1] == [a];
    assert [a][..0] == [];
    assert SortByTime([a]) == [a];
    assert [a][1..] == [];
    assert InsertByTime(b, [a]) == [a] + InsertByTime(b, []);
  }
}
