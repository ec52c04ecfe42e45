# Traffic-Sense in Dafny

This project models the core of Traffic-Sense, a traffic simulator with a batch analytics engine. It covers three parts:

- **The simulation engine** (`simulation.py`). A `TrafficSimulation` object owns a catalog of ten straight-line routes, a registry of active vehicles keyed by vehicle id, the current spawn rate and a running flag. One step of the engine runs four phases in order:
  1. It moves every vehicle along its route's direction, perturbs its speed and writes it to the database.
  2. It spawns new vehicles at route starts, at most 20 vehicles per route.
  3. It removes vehicles that have arrived, whose route is unknown, or that draw a despawn.
  4. It applies the rush-hour congestion rule, which also sets the next spawn rate.
- **The analytics** (`analytics.py`):
  - a precedence-ordered congestion classifier;
  - a grid congestion detector, which tiles the bounding box of each route's samples with half-open 100-unit cells;
  - a travel-time estimator.
- **The data model** (`models.py`): the vehicle, route and congestion-point records, and the two generators the engine relies on.

Files and modules:

| file | module | contents |
|---|---|---|
| `wrappers.dfy` | `Wrappers` | `Option` |
| `geometry.dfy` | `Geometry` | points, the random draw `Draw` (a real in `[0, 1)`), `random.uniform`, squared and Euclidean distance, arithmetic lemmas |
| `models.dfy` | `Models` | the records, `Vehicle.generate_random`, and `Route.generate_routes` as a method with a loop |
| `samples.dfy` | `Samples` | the analytics' sample rows, boolean-mask selection, column projection, `unique()` |
| `stats.dfy` | `Stats` | sum, mean, minimum, maximum |
| `congestion.dfy` | `Congestion` | the classifier, the grid (as methods with nested loops proved against recursive functions), the per-route grouping |
| `travel_time.dfy` | `TravelTime` | the per-vehicle distance and time (loops), and the per-route summary |
| `simulation_rules.dfy` | `SimulationRules` | the function each simulation phase is proved against, and the invariants and effects of the phases |
| `simulation.dfy` | `Simulation` | the `TrafficSimulation` class: fields, `modifies` clauses, one method per engine method |

Modelling choices:

- **Numbers.**
  - Python floats are `real`.
  - The square root (`** 0.5`, `np.sqrt`) is a parameter `sqrt`. Lemmas that need lengths require `IsSqrt(sqrt)`, which says `sqrt` returns the non-negative root of a non-negative argument.
- **Randomness and time.**
  - Every `random.random()` / `random.uniform(a, b)` is a `Draw`, with `uniform(a, b) = a + (b - a) * d`.
  - Draws are inputs: per-vehicle draws are functions of the vehicle id, and spawn draws are functions of the route's position in the catalog.
  - `datetime.now()` becomes an opaque integer `now`, and the current hour becomes a parameter `hour`.
- **The registry.** `active_vehicles` is a dictionary filed by id. Its values are modelled as a sequence in insertion order, which is the order every loop over `.values()` and `.items()` visits. Keys are the vehicles' ids, and `WellFormed` says they are distinct.
- **Vehicles are values.** The engine mutates vehicle objects that only the registry references, so an update in place is the replacement of the registry entry.
- **`SimulationRules.FleetOk`** is the engine's invariant:
  - ids are unique;
  - every vehicle's maximum speed lies in its type's range and `0 <= current_speed <= max_speed`;
  - no route has more than 20 vehicles.

  Every phase keeps it. The class's `Valid()` is this invariant together with distinct route ids in the catalog, which `generate_routes` guarantees and no method changes.
- **Database writes in a step.** `insert_vehicle` and `insert_traffic_data` log and then re-raise their errors (database.py:139-141, 158-160). So in `_simulation_step` a failing write ends the whole step, right after the vehicle concerned was moved: the handler at simulation.py:175-176 catches the exception outside the loop. A write failure is the input `writeFails: string -> bool` on the vehicle id.
- **The grid.** It uses the corrected cell count (see "## Findings"). `BinCountAsWritten` models `np.arange` as written, and lemmas exhibit what it loses.

## Model

| member | source | states |
|---|---|---|
| Geometry.Uniform | models.py:25 | `random.uniform(lo, hi)` lies in `[lo, hi]` |
| Geometry.DistanceBelow | simulation.py:120-124 | a distance is below a non-negative bound exactly when the squared distance is below the squared bound (distance < 50 iff dx²+dy² < 2500) |
| Geometry.DistanceZero | analytics.py:191-193 | a Euclidean distance is non-negative and zero exactly when the points coincide |
| Models.ChooseType | models.py:31-35 | the chosen type is the one whose cumulative-weight interval (0.7, 0.15, 0.1, 0.05) contains the draw |
| Models.ChooseTypeByWeight | models.py:31-35 | a type is chosen iff the draw falls in its interval, and the weights add up to 1 |
| Models.GenerateRandom | models.py:22-49 | ids passed through; the type is chosen by weight; `max_speed` is in the type's range, hence >= 50; `0 <= current_speed <= 0.8 * max_speed`; position in `[0, 1000]²` |
| Models.RouteIdInjective | models.py:76 | `route_{n:02d}` gives different ids to different route numbers below 100 |
| Models.RouteCount | models.py:70 | the loop runs `min(num_routes, 10)` times: none when `num_routes <= 0`, `num_routes` up to 10, and 10 beyond |
| Models.MakeRoute | models.py:71-82 | route `i` has id `route_{i+1:02d}` and name `route_names[i]`; its speed limit is one of 50, 60, 80, 100; both endpoints lie in `[0, 1000]²`; `distance_km` is non-negative and 100 times it is the Euclidean length |
| Models.GenerateRoutes | models.py:62-84 | it returns `min(num_routes, 10)` routes, route `i` built from the draws of iteration `i`, with ids `route_01`, `route_02`, … that are pairwise distinct |
| Samples.FilterMembers | analytics.py:43 | a boolean-mask selection keeps exactly the rows that satisfy the mask |
| Samples.FilterDrops | analytics.py:87-92 | a selection that leaves out a row is strictly shorter than the frame |
| Samples.Distinct | analytics.py:42 | `unique()` holds each value of the column once, and exactly the values of the column |
| Samples.OnRouteMembers | analytics.py:43 | a route's selection holds exactly the rows of that route |
| Samples.OnRouteNonEmpty | analytics.py:42-43 | every route id that appears is listed by `unique()`, and its selection contains the row |
| Stats.Minimum | analytics.py:72-73 | `min()` is an element below or equal to every element |
| Stats.Maximum | analytics.py:72-73 | `max()` is an element above or equal to every element |
| Stats.SumBounds | analytics.py:95 | element-wise bounds bound the sum by count times bound |
| Stats.MeanBetween | analytics.py:167-169 | `min <= mean <= max` |
| Stats.MeanPositive | analytics.py:167 | the mean of positive values is positive |
| Congestion.ClassifyCongestion | analytics.py:115-124 | `none` exactly when the count is below 5; `high` only with avg <= 30 and count >= 10; `medium` only with avg <= 50 and count >= 7 |
| Congestion.ClassificationPrecedence | analytics.py:115-124 | `high` iff avg <= 30 and count >= 10; otherwise `medium` iff avg <= 50 and count >= 7; otherwise `low` iff count >= 5 |
| Congestion.ClassificationExamples | analytics.py:115-124 | (25, 12) is high, (45, 8) medium, (60, 5) low, and any speed with 4 vehicles none |
| Congestion.BoundingBox | analytics.py:72-73 | the box from the column minima and maxima contains every sample |
| Congestion.BinIndexIff | analytics.py:83-91 | a coordinate lies in the half-open cell `[start_k, start_k + 100)` exactly when `k` is its cell index, so cells are disjoint |
| Congestion.ArangeLength | analytics.py:77-78 | `np.arange(start, stop, 100)` has the least length whose last step reaches `stop` |
| Congestion.BinCountAsWritten | analytics.py:77-81 | the loop's cell count as written: the edge past the last cell is at or above the maximum, less than 100 beyond it |
| Congestion.AsWrittenMissesUpperEdge | analytics.py:77-91 | as written, when the width is a multiple of 100 the maximum coordinate falls in the cell after the last one |
| Congestion.BinCount | analytics.py:77-81 | the corrected cell count: the last cell starts at or below the maximum and ends above it |
| Congestion.BinCountCovers | analytics.py:77-81 | with the corrected count every coordinate in `[min, max]` falls in a cell of the grid |
| Congestion.CellSamplesFilter | analytics.py:87-92 | a cell's samples are the boolean-mask selection of the half-open cell |
| Congestion.CellPoint | analytics.py:94-111 | an emitted point has at least 5 vehicles, a level other than `none`, and the route's id |
| Congestion.CellPointMeaning | analytics.py:94-111 | a cell emits a point iff it holds >= 5 samples; the point carries the cell's sample count, the mean speed of exactly those samples, their classification, the cell midpoint `start + 50` on both axes, and the step's time |
| Congestion.GridPointsFromCells | analytics.py:81-111 | every point of the grid comes from one cell of the grid, has >= 5 vehicles, a level other than `none` and the route's id |
| Congestion.GridPointsComplete | analytics.py:81-111 | conversely, every cell of the grid that emits a point has that point among the grid's points |
| Congestion.RowPointsPlaced | analytics.py:84-111 | the points of one column lie on its centre line in strictly increasing rows, so each cell emits at most once |
| Congestion.GridPointsPlaced | analytics.py:81-111 | the grid's points lie left of the next column and no point occurs twice, because distinct cells have distinct midpoints |
| Congestion.GridPointsWithinCells | analytics.py:81-111 | the vehicle counts of the emitted points add up to no more than the samples that fall in grid cells |
| Congestion.GridTotalIsInGrid | analytics.py:81-92 | the samples counted over all cells are exactly the samples inside the grid (disjoint cells) |
| Congestion.GridPointsBounded | analytics.py:81-111 | the points' vehicle counts add up to at most the route's sample count |
| Congestion.GridCoversEverySample | analytics.py:77-92 | with the corrected count every sample of the route lies in exactly one cell |
| Congestion.AnalyzeRouteCongestion | analytics.py:66-113 | the method returns the grid's points over the bounding box with the corrected cell counts and the route id of the first row |
| Congestion.AnalyzeGrid | analytics.py:81-111 | the outer loop over columns appends each column's points in order |
| Congestion.AnalyzeColumn | analytics.py:82-111 | the inner loop over rows appends each cell's point, if any, in order |
| Congestion.AnalysisProperties | analytics.py:66-113 | every point of a route has >= 5 vehicles, a level other than `none` and the route's id; the counts add up to at most the route's samples; no point is reported twice; every cell of the grid holding >= 5 samples emits a point and that point is reported, so each such cell contributes exactly one point |
| Congestion.AsWrittenLosesEdgeSamples | analytics.py:77-92 | as written, when the box's width is a multiple of 100 the sample on the right edge is in no cell |
| Congestion.AsWrittenMissesStationaryCluster | analytics.py:77-92 | as written, five samples at one point (a zero-width box) give no cells and no point |
| Congestion.CorrectedReportsStationaryCluster | analytics.py:77-111 | with the corrected count the same five samples give one `low` point at (50, 50) with 5 vehicles |
| Congestion.RoutePoints | analytics.py:43-49 | a route with fewer than 5 samples contributes no point |
| Congestion.RoutePointsProperties | analytics.py:43-50 | a route's points carry its id, >= 5 vehicles and a level other than `none`; their counts add up to at most the route's samples |
| Congestion.DetectedPointsProperties | analytics.py:42-50 | every detected point belongs to a listed route with >= 5 samples, has >= 5 vehicles and a level other than `none` |
| Congestion.DetectCongestionPoints | analytics.py:29-60 | the method returns the points of each route, in order of first appearance |
| Congestion.DetectedPointsComplete | analytics.py:42-50 | conversely, every point of every listed route is among the detected points |
| Congestion.DetectionProperties | analytics.py:35-50 | no samples give no points; every point's route appears in the data with >= 5 samples; every point of a route that appears in the data is detected |
| TravelTime.InsertByTimePermutes | analytics.py:149 | inserting a sample adds exactly that sample |
| TravelTime.SortByTimeSorted | analytics.py:149 | `sort_values('timestamp')` orders the samples by time and is a permutation |
| TravelTime.SortedTrack | analytics.py:149 | two samples already in time order stay in that order, including two with equal timestamps |
| TravelTime.StepDistanceZero | analytics.py:191-193 | one leg's distance, `sqrt(dx² + dy²) / 100`, is non-negative and zero iff the positions coincide |
| TravelTime.PathLengthZero | analytics.py:185-194 | the summed legs are non-negative, and zero iff the vehicle never moved |
| TravelTime.DistanceEstimate | analytics.py:180-196 | fewer than 2 samples give 0; otherwise the estimate is at least 0.1 and at least the path length, equals it when the path length is >= 0.1, and is exactly 0.1 when the path length is below 0.1 |
| TravelTime.EstimateRouteDistance | analytics.py:180-196 | the accumulating loop computes that estimate |
| TravelTime.VehicleTravelTime | analytics.py:149-161 | a vehicle contributes iff it has >= 2 samples and a positive mean speed; its time is positive |
| TravelTime.VehicleTime | analytics.py:149-161 | the method computes that time |
| TravelTime.VehicleResultsAt | analytics.py:148-149 | the `k`-th result is the time of the `k`-th distinct vehicle's samples |
| TravelTime.PresentPositive | analytics.py:161 | the appended times are all positive |
| TravelTime.RouteTravelTimes | analytics.py:146-161 | a route's times are positive, at most one per vehicle |
| TravelTime.RouteTravelTimesEmpty | analytics.py:163 | a route has no time iff none of its vehicles contributes |
| TravelTime.RouteTravelTimesCount | analytics.py:146-161 | a route has exactly as many times as it has contributing vehicles |
| TravelTime.VehicleTravelTimes | analytics.py:146-161 | the loop over `unique()` vehicles computes those times |
| TravelTime.RouteSummaryBounds | analytics.py:163-172 | a route's row carries its id and `0 < min <= avg <= max`; `sample_size` is the number of the route's distinct vehicles that have a travel time, so `1 <= sample_size <=` its number of distinct vehicles |
| TravelTime.RouteOmitted | analytics.py:163-172 | a route has no row iff none of its vehicles contributes |
| TravelTime.SummariesProperties | analytics.py:139-172 | no more rows than listed route ids; every row's route is listed, with `0 < min <= avg <= max` and a positive sample size |
| TravelTime.SummariesOnePerRoute | analytics.py:139-172 | over distinct route ids (as `unique()` gives them), every row's route is listed and no two rows belong to the same route |
| TravelTime.SummariesComplete | analytics.py:163-172 | every listed route that has a summary row has that row in the table |
| TravelTime.CalculateAverageTravelTimes | analytics.py:126-174 | the method returns the rows of the routes in order of first appearance |
| TravelTime.TenKilometresAtSixty | analytics.py:153-160 | a vehicle moving 1000 units at 60 km/h takes 10 minutes |
| TravelTime.StationaryVehicle | analytics.py:196 | a vehicle that never moves gets the 0.1 km floor, hence 0.1 minutes at 60 km/h |
| SimulationRules.FindRoute | simulation.py:46-51 | a found route is in the catalog and has the id asked for |
| SimulationRules.FindRouteFirst | simulation.py:46-51 | the lookup gives nothing iff no route has the id, and otherwise the first route with the id |
| SimulationRules.UpdatedVehicle | simulation.py:53-86 | an update keeps id, type, maximum speed and route; a vehicle on an unknown route is returned unchanged |
| SimulationRules.SpeedAfterUpdate | simulation.py:77-84 | on a known route the new speed lies in `[0, max_speed]` and the time is the step's; from a speed in range it moves by at most `0.2 * max_speed` |
| SimulationRules.MovementAlongRoute | simulation.py:59-75 | a route whose ends coincide moves nothing; otherwise each displacement component times the route length equals that route component times `current_speed * 0.1` (the old speed) |
| SimulationRules.RouteLoadAppend | simulation.py:92-93 | appending a vehicle raises its route's count by one and no other route's |
| SimulationRules.RouteLoadAgree | simulation.py:92-93 | registries whose entries have the same routes have the same per-route counts |
| SimulationRules.TypeCountsAddUp | simulation.py:210-213 | the four per-type counts add up to the number of active vehicles |
| SimulationRules.ApplyKeepsOk | simulation.py:148-151 | changing vehicles in place, keeping ids, routes and speed ranges, keeps the registry invariant |
| SimulationRules.UpdateKeeps | simulation.py:53-86 | the movement update keeps id, route and a speed in range |
| SimulationRules.VehicleIdFor | simulation.py:99 | a spawned id is the route id followed by `_v` and four digits |
| SimulationRules.NewVehicle | simulation.py:101-104 | a spawned vehicle has the new id and the route, sits at the route's start, and has a speed in range |
| SimulationRules.SpawnOneEffect | simulation.py:92-106 | a route gains a vehicle iff it holds fewer than 20, the draw is below the rate and the id is new; existing entries are unchanged; the new vehicle is at the route's start |
| SimulationRules.AddKeepsOk | simulation.py:96-106 | adding a vehicle with a new id and a speed in range to a route below 20 keeps the invariant |
| SimulationRules.SpawnOneKeepsOk | simulation.py:92-106 | one route's spawn keeps the invariant, in particular the cap of 20 |
| SimulationRules.SpawnUpToNext | simulation.py:90 | spawning over one more route is one more spawn |
| SimulationRules.FoldKeepsOk | simulation.py:90 | a loop over the routes whose every iteration keeps the invariant keeps it |
| SimulationRules.FoldEffect | simulation.py:90 | a loop over `k` routes whose iterations each append at most one vehicle at their route's start keeps the entries and appends at most `k` vehicles, each at some route's start |
| SimulationRules.SpawnUpToKeepsOk | simulation.py:88-106 | spawning keeps the invariant |
| SimulationRules.SpawnUpToEffect | simulation.py:88-106 | spawning keeps the existing entries and adds at most `k` vehicles, each at the start of one of the first `k` catalog routes |
| SimulationRules.SpawnUpToOnePerRoute | simulation.py:90-106 | over a catalog with distinct route ids, no two of the new vehicles are on the same route |
| SimulationRules.RemovalRule | simulation.py:113-125 | a vehicle on an unknown route is removed; otherwise it is removed iff its squared distance to the route end is below 2500 or the draw is below 0.1 |
| SimulationRules.Doomed | simulation.py:111-125 | only ids of the registry are collected |
| SimulationRules.DoomedMembers | simulation.py:111-125 | an active vehicle's id is collected iff it is to be removed |
| SimulationRules.DeleteEffect | simulation.py:127-128 | `del` keeps exactly the other entries, keeps keys unique and raises no route's count |
| SimulationRules.DeleteAllEffect | simulation.py:127-128 | deleting the collected ids keeps exactly the entries not listed, and the invariant |
| SimulationRules.RemovedEffect | simulation.py:109-128 | after removal a vehicle is present iff it is not to be removed; survivors are unchanged entries; the invariant holds |
| SimulationRules.SpawnRateAt | simulation.py:136-145 | the rate is 0.5 iff the hour is in 7..9 or 17..19, else 0.3 |
| SimulationRules.CongestionFactor | simulation.py:137-145 | the factor is in `(0, 1]`, and below 1 (0.6) exactly in rush hour |
| SimulationRules.CongestedSpeed | simulation.py:148-151 | an unaffected vehicle is unchanged; an affected one changes only its speed, to at least 5 and at most `max(5, old)`; a speed in range stays in range because `max_speed >= 50` |
| SimulationRules.CongestKeeps | simulation.py:148-151 | congestion keeps id, route and a speed in range |
| SimulationRules.FirstFailure | simulation.py:157-162 | the first vehicle whose write fails, or the registry size when none does |
| SimulationRules.StepKeepsOk | simulation.py:153-176 | a step keeps the invariant whether it completes or not |
| SimulationRules.StepAbort | simulation.py:155-176 | a step completes iff no write fails; otherwise the spawn rate is kept, and the vehicles up to and including the failing one are moved while the rest are untouched |
| SimulationRules.StepSpawnedAtStart | simulation.py:156-171 | after a completed step the rate is the hour's, and every vehicle that was not active before sits at the start of a catalog route: it was not moved in that step |
| Simulation.TrafficSimulation.constructor | simulation.py:20-44 | ten routes from `generate_routes(10)` with distinct ids, no vehicles, not running, spawn rate 0.3, invariant holds |
| Simulation.TrafficSimulation.GetRouteById | simulation.py:46-51 | the loop returns the first route with the id, or nothing |
| Simulation.TrafficSimulation.UpdateVehiclePosition | simulation.py:53-86 | the method computes the update |
| Simulation.TrafficSimulation.CountOnRoute | simulation.py:92-93 | the loop counts the active vehicles on the route |
| Simulation.TrafficSimulation.SpawnOnRoute | simulation.py:91-107 | one iteration performs one route's spawn |
| Simulation.TrafficSimulation.SpawnNewVehicles | simulation.py:88-107 | the loop performs the spawns of all routes with the current rate, adds no two vehicles on the same route, changes nothing else and keeps the invariant |
| Simulation.TrafficSimulation.CollectDoomed | simulation.py:111-125 | the first loop collects the ids to remove, in dictionary order |
| Simulation.TrafficSimulation.RemoveVehicles | simulation.py:109-129 | collecting then deleting performs the removal phase and keeps the invariant |
| Simulation.TrafficSimulation.SimulateCongestion | simulation.py:131-151 | the rate becomes the hour's, each vehicle gets the congestion rule, and the invariant holds |
| Simulation.TrafficSimulation.MoveVehicles | simulation.py:156-162 | the loop moves vehicles in order and stops after the first failing write; it reports whether one failed |
| Simulation.TrafficSimulation.SimulationStep | simulation.py:153-176 | the new registry, rate and completion flag are those of the step, and the invariant holds |
| Simulation.TrafficSimulation.StartSimulation | simulation.py:178-185 | afterwards the flag is set; a start while running changes nothing |
| Simulation.TrafficSimulation.StopSimulation | simulation.py:196-200 | afterwards the flag is clear; nothing else changes |
| Simulation.TrafficSimulation.CountOfType | simulation.py:211 | the loop counts the active vehicles of the type |
| Simulation.TrafficSimulation.GetSimulationStatus | simulation.py:204-214 | it reports the flag, the registry size, the route count and a count for each of the four types, which add up to the registry size |

## Left out

- The background thread, its `time.sleep` loop and `join(timeout=10)` (simulation.py:187-194, 201-202) are concurrency. Only the running flag is modelled, and `SimulationStep` is one iteration of the loop.
- Database I/O (database.py is not part of this model):
  - `insert_routes` at construction is left out. A failure there re-raises and aborts construction.
  - The two writes per vehicle are modelled only as the failure points `writeFails`.
  - `insert_congestion_point` failures are only logged and do not change the result, so they are left out.
  - `get_recent_traffic_data` is left out. The analytics take its rows as a sequence in the order the query returns them.
- The outer `except Exception` handlers of the analytics are left out: the modelled computations raise no exception.
- The order in which random draws are consumed is not modelled. Each draw is indexed by vehicle id or by route position, so the model does not capture that a draw is skipped when a short-circuit condition decides first.
- `datetime.now()` is called afresh at each of three sites, and the model passes a single `now` instead:
  - once per vehicle in `_update_vehicle_position` (simulation.py:84), where the model uses one `now` per step;
  - once per congestion point in `_analyze_route_congestion` (analytics.py:108), where every point of one detection carries the same `now`;
  - once per generated vehicle in `Vehicle.generate_random` (models.py:48), where the model takes `now` as a parameter.
- Floating point: all arithmetic is exact on `real`. Rounding, NaN and infinities are not modelled.
- SimulationRules.MovementAlongRoute: it does not state that the step's length is exactly `current_speed * 0.1`. It states the per-axis equations, which with the route length give that length. The remaining step needs nonlinear real arithmetic that the solver does not settle.
- `np.std` (analytics.py:170) needs a square root of a sum of squares, which is not modelled. The summary row has no standard deviation.
- A summary row's name is always the first row's `route_name`. The `f'Route {route_id}'` default for a missing name is left out.
- TravelTime.SortByTime: a stable insertion sort by timestamp, so samples with equal timestamps keep their input order. pandas' default sort is not stable and does not promise that order.
- `get_speed_distribution_stats`, `generate_hourly_traffic_summary` and `run_full_analysis` (analytics.py:198-288) are library statistics and are left out.
- `generate_batch_data` (simulation.py:216-254) is a database writer and is left out.
- app.py (the dashboard) is not part of this model.
- No relation is claimed between the simulation's position units and the analytics' division by 100 into kilometres.
- Vehicle types are a four-valued datatype rather than strings. `get_simulation_status` keys its counts by the datatype.

## Findings

| source | as written | input that shows it | evidently intended | confidence | as-written member | corrected member |
|---|---|---|---|---|---|---|
| analytics.py:77-92 | `np.arange(x_min, x_max + 100, 100)` gives `ceil(width / 100)` cells of the form `[start, start + 100)`. A sample on the maximum edge falls in no cell when the width is a multiple of 100. A zero width gives no cell at all. | five samples of one route at (0, 0): no cell and no congestion point | every sample of the route falls in a cell (`floor(width / 100) + 1` cells); the five samples give one `low` point at (50, 50) | high, not executed | Congestion.AsWrittenLosesEdgeSamples, Congestion.AsWrittenMissesStationaryCluster | Congestion.GridCoversEverySample, Congestion.CorrectedReportsStationaryCluster |
