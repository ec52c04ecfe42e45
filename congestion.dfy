/**
 * The congestion detector of the analytics engine: a precedence-ordered classifier and a
 * grid of half-open square cells laid over the bounding box of each route's samples.
 */
module Congestion {
  import opened Wrappers
  import opened Geometry
  import opened Models
  import opened Samples
  import opened Stats

  const HighCongestionSpeedThreshold: real := 30.0
  const MediumCongestionSpeedThreshold: real := 50.0
  const MinVehiclesForCongestion: int := 5
  /** The side of a grid cell (`congestion_area_radius`). */
  const GridSize: real := 100.0

  // ---------------------------------------------------------------------------
  // Classification

  /**
   * `_classify_congestion`: the checks are tried in the order high, medium, low. Since
   * high and medium both demand at least 7 samples, the verdict is "none" exactly when
   * there are fewer than 5.
   */
  function ClassifyCongestion(avgSpeed: real, vehicleCount: int): (level: CongestionLevel)
    ensures level == NoCongestion <==> vehicleCount < MinVehiclesForCongestion
    ensures level == High ==> avgSpeed <= HighCongestionSpeedThreshold && vehicleCount >= 10
    ensures level == Medium ==> avgSpeed <= MediumCongestionSpeedThreshold && vehicleCount >= 7
  {
    if avgSpeed <= HighCongestionSpeedThreshold && vehicleCount >= 10 then High
    else if avgSpeed <= MediumCongestionSpeedThreshold && vehicleCount >= 7 then Medium
    else if vehicleCount >= MinVehiclesForCongestion then Low
    else NoCongestion
  }

  /** Each level holds exactly when its own test passes and every earlier test fails. */
  lemma ClassificationPrecedence(avg: real, count: int)
    ensures ClassifyCongestion(avg, count) == High <==> avg <= 30.0 && count >= 10
    ensures ClassifyCongestion(avg, count) == Medium <==>
              (!(avg <= 30.0 && count >= 10) && avg <= 50.0 && count >= 7)
    ensures ClassifyCongestion(avg, count) == Low <==>
              (!(avg <= 30.0 && count >= 10) && !(avg <= 50.0 && count >= 7) && count >= 5)
  {
  }

  lemma ClassificationExamples(anySpeed: real)
    ensures ClassifyCongestion(25.0, 12) == High
    ensures ClassifyCongestion(45.0, 8) == Medium
    ensures ClassifyCongestion(60.0, 5) == Low
    ensures ClassifyCongestion(anySpeed, 4) == NoCongestion
  {
  }

  // ---------------------------------------------------------------------------
  // The grid

  datatype Box = Box(xMin: real, xMax: real, yMin: real, yMax: real)

  /** The bounding box of the samples' positions (`min()`/`max()` of the two columns). */
  function BoundingBox(s: seq<Sample>): (b: Box)
    requires |s| > 0
    ensures b.xMin <= b.xMax && b.yMin <= b.yMax
    ensures forall k :: 0 <= k < |s| ==>
              b.xMin <= s[k].positionX <= b.xMax && b.yMin <= s[k].positionY <= b.yMax
  {
    var xs, ys := PositionsX(s), PositionsY(s);
    assert xs[0] == s[0].positionX && ys[0] == s[0].positionY;
    Box(Minimum(xs), Maximum(xs), Minimum(ys), Maximum(ys))
  }

  /** `x_bins[k]`: numpy's `arange` computes the k-th value as `start + k * step`. */
  function BinStart(lo: real, k: int): real {
    lo + 100.0 * k as real
  }

  /** The index of the half-open bin `[BinStart(lo, k), BinStart(lo, k + 1))` holding `v`. */
  function BinIndex(lo: real, v: real): int {
    ((v - lo) / 100.0).Floor
  }

  /** A value lies in bin `k` exactly when `k` is its bin index: the bins are disjoint. */
  lemma BinIndexIff(lo: real, v: real, k: int)
    ensures BinStart(lo, k) <= v < BinStart(lo, k + 1) <==> k == BinIndex(lo, v)
  {
    var t := (v - lo) / 100.0;
    assert v == lo + 100.0 * t;
    assert BinStart(lo, k + 1) == BinStart(lo, k) + 100.0;
  }

  /**
   * `len(np.arange(start, stop, 100))`: `ceil((stop - start) / 100)` values, none for an
   * empty range.
   */
  function ArangeLength(start: real, stop: real): (n: nat)
    ensures start < stop ==> stop <= start + 100.0 * n as real < stop + 100.0
    ensures stop <= start ==> n == 0
  {
    var q := (stop - start) / 100.0;
    var c := -((-q).Floor);
    assert stop - start == 100.0 * q;
    if c < 0 then 0 else c
  }

  /**
   * The number of cells per axis as written: `len(np.arange(lo, hi + 100, 100)) - 1`,
   * that is `ceil((hi - lo) / 100)`. The last cell ends at or beyond `hi`; it ends
   * exactly at `hi` when the extent is a multiple of 100, zero included.
   */
  function BinCountAsWritten(lo: real, hi: real): (n: nat)
    requires lo <= hi
    ensures hi <= BinStart(lo, n) < hi + 100.0
  {
    ArangeLength(lo, hi + 100.0) - 1
  }

  /**
   * The corrected number of cells per axis: `floor((hi - lo) / 100) + 1`, the least
   * count whose half-open cells reach past `hi`.
   */
  function BinCount(lo: real, hi: real): (n: nat)
    requires lo <= hi
    ensures hi < BinStart(lo, n)
    ensures BinStart(lo, n - 1) <= hi
  {
    var t := (hi - lo) / 100.0;
    assert hi - lo == 100.0 * t;
    t.Floor + 1
  }

  /** Every value in `[lo, hi]` falls in one of the corrected bins. */
  lemma BinCountCovers(lo: real, hi: real, v: real)
    requires lo <= v <= hi
    ensures 0 <= BinIndex(lo, v) < BinCount(lo, hi)
  {
    BinIndexIff(lo, v, BinIndex(lo, v));
  }

  /**
   * As written, when the extent `hi - lo` is a whole multiple of 100 the value `hi`
   * falls in the bin just past the last one, so a sample on that edge is in no cell.
   */
  lemma AsWrittenMissesUpperEdge(lo: real, hi: real, m: nat)
    requires hi == lo + 100.0 * m as real
    ensures BinIndex(lo, hi) == BinCountAsWritten(lo, hi)
  {
    BinIndexIff(lo, hi, m);
  }

  /** Cell `(i, j)`: `x_start <= x < x_end` and `y_start <= y < y_end`. */
  predicate InCell(x: Sample, b: Box, i: int, j: int) {
    && BinStart(b.xMin, i) <= x.positionX < BinStart(b.xMin, i + 1)
    && BinStart(b.yMin, j) <= x.positionY < BinStart(b.yMin, j + 1)
  }

  /** `cell_vehicles`: the samples of cell `(i, j)`, in order. */
  function CellSamples(s: seq<Sample>, b: Box, i: int, j: int): seq<Sample> {
    if |s| == 0 then []
    else CellSamples(s[..|s| - 1], b, i, j) + (if InCell(s[|s| - 1], b, i, j) then [s[|s| - 1]] else [])
  }

  /** The samples of a cell are the route's samples filtered by the cell's bounds. */
  lemma {:induction false} CellSamplesFilter(s: seq<Sample>, b: Box, i: int, j: int)
    ensures CellSamples(s, b, i, j) == Filter(s, (x: Sample) => InCell(x, b, i, j))
    decreases |s|
  {
    if |s| > 0 {
      var t := s[..|s| - 1];
      assert s == t + [s[|s| - 1]];
      CellSamplesFilter(t, b, i, j);
      FilterAppend(t, s[|s| - 1], (x: Sample) => InCell(x, b, i, j));
    }
  }

  /**
   * The point cell `(i, j)` emits, if any: cells with at least 5 samples are classified,
   * and since such a cell is never "none", each of them emits exactly one point.
   */
  function CellPoint(s: seq<Sample>, b: Box, i: int, j: int, routeId: string, now: int)
    : (r: Option<CongestionPoint>)
    ensures r.Some? ==>
              && r.value.vehicleCount >= MinVehiclesForCongestion
              && r.value.congestionLevel != NoCongestion
              && r.value.routeId == routeId
  {
    var cell := CellSamples(s, b, i, j);
    if |cell| >= MinVehiclesForCongestion then
      var avgSpeed := Mean(Speeds(cell));
      var level := ClassifyCongestion(avgSpeed, |cell|);
      if level != NoCongestion then
        Some(CongestionPoint(
          (BinStart(b.xMin, i) + BinStart(b.xMin, i + 1)) / 2.0,
          (BinStart(b.yMin, j) + BinStart(b.yMin, j + 1)) / 2.0,
          level, avgSpeed, |cell|, now, routeId))
      else None
    else None
  }

  /**
   * A cell emits a point exactly when it holds at least 5 samples; the point sits at the
   * cell's centre and carries the cell's sample count, mean speed and classification.
   */
  lemma CellPointMeaning(s: seq<Sample>, b: Box, i: int, j: int, routeId: string, now: int)
    ensures var r := CellPoint(s, b, i, j, routeId, now);
            var cell := CellSamples(s, b, i, j);
            && (r.Some? <==> |cell| >= MinVehiclesForCongestion)
            && (r.Some? ==>
                  && r.value.vehicleCount == |cell|
                  && r.value.averageSpeed == Mean(Speeds(cell))
                  && r.value.congestionLevel == ClassifyCongestion(Mean(Speeds(cell)), |cell|)
                  && r.value.locationX == BinStart(b.xMin, i) + 50.0
                  && r.value.locationY == BinStart(b.yMin, j) + 50.0
                  && r.value.timestamp == now)
  {
  }

  function Emitted(o: Option<CongestionPoint>): seq<CongestionPoint> {
    if o.Some? then [o.value] else []
  }

  /** The points of cells `(i, 0)` .. `(i, n - 1)`, in the inner loop's order. */
  function RowPoints(s: seq<Sample>, b: Box, i: int, n: int, routeId: string, now: int)
    : seq<CongestionPoint>
    decreases n
  {
    if n <= 0 then []
    else RowPoints(s, b, i, n - 1, routeId, now) + Emitted(CellPoint(s, b, i, n - 1, routeId, now))
  }

  /** The points of the `nx` by `ny` grid, column by column as the nested loops visit it. */
  function GridPoints(s: seq<Sample>, b: Box, nx: int, ny: int, routeId: string, now: int)
    : seq<CongestionPoint>
    decreases nx
  {
    if nx <= 0 then []
    else GridPoints(s, b, nx - 1, ny, routeId, now) + RowPoints(s, b, nx - 1, ny, routeId, now)
  }

  /** Emitted points come from cells of the grid, carry at least 5 samples and a level. */
  predicate FromCell(p: CongestionPoint, s: seq<Sample>, b: Box, nx: int, ny: int, routeId: string, now: int) {
    exists i, j :: 0 <= i < nx && 0 <= j < ny && CellPoint(s, b, i, j, routeId, now) == Some(p)
  }

  lemma {:induction false} RowPointsFromCells(s: seq<Sample>, b: Box, i: int, n: int, routeId: string, now: int)
    ensures forall p :: p in RowPoints(s, b, i, n, routeId, now) ==>
              exists j :: 0 <= j < n && CellPoint(s, b, i, j, routeId, now) == Some(p)
    decreases n
  {
    if n > 0 {
      RowPointsFromCells(s, b, i, n - 1, routeId, now);
    }
  }

  lemma {:induction false} GridPointsFromCells(s: seq<Sample>, b: Box, nx: int, ny: int, routeId: string, now: int)
    ensures forall p :: p in GridPoints(s, b, nx, ny, routeId, now) ==>
              && FromCell(p, s, b, nx, ny, routeId, now)
              && p.vehicleCount >= MinVehiclesForCongestion
              && p.congestionLevel != NoCongestion
              && p.routeId == routeId
    decreases nx
  {
    if nx > 0 {
      GridPointsFromCells(s, b, nx - 1, ny, routeId, now);
      RowPointsFromCells(s, b, nx - 1, ny, routeId, now);
      forall p | p in GridPoints(s, b, nx, ny, routeId, now)
        ensures FromCell(p, s, b, nx, ny, routeId, now)
      {
        if p in GridPoints(s, b, nx - 1, ny, routeId, now) {
          var i, j :| 0 <= i < nx - 1 && 0 <= j < ny && CellPoint(s, b, i, j, routeId, now) == Some(p);
          assert 0 <= i < nx;
        } else {
          assert p in RowPoints(s, b, nx - 1, ny, routeId, now);
          var j :| 0 <= j < ny && CellPoint(s, b, nx - 1, j, routeId, now) == Some(p);
        }
      }
    }
  }

  /** A cell `(i, j)` of a column that emits a point has it among the column's points. */
  lemma {:induction false} RowPointComplete(s: seq<Sample>, b: Box, i: int, j: int, n: int, routeId: string, now: int)
    requires 0 <= j < n
    requires CellPoint(s, b, i, j, routeId, now).Some?
    ensures CellPoint(s, b, i, j, routeId, now).value in RowPoints(s, b, i, n, routeId, now)
    decreases n
  {
    var before := RowPoints(s, b, i, n - 1, routeId, now);
    var last := CellPoint(s, b, i, n - 1, routeId, now);
    assert RowPoints(s, b, i, n, routeId, now) == before + Emitted(last);
    if j < n - 1 {
      RowPointComplete(s, b, i, j, n - 1, routeId, now);
    } else {
      assert Emitted(last) == [last.value];
    }
  }

  /** A cell `(i, j)` of the grid that emits a point has it among the grid's points. */
  lemma {:induction false} GridPointComplete(s: seq<Sample>, b: Box, i: int, j: int, nx: int, ny: int,
                                             routeId: string, now: int)
    requires 0 <= i < nx && 0 <= j < ny
    requires CellPoint(s, b, i, j, routeId, now).Some?
    ensures CellPoint(s, b, i, j, routeId, now).value in GridPoints(s, b, nx, ny, routeId, now)
    decreases nx
  {
    var before := GridPoints(s, b, nx - 1, ny, routeId, now);
    var column := RowPoints(s, b, nx - 1, ny, routeId, now);
    assert GridPoints(s, b, nx, ny, routeId, now) == before + column;
    if i < nx - 1 {
      GridPointComplete(s, b, i, j, nx - 1, ny, routeId, now);
    } else {
      RowPointComplete(s, b, i, j, ny, routeId, now);
    }
  }

  /** Every cell of the grid that emits a point has it among the grid's points. */
  lemma GridPointsComplete(s: seq<Sample>, b: Box, nx: int, ny: int, routeId: string, now: int)
    ensures forall i, j :: 0 <= i < nx && 0 <= j < ny && CellPoint(s, b, i, j, routeId, now).Some? ==>
              CellPoint(s, b, i, j, routeId, now).value in GridPoints(s, b, nx, ny, routeId, now)
  {
    forall i, j | 0 <= i < nx && 0 <= j < ny && CellPoint(s, b, i, j, routeId, now).Some?
      ensures CellPoint(s, b, i, j, routeId, now).value in GridPoints(s, b, nx, ny, routeId, now)
    {
      GridPointComplete(s, b, i, j, nx, ny, routeId, now);
    }
  }

  /** No point occurs twice in `ps`. */
  predicate NoRepeats(ps: seq<CongestionPoint>) {
    forall a, c :: 0 <= a < c < |ps| ==> ps[a] != ps[c]
  }

  /** Every point of `ps` lies on the vertical line `x`, below `yEnd`. */
  predicate OnColumn(ps: seq<CongestionPoint>, x: real, yEnd: real) {
    forall p :: p in ps ==> p.locationX == x && p.locationY < yEnd
  }

  /** The points of `ps` lie in strictly increasing rows. */
  predicate Rising(ps: seq<CongestionPoint>) {
    forall a, c :: 0 <= a < c < |ps| ==> ps[a].locationY < ps[c].locationY
  }

  /** Every point of `ps` lies left of `xEnd`. */
  predicate LeftOf(ps: seq<CongestionPoint>, xEnd: real) {
    forall p :: p in ps ==> p.locationX < xEnd
  }

  /** Appending at most one point of the next row keeps a column rising. */
  lemma AppendToColumn(before: seq<CongestionPoint>, e: seq<CongestionPoint>, x: real, y0: real, y1: real)
    requires OnColumn(before, x, y0) && Rising(before) && |e| <= 1
    requires forall p :: p in e ==> p.locationX == x && y0 <= p.locationY < y1
    requires y0 <= y1
    ensures OnColumn(before + e, x, y1) && Rising(before + e)
  {
    var ps := before + e;
    forall a, c | 0 <= a < c < |ps| ensures ps[a].locationY < ps[c].locationY {
      if c < |before| {
        assert ps[a] == before[a] && ps[c] == before[c];
      } else {
        assert ps[c] == e[c - |before|] && e[c - |before|] in e;
        assert ps[a] == before[a] && before[a] in before;
      }
    }
  }

  /** Appending a rising column right of all earlier points introduces no repeat. */
  lemma AppendColumn(before: seq<CongestionPoint>, column: seq<CongestionPoint>, x: real, yEnd: real, xEnd: real)
    requires LeftOf(before, x) && NoRepeats(before)
    requires OnColumn(column, x, yEnd) && Rising(column)
    requires x < xEnd
    ensures LeftOf(before + column, xEnd) && NoRepeats(before + column)
  {
    var ps := before + column;
    forall a, c | 0 <= a < c < |ps| ensures ps[a] != ps[c] {
      if a >= |before| {
        assert ps[a] == column[a - |before|] && ps[c] == column[c - |before|];
      } else if c >= |before| {
        assert ps[a] == before[a] && before[a] in before;
        assert ps[c] == column[c - |before|] && column[c - |before|] in column;
      } else {
        assert ps[a] == before[a] && ps[c] == before[c];
      }
    }
  }

  /** A cell's point, if any, lies on its column's centre line and within its row. */
  lemma CellPointPlace(s: seq<Sample>, b: Box, i: int, j: int, routeId: string, now: int)
    ensures |Emitted(CellPoint(s, b, i, j, routeId, now))| <= 1
    ensures forall p :: p in Emitted(CellPoint(s, b, i, j, routeId, now)) ==>
              p.locationX == BinStart(b.xMin, i) + 50.0 &&
              BinStart(b.yMin, j) <= p.locationY < BinStart(b.yMin, j + 1)
  {
    CellPointMeaning(s, b, i, j, routeId, now);
  }

  lemma RowPointsNext(s: seq<Sample>, b: Box, i: int, n: int, routeId: string, now: int)
    requires n > 0
    ensures RowPoints(s, b, i, n, routeId, now) ==
              RowPoints(s, b, i, n - 1, routeId, now) + Emitted(CellPoint(s, b, i, n - 1, routeId, now))
  {
  }

  /**
   * The points of column `i` sit on the column's centre line, below row `n`, in strictly
   * increasing rows: each cell emits at most once and no two cells share a point.
   */
  lemma {:induction false} RowPointsPlaced(s: seq<Sample>, b: Box, i: int, n: int, routeId: string, now: int)
    ensures OnColumn(RowPoints(s, b, i, n, routeId, now), BinStart(b.xMin, i) + 50.0, BinStart(b.yMin, n))
    ensures Rising(RowPoints(s, b, i, n, routeId, now))
    decreases n
  {
    if n > 0 {
      var before := RowPoints(s, b, i, n - 1, routeId, now);
      var e := Emitted(CellPoint(s, b, i, n - 1, routeId, now));
      RowPointsPlaced(s, b, i, n - 1, routeId, now);
      CellPointPlace(s, b, i, n - 1, routeId, now);
      AppendToColumn(before, e, BinStart(b.xMin, i) + 50.0, BinStart(b.yMin, n - 1), BinStart(b.yMin, n));
      RowPointsNext(s, b, i, n, routeId, now);
    }
  }

  lemma GridPointsNext(s: seq<Sample>, b: Box, nx: int, ny: int, routeId: string, now: int)
    requires nx > 0
    ensures GridPoints(s, b, nx, ny, routeId, now) ==
              GridPoints(s, b, nx - 1, ny, routeId, now) + RowPoints(s, b, nx - 1, ny, routeId, now)
  {
  }

  /** The points of the first `nx` columns lie left of column `nx`, and none repeats. */
  lemma {:induction false} GridPointsPlaced(s: seq<Sample>, b: Box, nx: int, ny: int, routeId: string, now: int)
    ensures LeftOf(GridPoints(s, b, nx, ny, routeId, now), BinStart(b.xMin, nx))
    ensures NoRepeats(GridPoints(s, b, nx, ny, routeId, now))
    decreases nx
  {
    if nx > 0 {
      var before := GridPoints(s, b, nx - 1, ny, routeId, now);
      var column := RowPoints(s, b, nx - 1, ny, routeId, now);
      GridPointsPlaced(s, b, nx - 1, ny, routeId, now);
      RowPointsPlaced(s, b, nx - 1, ny, routeId, now);
      AppendColumn(before, column, BinStart(b.xMin, nx - 1) + 50.0, BinStart(b.yMin, ny), BinStart(b.xMin, nx));
      GridPointsNext(s, b, nx, ny, routeId, now);
    }
  }

  // ---------------------------------------------------------------------------
  // Counting: the cells are disjoint, so no sample is counted twice

  /** The sum of `vehicle_count` over a list of points. */
  function TotalVehicles(ps: seq<CongestionPoint>): int {
    if |ps| == 0 then 0 else TotalVehicles(ps[..|ps| - 1]) + ps[|ps| - 1].vehicleCount
  }

  lemma {:induction false} TotalVehiclesAppend(a: seq<CongestionPoint>, c: seq<CongestionPoint>)
    ensures TotalVehicles(a + c) == TotalVehicles(a) + TotalVehicles(c)
    decreases |c|
  {
    if |c| == 0 {
      assert a + c == a;
    } else {
      var n := |c| - 1;
      assert (a + c)[..|a + c| - 1] == a + c[..n];
      assert (a + c)[|a + c| - 1] == c[n];
      TotalVehiclesAppend(a, c[..n]);
    }
  }

  /** The number of samples in cells `(i, 0)` .. `(i, n - 1)`. */
  function RowTotal(s: seq<Sample>, b: Box, i: int, n: int): int
    decreases n
  {
    if n <= 0 then 0 else RowTotal(s, b, i, n - 1) + |CellSamples(s, b, i, n - 1)|
  }

  /** The number of samples in the cells of the `nx` by `ny` grid, counted cell by cell. */
  function GridTotal(s: seq<Sample>, b: Box, nx: int, ny: int): int
    decreases nx
  {
    if nx <= 0 then 0 else GridTotal(s, b, nx - 1, ny) + RowTotal(s, b, nx - 1, ny)
  }

  lemma {:induction false} RowPointsWithinCells(s: seq<Sample>, b: Box, i: int, n: int, routeId: string, now: int)
    ensures TotalVehicles(RowPoints(s, b, i, n, routeId, now)) <= RowTotal(s, b, i, n)
    decreases n
  {
    if n > 0 {
      RowPointsWithinCells(s, b, i, n - 1, routeId, now);
      var o := CellPoint(s, b, i, n - 1, routeId, now);
      TotalVehiclesAppend(RowPoints(s, b, i, n - 1, routeId, now), Emitted(o));
      assert TotalVehicles(Emitted(o)) == if o.Some? then o.value.vehicleCount else 0 by {
        if o.Some? { assert Emitted(o)[..0] == []; }
      }
    }
  }

  /** The points of a grid account for no more samples than its cells hold. */
  lemma {:induction false} GridPointsWithinCells(s: seq<Sample>, b: Box, nx: int, ny: int, routeId: string, now: int)
    ensures TotalVehicles(GridPoints(s, b, nx, ny, routeId, now)) <= GridTotal(s, b, nx, ny)
    decreases nx
  {
    if nx > 0 {
      var before, row := GridPoints(s, b, nx - 1, ny, routeId, now), RowPoints(s, b, nx - 1, ny, routeId, now);
      GridPointsWithinCells(s, b, nx - 1, ny, routeId, now);
      RowPointsWithinCells(s, b, nx - 1, ny, routeId, now);
      TotalVehiclesAppend(before, row);
      assert GridPoints(s, b, nx, ny, routeId, now) == before + row;
    }
  }

  /** Whether a sample lies in some cell of the `nx` by `ny` grid. */
  predicate InGrid(x: Sample, b: Box, nx: int, ny: int) {
    0 <= BinIndex(b.xMin, x.positionX) < nx && 0 <= BinIndex(b.yMin, x.positionY) < ny
  }

  /** A sample lies in cell `(i, j)` exactly when `(i, j)` are its bin indices. */
  lemma InCellIff(x: Sample, b: Box, i: int, j: int)
    ensures InCell(x, b, i, j) <==>
              i == BinIndex(b.xMin, x.positionX) && j == BinIndex(b.yMin, x.positionY)
  {
    BinIndexIff(b.xMin, x.positionX, i);
    BinIndexIff(b.yMin, x.positionY, j);
  }

  /** Adding one sample adds one to the row's count if the sample is in the row, else nothing. */
  lemma {:induction false} RowTotalAppend(s: seq<Sample>, x: Sample, b: Box, i: int, n: int)
    ensures RowTotal(s + [x], b, i, n) == RowTotal(s, b, i, n) +
              (if i == BinIndex(b.xMin, x.positionX) && 0 <= BinIndex(b.yMin, x.positionY) < n then 1 else 0)
    decreases n
  {
    if n > 0 {
      RowTotalAppend(s, x, b, i, n - 1);
      assert (s + [x])[..|s + [x]| - 1] == s;
      InCellIff(x, b, i, n - 1);
    }
  }

  /** Adding one sample adds one to the grid's count if the sample is in the grid, else nothing. */
  lemma {:induction false} GridTotalAppend(s: seq<Sample>, x: Sample, b: Box, nx: int, ny: int)
    ensures GridTotal(s + [x], b, nx, ny) == GridTotal(s, b, nx, ny) + (if InGrid(x, b, nx, ny) then 1 else 0)
    decreases nx
  {
    if nx > 0 {
      GridTotalAppend(s, x, b, nx - 1, ny);
      RowTotalAppend(s, x, b, nx - 1, ny);
    }
  }

  /** Counted cell by cell, the grid holds exactly the samples that fall inside it. */
  lemma {:induction false} GridTotalIsInGrid(s: seq<Sample>, b: Box, nx: int, ny: int)
    ensures GridTotal(s, b, nx, ny) == |Filter(s, (x: Sample) => InGrid(x, b, nx, ny))|
    decreases |s|
  {
    if |s| == 0 {
      assert GridTotal(s, b, nx, ny) == 0 by { GridTotalEmpty(s, b, nx, ny); }
    } else {
      var t, x := s[..|s| - 1], s[|s| - 1];
      assert s == t + [x];
      GridTotalIsInGrid(t, b, nx, ny);
      GridTotalAppend(t, x, b, nx, ny);
      FilterAppend(t, x, (y: Sample) => InGrid(y, b, nx, ny));
    }
  }

  lemma {:induction false} GridTotalEmpty(s: seq<Sample>, b: Box, nx: int, ny: int)
    requires s == []
    ensures GridTotal(s, b, nx, ny) == 0
    decreases nx
  {
    if nx > 0 {
      GridTotalEmpty(s, b, nx - 1, ny);
      RowTotalEmpty(s, b, nx - 1, ny);
    }
  }

  lemma {:induction false} RowTotalEmpty(s: seq<Sample>, b: Box, i: int, n: int)
    requires s == []
    ensures RowTotal(s, b, i, n) == 0
    decreases n
  {
    if n > 0 {
      RowTotalEmpty(s, b, i, n - 1);
    }
  }

  /**
   * The cells are disjoint: the vehicle counts of a grid's points sum to at most the
   * number of samples.
   */
  lemma GridPointsBounded(s: seq<Sample>, b: Box, nx: int, ny: int, routeId: string, now: int)
    ensures TotalVehicles(GridPoints(s, b, nx, ny, routeId, now)) <= |s|
  {
    GridPointsWithinCells(s, b, nx, ny, routeId, now);
    GridTotalIsInGrid(s, b, nx, ny);
  }

  /** The corrected grid over a route's bounding box holds every one of its samples. */
  lemma GridCoversEverySample(s: seq<Sample>)
    requires |s| > 0
    ensures var b := BoundingBox(s);
            GridTotal(s, b, BinCount(b.xMin, b.xMax), BinCount(b.yMin, b.yMax)) == |s|
  {
    var b := BoundingBox(s);
    var nx, ny := BinCount(b.xMin, b.xMax), BinCount(b.yMin, b.yMax);
    forall k | 0 <= k < |s|
      ensures InGrid(s[k], b, nx, ny)
    {
      BinCountCovers(b.xMin, b.xMax, s[k].positionX);
      BinCountCovers(b.yMin, b.yMax, s[k].positionY);
    }
    FilterAll(s, (x: Sample) => InGrid(x, b, nx, ny));
    GridTotalIsInGrid(s, b, nx, ny);
  }

  // ---------------------------------------------------------------------------
  // Per-route analysis

  /**
   * `_analyze_route_congestion`: visits every cell of the (corrected) grid over the
   * samples' bounding box and emits a point for each classified cell.
   */
  method AnalyzeRouteCongestion(routeData: seq<Sample>, now: int) returns (points: seq<CongestionPoint>)
    requires |routeData| > 0
    ensures var b := BoundingBox(routeData);
            points == GridPoints(routeData, b, BinCount(b.xMin, b.xMax), BinCount(b.yMin, b.yMax),
                                 routeData[0].routeId, now)
  {
    var box := BoundingBox(routeData);
    var xBins := BinCount(box.xMin, box.xMax);
    var yBins := BinCount(box.yMin, box.yMax);
    points := AnalyzeGrid(routeData, box, xBins, yBins, routeData[0].routeId, now);
  }

  /** The two nested loops of the analysis over the `xBins` by `yBins` cells. */
  method AnalyzeGrid(routeData: seq<Sample>, box: Box, xBins: nat, yBins: nat, routeId: string, now: int)
    returns (points: seq<CongestionPoint>)
    ensures points == GridPoints(routeData, box, xBins, yBins, routeId, now)
  {
    points := [];
    var i := 0;
    while i < xBins
      invariant 0 <= i <= xBins
      invariant points == GridPoints(routeData, box, i, yBins, routeId, now)
    {
      var column := AnalyzeColumn(routeData, box, i, yBins, routeId, now);
      points := points + column;
      i := i + 1;
    }
  }

  /** The inner loop: the cells `(i, 0)` .. `(i, yBins - 1)` of one column. */
  method AnalyzeColumn(routeData: seq<Sample>, box: Box, i: int, yBins: nat, routeId: string, now: int)
    returns (points: seq<CongestionPoint>)
    ensures points == RowPoints(routeData, box, i, yBins, routeId, now)
  {
    points := [];
    var j := 0;
    while j < yBins
      invariant 0 <= j <= yBins
      invariant points == RowPoints(routeData, box, i, j, routeId, now)
    {
      var cell := CellPoint(routeData, box, i, j, routeId, now);
      if cell.Some? {
        points := points + [cell.value];
      }
      j := j + 1;
    }
  }

  /**
   * What a route's analysis yields: classified points of its own, counting each sample at
   * most once, none of them twice, and a point for every cell of the grid that holds at
   * least 5 samples.
   */
  lemma AnalysisProperties(routeData: seq<Sample>, now: int)
    requires |routeData| > 0
    ensures var b := BoundingBox(routeData);
            var points := GridPoints(routeData, b, BinCount(b.xMin, b.xMax), BinCount(b.yMin, b.yMax),
                                     routeData[0].routeId, now);
            && (forall p :: p in points ==>
                  && p.vehicleCount >= MinVehiclesForCongestion
                  && p.congestionLevel != NoCongestion
                  && p.routeId == routeData[0].routeId)
            && TotalVehicles(points) <= |routeData|
            && NoRepeats(points)
            && (forall i, j ::
                  (0 <= i < BinCount(b.xMin, b.xMax) && 0 <= j < BinCount(b.yMin, b.yMax) &&
                   |CellSamples(routeData, b, i, j)| >= MinVehiclesForCongestion) ==>
                  CellPoint(routeData, b, i, j, routeData[0].routeId, now).Some? &&
                  CellPoint(routeData, b, i, j, routeData[0].routeId, now).value in points)
  {
    var b := BoundingBox(routeData);
    forall i, j ensures |CellSamples(routeData, b, i, j)| >= MinVehiclesForCongestion ==>
                          CellPoint(routeData, b, i, j, routeData[0].routeId, now).Some? {
      CellPointMeaning(routeData, b, i, j, routeData[0].routeId, now);
    }
    GridPointsComplete(routeData, b, BinCount(b.xMin, b.xMax), BinCount(b.yMin, b.yMax), routeData[0].routeId, now);
    GridPointsFromCells(routeData, b, BinCount(b.xMin, b.xMax), BinCount(b.yMin, b.yMax), routeData[0].routeId, now);
    GridPointsBounded(routeData, b, BinCount(b.xMin, b.xMax), BinCount(b.yMin, b.yMax), routeData[0].routeId, now);
    GridPointsPlaced(routeData, b, BinCount(b.xMin, b.xMax), BinCount(b.yMin, b.yMax), routeData[0].routeId, now);
  }

  // ---------------------------------------------------------------------------
  // The grid as written

  /**
   * As written, when the horizontal extent of a route's samples is a whole multiple of
   * 100 (zero included), the samples on the right edge fall in no cell and are lost.
   */
  lemma AsWrittenLosesEdgeSamples(s: seq<Sample>, b: Box, m: nat)
    requires |s| > 0 && b == BoundingBox(s)
    requires b.xMax == b.xMin + 100.0 * m as real
    ensures GridTotal(s, b, BinCountAsWritten(b.xMin, b.xMax), BinCountAsWritten(b.yMin, b.yMax)) < |s|
  {
    var k := RightmostSample(s);
    AsWrittenMissesUpperEdge(b.xMin, b.xMax, m);
    GridMissesSample(s, b, BinCountAsWritten(b.xMin, b.xMax), BinCountAsWritten(b.yMin, b.yMax), k);
  }

  /** The index of a sample on the right edge of the bounding box. */
  lemma RightmostSample(s: seq<Sample>) returns (k: int)
    requires |s| > 0
    ensures 0 <= k < |s| && s[k].positionX == BoundingBox(s).xMax
  {
    var xs := PositionsX(s);
    assert BoundingBox(s).xMax in xs;
    k :| 0 <= k < |xs| && xs[k] == BoundingBox(s).xMax;
  }

  /** A grid that misses one of the samples holds fewer samples than there are. */
  lemma GridMissesSample(s: seq<Sample>, b: Box, nx: int, ny: int, k: int)
    requires 0 <= k < |s| && BinIndex(b.xMin, s[k].positionX) == nx
    ensures GridTotal(s, b, nx, ny) < |s|
  {
    GridTotalIsInGrid(s, b, nx, ny);
    FilterDrops(s, (x: Sample) => InGrid(x, b, nx, ny), k);
  }

  lemma {:induction false} CellSamplesAll(s: seq<Sample>, b: Box, i: int, j: int)
    requires forall k :: 0 <= k < |s| ==> InCell(s[k], b, i, j)
    ensures CellSamples(s, b, i, j) == s
    decreases |s|
  {
    if |s| > 0 {
      var t := s[..|s| - 1];
      assert forall k :: 0 <= k < |t| ==> t[k] == s[k];
      CellSamplesAll(t, b, i, j);
      assert s == t + [s[|s| - 1]];
    }
  }

  /** Five samples of vehicles standing at the origin at 10 km/h. */
  function StationaryCluster(now: int): seq<Sample> {
    var x := Sample("route_01_v1000", "route_01", 10.0, 0.0, 0.0, now, "Main Street");
    [x, x, x, x, x]
  }

  lemma StationaryClusterBox(now: int)
    ensures BoundingBox(StationaryCluster(now)) == Box(0.0, 0.0, 0.0, 0.0)
  {
    var s := StationaryCluster(now);
    var xs, ys := PositionsX(s), PositionsY(s);
    assert forall k :: 0 <= k < |s| ==> s[k].positionX == 0.0 && s[k].positionY == 0.0;
    assert Minimum(xs) in xs && Maximum(xs) in xs && Minimum(ys) in ys && Maximum(ys) in ys;
  }

  /** As written, the grid over the stationary cluster has no cell, so nothing is reported. */
  lemma AsWrittenMissesStationaryCluster(now: int)
    ensures var s := StationaryCluster(now);
            var b := BoundingBox(s);
            GridPoints(s, b, BinCountAsWritten(b.xMin, b.xMax), BinCountAsWritten(b.yMin, b.yMax), "route_01", now) == []
  {
    StationaryClusterBox(now);
    assert BinCountAsWritten(0.0, 0.0) == 0;
  }

  /** The one cell of the stationary cluster holds all five samples, at a mean of 10 km/h. */
  lemma StationaryClusterCell(now: int)
    ensures CellPoint(StationaryCluster(now), Box(0.0, 0.0, 0.0, 0.0), 0, 0, "route_01", now)
              == Some(CongestionPoint(50.0, 50.0, Low, 10.0, 5, now, "route_01"))
  {
    var s := StationaryCluster(now);
    var b := Box(0.0, 0.0, 0.0, 0.0);
    assert forall k :: 0 <= k < |s| ==> InCell(s[k], b, 0, 0);
    CellSamplesAll(s, b, 0, 0);
    assert forall k :: 0 <= k < |s| ==> Speeds(s)[k] == 10.0;
    MeanBounded(Speeds(s), 10.0, 10.0);
  }

  /** The corrected grid over the stationary cluster has one cell, reported as "low". */
  lemma CorrectedReportsStationaryCluster(now: int)
    ensures var s := StationaryCluster(now);
            var b := BoundingBox(s);
            GridPoints(s, b, BinCount(b.xMin, b.xMax), BinCount(b.yMin, b.yMax), "route_01", now)
              == [CongestionPoint(50.0, 50.0, Low, 10.0, 5, now, "route_01")]
  {
    var s := StationaryCluster(now);
    var b := Box(0.0, 0.0, 0.0, 0.0);
    StationaryClusterBox(now);
    assert BinCount(0.0, 0.0) == 1;
    StationaryClusterCell(now);
    assert GridPoints(s, b, 1, 1, "route_01", now) == RowPoints(s, b, 0, 1, "route_01", now);
  }

  // ---------------------------------------------------------------------------
  // Detection over all routes

  /** The points one route contributes: none when it has fewer than 5 samples. */
  function RoutePoints(data: seq<Sample>, routeId: string, now: int): (r: seq<CongestionPoint>)
    ensures |OnRoute(data, routeId)| < MinVehiclesForCongestion ==> r == []
  {
    var routeData := OnRoute(data, routeId);
    if |routeData| < MinVehiclesForCongestion then []
    else
      var b := BoundingBox(routeData);
      GridPoints(routeData, b, BinCount(b.xMin, b.xMax), BinCount(b.yMin, b.yMax), routeData[0].routeId, now)
  }

  /** The points of the routes `routeIds`, route after route. */
  function DetectedPoints(data: seq<Sample>, routeIds: seq<string>, now: int): seq<CongestionPoint> {
    if |routeIds| == 0 then []
    else DetectedPoints(data, routeIds[..|routeIds| - 1], now) + RoutePoints(data, routeIds[|routeIds| - 1], now)
  }

  /** What one route contributes: its own, classified points, each sample counted at most once. */
  lemma RoutePointsProperties(data: seq<Sample>, routeId: string, now: int)
    ensures forall p :: p in RoutePoints(data, routeId, now) ==>
              && p.routeId == routeId
              && p.vehicleCount >= MinVehiclesForCongestion
              && p.congestionLevel != NoCongestion
    ensures TotalVehicles(RoutePoints(data, routeId, now)) <= |OnRoute(data, routeId)|
  {
    var routeData := OnRoute(data, routeId);
    if |routeData| >= MinVehiclesForCongestion {
      OnRouteMembers(data, routeId);
      assert routeData[0].routeId == routeId;
      AnalysisProperties(routeData, now);
    }
  }

  /**
   * Every detected point belongs to one of the analysed routes, that route has at least
   * 5 samples, and the point is classified.
   */
  lemma {:induction false} DetectedPointsProperties(data: seq<Sample>, routeIds: seq<string>, now: int)
    ensures forall p :: p in DetectedPoints(data, routeIds, now) ==>
              && p.routeId in routeIds
              && |OnRoute(data, p.routeId)| >= MinVehiclesForCongestion
              && p.vehicleCount >= MinVehiclesForCongestion
              && p.congestionLevel != NoCongestion
    decreases |routeIds|
  {
    if |routeIds| > 0 {
      var rest, last := routeIds[..|routeIds| - 1], routeIds[|routeIds| - 1];
      DetectedPointsProperties(data, rest, now);
      RoutePointsProperties(data, last, now);
      assert forall r :: r in rest ==> r in routeIds;
    }
  }

  /** A point of a listed route is among the detected points. */
  lemma {:induction false} DetectedPointComplete(data: seq<Sample>, routeIds: seq<string>, r: string,
                                                 p: CongestionPoint, now: int)
    requires r in routeIds && p in RoutePoints(data, r, now)
    ensures p in DetectedPoints(data, routeIds, now)
    decreases |routeIds|
  {
    var rest, last := routeIds[..|routeIds| - 1], routeIds[|routeIds| - 1];
    assert DetectedPoints(data, routeIds, now) == DetectedPoints(data, rest, now) + RoutePoints(data, last, now);
    if r != last {
      InEarlier(routeIds, r);
      DetectedPointComplete(data, rest, r, p, now);
    }
  }

  /** Every point of every listed route is among the detected points. */
  lemma DetectedPointsComplete(data: seq<Sample>, routeIds: seq<string>, now: int)
    ensures forall r, p :: r in routeIds && p in RoutePoints(data, r, now) ==> p in DetectedPoints(data, routeIds, now)
  {
    forall r, p | r in routeIds && p in RoutePoints(data, r, now)
      ensures p in DetectedPoints(data, routeIds, now)
    {
      DetectedPointComplete(data, routeIds, r, p, now);
    }
  }

  /**
   * `detect_congestion_points`: groups the samples by route in order of first appearance,
   * skips routes with fewer than 5 samples and gathers each remaining route's points.
   */
  method DetectCongestionPoints(trafficData: seq<Sample>, now: int) returns (points: seq<CongestionPoint>)
    ensures points == DetectedPoints(trafficData, Distinct(RouteIds(trafficData)), now)
  {
    points := [];
    if |trafficData| == 0 {
      return;
    }
    var routeIds := Distinct(RouteIds(trafficData));
    var k := 0;
    while k < |routeIds|
      invariant 0 <= k <= |routeIds|
      invariant points == DetectedPoints(trafficData, routeIds[..k], now)
    {
      var routeData := OnRoute(trafficData, routeIds[k]);
      assert routeIds[..k + 1][..k] == routeIds[..k];
      if |routeData| >= MinVehiclesForCongestion {
        var congestionAreas := AnalyzeRouteCongestion(routeData, now);
        points := points + congestionAreas;
      }
      k := k + 1;
    }
    assert routeIds[..k] == routeIds;
  }

  /**
   * No samples, no points; every point detected comes from a busy route of the data; and
   * every point of a route of the data is detected.
   */
  lemma DetectionProperties(trafficData: seq<Sample>, now: int)
    ensures trafficData == [] ==> DetectedPoints(trafficData, Distinct(RouteIds(trafficData)), now) == []
    ensures forall p :: p in DetectedPoints(trafficData, Distinct(RouteIds(trafficData)), now) ==>
              && (exists k :: 0 <= k < |trafficData| && trafficData[k].routeId == p.routeId)
              && |OnRoute(trafficData, p.routeId)| >= MinVehiclesForCongestion
              && p.vehicleCount >= MinVehiclesForCongestion
              && p.congestionLevel != NoCongestion
    ensures forall k, p :: 0 <= k < |trafficData| && p in RoutePoints(trafficData, trafficData[k].routeId, now) ==>
              p in DetectedPoints(trafficData, Distinct(RouteIds(trafficData)), now)
  {
    var ids := Distinct(RouteIds(trafficData));
    DetectedPointsProperties(trafficData, ids, now);
    DetectedPointsComplete(trafficData, ids, now);
    forall k | 0 <= k < |trafficData| ensures trafficData[k].routeId in ids {
      OnRouteNonEmpty(trafficData, k);
    }
    forall p | p in DetectedPoints(trafficData, ids, now)
      ensures exists k :: 0 <= k < |trafficData| && trafficData[k].routeId == p.routeId
    {
      assert p.routeId in RouteIds(trafficData);
      var k :| 0 <= k < |trafficData| && RouteIds(trafficData)[k] == p.routeId;
    }
  }
}
