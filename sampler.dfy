/** 01-sample-coords.py: sample a regular lattice over the bounding box of
    every polygon of every zone, keep the lattice points the polygon
    contains, and seed `sample_coords` with them, one zone at a time.

    Coordinates are exact reals here; the source computes them in floating
    point. A polygon is its bounding box and its `contains` test (the
    prepared shapely polygon), which the model leaves uninterpreted. */
module Sampler {
  import opened TaskStore

  /** `SAMPLE_INTERVAL_METER` and the degree conversion `1 degree = 111000 m`. */
  const SampleIntervalMeter: int := 25
  const MetersPerDegree: int := 111000
  const SampleIntervalDegree: Interval := SampleIntervalMeter as real / MetersPerDegree as real

  /** A lattice spacing in degrees; the source only ever uses a positive one. */
  type Interval = r: real | r > 0.0 witness 1.0

  /** A shapely `Point(x, y)`: x is the longitude, y the latitude. */
  datatype Point = Point(x: real, y: real)

  /** `total_bounds`: `[minx, miny, maxx, maxy]`. */
  datatype Bounds = Bounds(minX: real, minY: real, maxX: real, maxY: real)

  /** One part of an exploded zone geometry. */
  datatype Polygon = Polygon(bounds: Bounds, contains: Point -> bool)

  /** A feature of the zone file: its `namecol` and its exploded parts. */
  datatype Zone = Zone(name: string, parts: seq<Polygon>)

  predicate InBox(b: Bounds, p: Point) {
    b.minX <= p.x < b.maxX && b.minY <= p.y < b.maxY
  }

  /** Number of values of `np.arange(start, stop, step)`: the ceiling of
      `(stop - start) / step`, or 0 when the range is empty. */
  function ArangeLength(start: real, stop: real, step: Interval): nat
  {
    if stop <= start then 0 else -((start - stop) / step).Floor
  }

  /** The lattice value with index `k` lies below `stop` exactly when `k` is
      below the length: the range is half-open. */
  lemma ArangeIndex(start: real, stop: real, step: Interval, k: int)
    requires k >= 0
    ensures k < ArangeLength(start, stop, step) <==> start + k as real * step < stop
  {
    var kr := k as real;
    assert kr * step >= 0.0;
    if start < stop {
      var q := (stop - start) / step;
      var f := (-q).Floor;
      assert (start - stop) / step == -q;
      assert f as real <= -q < f as real + 1.0;
      assert q * step == stop - start;
      if k < -f {
        assert kr < q;
        assert kr * step < q * step;
      } else {
        assert kr >= q;
        assert kr * step >= q * step;
      }
    }
  }

  /** `np.arange(start, stop, step)`: evenly spaced values from `start`, all
      below `stop`, and no further lattice value below `stop` left out. */
  function Arange(start: real, stop: real, step: Interval): (r: seq<real>)
    ensures |r| == ArangeLength(start, stop, step)
    ensures forall k :: 0 <= k < |r| ==> r[k] == start + k as real * step
    ensures forall k :: 0 <= k < |r| ==> start <= r[k] < stop
    ensures start + |r| as real * step >= stop
  {
    var n := ArangeLength(start, stop, step);
    var r := seq(n, k requires 0 <= k < n => start + k as real * step);
    forall k | 0 <= k < n ensures start <= r[k] < stop {
      ArangeIndex(start, stop, step, k);
      assert k as real * step >= 0.0;
    }
    ArangeIndex(start, stop, step, n);
    r
  }

  /** One row of the mesh: `y` fixed, `x` running over `xs`. */
  function MeshRow(xs: seq<real>, y: real): seq<Point> {
    seq(|xs|, i requires 0 <= i < |xs| => Point(xs[i], y))
  }

  /** `zip(xx.ravel(), yy.ravel())` for `xx, yy = np.meshgrid(xs, ys)`: the
      mesh flattened row by row, `y` major and `x` varying fastest. */
  function Ravel(xs: seq<real>, ys: seq<real>): (r: seq<Point>)
    ensures forall k :: 0 <= k < |r| ==> r[k].x in xs && r[k].y in ys
  {
    if ys == [] then [] else MeshRow(xs, ys[0]) + Ravel(xs, ys[1..])
  }

  /** The flattened mesh has one point per pair of an x and a y value. */
  lemma {:induction false} RavelLength(xs: seq<real>, ys: seq<real>)
    ensures |Ravel(xs, ys)| == |ys| * |xs|
  {
    if ys != [] {
      RavelLength(xs, ys[1..]);
      assert |ys| * |xs| == |xs| + (|ys| - 1) * |xs|;
    }
  }

  /** Row `j`, column `i` of the mesh sits at position `j * |xs| + i`. */
  lemma {:induction false} RavelIndex(xs: seq<real>, ys: seq<real>, j: nat, i: nat)
    requires j < |ys| && i < |xs|
    ensures j * |xs| + i < |Ravel(xs, ys)|
    ensures Ravel(xs, ys)[j * |xs| + i] == Point(xs[i], ys[j])
  {
    RavelLength(xs, ys);
    if j > 0 {
      RavelIndex(xs, ys[1..], j - 1, i);
      assert j * |xs| + i == |xs| + ((j - 1) * |xs| + i);
    }
  }

  /** Position `k` of an `m` by `n` mesh is row `k / n`, column `k % n`. */
  lemma DivBound(k: int, n: int, m: int)
    requires n >= 0 && 0 <= k < m * n
    ensures n > 0 && 0 <= k / n < m && 0 <= k % n < n && k == (k / n) * n + k % n
  {
    assert k == (k / n) * n + k % n;
  }

  /** Conversely every position `k` is row `k / |xs|`, column `k % |xs|`,
      both within range. */
  lemma RavelAt(xs: seq<real>, ys: seq<real>, k: int)
    requires 0 <= k < |Ravel(xs, ys)|
    ensures |xs| > 0 && k / |xs| < |ys|
    ensures Ravel(xs, ys)[k] == Point(xs[k % |xs|], ys[k / |xs|])
  {
    RavelLength(xs, ys);
    var n := |xs|;
    DivBound(k, n, |ys|);
    RavelIndex(xs, ys, k / n, k % n);
  }

  /** `create_point_grid(bounds, interval)`: the lattice over the box. Every
      candidate lies inside the half-open box. */
  function CreatePointGrid(b: Bounds, interval: Interval): (r: seq<Point>)
    ensures forall k :: 0 <= k < |r| ==> InBox(b, r[k])
  {
    Ravel(Arange(b.minX, b.maxX, interval), Arange(b.minY, b.maxY, interval))
  }

  /** The grid has one candidate per pair of lattice indices, for every
      box, including one whose lattice is empty. */
  lemma GridLength(b: Bounds, interval: Interval)
    ensures |CreatePointGrid(b, interval)|
            == ArangeLength(b.minY, b.maxY, interval) * ArangeLength(b.minX, b.maxX, interval)
  {
    RavelLength(Arange(b.minX, b.maxX, interval), Arange(b.minY, b.maxY, interval));
  }

  /** The grid has one candidate per pair of lattice indices `(i, j)`, with
      `i` below the number of x values and `j` below the number of y values,
      listed row by row: candidate `(i, j)` sits at `j * nx + i`. */
  lemma GridShape(b: Bounds, interval: Interval, j: nat, i: nat)
    requires j < ArangeLength(b.minY, b.maxY, interval) && i < ArangeLength(b.minX, b.maxX, interval)
    ensures |CreatePointGrid(b, interval)|
            == ArangeLength(b.minY, b.maxY, interval) * ArangeLength(b.minX, b.maxX, interval)
    ensures j * ArangeLength(b.minX, b.maxX, interval) + i < |CreatePointGrid(b, interval)|
    ensures CreatePointGrid(b, interval)[j * ArangeLength(b.minX, b.maxX, interval) + i]
            == Point(b.minX + i as real * interval, b.minY + j as real * interval)
  {
    var xs := Arange(b.minX, b.maxX, interval);
    var ys := Arange(b.minY, b.maxY, interval);
    RavelLength(xs, ys);
    RavelIndex(xs, ys, j, i);
  }

  /** The points `contains` accepts, in input order. */
  function Filter(points: seq<Point>, contains: Point -> bool): seq<Point> {
    if points == [] then []
    else Filter(points[..|points| - 1], contains)
         + (if contains(points[|points| - 1]) then [points[|points| - 1]] else [])
  }

  lemma {:induction false} FilterMember(points: seq<Point>, contains: Point -> bool, p: Point)
    ensures p in Filter(points, contains) <==> p in points && contains(p)
  {
    if points != [] {
      var init := points[..|points| - 1];
      FilterMember(init, contains, p);
      assert points == init + [points[|points| - 1]];
    }
  }

  /** Filtering keeps every copy of an accepted point and drops every copy of
      a rejected one. */
  lemma {:induction false} FilterCount(points: seq<Point>, contains: Point -> bool, p: Point)
    ensures multiset(Filter(points, contains))[p] == if contains(p) then multiset(points)[p] else 0
  {
    if points != [] {
      var init := points[..|points| - 1];
      FilterCount(init, contains, p);
      assert points == init + [points[|points| - 1]];
    }
  }

  lemma {:induction false} FilterLength(points: seq<Point>, contains: Point -> bool)
    ensures |Filter(points, contains)| <= |points|
  {
    if points != [] {
      FilterLength(points[..|points| - 1], contains);
    }
  }

  /** Filtering a concatenation filters each part in turn: input order is
      kept. */
  lemma {:induction false} FilterAppend(a: seq<Point>, b: seq<Point>, contains: Point -> bool)
    ensures Filter(a + b, contains) == Filter(a, contains) + Filter(b, contains)
    decreases |b|
  {
    if b == [] {
      assert a + b == a;
    } else {
      var init := b[..|b| - 1];
      assert (a + b)[..|a + b| - 1] == a + init;
      FilterAppend(a, init, contains);
    }
  }

  /** `get_points_in_polygon`: the loop that appends every contained point. */
  method PointsInPolygon(points: seq<Point>, contains: Point -> bool) returns (inside: seq<Point>)
    ensures inside == Filter(points, contains)
  {
    inside := [];
    var i := 0;
    while i < |points|
      invariant 0 <= i <= |points|
      invariant inside == Filter(points[..i], contains)
    {
      assert points[..i + 1][..i] == points[..i];
      if contains(points[i]) {
        inside := inside + [points[i]];
      }
      i := i + 1;
    }
    assert points[..|points|] == points;
  }

  /** The sample points of one polygon part. */
  function PartPoints(part: Polygon, interval: Interval): seq<Point>
  {
    Filter(CreatePointGrid(part.bounds, interval), part.contains)
  }

  /** The point lists of `parts`, concatenated in part order. */
  function Gather(parts: seq<Polygon>, f: Polygon -> seq<Point>): seq<Point> {
    if parts == [] then [] else Gather(parts[..|parts| - 1], f) + f(parts[|parts| - 1])
  }

  lemma {:induction false} GatherAppend(a: seq<Polygon>, b: seq<Polygon>, f: Polygon -> seq<Point>)
    ensures Gather(a + b, f) == Gather(a, f) + Gather(b, f)
    decreases |b|
  {
    if b == [] {
      assert a + b == a;
    } else {
      assert (a + b)[..|a + b| - 1] == a + b[..|b| - 1];
      GatherAppend(a, b[..|b| - 1], f);
    }
  }

  lemma {:induction false} GatherMember(parts: seq<Polygon>, f: Polygon -> seq<Point>, p: Point)
    requires p in Gather(parts, f)
    ensures exists k :: 0 <= k < |parts| && p in f(parts[k])
  {
    var init := parts[..|parts| - 1];
    if p in Gather(init, f) {
      GatherMember(init, f, p);
      var k :| 0 <= k < |init| && p in f(init[k]);
      assert parts[k] == init[k];
    }
  }

  /** `points_in_zone` after the loop over the parts: the parts' points
      concatenated in part order, duplicates kept. */
  function ZonePoints(parts: seq<Polygon>, interval: Interval): seq<Point> {
    Gather(parts, part => PartPoints(part, interval))
  }

  /** The points of consecutive runs of parts are concatenated: no point is
      dropped or merged across parts. */
  lemma ZonePointsAppend(a: seq<Polygon>, b: seq<Polygon>, interval: Interval)
    ensures ZonePoints(a + b, interval) == ZonePoints(a, interval) + ZonePoints(b, interval)
  {
    GatherAppend(a, b, part => PartPoints(part, interval));
  }

  /** Every point of a zone lies in the bounding box of some part that
      contains it. */
  lemma ZonePointInside(parts: seq<Polygon>, interval: Interval, p: Point)
    requires p in ZonePoints(parts, interval)
    ensures exists k :: 0 <= k < |parts| && parts[k].contains(p) && InBox(parts[k].bounds, p)
  {
    GatherMember(parts, part => PartPoints(part, interval), p);
    var k :| 0 <= k < |parts| && p in PartPoints(parts[k], interval);
    var grid := CreatePointGrid(parts[k].bounds, interval);
    FilterMember(grid, parts[k].contains, p);
  }

  /** The points of the zone loop, lines 125-145: one part after another. */
  method PointsInZone(parts: seq<Polygon>, interval: Interval) returns (inZone: seq<Point>)
    ensures inZone == ZonePoints(parts, interval)
  {
    inZone := [];
    var n := 0;
    while n < |parts|
      invariant 0 <= n <= |parts|
      invariant inZone == ZonePoints(parts[..n], interval)
    {
      var grid := CreatePointGrid(parts[n].bounds, interval);
      var inside := PointsInPolygon(grid, parts[n].contains);
      assert parts[..n + 1][..n] == parts[..n];
      inZone := inZone + inside;
      n := n + 1;
    }
    assert parts[..|parts|] == parts;
  }

  /** The rows `save_points_to_db` inserts: lat from `point.y`, lon from
      `point.x`, the zone label, `searched = False`, and consecutive ids. */
  function NewRows(firstId: int, points: seq<Point>, zoneLabel: string): seq<SampleRow> {
    seq(|points|, k requires 0 <= k < |points| =>
      SampleRow(firstId + k, points[k].y, points[k].x, zoneLabel, false))
  }

  function SaveRows(s: StoreState, points: seq<Point>, zoneLabel: string): StoreState {
    s.(samples := s.samples + NewRows(s.nextId, points, zoneLabel), nextId := s.nextId + |points|)
  }

  /** The new rows get fresh ids: consecutive from the counter, so above
      every old id, and the counter moves past them. */
  lemma SaveRowsWf(s: StoreState, points: seq<Point>, zoneLabel: string)
    requires Wf(s)
    ensures Wf(SaveRows(s, points, zoneLabel))
    ensures forall i, k :: 0 <= i < |s.samples| && 0 <= k < |points| ==>
              s.samples[i].id < NewRows(s.nextId, points, zoneLabel)[k].id
  {
    var rows := NewRows(s.nextId, points, zoneLabel);
    var t := SaveRows(s, points, zoneLabel).samples;
    assert |t| == |s.samples| + |rows|;
    forall k | 0 <= k < |t| ensures 1 <= t[k].id < s.nextId + |points| {
      if k >= |s.samples| {
        assert t[k] == rows[k - |s.samples|];
      }
    }
    forall i, j | 0 <= i < j < |t| ensures t[i].id < t[j].id {
      if j < |s.samples| {
        assert t[i] == s.samples[i] && t[j] == s.samples[j];
      } else if i < |s.samples| {
        assert t[i] == s.samples[i] && t[j] == rows[j - |s.samples|];
      } else {
        assert t[i] == rows[i - |s.samples|] && t[j] == rows[j - |s.samples|];
      }
    }
  }

  /** Saving keeps the AUTOINCREMENT discipline: the new ids are fresh and
      above every old id, the old rows are a prefix, nothing else changes,
      and the new rows are all unsearched. */
  lemma SaveRowsProps(s: StoreState, points: seq<Point>, zoneLabel: string)
    requires Wf(s)
    ensures Wf(SaveRows(s, points, zoneLabel))
    ensures SaveRows(s, points, zoneLabel).samples[..|s.samples|] == s.samples
    ensures SaveRows(s, points, zoneLabel).panoramas == s.panoramas
    ensures forall i, k :: 0 <= i < |s.samples| && 0 <= k < |points| ==>
              s.samples[i].id < NewRows(s.nextId, points, zoneLabel)[k].id
    ensures UnsearchedRows(SaveRows(s, points, zoneLabel).samples)
            == UnsearchedRows(s.samples) + NewRows(s.nextId, points, zoneLabel)
  {
    var rows := NewRows(s.nextId, points, zoneLabel);
    SaveRowsWf(s, points, zoneLabel);
    UnsearchedRowsAppend(s.samples, rows);
    AllUnsearched(rows);
    assert (s.samples + rows)[..|s.samples|] == s.samples;
  }

  lemma {:induction false} AllUnsearched(rows: seq<SampleRow>)
    requires forall k :: 0 <= k < |rows| ==> !rows[k].searched
    ensures UnsearchedRows(rows) == rows
  {
    if rows != [] {
      AllUnsearched(rows[..|rows| - 1]);
    }
  }

  /** `save_points_to_db(points, label)`: one INSERT per point, in order. */
  method SavePointsToDb(db: Database, points: seq<Point>, zoneLabel: string)
    requires db.Valid()
    modifies db
    ensures db.Valid()
    ensures db.State() == SaveRows(old(db.State()), points, zoneLabel)
  {
    ghost var s0 := db.State();
    var i := 0;
    while i < |points|
      invariant 0 <= i <= |points|
      invariant db.Valid()
      invariant db.State() == SaveRows(s0, points[..i], zoneLabel)
    {
      var id := db.InsertSample(points[i].y, points[i].x, zoneLabel);
      assert NewRows(s0.nextId, points[..i + 1], zoneLabel)
             == NewRows(s0.nextId, points[..i], zoneLabel) + [SampleRow(id, points[i].y, points[i].x, zoneLabel, false)];
      i := i + 1;
    }
    assert points[..|points|] == points;
  }

  /** The whole seeding pass: every zone's points saved under its name, zone
      after zone. */
  function SeedAll(s: StoreState, zones: seq<Zone>): StoreState {
    if zones == [] then s
    else
      var last := zones[|zones| - 1];
      SaveRows(SeedAll(s, zones[..|zones| - 1]), ZonePoints(last.parts, SampleIntervalDegree), last.name)
  }

  /** Seeding only appends well-formed unsearched rows. */
  lemma {:induction false} SeedAllProps(s: StoreState, zones: seq<Zone>)
    requires Wf(s)
    ensures Wf(SeedAll(s, zones))
    ensures |SeedAll(s, zones).samples| >= |s.samples|
    ensures SeedAll(s, zones).samples[..|s.samples|] == s.samples
    ensures SeedAll(s, zones).panoramas == s.panoramas
    ensures |UnsearchedRows(SeedAll(s, zones).samples)| - |UnsearchedRows(s.samples)|
            == |SeedAll(s, zones).samples| - |s.samples|
  {
    if zones != [] {
      var init := zones[..|zones| - 1];
      var last := zones[|zones| - 1];
      var mid := SeedAll(s, init);
      SeedAllProps(s, init);
      SaveRowsProps(mid, ZonePoints(last.parts, SampleIntervalDegree), last.name);
      assert SeedAll(s, zones).samples[..|mid.samples|] == mid.samples;
      assert mid.samples[..|s.samples|] == s.samples;
    }
  }

  /** Lines 117-149: for every zone, collect its points and save them. */
  method SeedZones(db: Database, zones: seq<Zone>)
    requires db.Valid()
    modifies db
    ensures db.Valid()
    ensures db.State() == SeedAll(old(db.State()), zones)
  {
    ghost var s0 := db.State();
    var z := 0;
    while z < |zones|
      invariant 0 <= z <= |zones|
      invariant db.Valid()
      invariant db.State() == SeedAll(s0, zones[..z])
    {
      var inZone := PointsInZone(zones[z].parts, SampleIntervalDegree);
      assert zones[..z + 1][..z] == zones[..z];
      SavePointsToDb(db, inZone, zones[z].name);
      z := z + 1;
    }
    assert zones[..|zones|] == zones;
  }
}
