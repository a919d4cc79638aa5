/** 02-search-panorama.py: claim a batch of unsearched sample points, look
    each one up with `streetview.search_panoramas`, record the panoramas it
    finds with INSERT OR IGNORE, and mark the point searched.

    The lookup is an input: a `SearchOutcome` per call. The thread pool is a
    sequential fold over the units in the order their writes commit, which
    is itself left open. */
module PanoramaSearch {
  import opened TaskStore

  /** `SEARCH_BATCH_SIZE` and the default of `COUNT_NONE_FOUND_AS_SEARCHED`. */
  const SearchBatchSize: nat := 100000
  const CountNoneFoundAsSearched: bool := true

  /** A panorama as `streetview.search_panoramas` describes it. */
  datatype PanoResult = PanoResult(
    panoId: string, lat: real, lon: real, date: Option<string>,
    heading: real, pitch: real, roll: real)

  /** What the lookup of one point gives back: a list of panoramas (maybe
      empty), `None`, or an exception. */
  datatype SearchOutcome = Results(found: seq<PanoResult>) | NoneResult | LookupError

  /** What `search_and_insert` then does: return without writing, write the
      panoramas and mark the point, or raise (which the batch loop catches). */
  datatype UnitEffect = Skip | Record(found: seq<PanoResult>) | Raise

  datatype LatLon = LatLon(lat: real, lon: real)

  /** One completed future of the batch: the point and its lookup outcome. */
  datatype SearchJob = SearchJob(pointId: int, outcome: SearchOutcome)

  /** The row inserted for a panorama seen for the first time: every column
      copied from the result, and no copyright yet. */
  function NewRow(p: PanoResult): PanoramaRow {
    PanoramaRow(p.lat, p.lon, p.date, None, p.heading, p.pitch, p.roll)
  }

  /** The INSERT OR IGNORE loop over the results, in result order. */
  function InsertAll(m: map<string, PanoramaRow>, ps: seq<PanoResult>): map<string, PanoramaRow> {
    if ps == [] then m
    else InsertOrIgnore(InsertAll(m, ps[..|ps| - 1]), ps[|ps| - 1].panoId, NewRow(ps[|ps| - 1]))
  }

  function PanoIds(ps: seq<PanoResult>): set<string> {
    set p | p in ps :: p.panoId
  }

  /** The branches of `search_and_insert`, lines 86-96. A lookup exception
      propagates. A `None` result returns when the flag is off; when it is on,
      control falls through to `len(None)`, which raises. An empty list
      returns when the flag is off and is recorded (no panoramas, point
      marked) when it is on. */
  function Effect(outcome: SearchOutcome, countNoneAsSearched: bool): UnitEffect {
    match outcome
    case LookupError => Raise
    case NoneResult => if countNoneAsSearched then Raise else Skip
    case Results(found) => if |found| == 0 && !countNoneAsSearched then Skip else Record(found)
  }

  predicate Marks(outcome: SearchOutcome, countNoneAsSearched: bool) {
    Effect(outcome, countNoneAsSearched).Record?
  }

  /** The store after one unit. Only a recorded unit writes anything. */
  function SearchStep(s: StoreState, pointId: int, outcome: SearchOutcome, countNoneAsSearched: bool): StoreState {
    match Effect(outcome, countNoneAsSearched)
    case Record(found) =>
      s.(panoramas := InsertAll(s.panoramas, found), samples := SetSearched(s.samples, pointId))
    case _ => s
  }

  /** The store after the units of a batch, in the order they commit. */
  function SearchFold(s: StoreState, jobs: seq<SearchJob>, countNoneAsSearched: bool): StoreState {
    if jobs == [] then s
    else
      var last := jobs[|jobs| - 1];
      SearchStep(SearchFold(s, jobs[..|jobs| - 1], countNoneAsSearched), last.pointId, last.outcome, countNoneAsSearched)
  }

  /** Number of units whose exception the batch loop reports. */
  function Failures(jobs: seq<SearchJob>, countNoneAsSearched: bool): nat {
    if jobs == [] then 0
    else Failures(jobs[..|jobs| - 1], countNoneAsSearched)
         + (if Effect(jobs[|jobs| - 1].outcome, countNoneAsSearched) == Raise then 1 else 0)
  }

  // ---------------------------------------------------------------------
  // INSERT OR IGNORE

  /** A panorama already stored keeps its first-seen values. */
  lemma {:induction false} InsertAllKeeps(m: map<string, PanoramaRow>, ps: seq<PanoResult>, id: string)
    requires id in m
    ensures id in InsertAll(m, ps) && InsertAll(m, ps)[id] == m[id]
  {
    if ps != [] {
      InsertAllKeeps(m, ps[..|ps| - 1], id);
    }
  }

  /** The stored keys afterwards are the old keys plus the ids found. */
  lemma {:induction false} InsertAllKeys(m: map<string, PanoramaRow>, ps: seq<PanoResult>)
    ensures InsertAll(m, ps).Keys == m.Keys + PanoIds(ps)
  {
    if ps != [] {
      var init := ps[..|ps| - 1];
      InsertAllKeys(m, init);
      assert ps == init + [ps[|ps| - 1]];
      assert PanoIds(ps) == PanoIds(init) + {ps[|ps| - 1].panoId};
    }
  }

  /** A new panorama is stored from its first occurrence in the results:
      lat, lon, date, heading, pitch and roll copied, copyright null. */
  lemma {:induction false} InsertAllFirstSeen(m: map<string, PanoramaRow>, ps: seq<PanoResult>, i: nat)
    requires i < |ps| && ps[i].panoId !in m
    requires forall j :: 0 <= j < i ==> ps[j].panoId != ps[i].panoId
    ensures ps[i].panoId in InsertAll(m, ps)
    ensures InsertAll(m, ps)[ps[i].panoId] == NewRow(ps[i])
    ensures InsertAll(m, ps)[ps[i].panoId].copyright == None
  {
    var init := ps[..|ps| - 1];
    if i < |ps| - 1 {
      InsertAllFirstSeen(m, init, i);
    } else {
      InsertAllKeys(m, init);
      assert ps[i].panoId !in PanoIds(init);
    }
  }

  /** Inserting panoramas that are all present already changes nothing. */
  lemma {:induction false} InsertAllPresent(m: map<string, PanoramaRow>, ps: seq<PanoResult>)
    requires PanoIds(ps) <= m.Keys
    ensures InsertAll(m, ps) == m
  {
    if ps != [] {
      var init := ps[..|ps| - 1];
      assert ps == init + [ps[|ps| - 1]];
      assert PanoIds(init) <= PanoIds(ps);
      InsertAllPresent(m, init);
    }
  }

  /** Repeating the inserts of a result is a no-op. */
  lemma InsertAllIdempotent(m: map<string, PanoramaRow>, ps: seq<PanoResult>)
    ensures InsertAll(InsertAll(m, ps), ps) == InsertAll(m, ps)
  {
    InsertAllKeys(m, ps);
    InsertAllPresent(InsertAll(m, ps), ps);
  }

  // ---------------------------------------------------------------------
  // One unit

  /** Processing a point twice with the same outcome lands in the same state
      as processing it once. */
  lemma SearchStepIdempotent(s: StoreState, pointId: int, outcome: SearchOutcome, countNoneAsSearched: bool)
    ensures SearchStep(SearchStep(s, pointId, outcome, countNoneAsSearched), pointId, outcome, countNoneAsSearched)
            == SearchStep(s, pointId, outcome, countNoneAsSearched)
  {
    if Effect(outcome, countNoneAsSearched).Record? {
      InsertAllIdempotent(s.panoramas, Effect(outcome, countNoneAsSearched).found);
      SetSearchedIdempotent(s.samples, pointId);
    }
  }

  /** A retry after the panoramas of a point were written but the point was
      not yet marked lands in the same state as one uninterrupted unit. */
  lemma RetryAfterPartialWrite(s: StoreState, pointId: int, found: seq<PanoResult>, countNoneAsSearched: bool)
    ensures SearchStep(s.(panoramas := InsertAll(s.panoramas, found)), pointId, Results(found), countNoneAsSearched)
            == SearchStep(s, pointId, Results(found), countNoneAsSearched)
  {
    InsertAllIdempotent(s.panoramas, found);
  }

  /** One unit keeps the AUTOINCREMENT discipline and never unmarks a row. */
  lemma SearchStepWf(s: StoreState, pointId: int, outcome: SearchOutcome, countNoneAsSearched: bool)
    requires Wf(s)
    ensures Wf(SearchStep(s, pointId, outcome, countNoneAsSearched))
  {
  }

  // ---------------------------------------------------------------------
  // A batch

  lemma {:induction false} SearchFoldAppend(s: StoreState, a: seq<SearchJob>, b: seq<SearchJob>, countNoneAsSearched: bool)
    ensures SearchFold(s, a + b, countNoneAsSearched)
            == SearchFold(SearchFold(s, a, countNoneAsSearched), b, countNoneAsSearched)
    decreases |b|
  {
    if b == [] {
      assert a + b == a;
    } else {
      assert (a + b)[..|a + b| - 1] == a + b[..|b| - 1];
      SearchFoldAppend(s, a, b[..|b| - 1], countNoneAsSearched);
    }
  }

  /** A unit that fails or writes nothing leaves the rest of the batch as if
      it had not been there. */
  lemma NonRecordingUnitIsInert(s: StoreState, a: seq<SearchJob>, j: SearchJob, b: seq<SearchJob>, countNoneAsSearched: bool)
    requires !Marks(j.outcome, countNoneAsSearched)
    ensures SearchFold(s, a + [j] + b, countNoneAsSearched) == SearchFold(s, a + b, countNoneAsSearched)
  {
    SearchFoldAppend(s, a + [j], b, countNoneAsSearched);
    SearchFoldAppend(s, a, [j], countNoneAsSearched);
    SearchFoldAppend(s, a, b, countNoneAsSearched);
    assert [j][..0] == [];
  }

  /** A batch inserts and deletes no sample row. */
  lemma {:induction false} SearchFoldLength(s: StoreState, jobs: seq<SearchJob>, countNoneAsSearched: bool)
    ensures |SearchFold(s, jobs, countNoneAsSearched).samples| == |s.samples|
  {
    if jobs != [] {
      SearchFoldLength(s, jobs[..|jobs| - 1], countNoneAsSearched);
    }
  }

  /** After a batch every row keeps its id, coordinates and label, and is
      searched exactly when it was before or some unit of the batch for its
      id was recorded: the flag only moves forward. */
  lemma {:induction false} SearchFoldRow(s: StoreState, jobs: seq<SearchJob>, countNoneAsSearched: bool, k: nat)
    requires k < |s.samples|
    ensures |SearchFold(s, jobs, countNoneAsSearched).samples| == |s.samples|
    ensures SearchFold(s, jobs, countNoneAsSearched).samples[k]
            == s.samples[k].(searched := s.samples[k].searched ||
                 exists j :: 0 <= j < |jobs| && jobs[j].pointId == s.samples[k].id
                             && Marks(jobs[j].outcome, countNoneAsSearched))
  {
    if jobs != [] {
      var init := jobs[..|jobs| - 1];
      SearchFoldRow(s, init, countNoneAsSearched, k);
      var id := s.samples[k].id;
      var before := exists j :: 0 <= j < |init| && init[j].pointId == id && Marks(init[j].outcome, countNoneAsSearched);
      var after := exists j :: 0 <= j < |jobs| && jobs[j].pointId == id && Marks(jobs[j].outcome, countNoneAsSearched);
      if before {
        var j :| 0 <= j < |init| && init[j].pointId == id && Marks(init[j].outcome, countNoneAsSearched);
        assert jobs[j] == init[j];
      }
      if after && !before {
        var j :| 0 <= j < |jobs| && jobs[j].pointId == id && Marks(jobs[j].outcome, countNoneAsSearched);
        assert j == |jobs| - 1;
      }
    }
  }

  /** A point whose every unit in the batch got `None` stays as it was,
      whatever the flag says. */
  lemma NoneResultNeverMarks(s: StoreState, jobs: seq<SearchJob>, countNoneAsSearched: bool, k: nat)
    requires k < |s.samples|
    requires forall j :: 0 <= j < |jobs| && jobs[j].pointId == s.samples[k].id ==> jobs[j].outcome == NoneResult
    ensures |SearchFold(s, jobs, countNoneAsSearched).samples| == |s.samples|
    ensures SearchFold(s, jobs, countNoneAsSearched).samples[k] == s.samples[k]
  {
    SearchFoldRow(s, jobs, countNoneAsSearched, k);
  }

  /** Panoramas stored before the batch keep their values, and no key is
      removed. */
  lemma {:induction false} SearchFoldKeepsPanoramas(s: StoreState, jobs: seq<SearchJob>, countNoneAsSearched: bool, id: string)
    requires id in s.panoramas
    ensures id in SearchFold(s, jobs, countNoneAsSearched).panoramas
    ensures SearchFold(s, jobs, countNoneAsSearched).panoramas[id] == s.panoramas[id]
  {
    if jobs != [] {
      var init := jobs[..|jobs| - 1];
      var last := jobs[|jobs| - 1];
      SearchFoldKeepsPanoramas(s, init, countNoneAsSearched, id);
      var mid := SearchFold(s, init, countNoneAsSearched);
      if Marks(last.outcome, countNoneAsSearched) {
        InsertAllKeeps(mid.panoramas, Effect(last.outcome, countNoneAsSearched).found, id);
      }
    }
  }

  /** A batch keeps the AUTOINCREMENT discipline and inserts no sample rows. */
  lemma {:induction false} SearchFoldWf(s: StoreState, jobs: seq<SearchJob>, countNoneAsSearched: bool)
    requires Wf(s)
    ensures Wf(SearchFold(s, jobs, countNoneAsSearched))
    ensures SearchFold(s, jobs, countNoneAsSearched).nextId == s.nextId
  {
    if jobs != [] {
      var init := jobs[..|jobs| - 1];
      var last := jobs[|jobs| - 1];
      SearchFoldWf(s, init, countNoneAsSearched);
      SearchStepWf(SearchFold(s, init, countNoneAsSearched), last.pointId, last.outcome, countNoneAsSearched);
    }
  }

  /** Three seeded points. The lookup finds "p1" and "p2" at the first,
      nothing at the second, and fails at the third. Under the default
      policy one batch marks the first two, leaves the third unsearched and
      stores exactly two panoramas; the next claim can only be the third
      point, and a repeated failure there changes nothing. */
  lemma ThreePointScenario(a: PanoResult, b: PanoResult, zoneLabel: string)
    requires a.panoId == "p1" && b.panoId == "p2"
    ensures
      var s0 := StoreState([SampleRow(1, 0.0, 0.0, zoneLabel, false), SampleRow(2, 0.0, 1.0, zoneLabel, false),
                            SampleRow(3, 1.0, 0.0, zoneLabel, false)], 4, map[]);
      var s1 := SearchFold(s0, [SearchJob(1, Results([a, b])), SearchJob(2, Results([])), SearchJob(3, LookupError)],
                           CountNoneFoundAsSearched);
      && |s1.samples| == 3
      && s1.samples[0].searched && s1.samples[1].searched && s1.samples[2] == s0.samples[2]
      && s1.panoramas.Keys == {"p1", "p2"}
      && UnsearchedRows(s1.samples) == [s0.samples[2]]
      && SearchFold(s1, [SearchJob(3, LookupError)], CountNoneFoundAsSearched) == s1
  {
    var s0 := StoreState([SampleRow(1, 0.0, 0.0, zoneLabel, false), SampleRow(2, 0.0, 1.0, zoneLabel, false),
                          SampleRow(3, 1.0, 0.0, zoneLabel, false)], 4, map[]);
    var jobs := [SearchJob(1, Results([a, b])), SearchJob(2, Results([])), SearchJob(3, LookupError)];
    var flag := CountNoneFoundAsSearched;
    assert jobs[..2] == [jobs[0], jobs[1]] && jobs[..2][..1] == [jobs[0]] && [jobs[0]][..0] == [];
    assert [a, b][..1] == [a] && [a][..0] == [];
    var t1 := SearchStep(s0, 1, Results([a, b]), flag);
    assert SearchFold(s0, [jobs[0]], flag) == t1;
    InsertAllKeys(map[], [a, b]);
    assert PanoIds([a, b]) == {"p1", "p2"} by {
      assert a in [a, b] && b in [a, b];
    }
    assert t1.samples == [SampleRow(1, 0.0, 0.0, zoneLabel, true), s0.samples[1], s0.samples[2]];
    var t2 := SearchStep(t1, 2, Results([]), flag);
    assert SearchFold(s0, jobs[..2], flag) == t2;
    assert t2.samples == [SampleRow(1, 0.0, 0.0, zoneLabel, true), SampleRow(2, 0.0, 1.0, zoneLabel, true), s0.samples[2]];
    assert t2.panoramas == t1.panoramas;
    assert SearchFold(s0, jobs, flag) == t2;
    assert t2.samples[..2] == [t2.samples[0], t2.samples[1]] && t2.samples[..2][..1] == [t2.samples[0]];
    assert [t2.samples[0]][..0] == [];
    assert UnsearchedRows([t2.samples[0]]) == [];
    assert UnsearchedRows(t2.samples[..2]) == [];
    assert [SearchJob(3, LookupError)][..0] == [];
  }

  // ---------------------------------------------------------------------
  // The script

  /** A claimed point: the key and value of one entry of `points_dict`. */
  datatype Claim = Claim(pointId: int, at: LatLon)

  predicate DistinctClaims(points: seq<Claim>) {
    forall i, j :: 0 <= i < j < |points| ==> points[i].pointId != points[j].pointId
  }

  /** `get_unsearched_points(batch_size)`: the dictionary of claimed points,
      in insertion order. Each entry is an unsearched row at its stored
      coordinates, and no id occurs twice. It changes nothing. */
  method GetUnsearchedPoints(db: Database, batchSize: nat) returns (points: seq<Claim>)
    requires db.Valid()
    ensures |points| == Min(batchSize, |UnsearchedRows(db.samples)|)
    ensures forall k :: 0 <= k < |points| ==>
              UnsearchedAt(db.samples, points[k].pointId, points[k].at.lat, points[k].at.lon)
    ensures DistinctClaims(points)
  {
    var rows := db.SelectUnsearched(batchSize);
    points := [];
    var i := 0;
    while i < |rows|
      invariant 0 <= i <= |rows|
      invariant |points| == i
      invariant forall k :: 0 <= k < i ==> points[k] == Claim(rows[k].id, LatLon(rows[k].lat, rows[k].lon))
    {
      points := points + [Claim(rows[i].id, LatLon(rows[i].lat, rows[i].lon))];
      i := i + 1;
    }
    forall k | 0 <= k < |points|
      ensures UnsearchedAt(db.samples, points[k].pointId, points[k].at.lat, points[k].at.lon)
    {
      var m :| 0 <= m < |db.samples| && db.samples[m] == rows[k];
    }
  }

  /** `search_and_insert(point_id, lat, lon)`, given what the lookup at
      (lat, lon) produced. Returns whether the unit raised. */
  method SearchAndInsert(db: Database, pointId: int, outcome: SearchOutcome, countNoneAsSearched: bool)
    returns (raised: bool)
    requires db.Valid()
    modifies db
    ensures db.Valid()
    ensures db.State() == SearchStep(old(db.State()), pointId, outcome, countNoneAsSearched)
    ensures raised <==> Effect(outcome, countNoneAsSearched) == Raise
  {
    raised := false;
    match outcome
    case LookupError =>
      raised := true;
    case NoneResult =>
      if countNoneAsSearched {
        raised := true;
      }
    case Results(found) =>
      if |found| == 0 && !countNoneAsSearched {
        return;
      }
      ghost var m0 := db.panoramas;
      var i := 0;
      while i < |found|
        invariant 0 <= i <= |found|
        invariant db.samples == old(db.samples) && db.nextId == old(db.nextId)
        invariant db.panoramas == InsertAll(m0, found[..i])
      {
        assert found[..i + 1][..i] == found[..i];
        db.InsertOrIgnorePanorama(found[i].panoId, NewRow(found[i]));
        i := i + 1;
      }
      assert found[..|found|] == found;
      db.MarkSearched(pointId);
  }

  /** The units of a batch in the order their writes commit: every unit
      runs, every exception is caught at the unit boundary and counted, as
      the `try/except` at lines 142-146 does, and the store is the fold of
      the units. */
  method ProcessSearchBatch(db: Database, jobs: seq<SearchJob>, countNoneAsSearched: bool)
    returns (failures: nat)
    requires db.Valid()
    modifies db
    ensures db.Valid()
    ensures db.State() == SearchFold(old(db.State()), jobs, countNoneAsSearched)
    ensures failures == Failures(jobs, countNoneAsSearched)
  {
    ghost var s0 := db.State();
    failures := 0;
    var i := 0;
    while i < |jobs|
      invariant 0 <= i <= |jobs|
      invariant db.Valid()
      invariant db.State() == SearchFold(s0, jobs[..i], countNoneAsSearched)
      invariant failures == Failures(jobs[..i], countNoneAsSearched)
    {
      assert jobs[..i + 1][..i] == jobs[..i];
      var raised := SearchAndInsert(db, jobs[i].pointId, jobs[i].outcome, countNoneAsSearched);
      if raised {
        failures := failures + 1;
      }
      i := i + 1;
    }
    assert jobs[..|jobs|] == jobs;
  }

  /** Claims picked without repeats from claims with distinct point ids
      have distinct point ids. */
  lemma DistinctClaimsOfPick(picked: seq<Claim>, points: seq<Claim>)
    requires Distinct(picked) && DistinctClaims(points)
    requires forall c :: c in picked ==> c in points
    ensures DistinctClaims(picked)
  {
    forall i, j | 0 <= i < j < |picked| ensures picked[i].pointId != picked[j].pointId {
      assert picked[i] in picked && picked[j] in picked;
      var a :| 0 <= a < |points| && points[a] == picked[i];
      var b :| 0 <= b < |points| && points[b] == picked[j];
      assert a != b;
    }
  }

  /** The future submitted for a claimed point completes with the outcome of
      the lookup at that point's coordinates. */
  function Submit(c: Claim, lookup: (int, LatLon) -> SearchOutcome): SearchJob {
    SearchJob(c.pointId, lookup(c.pointId, c.at))
  }

  /** `run_batch_in_parallel`: claim `SEARCH_BATCH_SIZE` points, stop when
      nothing is left (the script's `exit(0)`), otherwise run every claimed
      unit. Each unit commits its own transaction in its worker, so the store
      is the fold of the units in the order their writes commit: some
      reordering of the claim, which `order` names. */
  method RunSearchBatch(db: Database, countNoneAsSearched: bool, lookup: (int, LatLon) -> SearchOutcome)
    returns (exhausted: bool, points: seq<Claim>, order: seq<Claim>, jobs: seq<SearchJob>, failures: nat)
    requires db.Valid()
    modifies db
    ensures db.Valid()
    ensures |points| == Min(SearchBatchSize, |UnsearchedRows(old(db.samples))|)
    ensures exhausted <==> |points| == 0
    ensures forall k :: 0 <= k < |points| ==>
              UnsearchedAt(old(db.samples), points[k].pointId, points[k].at.lat, points[k].at.lon)
    ensures DistinctClaims(points)
    ensures |order| == |points| && DistinctClaims(order)
    ensures forall c :: c in order <==> c in points
    ensures |jobs| == |order|
    ensures forall k :: 0 <= k < |jobs| ==> jobs[k] == Submit(order[k], lookup)
    ensures db.State() == SearchFold(old(db.State()), jobs, countNoneAsSearched)
    ensures failures == Failures(jobs, countNoneAsSearched)
  {
    points := GetUnsearchedPoints(db, SearchBatchSize);
    if |points| == 0 {
      return true, points, [], [], 0;
    }
    exhausted := false;
    order := PickAny(points, |points|);
    DistinctClaimsOfPick(order, points);
    jobs := seq(|order|, k requires 0 <= k < |order| => Submit(order[k], lookup));
    failures := ProcessSearchBatch(db, jobs, countNoneAsSearched);
  }
}
