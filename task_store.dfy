/** The SQLite database `gsv.db` that the four scripts share: the tables
    `sample_coords` and `search_panoramas`, and the SQL statements the
    scripts run against them. */
module TaskStore {

  datatype Option<T> = None | Some(value: T)

  /** A row of `sample_coords`. The scripts store and forward lat/lon but
      never compute with them. */
  datatype SampleRow = SampleRow(id: int, lat: real, lon: real, zoneLabel: string, searched: bool)

  /** A row of `search_panoramas`; its primary key `pano_id` is the map key. */
  datatype PanoramaRow = PanoramaRow(
    lat: real, lon: real,
    date: Option<string>, copyright: Option<string>,
    heading: real, pitch: real, roll: real)

  /** A snapshot of the whole database. `nextId` is the id the AUTOINCREMENT
      column hands out next. */
  datatype StoreState = StoreState(
    samples: seq<SampleRow>, nextId: int, panoramas: map<string, PanoramaRow>)

  function Min(a: int, b: int): int { if a <= b then a else b }

  /** The AUTOINCREMENT discipline of `sample_coords.id`: ids are positive,
      strictly increasing in insertion order, and below the next id. Rows are
      never deleted, so the next id also exceeds every id ever used. */
  predicate Wf(s: StoreState) {
    && s.nextId >= 1
    && (forall k :: 0 <= k < |s.samples| ==> 1 <= s.samples[k].id < s.nextId)
    && (forall i, j :: 0 <= i < j < |s.samples| ==> s.samples[i].id < s.samples[j].id)
  }

  /** `WHERE searched = 0`, in row order. */
  function UnsearchedRows(rows: seq<SampleRow>): seq<SampleRow> {
    if rows == [] then []
    else UnsearchedRows(rows[..|rows| - 1])
         + (if rows[|rows| - 1].searched then [] else [rows[|rows| - 1]])
  }

  /** The row with id `id` exists, is unsearched, and sits at (lat, lon). */
  predicate UnsearchedAt(rows: seq<SampleRow>, id: int, lat: real, lon: real) {
    exists k :: 0 <= k < |rows| && rows[k] == SampleRow(id, lat, lon, rows[k].zoneLabel, false)
  }

  /** `UPDATE sample_coords SET searched = 1 WHERE id = ?`: every row with
      that id (at most one in a well-formed store) gets the flag. */
  function SetSearched(rows: seq<SampleRow>, id: int): seq<SampleRow> {
    seq(|rows|, k requires 0 <= k < |rows| =>
      if rows[k].id == id then rows[k].(searched := true) else rows[k])
  }

  /** `INSERT OR IGNORE INTO search_panoramas`: a row whose key is present
      already is dropped. */
  function InsertOrIgnore(m: map<string, PanoramaRow>, id: string, row: PanoramaRow): map<string, PanoramaRow> {
    if id in m then m else m[id := row]
  }

  /** `UPDATE search_panoramas SET date = ?, copyright = ? WHERE pano_id = ?`:
      a key that is absent matches no row. */
  function SetMetadata(m: map<string, PanoramaRow>, id: string, date: Option<string>, copyright: Option<string>)
    : map<string, PanoramaRow>
  {
    if id in m then m[id := m[id].(date := date, copyright := copyright)] else m
  }

  /** `date IS NULL OR date = ''` */
  predicate NullOrEmpty(t: Option<string>) { t.None? || t.value == "" }

  /** The selection of 03-search-date-and-copyright.py: date or copyright is
      null or empty. */
  predicate NeedsMetadata(row: PanoramaRow) {
    NullOrEmpty(row.date) || NullOrEmpty(row.copyright)
  }

  function MissingMetadataIds(m: map<string, PanoramaRow>): set<string> {
    set id | id in m && NeedsMetadata(m[id])
  }

  lemma {:induction false} UnsearchedRowsLength(rows: seq<SampleRow>)
    ensures |UnsearchedRows(rows)| <= |rows|
  {
    if rows != [] {
      UnsearchedRowsLength(rows[..|rows| - 1]);
    }
  }

  /** Every selected row is an unsearched row of the table. */
  lemma {:induction false} UnsearchedRowsMember(rows: seq<SampleRow>, r: SampleRow)
    ensures r in UnsearchedRows(rows) <==> r in rows && !r.searched
  {
    if rows != [] {
      var init := rows[..|rows| - 1];
      UnsearchedRowsMember(init, r);
      assert rows == init + [rows[|rows| - 1]];
    }
  }

  /** Filtering keeps the id order of a well-formed table, so the selected
      ids are distinct. */
  lemma {:induction false} UnsearchedRowsIncreasing(rows: seq<SampleRow>)
    requires forall i, j :: 0 <= i < j < |rows| ==> rows[i].id < rows[j].id
    ensures forall i, j :: 0 <= i < j < |UnsearchedRows(rows)| ==>
              UnsearchedRows(rows)[i].id < UnsearchedRows(rows)[j].id
  {
    if rows != [] {
      var init := rows[..|rows| - 1];
      var last := rows[|rows| - 1];
      UnsearchedRowsIncreasing(init);
      if !last.searched {
        var u := UnsearchedRows(init);
        forall k | 0 <= k < |u| ensures u[k].id < last.id {
          UnsearchedRowsMember(init, u[k]);
        }
      }
    }
  }

  lemma {:induction false} UnsearchedRowsAppend(a: seq<SampleRow>, b: seq<SampleRow>)
    ensures UnsearchedRows(a + b) == UnsearchedRows(a) + UnsearchedRows(b)
    decreases |b|
  {
    if b == [] {
      assert a + b == a;
    } else {
      var init := b[..|b| - 1];
      assert (a + b)[..|a + b| - 1] == a + init;
      UnsearchedRowsAppend(a, init);
    }
  }

  /** Marking a row twice is the same as marking it once, and nothing but
      the flag of the matching rows changes. */
  lemma SetSearchedIdempotent(rows: seq<SampleRow>, id: int)
    ensures SetSearched(SetSearched(rows, id), id) == SetSearched(rows, id)
    ensures |SetSearched(rows, id)| == |rows|
    ensures forall k :: 0 <= k < |rows| ==>
              SetSearched(rows, id)[k] == rows[k].(searched := rows[k].searched || rows[k].id == id)
  {
  }

  predicate DistinctIds(rows: seq<SampleRow>) {
    forall i, j :: 0 <= i < j < |rows| ==> rows[i].id != rows[j].id
  }

  /** A sequence without repeats. */
  predicate Distinct<T(==)>(xs: seq<T>) {
    forall i, j :: 0 <= i < j < |xs| ==> xs[i] != xs[j]
  }

  /** Taking one element out of a sequence without repeats. */
  lemma TakeOut<T>(pool: seq<T>, k: nat)
    requires k < |pool| && Distinct(pool)
    ensures Distinct(pool[..k] + pool[k + 1..])
    ensures forall x :: x in pool[..k] + pool[k + 1..] <==> x in pool && x != pool[k]
  {
    var rest := pool[..k] + pool[k + 1..];
    assert forall j :: 0 <= j < |rest| ==> rest[j] == pool[if j < k then j else j + 1];
    forall x | x in pool && x != pool[k] ensures x in rest {
      var j :| 0 <= j < |pool| && pool[j] == x;
      assert rest[if j < k then j else j - 1] == x;
    }
  }

  /** Any `limit` of the elements of a sequence without repeats (all of
      them when there are fewer), each at most once, in any order. This is
      the choice `ORDER BY RANDOM() LIMIT` makes, and, with no limit, the
      order in which the units' writes commit. */
  method PickAny<T(==)>(pool: seq<T>, limit: nat) returns (picked: seq<T>)
    requires Distinct(pool)
    ensures |picked| == Min(limit, |pool|)
    ensures Distinct(picked)
    ensures forall x :: x in picked ==> x in pool
    ensures limit >= |pool| ==> forall x :: x in pool ==> x in picked
  {
    var pending := pool;
    picked := [];
    while |picked| < limit && pending != []
      invariant |picked| + |pending| == |pool|
      invariant |picked| <= limit
      invariant Distinct(picked) && Distinct(pending)
      invariant forall i, j :: 0 <= i < |picked| && 0 <= j < |pending| ==> picked[i] != pending[j]
      invariant forall x :: x in pool <==> x in picked || x in pending
      decreases |pending|
    {
      var k :| 0 <= k < |pending|;
      TakeOut(pending, k);
      picked := picked + [pending[k]];
      pending := pending[..k] + pending[k + 1..];
    }
  }

  /** Rows picked without repeats from rows with distinct ids have distinct
      ids. */
  lemma DistinctIdsOfPick(picked: seq<SampleRow>, pool: seq<SampleRow>)
    requires Distinct(picked) && DistinctIds(pool)
    requires forall r :: r in picked ==> r in pool
    ensures DistinctIds(picked)
  {
    forall i, j | 0 <= i < j < |picked| ensures picked[i].id != picked[j].id {
      assert picked[i] in picked && picked[j] in picked;
      var a :| 0 <= a < |pool| && pool[a] == picked[i];
      var b :| 0 <= b < |pool| && pool[b] == picked[j];
      assert a != b;
    }
  }

  /** The database file. Its methods are the SQL statements the scripts run:
      each statement is atomic, as SQLite makes it. */
  class Database {
    var samples: seq<SampleRow>
    var nextId: int
    var panoramas: map<string, PanoramaRow>

    function State(): StoreState
      reads this
    {
      StoreState(samples, nextId, panoramas)
    }

    predicate Valid()
      reads this
    {
      Wf(State())
    }

    /** `setup_database` on a new file: both `CREATE TABLE IF NOT EXISTS`
        statements create empty tables, and AUTOINCREMENT starts at 1. */
    constructor ()
      ensures Valid()
      ensures State() == StoreState([], 1, map[])
    {
      samples := [];
      nextId := 1;
      panoramas := map[];
    }

    /** `INSERT INTO sample_coords VALUES (NULL, lat, lon, label, False)`. */
    method InsertSample(lat: real, lon: real, zoneLabel: string) returns (id: int)
      requires Valid()
      modifies this
      ensures Valid()
      ensures id == old(nextId) && nextId == old(nextId) + 1
      ensures samples == old(samples) + [SampleRow(id, lat, lon, zoneLabel, false)]
      ensures panoramas == old(panoramas)
    {
      id := nextId;
      samples := samples + [SampleRow(id, lat, lon, zoneLabel, false)];
      nextId := nextId + 1;
    }

    /** `INSERT OR IGNORE INTO search_panoramas VALUES (...)`. */
    method InsertOrIgnorePanorama(panoId: string, row: PanoramaRow)
      requires Valid()
      modifies this
      ensures Valid()
      ensures samples == old(samples) && nextId == old(nextId)
      ensures panoramas == InsertOrIgnore(old(panoramas), panoId, row)
    {
      if panoId !in panoramas {
        panoramas := panoramas[panoId := row];
      }
    }

    /** `UPDATE sample_coords SET searched = 1 WHERE id = ?`. */
    method MarkSearched(id: int)
      requires Valid()
      modifies this
      ensures Valid()
      ensures samples == SetSearched(old(samples), id)
      ensures nextId == old(nextId) && panoramas == old(panoramas)
    {
      samples := SetSearched(samples, id);
    }

    /** `UPDATE search_panoramas SET date = ?, copyright = ? WHERE pano_id = ?`. */
    method UpdateMetadata(panoId: string, date: Option<string>, copyright: Option<string>)
      requires Valid()
      modifies this
      ensures Valid()
      ensures samples == old(samples) && nextId == old(nextId)
      ensures panoramas == SetMetadata(old(panoramas), panoId, date, copyright)
    {
      if panoId in panoramas {
        panoramas := panoramas[panoId := panoramas[panoId].(date := date, copyright := copyright)];
      }
    }

    /** `SELECT ... FROM sample_coords WHERE searched = 0 ORDER BY RANDOM() LIMIT ?`:
        any `limit` of the unsearched rows (all of them when there are fewer),
        each at most once, in any order. It changes nothing. */
    method SelectUnsearched(limit: nat) returns (rows: seq<SampleRow>)
      requires Valid()
      ensures |rows| == Min(limit, |UnsearchedRows(samples)|)
      ensures forall k :: 0 <= k < |rows| ==> rows[k] in samples && !rows[k].searched
      ensures DistinctIds(rows)
    {
      var pool := UnsearchedRows(samples);
      forall r | r in pool ensures r in samples && !r.searched {
        UnsearchedRowsMember(samples, r);
      }
      UnsearchedRowsIncreasing(samples);
      rows := PickAny(pool, limit);
      DistinctIdsOfPick(rows, pool);
    }

    /** `SELECT * FROM search_panoramas WHERE date IS NULL OR date = '' OR
        copyright IS NULL OR copyright = '' ORDER BY RANDOM() LIMIT ?`:
        any `limit` of the qualifying rows, each key at most once, in any
        order. It changes nothing. */
    method SelectMissingMetadata(limit: nat) returns (rows: seq<(string, PanoramaRow)>)
      ensures |rows| == Min(limit, |MissingMetadataIds(panoramas)|)
      ensures forall k :: 0 <= k < |rows| ==>
                rows[k].0 in panoramas && panoramas[rows[k].0] == rows[k].1 && NeedsMetadata(rows[k].1)
      ensures forall i, j :: 0 <= i < j < |rows| ==> rows[i].0 != rows[j].0
    {
      var pool := MissingMetadataIds(panoramas);
      rows := [];
      while |rows| < limit && pool != {}
        invariant |rows| + |pool| == |MissingMetadataIds(panoramas)|
        invariant |rows| <= limit
        invariant pool <= MissingMetadataIds(panoramas)
        invariant forall k :: 0 <= k < |rows| ==>
                    rows[k].0 in panoramas && panoramas[rows[k].0] == rows[k].1 && NeedsMetadata(rows[k].1)
        invariant forall i, j :: 0 <= i < j < |rows| ==> rows[i].0 != rows[j].0
        invariant forall i :: 0 <= i < |rows| ==> rows[i].0 !in pool
        decreases |pool|
      {
        var id :| id in pool;
        rows := rows + [(id, panoramas[id])];
        pool := pool - {id};
      }
    }
  }
}
