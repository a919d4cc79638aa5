/** 03-search-date-and-copyright.py: claim a batch of panoramas whose date
    or copyright is missing, look each one up with
    `streetview.get_panorama_meta`, and overwrite both fields with what the
    lookup returns.

    The lookup is an input: a `MetaOutcome` per call. As in the panorama
    search, the thread pool is a sequential fold in the order the units'
    writes commit. */
module MetadataSearch {
  import opened TaskStore

  /** `SEARCH_BATCH_SIZE` of this script. */
  const MetadataBatchSize: nat := 100000

  /** What the metadata lookup gives back: `None`, a metadata record with
      optional date and copyright, or an exception. */
  datatype MetaOutcome = NoMeta | Meta(date: Option<string>, copyright: Option<string>) | MetaError

  /** The `status` that `search_and_update` logs for a unit. */
  datatype MetaStatus = Success | NoMetadata | Failed

  /** One completed future of the batch. */
  datatype MetaJob = MetaJob(panoId: string, outcome: MetaOutcome)

  /** The branches of `search_and_update`: no record, or a record with
      neither field, is logged as `no_metadata`; an exception as `error`;
      anything else runs the UPDATE and is logged as `success`. */
  function Status(outcome: MetaOutcome): MetaStatus {
    match outcome
    case NoMeta => NoMetadata
    case MetaError => Failed
    case Meta(date, copyright) => if date.None? && copyright.None? then NoMetadata else Success
  }

  /** The store after one unit: only a successful unit writes, and it writes
      both fields, whatever they hold. */
  function MetaStep(s: StoreState, panoId: string, outcome: MetaOutcome): StoreState {
    if Status(outcome) == Success
    then s.(panoramas := SetMetadata(s.panoramas, panoId, outcome.date, outcome.copyright))
    else s
  }

  function MetaFold(s: StoreState, jobs: seq<MetaJob>): StoreState {
    if jobs == [] then s
    else
      var last := jobs[|jobs| - 1];
      MetaStep(MetaFold(s, jobs[..|jobs| - 1]), last.panoId, last.outcome)
  }

  /** The columns the enricher never writes. */
  predicate SameFixedColumns(a: PanoramaRow, b: PanoramaRow) {
    a.lat == b.lat && a.lon == b.lon && a.heading == b.heading && a.pitch == b.pitch && a.roll == b.roll
  }

  // ---------------------------------------------------------------------
  // One unit

  /** A unit touches only the row it names, and in it only date and
      copyright; the sample table is untouched. */
  lemma MetaStepFrame(s: StoreState, panoId: string, outcome: MetaOutcome)
    ensures MetaStep(s, panoId, outcome).samples == s.samples
    ensures MetaStep(s, panoId, outcome).nextId == s.nextId
    ensures MetaStep(s, panoId, outcome).panoramas.Keys == s.panoramas.Keys
    ensures forall id :: id in s.panoramas && id != panoId ==>
              MetaStep(s, panoId, outcome).panoramas[id] == s.panoramas[id]
    ensures panoId in s.panoramas ==>
              SameFixedColumns(MetaStep(s, panoId, outcome).panoramas[panoId], s.panoramas[panoId])
  {
  }

  /** A successful unit on a stored panorama replaces both fields with the
      returned values, including a null that replaces a stored date. */
  lemma MetaStepOverwrites(s: StoreState, panoId: string, date: Option<string>, copyright: Option<string>)
    requires panoId in s.panoramas
    requires date.Some? || copyright.Some?
    ensures MetaStep(s, panoId, Meta(date, copyright)).panoramas[panoId].date == date
    ensures MetaStep(s, panoId, Meta(date, copyright)).panoramas[panoId].copyright == copyright
  {
  }

  /** No record, no fields, a lookup exception, or an unknown id: nothing
      changes. */
  lemma MetaStepNoOp(s: StoreState, panoId: string, outcome: MetaOutcome)
    requires Status(outcome) != Success || panoId !in s.panoramas
    ensures MetaStep(s, panoId, outcome) == s
  {
  }

  /** A row written with one field still null or empty is claimed again by
      the next batch. */
  lemma StaysEligible(s: StoreState, panoId: string, outcome: MetaOutcome)
    requires panoId in MissingMetadataIds(s.panoramas)
    requires outcome.Meta? ==> NullOrEmpty(outcome.date) || NullOrEmpty(outcome.copyright)
    ensures panoId in MissingMetadataIds(MetaStep(s, panoId, outcome).panoramas)
  {
  }

  /** A complete row leaves the claim; any other row keeps its eligibility. */
  lemma MetaStepEligibility(s: StoreState, panoId: string, outcome: MetaOutcome, id: string)
    requires id in s.panoramas
    ensures id in MissingMetadataIds(MetaStep(s, panoId, outcome).panoramas) <==>
            if id == panoId && Status(outcome) == Success
            then NullOrEmpty(outcome.date) || NullOrEmpty(outcome.copyright)
            else id in MissingMetadataIds(s.panoramas)
  {
  }

  lemma MetaStepIdempotent(s: StoreState, panoId: string, outcome: MetaOutcome)
    ensures MetaStep(MetaStep(s, panoId, outcome), panoId, outcome) == MetaStep(s, panoId, outcome)
  {
  }

  // ---------------------------------------------------------------------
  // A batch

  lemma {:induction false} MetaFoldAppend(s: StoreState, a: seq<MetaJob>, b: seq<MetaJob>)
    ensures MetaFold(s, a + b) == MetaFold(MetaFold(s, a), b)
    decreases |b|
  {
    if b == [] {
      assert a + b == a;
    } else {
      assert (a + b)[..|a + b| - 1] == a + b[..|b| - 1];
      MetaFoldAppend(s, a, b[..|b| - 1]);
    }
  }

  /** A unit that is not a success leaves the rest of the batch as if it had
      not been there. */
  lemma FailedUnitIsInert(s: StoreState, a: seq<MetaJob>, j: MetaJob, b: seq<MetaJob>)
    requires Status(j.outcome) != Success
    ensures MetaFold(s, a + [j] + b) == MetaFold(s, a + b)
  {
    MetaFoldAppend(s, a + [j], b);
    MetaFoldAppend(s, a, [j]);
    MetaFoldAppend(s, a, b);
    assert [j][..0] == [];
  }

  /** The enricher never creates or deletes panorama rows, never changes the
      columns other than date and copyright, and never touches the sample
      table. */
  lemma {:induction false} MetaFoldFrame(s: StoreState, jobs: seq<MetaJob>)
    ensures MetaFold(s, jobs).samples == s.samples
    ensures MetaFold(s, jobs).nextId == s.nextId
    ensures MetaFold(s, jobs).panoramas.Keys == s.panoramas.Keys
    ensures forall id :: id in s.panoramas ==>
              SameFixedColumns(MetaFold(s, jobs).panoramas[id], s.panoramas[id])
  {
    if jobs != [] {
      var init := jobs[..|jobs| - 1];
      var last := jobs[|jobs| - 1];
      MetaFoldFrame(s, init);
      MetaStepFrame(MetaFold(s, init), last.panoId, last.outcome);
    }
  }

  /** A panorama that no unit of the batch names is left as it was. */
  lemma {:induction false} MetaFoldUntouched(s: StoreState, jobs: seq<MetaJob>, id: string)
    requires id in s.panoramas
    requires forall k :: 0 <= k < |jobs| ==> jobs[k].panoId != id
    ensures id in MetaFold(s, jobs).panoramas
    ensures MetaFold(s, jobs).panoramas[id] == s.panoramas[id]
  {
    if jobs != [] {
      var init := jobs[..|jobs| - 1];
      var last := jobs[|jobs| - 1];
      MetaFoldUntouched(s, init, id);
      MetaFoldFrame(s, init);
      MetaStepFrame(MetaFold(s, init), last.panoId, last.outcome);
    }
  }

  /** In a batch of distinct ids, as every claim is, each named panorama ends
      with the fields of its own unit when that unit succeeded, and
      unchanged otherwise. */
  lemma MetaFoldDistinct(s: StoreState, jobs: seq<MetaJob>, k: nat)
    requires k < |jobs| && jobs[k].panoId in s.panoramas
    requires forall i, j :: 0 <= i < j < |jobs| ==> jobs[i].panoId != jobs[j].panoId
    ensures jobs[k].panoId in MetaFold(s, jobs).panoramas
    ensures MetaFold(s, jobs).panoramas[jobs[k].panoId]
            == if Status(jobs[k].outcome) == Success
               then s.panoramas[jobs[k].panoId].(date := jobs[k].outcome.date, copyright := jobs[k].outcome.copyright)
               else s.panoramas[jobs[k].panoId]
  {
    var id := jobs[k].panoId;
    var before, after := jobs[..k], jobs[k + 1..];
    assert jobs == before + [jobs[k]] + after;
    MetaFoldAppend(s, before + [jobs[k]], after);
    MetaFoldAppend(s, before, [jobs[k]]);
    assert [jobs[k]][..0] == [];
    MetaFoldUntouched(s, before, id);
    var mid := MetaFold(s, before + [jobs[k]]);
    MetaStepFrame(MetaFold(s, before), id, jobs[k].outcome);
    MetaFoldUntouched(mid, after, id);
  }

  /** A batch keeps the AUTOINCREMENT discipline of the sample table. */
  lemma MetaFoldWf(s: StoreState, jobs: seq<MetaJob>)
    requires Wf(s)
    ensures Wf(MetaFold(s, jobs))
  {
    MetaFoldFrame(s, jobs);
  }

  /** A panorama with null date and copyright whose lookup returns date
      "2020-05" and no copyright gets that date, keeps a null copyright, and
      is claimed again. */
  lemma PartialMetadataScenario(s: StoreState, panoId: string)
    requires panoId in s.panoramas
    requires s.panoramas[panoId].date == None && s.panoramas[panoId].copyright == None
    ensures MetaStep(s, panoId, Meta(Some("2020-05"), None)).panoramas[panoId].date == Some("2020-05")
    ensures MetaStep(s, panoId, Meta(Some("2020-05"), None)).panoramas[panoId].copyright == None
    ensures panoId in MissingMetadataIds(MetaStep(s, panoId, Meta(Some("2020-05"), None)).panoramas)
  {
  }

  // ---------------------------------------------------------------------
  // The script

  /** `get_panoramas_without_date_and_copyright(batch_size)`: the ids of a
      claim, no id twice, each with date or copyright missing. It changes
      nothing. */
  method GetPanoramasWithoutMetadata(db: Database, batchSize: nat) returns (ids: seq<string>)
    ensures |ids| == Min(batchSize, |MissingMetadataIds(db.panoramas)|)
    ensures forall k :: 0 <= k < |ids| ==> ids[k] in MissingMetadataIds(db.panoramas)
    ensures Distinct(ids)
  {
    var rows := db.SelectMissingMetadata(batchSize);
    ids := [];
    var i := 0;
    while i < |rows|
      invariant 0 <= i <= |rows|
      invariant |ids| == i
      invariant forall k :: 0 <= k < i ==> ids[k] == rows[k].0
    {
      ids := ids + [rows[i].0];
      i := i + 1;
    }
  }

  /** `search_and_update(pano_id)`, given what the lookup produced. Returns
      the status it logs. */
  method SearchAndUpdate(db: Database, panoId: string, outcome: MetaOutcome) returns (status: MetaStatus)
    requires db.Valid()
    modifies db
    ensures db.Valid()
    ensures db.State() == MetaStep(old(db.State()), panoId, outcome)
    ensures status == Status(outcome)
  {
    match outcome
    case MetaError =>
      status := Failed;
    case NoMeta =>
      status := NoMetadata;
    case Meta(date, copyright) =>
      if date.None? && copyright.None? {
        status := NoMetadata;
        return;
      }
      db.UpdateMetadata(panoId, date, copyright);
      status := Success;
  }

  /** The units of a batch in the order their writes commit: every unit
      runs, every exception is caught at the unit boundary (a lookup error
      inside `search_and_update` itself, line 142, anything else by the
      `try/except` at lines 165-168), and the store is the fold of the
      units. */
  method ProcessMetadataBatch(db: Database, jobs: seq<MetaJob>) returns (statuses: seq<MetaStatus>)
    requires db.Valid()
    modifies db
    ensures db.Valid()
    ensures db.State() == MetaFold(old(db.State()), jobs)
    ensures |statuses| == |jobs|
    ensures forall k :: 0 <= k < |jobs| ==> statuses[k] == Status(jobs[k].outcome)
  {
    ghost var s0 := db.State();
    statuses := [];
    var i := 0;
    while i < |jobs|
      invariant 0 <= i <= |jobs|
      invariant db.Valid()
      invariant db.State() == MetaFold(s0, jobs[..i])
      invariant |statuses| == i
      invariant forall k :: 0 <= k < i ==> statuses[k] == Status(jobs[k].outcome)
    {
      assert jobs[..i + 1][..i] == jobs[..i];
      var status := SearchAndUpdate(db, jobs[i].panoId, jobs[i].outcome);
      statuses := statuses + [status];
      i := i + 1;
    }
    assert jobs[..|jobs|] == jobs;
  }

  /** `run_batch_in_parallel`: claim `SEARCH_BATCH_SIZE` panoramas, stop
      when nothing is left (the script's `exit(0)`), otherwise run every
      claimed unit. Each unit commits its own update in its worker, so the
      store is the fold of the units in the order their writes commit: some
      reordering of the claim, which `order` names. */
  method RunMetadataBatch(db: Database, lookup: string -> MetaOutcome)
    returns (exhausted: bool, ids: seq<string>, order: seq<string>, statuses: seq<MetaStatus>)
    requires db.Valid()
    modifies db
    ensures db.Valid()
    ensures |ids| == Min(MetadataBatchSize, |MissingMetadataIds(old(db.panoramas))|)
    ensures exhausted <==> |ids| == 0
    ensures forall k :: 0 <= k < |ids| ==> ids[k] in MissingMetadataIds(old(db.panoramas))
    ensures |order| == |ids| && Distinct(order)
    ensures forall id :: id in order <==> id in ids
    ensures db.State() == MetaFold(old(db.State()), seq(|order|, k requires 0 <= k < |order| => MetaJob(order[k], lookup(order[k]))))
    ensures |statuses| == |order|
    ensures forall k :: 0 <= k < |order| ==> statuses[k] == Status(lookup(order[k]))
  {
    ids := GetPanoramasWithoutMetadata(db, MetadataBatchSize);
    if |ids| == 0 {
      return true, ids, [], [];
    }
    exhausted := false;
    order := PickAny(ids, |ids|);
    var jobs := seq(|order|, k requires 0 <= k < |order| => MetaJob(order[k], lookup(order[k])));
    statuses := ProcessMetadataBatch(db, jobs);
  }
}
