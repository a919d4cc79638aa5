/** 04-check-progress.py: the read-only counts over `gsv.db` and the
    progress report computed from them. The ratios are exact rationals
    here; their float formatting is not modelled. */
module Progress {
  import opened TaskStore
  import PanoramaSearch

  datatype Result<T, E> = Ok(value: T) | Err(error: E)

  /** `SELECT COUNT(*) FROM sample_coords WHERE searched = 0` */
  function CountUnsearchedPoints(s: StoreState): (n: nat)
    ensures n <= CountTotalPoints(s)
  {
    UnsearchedRowsLength(s.samples);
    |UnsearchedRows(s.samples)|
  }

  /** `SELECT COUNT(*) FROM sample_coords` */
  function CountTotalPoints(s: StoreState): nat {
    |s.samples|
  }

  /** `SELECT COUNT(*) FROM search_panoramas` */
  function CountTotalPanoramas(s: StoreState): nat {
    |s.panoramas|
  }

  /** `date IS NOT NULL AND date != '' AND copyright IS NOT NULL AND copyright != ''` */
  predicate HasCompleteMetadata(row: PanoramaRow) {
    row.date.Some? && row.date.value != "" && row.copyright.Some? && row.copyright.value != ""
  }

  function CompleteMetadataIds(m: map<string, PanoramaRow>): set<string> {
    set id | id in m && HasCompleteMetadata(m[id])
  }

  /** `SELECT COUNT(*) FROM search_panoramas WHERE <complete metadata>` */
  function CountPanoramasWithMetadata(s: StoreState): (n: nat)
    ensures n <= CountTotalPanoramas(s)
  {
    SubsetCard(CompleteMetadataIds(s.panoramas), s.panoramas.Keys);
    |CompleteMetadataIds(s.panoramas)|
  }

  lemma SubsetCard(a: set<string>, b: set<string>)
    requires a <= b
    ensures |a| <= |b|
  {
    assert b == a + (b - a);
    assert a * (b - a) == {};
    assert |a + (b - a)| + |a * (b - a)| == |a| + |b - a|;
  }

  /** `searched_points = total_points - unsearched_points` */
  function SearchedPoints(s: StoreState): nat {
    CountTotalPoints(s) - CountUnsearchedPoints(s)
  }

  /** `searched = 1`, in row order: the reference for the searched count. */
  function SearchedRows(rows: seq<SampleRow>): seq<SampleRow> {
    if rows == [] then []
    else SearchedRows(rows[..|rows| - 1])
         + (if rows[|rows| - 1].searched then [rows[|rows| - 1]] else [])
  }

  /** Every row is either searched or unsearched. */
  lemma {:induction false} SearchedPlusUnsearched(rows: seq<SampleRow>)
    ensures |SearchedRows(rows)| + |UnsearchedRows(rows)| == |rows|
  {
    if rows != [] {
      SearchedPlusUnsearched(rows[..|rows| - 1]);
    }
  }

  /** The subtraction of the script counts exactly the searched rows. */
  lemma SearchedPointsCount(s: StoreState)
    ensures SearchedPoints(s) == |SearchedRows(s.samples)|
  {
    SearchedPlusUnsearched(s.samples);
  }

  /** The completeness predicate is the negation of the claim predicate of
      the metadata search. */
  lemma CompleteIsNotMissing(row: PanoramaRow)
    ensures HasCompleteMetadata(row) <==> !NeedsMetadata(row)
  {
  }

  /** Complete and still-missing panoramas partition the table. */
  lemma CompletePlusMissing(m: map<string, PanoramaRow>)
    ensures |CompleteMetadataIds(m)| + |MissingMetadataIds(m)| == |m|
  {
    var c, e := CompleteMetadataIds(m), MissingMetadataIds(m);
    assert c + e == m.Keys;
    assert c * e == {};
    assert |c + e| + |c * e| == |c| + |e|;
  }

  /** The flag only moves forward, row by row, so fewer rows can be
      unsearched afterwards. */
  lemma {:induction false} UnsearchedMonotone(before: seq<SampleRow>, after: seq<SampleRow>)
    requires |before| == |after|
    requires forall k :: 0 <= k < |before| ==> before[k].searched ==> after[k].searched
    ensures |UnsearchedRows(after)| <= |UnsearchedRows(before)|
  {
    if before != [] {
      UnsearchedMonotone(before[..|before| - 1], after[..|after| - 1]);
    }
  }

  /** A search batch never raises the unsearched count or lowers the
      searched count, and adds no sample row. */
  lemma SearchBatchProgress(s: StoreState, jobs: seq<PanoramaSearch.SearchJob>, countNoneAsSearched: bool)
    ensures CountTotalPoints(PanoramaSearch.SearchFold(s, jobs, countNoneAsSearched)) == CountTotalPoints(s)
    ensures CountUnsearchedPoints(PanoramaSearch.SearchFold(s, jobs, countNoneAsSearched)) <= CountUnsearchedPoints(s)
    ensures SearchedPoints(PanoramaSearch.SearchFold(s, jobs, countNoneAsSearched)) >= SearchedPoints(s)
  {
    var t := PanoramaSearch.SearchFold(s, jobs, countNoneAsSearched);
    PanoramaSearch.SearchFoldLength(s, jobs, countNoneAsSearched);
    forall k | 0 <= k < |s.samples|
      ensures s.samples[k].searched ==> t.samples[k].searched
    {
      PanoramaSearch.SearchFoldRow(s, jobs, countNoneAsSearched, k);
    }
    UnsearchedMonotone(s.samples, t.samples);
  }

  /** What the script prints, before formatting. */
  datatype ProgressReport = ProgressReport(
    searchedPoints: nat, totalPoints: nat,
    totalPanoramas: nat, panoramasWithMetadata: nat,
    pointSearchProgress: real, panoramaPointsRatio: real,
    metadataProgress: real, expectedTotalPanoramas: real)

  /** The `ZeroDivisionError` the script stops with: at line 91 when there
      are no points, at line 95 when there are no panoramas, at line 97 when
      no point is searched yet. */
  datatype ReportError = NoPoints | NoPanoramas | NoSearchedPoints

  /** The report the script prints for counts whose divisions all succeed:
      each ratio is the quotient of its counts. */
  function Ratios(searched: nat, total: nat, panoramas: nat, withMetadata: nat): (p: ProgressReport)
    requires 0 < searched <= total && withMetadata <= panoramas && 0 < panoramas
    ensures p.searchedPoints == searched && p.totalPoints == total
    ensures p.totalPanoramas == panoramas && p.panoramasWithMetadata == withMetadata
    ensures p.pointSearchProgress * total as real == searched as real
    ensures p.panoramaPointsRatio * searched as real == panoramas as real
    ensures p.metadataProgress * panoramas as real == withMetadata as real
    ensures p.expectedTotalPanoramas == total as real * p.panoramaPointsRatio
    ensures 0.0 < p.pointSearchProgress <= 1.0
    ensures 0.0 <= p.metadataProgress <= 1.0
    ensures p.expectedTotalPanoramas >= panoramas as real
  {
    RatioBounds(searched, total, panoramas, withMetadata);
    var ratio := panoramas as real / searched as real;
    ProgressReport(searched, total, panoramas, withMetadata,
                   searched as real / total as real, ratio,
                   withMetadata as real / panoramas as real, total as real * ratio)
  }

  /** The main block: the counts, then the three divisions in script order. */
  function Report(s: StoreState): (r: Result<ProgressReport, ReportError>)
    ensures r.Ok? <==> CountTotalPoints(s) > 0 && CountTotalPanoramas(s) > 0 && SearchedPoints(s) > 0
    ensures r == Err(NoPoints) <==> CountTotalPoints(s) == 0
    ensures r == Err(NoPanoramas) <==> CountTotalPoints(s) > 0 && CountTotalPanoramas(s) == 0
    ensures r == Err(NoSearchedPoints) <==>
              CountTotalPoints(s) > 0 && CountTotalPanoramas(s) > 0 && SearchedPoints(s) == 0
    ensures r.Ok? ==> r.value.totalPoints == CountTotalPoints(s)
    ensures r.Ok? ==> r.value.searchedPoints == |SearchedRows(s.samples)|
    ensures r.Ok? ==> r.value.searchedPoints + CountUnsearchedPoints(s) == r.value.totalPoints
    ensures r.Ok? ==> r.value.totalPanoramas == CountTotalPanoramas(s)
    ensures r.Ok? ==> r.value.panoramasWithMetadata == CountPanoramasWithMetadata(s)
    ensures r.Ok? ==> r.value.pointSearchProgress * r.value.totalPoints as real == r.value.searchedPoints as real
    ensures r.Ok? ==> r.value.panoramaPointsRatio * r.value.searchedPoints as real == r.value.totalPanoramas as real
    ensures r.Ok? ==> r.value.metadataProgress * r.value.totalPanoramas as real == r.value.panoramasWithMetadata as real
    ensures r.Ok? ==> r.value.expectedTotalPanoramas == r.value.totalPoints as real * r.value.panoramaPointsRatio
    ensures r.Ok? ==> 0.0 < r.value.pointSearchProgress <= 1.0
    ensures r.Ok? ==> 0.0 <= r.value.metadataProgress <= 1.0
    ensures r.Ok? ==> r.value.expectedTotalPanoramas >= r.value.totalPanoramas as real
  {
    var total := CountTotalPoints(s);
    var searched := SearchedPoints(s);
    var panoramas := CountTotalPanoramas(s);
    var withMetadata := CountPanoramasWithMetadata(s);
    if total == 0 then Err(NoPoints)
    else if panoramas == 0 then Err(NoPanoramas)
    else if searched == 0 then Err(NoSearchedPoints)
    else
      SearchedPointsCount(s);
      Ok(Ratios(searched, total, panoramas, withMetadata))
  }

  /** The arithmetic behind the bounds of the report. */
  lemma RatioBounds(searched: nat, total: nat, panoramas: nat, withMetadata: nat)
    requires 0 < searched <= total && withMetadata <= panoramas && 0 < panoramas
    ensures 0.0 < searched as real / total as real <= 1.0
    ensures 0.0 <= withMetadata as real / panoramas as real <= 1.0
    ensures total as real * (panoramas as real / searched as real) >= panoramas as real
    ensures (searched as real / total as real) * total as real == searched as real
    ensures (panoramas as real / searched as real) * searched as real == panoramas as real
    ensures (withMetadata as real / panoramas as real) * panoramas as real == withMetadata as real
  {
    var r := panoramas as real / searched as real;
    assert r * searched as real == panoramas as real;
    assert total as real * r >= searched as real * r;
  }
}
