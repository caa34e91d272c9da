/**
  `insert_data_from_csv`, the place-seeding routine of the back-end scripts:
  keep the first CSV row of every landmark, then turn each kept row into a
  `places` record, starting from fixed defaults and overwriting them with what
  the Google Maps text search and the Wikipedia page report.

  Maps and Wikipedia are not called: each is a parameter, a function from the
  query (the place name) to the response it gives. The database insert is the
  record appended to the method's output.
 */
module PlaceSeeding {
  import opened Wrappers

  /** A CSV row; only the columns the routine reads. */
  datatype CsvRow = CsvRow(landmarkId: string, name: string, url: string)

  /** One entry of a Maps text-search response's `results`. */
  datatype MapsPlace = MapsPlace(
    formattedAddress: string,
    lat: real,
    lng: real,
    types: seq<string>,
    placeId: string)

  /** A Maps text-search response: its `status` and its `results`. */
  datatype MapsResponse = MapsResponse(status: string, results: seq<MapsPlace>)

  /** A Wikipedia page: whether it exists, its summary, and its language links (language code to title). */
  datatype WikiPage = WikiPage(pageExists: bool, summary: string, langlinks: map<string, string>)

  /** The record inserted into the `places` table. */
  datatype PlaceRecord = PlaceRecord(
    name: string,
    image: string,
    description: string,
    address: string,
    location: string,
    category: string,
    rating: real,
    latitude: real,
    longitude: real,
    externalLink: string,
    arabicName: string)

  /** The one failure modelled: a Maps hit whose first result has no `types` (an IndexError). */
  datatype SeedError = NoPlaceType(placeName: string)

  const DefaultAddress := "Default address"
  const DefaultType := "Default Type"
  const NoExternalLink := "No external link yet"
  const NoDescription := "No description yet"
  const NoArabicName := "Not available yet"
  const DefaultLocation := "Default location"
  const MapsLinkPrefix := "https://www.google.com/maps/place/?q=place_id:"
  const DescriptionPrefix := "Description: "
  const SummaryLimit: nat := 500
  const ArabicCode := "ar"

  // ---------------------------------------------------------------------
  // De-duplication by landmark
  // ---------------------------------------------------------------------

  /** The landmark ids occurring in `rows`. */
  function Ids(rows: seq<CsvRow>): set<string>
  {
    set r | r in rows :: r.landmarkId
  }

  /** Row i is the first row with its landmark id. */
  predicate IsFirst(rows: seq<CsvRow>, i: nat)
    requires i < |rows|
  {
    forall j :: 0 <= j < i ==> rows[j].landmarkId != rows[i].landmarkId
  }

  /** The rows kept by the de-duplication: the first row of each landmark, in input order. */
  function FirstOccurrences(rows: seq<CsvRow>): (kept: seq<CsvRow>)
    ensures |kept| <= |rows|
  {
    if rows == [] then []
    else
      var init, last := rows[..|rows| - 1], rows[|rows| - 1];
      if last.landmarkId in Ids(init) then FirstOccurrences(init) else FirstOccurrences(init) + [last]
  }

  /** The positions in `rows` of the kept rows. */
  ghost function KeptIndices(rows: seq<CsvRow>): seq<nat>
  {
    if rows == [] then []
    else
      var init, last := rows[..|rows| - 1], rows[|rows| - 1];
      if last.landmarkId in Ids(init) then KeptIndices(init) else KeptIndices(init) + [|rows| - 1]
  }

  /** The seen-set loop over the CSV rows. */
  method DedupByLandmark(rows: seq<CsvRow>) returns (kept: seq<CsvRow>)
    ensures kept == FirstOccurrences(rows)
  {
    var seen: set<string> := {};
    kept := [];
    for i := 0 to |rows|
      invariant seen == Ids(rows[..i])
      invariant kept == FirstOccurrences(rows[..i])
    {
      var row := rows[i];
      assert rows[..i + 1][..i] == rows[..i];
      assert Ids(rows[..i + 1]) == Ids(rows[..i]) + {row.landmarkId} by {
        assert rows[..i + 1] == rows[..i] + [row];
      }
      if row.landmarkId !in seen {
        seen := seen + {row.landmarkId};
        kept := kept + [row];
      }
    }
    assert rows[..|rows|] == rows;
  }

  /** No two kept rows share a landmark id. */
  lemma {:induction false} KeptIdsDistinct(rows: seq<CsvRow>)
    ensures forall i, j :: 0 <= i < j < |FirstOccurrences(rows)| ==>
              FirstOccurrences(rows)[i].landmarkId != FirstOccurrences(rows)[j].landmarkId
  {
    if rows != [] {
      var init, last := rows[..|rows| - 1], rows[|rows| - 1];
      KeptIdsDistinct(init);
      KeptIdsCover(init);
    }
  }

  /** The kept rows have exactly the landmark ids of the input. */
  lemma {:induction false} KeptIdsCover(rows: seq<CsvRow>)
    ensures Ids(FirstOccurrences(rows)) == Ids(rows)
  {
    if rows != [] {
      var init, last := rows[..|rows| - 1], rows[|rows| - 1];
      KeptIdsCover(init);
      assert rows == init + [last];
      assert Ids(rows) == Ids(init) + {last.landmarkId};
      if last.landmarkId !in Ids(init) {
        assert Ids(FirstOccurrences(init) + [last]) == Ids(FirstOccurrences(init)) + {last.landmarkId};
      }
    }
  }

  /** The last row is kept iff it is the first row of its landmark id. */
  lemma LastKeptIffFirst(rows: seq<CsvRow>)
    requires rows != []
    ensures rows[|rows| - 1].landmarkId !in Ids(rows[..|rows| - 1]) <==> IsFirst(rows, |rows| - 1)
  {
    var init, n := rows[..|rows| - 1], |rows| - 1;
    if rows[n].landmarkId in Ids(init) {
      var r :| r in init && r.landmarkId == rows[n].landmarkId;
      var j :| 0 <= j < |init| && init[j] == r;
      assert rows[j].landmarkId == rows[n].landmarkId;
    } else {
      forall j | 0 <= j < n ensures rows[j].landmarkId != rows[n].landmarkId {
        assert init[j] in init;
      }
    }
  }

  /**
    The kept rows are the input rows at strictly increasing positions, and
    each of those positions holds the first row of its landmark id.
   */
  lemma {:induction false} KeptAreFirstOccurrences(rows: seq<CsvRow>)
    ensures var kept, idx := FirstOccurrences(rows), KeptIndices(rows);
            && |idx| == |kept|
            && (forall k :: 0 <= k < |idx| ==> idx[k] < |rows| && kept[k] == rows[idx[k]] && IsFirst(rows, idx[k]))
            && (forall k, l :: 0 <= k < l < |idx| ==> idx[k] < idx[l])
  {
    if rows != [] {
      var init := rows[..|rows| - 1];
      KeptAreFirstOccurrences(init);
      LastKeptIffFirst(rows);
      var idx0 := KeptIndices(init);
      forall k | 0 <= k < |idx0| ensures IsFirst(rows, idx0[k]) {
        assert IsFirst(init, idx0[k]);
      }
    }
  }

  /** Every row that is the first of its landmark id is kept. */
  lemma {:induction false} EveryFirstOccurrenceKept(rows: seq<CsvRow>)
    ensures forall i :: 0 <= i < |rows| && IsFirst(rows, i) ==> i in KeptIndices(rows)
  {
    if rows != [] {
      var init, n := rows[..|rows| - 1], |rows| - 1;
      EveryFirstOccurrenceKept(init);
      LastKeptIffFirst(rows);
      forall i | 0 <= i < n && IsFirst(rows, i) ensures i in KeptIndices(init) {
        assert IsFirst(init, i);
      }
    }
  }

  // ---------------------------------------------------------------------
  // Building one record
  // ---------------------------------------------------------------------

  /** `str.replace('_', ' ')`. */
  function SpacedName(name: string): (r: string)
    ensures |r| == |name|
    ensures forall i :: 0 <= i < |name| ==> r[i] == if name[i] == '_' then ' ' else name[i]
    ensures '_' !in r
  {
    if name == [] then []
    else [if name[0] == '_' then ' ' else name[0]] + SpacedName(name[1..])
  }

  /** The slice `s[:n]`: the first n characters, or all of s if shorter. */
  function Truncate(s: string, n: nat): (r: string)
    ensures |r| == if |s| <= n then |s| else n
    ensures r == s[..|r|]
  {
    if |s| <= n then s else s[..n]
  }

  /** The Maps search found something usable: status "OK" and a non-empty result list. */
  predicate MapsHit(resp: MapsResponse)
  {
    resp.status == "OK" && |resp.results| > 0
  }

  /** The record keeps the defaults of the five Maps-derived fields. */
  predicate KeepsMapsDefaults(rec: PlaceRecord)
  {
    && rec.address == DefaultAddress
    && rec.latitude == 0.0
    && rec.longitude == 0.0
    && rec.category == DefaultType
    && rec.externalLink == NoExternalLink
  }

  /** The five Maps-derived fields come from `info`; the link is the fixed prefix and its place id. */
  predicate FromMapsPlace(rec: PlaceRecord, info: MapsPlace)
  {
    && rec.address == info.formattedAddress
    && rec.latitude == info.lat
    && rec.longitude == info.lng
    && |info.types| > 0 && rec.category == info.types[0]
    && rec.externalLink == MapsLinkPrefix + info.placeId
  }

  /** `desc` is the description prefix followed by the summary's first SummaryLimit characters. */
  predicate DescribesSummary(desc: string, summary: string)
  {
    && |DescriptionPrefix| <= |desc|
    && desc[..|DescriptionPrefix|] == DescriptionPrefix
    && var rest := desc[|DescriptionPrefix|..];
    && |rest| == (if |summary| <= SummaryLimit then |summary| else SummaryLimit)
    && rest == summary[..|rest|]
  }

  /** `rec` is the record the routine builds for `row` given the Maps response and the Wikipedia page. */
  predicate Describes(rec: PlaceRecord, row: CsvRow, resp: MapsResponse, page: WikiPage)
  {
    && rec.name == SpacedName(row.name)
    && rec.image == row.url
    && rec.location == DefaultLocation
    && rec.rating == 0.0
    && (if MapsHit(resp) then FromMapsPlace(rec, resp.results[0]) else KeepsMapsDefaults(rec))
    && (if page.pageExists then DescribesSummary(rec.description, page.summary) else rec.description == NoDescription)
    && rec.arabicName == if page.pageExists && ArabicCode in page.langlinks then page.langlinks[ArabicCode] else NoArabicName
  }

  /** A Maps hit whose first result has no type: reading `types[0]` fails. */
  predicate TypeMissing(resp: MapsResponse)
  {
    MapsHit(resp) && |resp.results[0].types| == 0
  }

  /** `Describes` pins the record down: two records that both satisfy it are equal. */
  lemma DescribesIsFunctional(a: PlaceRecord, b: PlaceRecord, row: CsvRow, resp: MapsResponse, page: WikiPage)
    requires Describes(a, row, resp, page) && Describes(b, row, resp, page)
    ensures a == b
  {
    if page.pageExists {
      var n := |DescriptionPrefix|;
      assert a.description == a.description[..n] + a.description[n..];
      assert b.description == b.description[..n] + b.description[n..];
    }
  }

  /** The response of each service for the row's place name. */
  function MapsFor(row: CsvRow, maps: string -> MapsResponse): MapsResponse
  {
    maps(SpacedName(row.name))
  }

  function WikiFor(row: CsvRow, wiki: string -> WikiPage): WikiPage
  {
    wiki(SpacedName(row.name))
  }

  /** The per-row body: defaults first, overwritten by a Maps hit and by an existing page. */
  method BuildRecord(row: CsvRow, maps: string -> MapsResponse, wiki: string -> WikiPage)
    returns (r: Result<PlaceRecord, SeedError>)
    ensures r.Failure? <==> TypeMissing(MapsFor(row, maps))
    ensures r.Success? ==> Describes(r.value, row, MapsFor(row, maps), WikiFor(row, wiki))
  {
    var placeName := SpacedName(row.name);

    var mapsAddr := DefaultAddress;
    var mapsLat := 0.0;
    var mapsLong := 0.0;
    var mapsType := DefaultType;
    var mapsLink := NoExternalLink;
    var quickDesc := NoDescription;
    var arTitle := NoArabicName;

    var results := maps(placeName);
    if MapsHit(results) {
      var placeInfo := results.results[0];
      mapsAddr := placeInfo.formattedAddress;
      mapsLat := placeInfo.lat;
      mapsLong := placeInfo.lng;
      if |placeInfo.types| == 0 {
        return Failure(NoPlaceType(placeName));
      }
      mapsType := placeInfo.types[0];
      mapsLink := MapsLinkPrefix + placeInfo.placeId;
    }

    var page := wiki(placeName);
    if page.pageExists {
      quickDesc := DescriptionPrefix + Truncate(page.summary, SummaryLimit);
      if ArabicCode in page.langlinks {
        arTitle := page.langlinks[ArabicCode];
      }
    }

    r := Success(PlaceRecord(
      name := placeName,
      image := row.url,
      description := quickDesc,
      address := mapsAddr,
      location := DefaultLocation,
      category := mapsType,
      rating := 0.0,
      latitude := mapsLat,
      longitude := mapsLong,
      externalLink := mapsLink,
      arabicName := arTitle));
  }

  // ---------------------------------------------------------------------
  // The whole routine
  // ---------------------------------------------------------------------

  /**
    De-duplicate the rows, then build and insert one record per kept row, in
    order. A row whose record cannot be built stops the routine; the records
    inserted before it stay inserted.
   */
  method InsertDataFromCsv(rows: seq<CsvRow>, maps: string -> MapsResponse, wiki: string -> WikiPage)
    returns (inserted: seq<PlaceRecord>, failure: Option<SeedError>)
    ensures var kept := FirstOccurrences(rows);
            && |inserted| <= |kept| <= |rows|
            && (failure.None? <==> |inserted| == |kept|)
            && (forall i :: 0 <= i < |inserted| ==>
                  Describes(inserted[i], kept[i], MapsFor(kept[i], maps), WikiFor(kept[i], wiki)))
            && (failure.Some? ==> TypeMissing(MapsFor(kept[|inserted|], maps)))
            && (forall i :: 0 <= i < |inserted| ==> !TypeMissing(MapsFor(kept[i], maps)))
  {
    var places := DedupByLandmark(rows);
    inserted := [];
    failure := None;
    var i := 0;
    while i < |places|
      invariant 0 <= i <= |places|
      invariant |inserted| == i
      invariant forall k :: 0 <= k < i ==>
                  Describes(inserted[k], places[k], MapsFor(places[k], maps), WikiFor(places[k], wiki))
      invariant forall k :: 0 <= k < i ==> !TypeMissing(MapsFor(places[k], maps))
    {
      var data := BuildRecord(places[i], maps, wiki);
      if data.Failure? {
        failure := Some(data.error);
        return;
      }
      inserted := inserted + [data.value];
      i := i + 1;
    }
  }
}
