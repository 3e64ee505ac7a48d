/** What each query of app.py computes from the current documents, as
    functions, and the properties those results have. The methods in module
    App compute them with the source's loops. */
module Queries {
  import opened Records
  import opened Dicts
  import opened Cities

  /** The six state-vector components get_epoch returns. */
  const Xyz: seq<string> := ["X", "Y", "Z", "X_DOT", "Y_DOT", "Z_DOT"]

  /** The fields country_data copies from each matching pass (`country_list`). */
  const CountryFields: seq<string> :=
    ["region", "city", "spacecraft", "sighting_date", "duration_minutes", "max_elevation",
     "enters", "exits", "utc_offset", "utc_time", "utc_date"]

  /** A counting dictionary together with the counter `j` that the response
      sentence ("There are {j} ...") reports. */
  datatype Listing = Listing(counts: Dict<nat>, j: nat)

  // ---------------------------------------------------------------------
  // get_epochs

  /** Each vector's EPOCH followed by a newline, in stored order. */
  function EpochLines(vs: seq<Record>): string
    requires HasAll(vs, "EPOCH")
    decreases |vs|
  {
    if vs == [] then "" else EpochLines(vs[..|vs| - 1]) + vs[|vs| - 1]["EPOCH"] + "\n"
  }

  function Epochs(positions: Doc): Result<string>
  {
    match positions
    case NoData => Err
    case Items(vs) => if HasAll(vs, "EPOCH") then Ok(EpochLines(vs)) else Err
  }

  // ---------------------------------------------------------------------
  // get_epoch

  /** get_epoch as written: the `return` sits inside the loop, so only
      vector 0 is examined. A match on vector 0 breaks out and the function
      returns None; otherwise vector 0's components are returned whatever
      the query. */
  function FirstVectorFields(positions: Doc, epoch: string): Result<Option<Record>>
  {
    match positions
    case NoData => Err
    case Items(vs) =>
      if vs == [] then Ok(None)
      else if "EPOCH" !in vs[0] then Err
      else if epoch == vs[0]["EPOCH"] then Ok(None)
      else if HasFields(vs[0], Xyz) then Ok(Some(Project(vs[0], Xyz)))
      else Err
  }

  /** Every vector from `i` up to `k` has an EPOCH, and it is not `epoch`. */
  predicate Passed(vs: seq<Record>, epoch: string, i: nat, k: nat)
    requires k <= |vs|
  {
    forall m :: i <= m < k ==> "EPOCH" in vs[m] && vs[m]["EPOCH"] != epoch
  }

  /** The search loop `for i ...: if epoch == vs[i]['EPOCH']: break`, from
      index `i`: the first matching index, None when no vector matches, Err
      when a vector reached before any match has no EPOCH (ScanEpochMissing). */
  function ScanEpoch(vs: seq<Record>, epoch: string, i: nat): (r: Result<Option<nat>>)
    requires i <= |vs|
    ensures r.Ok? && r.value.Some? ==>
      var k := r.value.value;
      i <= k < |vs| && "EPOCH" in vs[k] && vs[k]["EPOCH"] == epoch && Passed(vs, epoch, i, k)
    ensures r == Ok(None) <==> Passed(vs, epoch, i, |vs|)
    decreases |vs| - i
  {
    if i == |vs| then Ok(None)
    else if "EPOCH" !in vs[i] then Err
    else if vs[i]["EPOCH"] == epoch then Ok(Some(i))
    else ScanEpoch(vs, epoch, i + 1)
  }

  /** The lookup get_epoch's doc comment describes: the components of the
      first vector whose EPOCH equals the query, None when there is none. */
  function EpochLookup(positions: Doc, epoch: string): Result<Option<Record>>
  {
    match positions
    case NoData => Err
    case Items(vs) =>
      match ScanEpoch(vs, epoch, 0)
      case Err => Err
      case Ok(None) => Ok(None)
      case Ok(Some(k)) => if HasFields(vs[k], Xyz) then Ok(Some(Project(vs[k], Xyz))) else Err
  }

  // ---------------------------------------------------------------------
  // list_countries, country_data, list_regions

  function CountryListing(sightings: Doc): Result<Listing>
  {
    match sightings
    case NoData => Err
    case Items(ps) =>
      if HasAll(ps, "country") then
        var d := Tally(Column(ps, "country"));
        Ok(Listing(d, |d.keys|))
      else Err
  }

  predicate AllHaveFields(rs: seq<Record>, fields: seq<string>)
  {
    forall k :: 0 <= k < |rs| ==> HasFields(rs[k], fields)
  }

  /** The list country_data serialises: one projected record per pass of
      the country. */
  function CountryRecords(sightings: Doc, country: string): Result<seq<Record>>
  {
    match sightings
    case NoData => Err
    case Items(ps) =>
      if HasAll(ps, "country") && AllHaveFields(Matching(ps, country), CountryFields)
      then Ok(ProjectAll(Matching(ps, country), CountryFields))
      else Err
  }

  /** The region counts of list_regions, before the counter is attached. */
  function RegionTally(sightings: Doc, country: string): Result<Dict<nat>>
  {
    match sightings
    case NoData => Err
    case Items(ps) =>
      if HasAll(ps, "country") && HasAll(Matching(ps, country), "region")
      then Ok(Tally(Column(Matching(ps, country), "region")))
      else Err
  }

  function RegionListing(sightings: Doc, country: string): Result<Listing>
  {
    match RegionTally(sightings, country)
    case Err => Err
    case Ok(d) => Ok(Listing(d, |d.keys|))
  }

  // ---------------------------------------------------------------------
  // region_data, list_cities, city_data (each re-reads the previous query's
  // JSON; a failed query's error_string does not parse, giving Err)

  /** The list region_data stores under the region's key. */
  function RegionRecords(sightings: Doc, country: string, region: string): Result<seq<Record>>
  {
    match CountryRecords(sightings, country)
    case Err => Err
    case Ok(rs) => if HasAll(rs, "region") then Ok(SelectStrip(rs, "region", region)) else Err
  }

  /** region_data's one-key dictionary `{region: records}`. */
  function RegionView(sightings: Doc, country: string, region: string): Result<map<string, seq<Record>>>
  {
    match RegionRecords(sightings, country, region)
    case Err => Err
    case Ok(l) => Ok(map[region := l])
  }

  function CityList(sightings: Doc, country: string, region: string): Result<CityListing>
  {
    match RegionRecords(sightings, country, region)
    case Err => Err
    case Ok(rs) => if HasAll(rs, "city") then Ok(CityLabels(Column(rs, "city"))) else Err
  }

  /** The list city_data stores under the city's key. */
  function CityRecords(sightings: Doc, country: string, region: string, city: string): Result<seq<Record>>
  {
    match RegionRecords(sightings, country, region)
    case Err => Err
    case Ok(rs) => if HasAll(rs, "city") then Ok(SelectStrip(rs, "city", city)) else Err
  }

  /** city_data's dictionary `{city: records}` and its counter `j`. */
  function CityView(sightings: Doc, country: string, region: string, city: string)
    : Result<(map<string, seq<Record>>, nat)>
  {
    match CityRecords(sightings, country, region, city)
    case Err => Err
    case Ok(l) => Ok((map[city := l], |l|))
  }

  // =====================================================================
  // Properties

  /** Before any load both globals are `{}`: every query gives error_string. */
  lemma NothingBeforeLoad(epoch: string, country: string, region: string, city: string)
    ensures Epochs(NoData) == Err && FirstVectorFields(NoData, epoch) == Err
    ensures CountryListing(NoData) == Err && CountryRecords(NoData, country) == Err
    ensures RegionListing(NoData, country) == Err && RegionView(NoData, country, region) == Err
    ensures CityList(NoData, country, region) == Err && CityView(NoData, country, region, city) == Err
  {
  }

  /** The epoch listing is the concatenation, in order, of one line per vector. */
  lemma {:induction false} EpochLinesConcat(a: seq<Record>, b: seq<Record>)
    requires HasAll(a, "EPOCH") && HasAll(b, "EPOCH")
    ensures HasAll(a + b, "EPOCH")
    ensures EpochLines(a + b) == EpochLines(a) + EpochLines(b)
    decreases |b|
  {
    assert HasAll(a + b, "EPOCH") by {
      forall k | 0 <= k < |a + b| ensures "EPOCH" in (a + b)[k] {
        if k < |a| { assert (a + b)[k] == a[k]; } else { assert (a + b)[k] == b[k - |a|]; }
      }
    }
    if b != [] {
      var b' := b[..|b| - 1];
      assert HasAll(b', "EPOCH") by {
        forall k | 0 <= k < |b'| ensures "EPOCH" in b'[k] { assert b'[k] == b[k]; }
      }
      assert (a + b)[..|a + b| - 1] == a + b';
      assert (a + b)[|a + b| - 1] == b[|b| - 1];
      EpochLinesConcat(a, b');
    } else {
      assert a + b == a;
    }
  }

  lemma EpochListing(vs: seq<Record>)
    ensures Epochs(Items(vs)).Ok? <==> HasAll(vs, "EPOCH")
    ensures Epochs(Items([])) == Ok("")
    ensures forall v :: "EPOCH" in v ==>
      Epochs(Items(vs + [v])) == (if HasAll(vs, "EPOCH") then Ok(EpochLines(vs) + v["EPOCH"] + "\n") else Err)
  {
    forall v | "EPOCH" in v
      ensures Epochs(Items(vs + [v])) == if HasAll(vs, "EPOCH") then Ok(EpochLines(vs) + v["EPOCH"] + "\n") else Err
    {
      assert (vs + [v])[..|vs|] == vs;
      if !HasAll(vs, "EPOCH") {
        var k :| 0 <= k < |vs| && "EPOCH" !in vs[k];
        assert (vs + [v])[k] == vs[k];
      }
    }
  }

  /** get_epoch as written answers from vector 0 alone, and which of vector
      0's components it returns does not depend on the query. */
  lemma FirstVectorOnly(vs: seq<Record>, rest: seq<Record>, e1: string, e2: string)
    requires vs != [] && "EPOCH" in vs[0]
    requires e1 != vs[0]["EPOCH"] && e2 != vs[0]["EPOCH"]
    ensures FirstVectorFields(Items(vs), e1) == FirstVectorFields(Items([vs[0]] + rest), e2)
    ensures FirstVectorFields(Items(vs), e1) == if HasFields(vs[0], Xyz) then Ok(Some(Project(vs[0], Xyz))) else Err
    ensures FirstVectorFields(Items(vs), vs[0]["EPOCH"]) == Ok(None)
  {
  }

  /** With two vectors of different epochs, get_epoch as written answers
      None for vector 0's epoch, which exists, and answers vector 0's
      components for vector 1's epoch, where the intended lookup answers
      vector 1's. The two answers differ whenever the vectors' X differ. */
  lemma FirstVectorMisses(v0: Record, v1: Record)
    requires "EPOCH" in v0 && "EPOCH" in v1 && v0["EPOCH"] != v1["EPOCH"]
    requires HasFields(v0, Xyz) && HasFields(v1, Xyz)
    requires "X" in v0 && "X" in v1 && v0["X"] != v1["X"]
    ensures FirstVectorFields(Items([v0, v1]), v0["EPOCH"]) == Ok(None)
    ensures FirstVectorFields(Items([v0, v1]), v1["EPOCH"]) == Ok(Some(Project(v0, Xyz)))
    ensures EpochLookup(Items([v0, v1]), v1["EPOCH"]) == Ok(Some(Project(v1, Xyz)))
    ensures Project(v0, Xyz) != Project(v1, Xyz)
  {
    assert Project(v0, Xyz)["X"] == v0["X"];
    assert ScanEpoch([v0, v1], v1["EPOCH"], 1) == Ok(Some(1));
  }

  /** Vector `k` is the first one whose EPOCH is `epoch`. */
  predicate FirstWithEpoch(vs: seq<Record>, epoch: string, k: nat)
  {
    k < |vs| && "EPOCH" in vs[k] && vs[k]["EPOCH"] == epoch && Passed(vs, epoch, 0, k)
  }

  /** The search stops at the first vector carrying the epoch. */
  lemma {:induction false} ScanEpochFrom(vs: seq<Record>, epoch: string, i: nat, k: nat)
    requires i <= k < |vs| && "EPOCH" in vs[k] && vs[k]["EPOCH"] == epoch
    requires Passed(vs, epoch, i, k)
    ensures ScanEpoch(vs, epoch, i) == Ok(Some(k))
    decreases k - i
  {
    if i < k {
      assert "EPOCH" in vs[i] && vs[i]["EPOCH"] != epoch;
      assert Passed(vs, epoch, i + 1, k);
      ScanEpochFrom(vs, epoch, i + 1, k);
      assert ScanEpoch(vs, epoch, i) == ScanEpoch(vs, epoch, i + 1);
    }
  }

  /** The search fails at a vector without EPOCH reached before any match. */
  lemma {:induction false} ScanEpochMissing(vs: seq<Record>, epoch: string, i: nat, k: nat)
    requires i <= k < |vs| && "EPOCH" !in vs[k]
    requires Passed(vs, epoch, i, k)
    ensures ScanEpoch(vs, epoch, i) == Err
    decreases k - i
  {
    if i < k {
      assert "EPOCH" in vs[i] && vs[i]["EPOCH"] != epoch;
      assert Passed(vs, epoch, i + 1, k);
      ScanEpochMissing(vs, epoch, i + 1, k);
      assert ScanEpoch(vs, epoch, i) == ScanEpoch(vs, epoch, i + 1);
    }
  }

  lemma ScanEpochFirst(vs: seq<Record>, epoch: string, k: nat)
    requires FirstWithEpoch(vs, epoch, k)
    ensures ScanEpoch(vs, epoch, 0) == Ok(Some(k))
  {
    ScanEpochFrom(vs, epoch, 0, k);
  }

  /** The intended lookup returns the first vector carrying the epoch. */
  lemma EpochLookupFinds(vs: seq<Record>, epoch: string)
    ensures EpochLookup(Items(vs), epoch) == Ok(None) <==> Passed(vs, epoch, 0, |vs|)
    ensures forall k: nat :: FirstWithEpoch(vs, epoch, k) && HasFields(vs[k], Xyz) ==>
      EpochLookup(Items(vs), epoch) == Ok(Some(Project(vs[k], Xyz)))
    ensures EpochLookup(Items(vs), epoch).Ok? && EpochLookup(Items(vs), epoch).value.Some? ==>
      exists k :: 0 <= k < |vs| && FirstWithEpoch(vs, epoch, k) && HasFields(vs[k], Xyz) &&
        EpochLookup(Items(vs), epoch).value.value == Project(vs[k], Xyz)
  {
    var r := ScanEpoch(vs, epoch, 0);
    if r.Ok? && r.value.Some? {
      assert FirstWithEpoch(vs, epoch, r.value.value);
    }
    forall k: nat | FirstWithEpoch(vs, epoch, k) && HasFields(vs[k], Xyz)
      ensures EpochLookup(Items(vs), epoch) == Ok(Some(Project(vs[k], Xyz)))
    {
      ScanEpochFirst(vs, epoch, k);
    }
  }

  lemma {:induction false} MatchingCount(ps: seq<Record>, c: string)
    requires HasAll(ps, "country")
    ensures |Matching(ps, c)| == multiset(Column(ps, "country"))[c]
    decreases |ps|
  {
    if ps != [] {
      var init := ps[..|ps| - 1];
      MatchingCount(init, c);
      assert Column(ps, "country") == Column(init, "country") + [ps[|ps| - 1]["country"]];
    }
  }

  /** list_countries: the keys are the distinct countries in order of first
      appearance, each count is the number of passes from that country (so
      at least 1), the counts add up to the number of passes, and `j` is the
      number of countries. */
  lemma CountryListingCounts(ps: seq<Record>)
    requires HasAll(ps, "country")
    ensures CountryListing(Items(ps)).Ok?
    ensures var l := CountryListing(Items(ps)).value; var cs := Column(ps, "country");
      && l.counts.keys == Distinct(cs)
      && (forall c :: c in l.counts.vals <==> c in cs)
      && (forall c :: c in l.counts.vals ==> l.counts.vals[c] == multiset(cs)[c] >= 1)
      && SumOver(l.counts.keys, l.counts.vals) == |ps|
      && (forall a, b :: 0 <= a < b < |l.counts.keys| ==>
            FirstIndex(cs, l.counts.keys[a]) < FirstIndex(cs, l.counts.keys[b]))
      && l.j == |l.counts.keys|
  {
    var cs := Column(ps, "country");
    TallyCounts(cs);
    TallySum(cs);
    DistinctOrder(cs);
  }

  /** The literal facts about CountryFields the lemmas below rely on. */
  lemma CountryFieldNames()
    ensures "region" in CountryFields && "city" in CountryFields && "country" !in CountryFields
  {
  }

  /** Every country_data record has exactly the fields of CountryFields. */
  lemma ProjectedFields(rs: seq<Record>)
    requires AllHaveFields(rs, CountryFields)
    ensures forall k :: 0 <= k < |rs| ==> ProjectAll(rs, CountryFields)[k].Keys == FieldSet(CountryFields)
    ensures HasAll(ProjectAll(rs, CountryFields), "region") && HasAll(ProjectAll(rs, CountryFields), "city")
  {
    ProjectAllKeys(rs, CountryFields);
    CountryFieldNames();
    ProjectAllHas(rs, CountryFields, "region");
    ProjectAllHas(rs, CountryFields, "city");
  }

  /** country_data: exact (case-sensitive) matching on `country`, one record
      per matching pass in input order, each holding exactly the eleven
      fields of CountryFields (so no `country`). */
  lemma CountryRecordsShape(ps: seq<Record>, country: string)
    requires CountryRecords(Items(ps), country).Ok?
    ensures var rs := CountryRecords(Items(ps), country).value; var ms := Matching(ps, country);
      && (forall p :: p in ms <==> p in ps && p["country"] == country)
      && |rs| == |ms| == multiset(Column(ps, "country"))[country]
      && (forall k :: 0 <= k < |rs| ==> rs[k] == Project(ms[k], CountryFields))
      && (forall k :: 0 <= k < |rs| ==> rs[k].Keys == FieldSet(CountryFields) && "country" !in rs[k])
  {
    MatchingSelects(ps, country);
    MatchingCount(ps, country);
    ProjectedFields(Matching(ps, country));
    CountryFieldNames();
  }

  /** list_regions: counts per region of the country's passes, each at least
      1, adding up to the number of the country's passes; `j` is the number
      of regions. */
  lemma RegionListingCounts(ps: seq<Record>, country: string)
    requires RegionListing(Items(ps), country).Ok?
    ensures var l := RegionListing(Items(ps), country).value; var rs := Column(Matching(ps, country), "region");
      && l.counts.keys == Distinct(rs)
      && (forall r :: r in l.counts.vals ==> l.counts.vals[r] == multiset(rs)[r] >= 1)
      && SumOver(l.counts.keys, l.counts.vals) == |Matching(ps, country)|
      && l.j == |l.counts.keys|
  {
    var rs := Column(Matching(ps, country), "region");
    TallyCounts(rs);
    TallySum(rs);
  }

  /** A country no pass carries is "loaded, no matches", not an error. */
  lemma AbsentCountry(ps: seq<Record>, country: string, region: string, city: string)
    requires HasAll(ps, "country")
    requires forall k :: 0 <= k < |ps| ==> ps[k]["country"] != country
    ensures CountryRecords(Items(ps), country) == Ok([])
    ensures RegionListing(Items(ps), country) == Ok(Listing(Empty(), 0))
    ensures RegionView(Items(ps), country, region) == Ok(map[region := []])
    ensures CityList(Items(ps), country, region) == Ok(CityListing(Empty(), 0))
    ensures CityView(Items(ps), country, region, city) == Ok((map[city := []], 0))
  {
    MatchingAbsent(ps, country);
  }

  /** region_data fails exactly when country_data does; its records are the
      country's records of that region, without `region`. */
  lemma RegionRecordsShape(sightings: Doc, country: string, region: string)
    ensures RegionRecords(sightings, country, region).Ok? <==> CountryRecords(sightings, country).Ok?
    ensures RegionRecords(sightings, country, region).Ok? ==>
      var rs := CountryRecords(sightings, country).value;
      var out := RegionRecords(sightings, country, region).value;
      && HasAll(rs, "region")
      && out == SelectStrip(rs, "region", region)
      && (forall k :: 0 <= k < |out| ==> out[k].Keys == FieldSet(CountryFields) - {"region"})
      && HasAll(out, "city")
  {
    if CountryRecords(sightings, country).Ok? {
      var ps := sightings.items;
      ProjectedFields(Matching(ps, country));
      var rs := CountryRecords(sightings, country).value;
      SelectStripKeys(rs, "region", region, FieldSet(CountryFields));
      CountryFieldNames();
      assert "city" in FieldSet(CountryFields) - {"region"};
    }
  }

  /** city_data fails exactly when country_data does; no record it returns
      has a `country`, `region` or `city` field. */
  lemma CityRecordsShape(sightings: Doc, country: string, region: string, city: string)
    ensures CityRecords(sightings, country, region, city).Ok? <==> CountryRecords(sightings, country).Ok?
    ensures CityRecords(sightings, country, region, city).Ok? ==>
      var out := CityRecords(sightings, country, region, city).value;
      forall k :: 0 <= k < |out| ==>
        out[k].Keys == FieldSet(CountryFields) - {"region", "city"} &&
        "country" !in out[k] && "region" !in out[k] && "city" !in out[k]
  {
    RegionRecordsShape(sightings, country, region);
    CountryFieldNames();
    if CountryRecords(sightings, country).Ok? {
      var rs := RegionRecords(sightings, country, region).value;
      var keys := FieldSet(CountryFields) - {"region"};
      assert "city" in keys;
      SelectStripKeys(rs, "city", city, keys);
      assert keys - {"city"} == FieldSet(CountryFields) - {"region", "city"};
    }
  }

  /** list_cities fails exactly when country_data does. Its keys are
      "city 1".."city j", j is 0 exactly when the region has no records,
      "city j" holds the last record's city, every value is a city of the
      region, and when each city's records are contiguous the values in key
      order are the region's distinct cities in first-seen order. */
  lemma CityListShape(sightings: Doc, country: string, region: string)
    ensures CityList(sightings, country, region).Ok? <==> CountryRecords(sightings, country).Ok?
    ensures CityList(sightings, country, region).Ok? ==>
      var rs := RegionRecords(sightings, country, region).value;
      var cs := Column(rs, "city");
      var l := CityList(sightings, country, region).value;
      && l.cities.keys == Labels(l.j)
      && (l.j == 0 <==> rs == [])
      && (rs != [] ==> l.cities.vals[Label(l.j)] == rs[|rs| - 1]["city"])
      && (forall k :: k in l.cities.vals ==> l.cities.vals[k] in cs)
      && (Contiguous(cs) ==> ValuesInOrder(l.cities) == Distinct(cs))
  {
    RegionRecordsShape(sightings, country, region);
    CountryFieldNames();
    if CountryRecords(sightings, country).Ok? {
      var rs := RegionRecords(sightings, country, region).value;
      var keys := FieldSet(CountryFields) - {"region"};
      assert "city" in keys;
      assert HasAll(rs, "city");
      var cs := Column(rs, "city");
      CityLabelsShape(cs);
      if Contiguous(cs) {
        ContiguousCitiesAgree(cs);
        IntendedListsDistinct(cs);
      }
    }
  }

  /** Every sighting is among country_data's records for its own country. */
  lemma SightingFoundByCountry(ps: seq<Record>, i: nat)
    requires i < |ps|
    requires HasAll(ps, "country") && AllHaveFields(ps, CountryFields)
    ensures var r := CountryRecords(Items(ps), ps[i]["country"]);
      r.Ok? && Project(ps[i], CountryFields) in r.value
  {
    var p := ps[i];
    var ms := Matching(ps, p["country"]);
    MatchingSelects(ps, p["country"]);
    assert AllHaveFields(ms, CountryFields) by {
      forall j | 0 <= j < |ms| ensures HasFields(ms[j], CountryFields) {
        assert ms[j] in ms;
        var t :| 0 <= t < |ps| && ps[t] == ms[j];
      }
    }
    assert p in ms;
    var k :| 0 <= k < |ms| && ms[k] == p;
    assert ProjectAll(ms, CountryFields)[k] == Project(p, CountryFields);
  }

  /** Every sighting is found again by city_data under its own country,
      region and city, without those three fields. */
  lemma SightingFoundByCity(ps: seq<Record>, i: nat)
    requires i < |ps|
    requires HasAll(ps, "country") && AllHaveFields(ps, CountryFields)
    ensures "region" in ps[i] && "city" in ps[i]
    ensures var p := ps[i];
      var r := CityRecords(Items(ps), p["country"], p["region"], p["city"]);
      r.Ok? && Project(p, CountryFields) - {"region"} - {"city"} in r.value
  {
    var p := ps[i];
    CountryFieldNames();
    assert HasFields(p, CountryFields);
    SightingFoundByCountry(ps, i);
    var rs := CountryRecords(Items(ps), p["country"]).value;
    var q := Project(p, CountryFields);
    RegionRecordsShape(Items(ps), p["country"], p["region"]);
    SelectStripSelects(rs, "region", p["region"]);
    var out := SelectStrip(rs, "region", p["region"]);
    assert q - {"region"} in out;
    assert "city" in FieldSet(CountryFields) - {"region"};
    SelectStripSelects(out, "city", p["city"]);
  }

  // ---------------------------------------------------------------------
  // One more pass: how each query's loop extends its result

  lemma CountryTallyStep(ps: seq<Record>, i: nat)
    requires i < |ps| && HasAll(ps[..i], "country") && "country" in ps[i]
    ensures HasAll(ps[..i + 1], "country")
    ensures Tally(Column(ps[..i + 1], "country")) == Count(Tally(Column(ps[..i], "country")), ps[i]["country"])
  {
    PrefixStep(ps, i);
    ColumnSnoc(ps[..i], ps[i], "country");
    TallySnoc(Column(ps[..i], "country"), ps[i]["country"]);
  }

  /** country_data's loop state after the first `i` passes. */
  ghost predicate CountrySoFar(ps: seq<Record>, i: nat, country: string, out: seq<Record>)
  {
    i <= |ps| && HasAll(ps[..i], "country") && AllHaveFields(Matching(ps[..i], country), CountryFields) &&
    out == ProjectAll(Matching(ps[..i], country), CountryFields)
  }

  lemma CountryRecordsStep(ps: seq<Record>, i: nat, country: string, out: seq<Record>)
    requires i < |ps| && CountrySoFar(ps, i, country, out) && "country" in ps[i]
    requires ps[i]["country"] == country ==> HasFields(ps[i], CountryFields)
    ensures CountrySoFar(ps, i + 1, country,
      if ps[i]["country"] == country then out + [Project(ps[i], CountryFields)] else out)
  {
    MatchingStep(ps, i, country);
    if ps[i]["country"] == country {
      ProjectAllSnoc(Matching(ps[..i], country), ps[i], CountryFields);
    } else {
      assert Matching(ps[..i + 1], country) == Matching(ps[..i], country);
    }
  }

  /** list_regions' loop state after the first `i` passes. */
  ghost predicate RegionsSoFar(ps: seq<Record>, i: nat, country: string, regions: Dict<nat>)
  {
    i <= |ps| && HasAll(ps[..i], "country") && HasAll(Matching(ps[..i], country), "region") &&
    regions == Tally(Column(Matching(ps[..i], country), "region"))
  }

  lemma RegionTallyStep(ps: seq<Record>, i: nat, country: string, regions: Dict<nat>)
    requires i < |ps| && RegionsSoFar(ps, i, country, regions) && "country" in ps[i]
    requires ps[i]["country"] == country ==> "region" in ps[i]
    ensures WellFormed(regions)
    ensures RegionsSoFar(ps, i + 1, country,
      if ps[i]["country"] == country then Count(regions, ps[i]["region"]) else regions)
  {
    MatchingStep(ps, i, country);
    if ps[i]["country"] == country {
      ColumnSnoc(Matching(ps[..i], country), ps[i], "region");
      TallySnoc(Column(Matching(ps[..i], country), "region"), ps[i]["region"]);
    } else {
      assert Matching(ps[..i + 1], country) == Matching(ps[..i], country);
    }
  }

  lemma CityLabelsStep(rs: seq<Record>, i: nat)
    requires i < |rs| && HasAll(rs, "city")
    ensures HasAll(rs[..i], "city") && HasAll(rs[..i + 1], "city")
    ensures CityLabels(Column(rs[..i + 1], "city")) == ListStep(CityLabels(Column(rs[..i], "city")), rs[i]["city"])
  {
    SelectStripStep(rs, i, "city", "");
    PrefixStep(rs, i);
    ColumnSnoc(rs[..i], rs[i], "city");
    SnocListed(Column(rs[..i], "city"), rs[i]["city"]);
  }

  lemma CountryRecordsDone(ps: seq<Record>, country: string, out: seq<Record>)
    requires CountrySoFar(ps, |ps|, country, out)
    ensures CountryRecords(Items(ps), country) == Ok(out)
  {
    assert ps[..|ps|] == ps;
  }

  lemma RegionTallyDone(ps: seq<Record>, country: string, regions: Dict<nat>)
    requires RegionsSoFar(ps, |ps|, country, regions)
    ensures RegionTally(Items(ps), country) == Ok(regions)
  {
    assert ps[..|ps|] == ps;
  }

  /** A pass without a country, or a pass of the country without one of the
      fields read from it, makes the query fail. */
  lemma CountryRecordsErr(ps: seq<Record>, i: nat, country: string)
    requires i < |ps|
    requires "country" !in ps[i] || (ps[i]["country"] == country && !HasFields(ps[i], CountryFields))
    ensures CountryRecords(Items(ps), country) == Err
  {
    if "country" in ps[i] {
      MatchedIsSelected(ps, i, country);
    }
  }

  lemma RegionTallyErr(ps: seq<Record>, i: nat, country: string)
    requires i < |ps|
    requires "country" !in ps[i] || (ps[i]["country"] == country && "region" !in ps[i])
    ensures RegionTally(Items(ps), country) == Err
  {
    if "country" in ps[i] {
      MatchedIsSelected(ps, i, country);
    }
  }
}
