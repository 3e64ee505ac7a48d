/** The query routes of midterm.py, the earlier version of the service, with
    the functions that describe them and how they relate to app.py's. The
    routes region_data, list_cities and city_data compare against the names
    `regions` and `cities`, which midterm.py never defines: the first pass of
    the requested country raises NameError, so those routes can only answer
    when the country has no pass at all. */
module Midterm {
  import opened Records
  import opened Dicts
  import opened Queries

  // ---------------------------------------------------------------------
  // What the routes compute

  /** get_epoch: the components of the first vector whose EPOCH matches;
      when none does the index stays 0, so vector 0 is answered, and an
      empty list fails on that index. */
  function EpochOrFirst(positions: Doc, epoch: string): Result<Record>
  {
    match positions
    case NoData => Err
    case Items(vs) =>
      match ScanEpoch(vs, epoch, 0)
      case Err => Err
      case Ok(found) =>
        var k := if found.Some? then found.value else 0;
        if k < |vs| && HasFields(vs[k], Xyz) then Ok(Project(vs[k], Xyz)) else Err
  }

  /** list_countries: the `return` sits in the `else` branch, which the first
      pass always takes, so only the first pass is counted; no pass at all
      leaves the loop without a return value. */
  function FirstCountry(sightings: Doc): Result<Option<Dict<nat>>>
  {
    match sightings
    case NoData => Err
    case Items(ps) =>
      if ps == [] then Ok(None)
      else if "country" !in ps[0] then Err
      else Ok(Some(Put(Empty(), ps[0]["country"], 1)))
  }

  /** Every pass has a country and none of them is `country`: the loops of
      region_data, list_cities and city_data then finish without touching
      the undefined names. */
  predicate NoPassOf(sightings: Doc, country: string)
  {
    sightings.Items? && HasAll(sightings.items, "country") &&
    forall k :: 0 <= k < |sightings.items| ==> sightings.items[k]["country"] != country
  }

  // ---------------------------------------------------------------------
  // The routes

  /** get_epoch: search with `break`, then read the components of the vector
      found (vector 0 when none was). */
  method GetEpoch(positions: Doc, epoch: string) returns (r: Result<Record>)
    ensures r == EpochOrFirst(positions, epoch)
  {
    if positions.NoData? {
      return Err;
    }
    var vs := positions.items;
    var iEpoch := 0;
    var i := 0;
    while i < |vs|
      invariant 0 <= i <= |vs| && iEpoch == 0
      invariant Passed(vs, epoch, 0, i)
    {
      if "EPOCH" !in vs[i] {
        ScanEpochMissing(vs, epoch, 0, i);
        return Err;
      }
      if epoch == vs[i]["EPOCH"] {
        iEpoch := i;
        break;
      }
      i := i + 1;
    }
    if i < |vs| {
      ScanEpochFirst(vs, epoch, iEpoch);
    }
    if iEpoch >= |vs| {
      return Err;
    }
    var d := ProjectFields(vs[iEpoch], Xyz);
    if d.None? {
      return Err;
    }
    return Ok(d.value);
  }

  /** list_countries. Its loop returns in the first iteration, so it is
      written here as that one iteration. */
  method ListCountries(sightings: Doc) returns (r: Result<Option<Dict<nat>>>)
    ensures r == FirstCountry(sightings)
  {
    if sightings.NoData? {
      return Err;
    }
    var ps := sightings.items;
    if |ps| == 0 {
      return Ok(None);
    }
    if "country" !in ps[0] {
      return Err;
    }
    var countries: Dict<nat> := Empty();
    countries := Put(countries, ps[0]["country"], 1);
    return Ok(Some(countries));
  }

  /** list_regions: app.py's count of regions, without the counter. */
  method ListRegions(sightings: Doc, country: string) returns (r: Result<Dict<nat>>)
    ensures r == RegionTally(sightings, country)
  {
    if sightings.NoData? {
      return Err;
    }
    var ps := sightings.items;
    var regions: Dict<nat> := Empty();
    var i := 0;
    while i < |ps|
      invariant 0 <= i <= |ps|
      invariant RegionsSoFar(ps, i, country, regions)
    {
      if "country" !in ps[i] {
        RegionTallyErr(ps, i, country);
        return Err;
      }
      if country == ps[i]["country"] {
        if "region" !in ps[i] {
          RegionTallyErr(ps, i, country);
          return Err;
        }
        RegionTallyStep(ps, i, country, regions);
        regions := Bump(regions, ps[i]["region"]);
      } else {
        RegionTallyStep(ps, i, country, regions);
      }
      i := i + 1;
    }
    RegionTallyDone(ps, country, regions);
    return Ok(regions);
  }

  /** The loop head shared by region_data, list_cities and city_data: read
      each pass's country and stop with the error raised by the first pass
      of `country` (the NameError, or the KeyError of a missing field met
      before it). True when the loop runs to its end. */
  method ScanPasses(sightings: Doc, country: string) returns (ok: bool)
    ensures ok == NoPassOf(sightings, country)
  {
    if sightings.NoData? {
      return false;
    }
    var ps := sightings.items;
    var i := 0;
    while i < |ps|
      invariant 0 <= i <= |ps|
      invariant forall k :: 0 <= k < i ==> "country" in ps[k] && ps[k]["country"] != country
    {
      if "country" !in ps[i] || country == ps[i]["country"] {
        return false;
      }
      i := i + 1;
    }
    return true;
  }

  /** region_data: the empty list, or the error. */
  method RegionData(sightings: Doc, country: string, region: string) returns (r: Result<seq<Record>>)
    ensures r == if NoPassOf(sightings, country) then Ok([]) else Err
  {
    var ok := ScanPasses(sightings, country);
    if !ok {
      return Err;
    }
    return Ok([]);
  }

  /** list_cities: the empty dictionary, or the error. */
  method ListCities(sightings: Doc, country: string, region: string) returns (r: Result<Dict<nat>>)
    ensures r == if NoPassOf(sightings, country) then Ok(Empty()) else Err
  {
    var ok := ScanPasses(sightings, country);
    if !ok {
      return Err;
    }
    return Ok(Empty());
  }

  /** city_data: the empty list, or the error. */
  method CityData(sightings: Doc, country: string, region: string, city: string)
    returns (r: Result<seq<Record>>)
    ensures r == if NoPassOf(sightings, country) then Ok([]) else Err
  {
    var ok := ScanPasses(sightings, country);
    if !ok {
      return Err;
    }
    return Ok([]);
  }

  // ---------------------------------------------------------------------
  // Properties

  /** For an epoch that exists, midterm's get_epoch gives the intended
      answer; for one that does not, it answers with vector 0 instead of
      reporting that nothing matched, and with an empty list it fails. */
  lemma EpochOrFirstAgrees(vs: seq<Record>, epoch: string)
    ensures forall r :: EpochLookup(Items(vs), epoch) == Ok(Some(r)) ==> EpochOrFirst(Items(vs), epoch) == Ok(r)
    ensures EpochLookup(Items(vs), epoch) == Ok(None) ==>
      EpochOrFirst(Items(vs), epoch) ==
        if vs != [] && HasFields(vs[0], Xyz) then Ok(Project(vs[0], Xyz)) else Err
    ensures EpochOrFirst(Items([]), epoch) == Err
  {
  }

  /** Midterm's list_countries sees only the first pass: its one country,
      counted once, is the first key of app.py's listing, whose count for it
      can be larger. */
  lemma FirstCountryOnly(ps: seq<Record>)
    requires ps != [] && HasAll(ps, "country")
    ensures FirstCountry(Items(ps)).Ok? && FirstCountry(Items(ps)).value.Some?
    ensures var d := FirstCountry(Items(ps)).value.value;
      var l := CountryListing(Items(ps)).value;
      && d.keys == [ps[0]["country"]] && d.vals == map[ps[0]["country"] := 1]
      && l.counts.keys != [] && d.keys == [l.counts.keys[0]]
      && l.counts.vals[ps[0]["country"]] == multiset(Column(ps, "country"))[ps[0]["country"]]
  {
    var cs := Column(ps, "country");
    TallyCounts(cs);
    DistinctFirst(cs);
  }

  /** Two passes from one country: app.py counts 2, midterm.py counts 1. */
  lemma FirstCountryUndercounts()
    ensures var ps := [map["country" := "US"], map["country" := "US"]];
      && FirstCountry(Items(ps)) == Ok(Some(Dict(["US"], map["US" := 1])))
      && CountryListing(Items(ps)) == Ok(Listing(Dict(["US"], map["US" := 2]), 1))
  {
    var p := map["country" := "US"];
    assert [p, p][..1] == [p];
    assert Column([p, p], "country") == ["US", "US"];
    assert ["US", "US"][..1] == ["US"];
    assert Tally(["US"]) == Dict(["US"], map["US" := 1]);
    assert Tally(["US", "US"]) == Count(Tally(["US"]), "US");
    assert map["US" := 1]["US" := 2] == map["US" := 2];
  }

  /** Midterm's region_data, list_cities and city_data answer exactly when
      app.py's country_data finds no pass of the country, and then answer
      with nothing. */
  lemma NoPassOfMeansNoRecords(sightings: Doc, country: string)
    ensures NoPassOf(sightings, country) <==> CountryRecords(sightings, country) == Ok([])
  {
    if NoPassOf(sightings, country) {
      MatchingAbsent(sightings.items, country);
    } else if sightings.Items? && HasAll(sightings.items, "country") {
      var ps := sightings.items;
      var i :| 0 <= i < |ps| && ps[i]["country"] == country;
      MatchedIsSelected(ps, i, country);
    }
  }

  /** In particular, a pass that app.py's city_data finds under its own
      country, region and city is an error in midterm.py. */
  lemma SightingLostByMidterm(ps: seq<Record>, i: nat)
    requires i < |ps| && HasAll(ps, "country") && AllHaveFields(ps, CountryFields)
    ensures "region" in ps[i] && "city" in ps[i]
    ensures !NoPassOf(Items(ps), ps[i]["country"])
    ensures CityRecords(Items(ps), ps[i]["country"], ps[i]["region"], ps[i]["city"]).Ok?
  {
    SightingFoundByCity(ps, i);
  }
}
