/** The query routes of app.py. Each takes the current value of the global
    it reads and runs the route's loop; its postcondition ties the result to
    the function in module Queries that describes it. Err is the route's
    error_string. */
module App {
  import opened Records
  import opened Dicts
  import opened Cities
  import opened Queries

  /** get_epochs: every EPOCH followed by a newline. */
  method GetEpochs(positions: Doc) returns (r: Result<string>)
    ensures r == Epochs(positions)
  {
    if positions.NoData? {
      return Err;
    }
    var vs := positions.items;
    var epochs := "";
    var i := 0;
    while i < |vs|
      invariant 0 <= i <= |vs|
      invariant HasAll(vs[..i], "EPOCH") && epochs == EpochLines(vs[..i])
    {
      if "EPOCH" !in vs[i] {
        return Err;
      }
      PrefixStep(vs, i);
      assert (vs[..i] + [vs[i]])[..i] == vs[..i];
      epochs := epochs + vs[i]["EPOCH"] + "\n";
      i := i + 1;
    }
    assert vs[..i] == vs;
    return Ok(epochs);
  }

  /** get_epoch. Its loop returns or breaks in the first iteration, so it is
      written here as that one iteration: an empty list leaves the loop
      without a return (None), a match on vector 0 breaks (None), anything
      else returns vector 0's six components. */
  method GetEpoch(positions: Doc, epoch: string) returns (r: Result<Option<Record>>)
    ensures r == FirstVectorFields(positions, epoch)
  {
    if positions.NoData? {
      return Err;
    }
    var vs := positions.items;
    if |vs| == 0 {
      return Ok(None);
    }
    if "EPOCH" !in vs[0] {
      return Err;
    }
    if epoch == vs[0]["EPOCH"] {
      return Ok(None);
    }
    var d := ProjectFields(vs[0], Xyz);
    if d.None? {
      return Err;
    }
    return Ok(Some(d.value));
  }

  /** The counting step shared by list_countries and list_regions:
      `if x in d: d[x] += 1 else: d[x] = 1; j += 1`, where `j` counts keys. */
  method CountInto(d: Dict<nat>, j: nat, x: string) returns (d': Dict<nat>, j': nat)
    requires WellFormed(d) && j == |d.keys|
    ensures d' == Count(d, x) && j' == |d'.keys|
    ensures j' == if x in d.vals then j else j + 1
  {
    d' := Bump(d, x);
    if x in d.vals {
      j' := j;
    } else {
      j' := j + 1;
    }
  }

  /** list_countries: counts per country and the number `j` of distinct
      countries. */
  method ListCountries(sightings: Doc) returns (r: Result<Listing>)
    ensures r == CountryListing(sightings)
  {
    if sightings.NoData? {
      return Err;
    }
    var ps := sightings.items;
    var countries: Dict<nat> := Empty();
    var j := 0;
    var i := 0;
    while i < |ps|
      invariant 0 <= i <= |ps|
      invariant HasAll(ps[..i], "country")
      invariant countries == Tally(Column(ps[..i], "country"))
      invariant j == |countries.keys|
    {
      if "country" !in ps[i] {
        return Err;
      }
      CountryTallyStep(ps, i);
      countries, j := CountInto(countries, j, ps[i]["country"]);
      i := i + 1;
    }
    assert ps[..i] == ps;
    return Ok(Listing(countries, j));
  }

  /** country_data: the eleven fields of each pass of `country`. */
  method CountryData(sightings: Doc, country: string) returns (r: Result<seq<Record>>)
    ensures r == CountryRecords(sightings, country)
  {
    if sightings.NoData? {
      return Err;
    }
    var ps := sightings.items;
    var countries: seq<Record> := [];
    var i := 0;
    while i < |ps|
      invariant 0 <= i <= |ps|
      invariant CountrySoFar(ps, i, country, countries)
    {
      if "country" !in ps[i] {
        CountryRecordsErr(ps, i, country);
        return Err;
      }
      if country == ps[i]["country"] {
        var d := ProjectFields(ps[i], CountryFields);
        if d.None? {
          CountryRecordsErr(ps, i, country);
          return Err;
        }
        CountryRecordsStep(ps, i, country, countries);
        countries := countries + [d.value];
      } else {
        CountryRecordsStep(ps, i, country, countries);
      }
      i := i + 1;
    }
    CountryRecordsDone(ps, country, countries);
    return Ok(countries);
  }

  /** list_regions: counts per region among the passes of `country`, and the
      number `j` of distinct regions. */
  method ListRegions(sightings: Doc, country: string) returns (r: Result<Listing>)
    ensures r == RegionListing(sightings, country)
  {
    if sightings.NoData? {
      return Err;
    }
    var ps := sightings.items;
    var regions: Dict<nat> := Empty();
    var j := 0;
    var i := 0;
    while i < |ps|
      invariant 0 <= i <= |ps|
      invariant RegionsSoFar(ps, i, country, regions) && j == |regions.keys|
    {
      if "country" !in ps[i] {
        RegionTallyErr(ps, i, country);
        return Err;
      }
      if country == ps[i]["country"] {
        if "region" !in ps[i] {
          RegionTallyErr(ps, i, country);
          return Err;
        }
        RegionTallyStep(ps, i, country, regions);
        regions, j := CountInto(regions, j, ps[i]["region"]);
      } else {
        RegionTallyStep(ps, i, country, regions);
      }
      i := i + 1;
    }
    RegionTallyDone(ps, country, regions);
    return Ok(Listing(regions, j));
  }

  /** region_data: country_data's records whose region is `region`, with the
      region deleted, under the key `region`. The records come from
      country_data, so every one of them has a region. */
  method RegionData(sightings: Doc, country: string, region: string)
    returns (r: Result<map<string, seq<Record>>>)
    ensures r == RegionView(sightings, country, region)
  {
    var c := CountryData(sightings, country);
    if c.Err? {
      return Err;
    }
    var rs := c.value;
    RegionRecordsShape(sightings, country, region);
    var regionList: seq<Record> := [];
    var i := 0;
    while i < |rs|
      invariant 0 <= i <= |rs|
      invariant regionList == SelectStrip(rs[..i], "region", region)
    {
      SelectStripStep(rs, i, "region", region);
      if region == rs[i]["region"] {
        regionList := regionList + [rs[i] - {"region"}];
      }
      i := i + 1;
    }
    assert rs[..i] == rs;
    return Ok(map[region := regionList]);
  }

  /** list_cities: labels "city 1", "city 2", ... for the cities of the
      region's records, and the counter `j`. */
  method ListCities(sightings: Doc, country: string, region: string) returns (r: Result<CityListing>)
    ensures r == CityList(sightings, country, region)
  {
    var d := RegionData(sightings, country, region);
    if d.Err? {
      return Err;
    }
    var rs := d.value[region];
    RegionRecordsShape(sightings, country, region);
    var cities: Dict<string> := Empty();
    var j := 0;
    var i := 0;
    while i < |rs|
      invariant 0 <= i <= |rs|
      invariant CityListing(cities, j) == CityLabels(Column(rs[..i], "city"))
    {
      var c := rs[i]["city"];
      CityLabelsStep(rs, i);
      if c !in cities.vals.Values {
        j := j + 1;
      }
      cities := Put(cities, Label(j), c);
      i := i + 1;
    }
    assert rs[..i] == rs;
    return Ok(CityListing(cities, j));
  }

  /** city_data: the region's records whose city is `city`, with the city
      deleted, and their number `j`. */
  method CityData(sightings: Doc, country: string, region: string, city: string)
    returns (r: Result<(map<string, seq<Record>>, nat)>)
    ensures r == CityView(sightings, country, region, city)
  {
    var d := RegionData(sightings, country, region);
    if d.Err? {
      return Err;
    }
    var rs := d.value[region];
    RegionRecordsShape(sightings, country, region);
    var cityList: seq<Record> := [];
    var j := 0;
    var i := 0;
    while i < |rs|
      invariant 0 <= i <= |rs|
      invariant cityList == SelectStrip(rs[..i], "city", city)
      invariant j == |cityList|
    {
      SelectStripStep(rs, i, "city", city);
      if city == rs[i]["city"] {
        cityList := cityList + [rs[i] - {"city"}];
        j := j + 1;
      }
      i := i + 1;
    }
    assert rs[..i] == rs;
    return Ok((map[city := cityList], j));
  }
}
