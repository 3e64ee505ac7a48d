# ISS-Tracker query layer, in Dafny

ISS-Tracker is a small Flask service. `/load` parses two XML files into two
globals. `iss_positions` holds the ISS state vectors (one record per EPOCH
with the components X, Y, Z, X_DOT, Y_DOT, Z_DOT). `iss_sightings` holds the
visible passes (one record per pass with country, region, city and the
sighting details). The other routes are read-only queries over these
globals: list the epochs, look up one epoch, count passes per country, list a
country's passes, count a country's regions, list a region's passes, label a
region's cities, and list a city's passes. Every query turns any exception
into one `error_string`. The file `app.py` is the service. The file
`midterm.py` is an earlier version of it. It carries the same globals and
load route, but several of its routes behave differently.

The model works on parsed values:

- A record is a `map<string, string>`.
- A global is a `Doc`. `NoData` is the initial `{}`. `Items(records)` is the
  list found at `ndm/oem/body/segment/data/stateVector` or
  `visible_passes/visible_pass`.
- A query's result is a `Result`. `Err` stands for `error_string`, the one
  text every query returns from its exception handler (app.py:11).
- A missing field is a Python KeyError. The specification functions guard
  every field read, so such a read gives `Err`.

The modules are:

- `Records`: records, documents and the filter, project and strip operations
  the queries are built from.
- `Dicts`: Python's insertion-ordered dictionary, and the count-per-key fold
  of `list_countries` and `list_regions`.
- `Cities`: the `"city N"` labelling fold of `list_cities`, both as written
  and as intended.
- `Queries`: one function per route of `app.py` that says what the route
  computes, and the lemmas about those functions.
- `Store`: the class `Globals`, which holds the two globals, and its `Load`
  method.
- `App`: the routes of `app.py` as methods, each running the source's loop.
  Each method is proved equal to its function in `Queries`.
- `Midterm`: the routes of `midterm.py`, the functions that describe them,
  and lemmas comparing them with `app.py`.

Each query method takes the current value of the global it reads. Only the
load route changes state, so only `Store.Globals` is a class.

`midterm.py` does not compile as written. Its `country_data` (lines 137-147)
mixes tabs and spaces, so Python raises `TabError` when it compiles the file.
The other routes of that file are modelled as written, as if that one
function were removed. Its get_epochs (lines 74-82) is the same loop as
app.py's, so `App.GetEpochs` models both.

## Model

| member | source | states |
|---|---|---|
| Store.Globals.constructor | app.py:9-10 | Both globals start as `{}` (`NoData`). |
| Store.Globals.Load | app.py:48-66 | A missing positions file returns "POSITION DATA FILE NOT FOUND\n" and changes neither global. Otherwise the positions are stored. A missing sightings file then returns "SIGHTINGS DATA FILE NOT FOUND\n" and keeps the old sightings. With both files present, both are stored and it returns "Data has been loaded\n". midterm.py lines 47-65 are the same function. |
| Queries.NothingBeforeLoad | app.py:9-11 | Before any load, every query returns the error. |
| App.GetEpochs | app.py:75-83 | The result equals `Epochs`: the EPOCH lines in order. It is the error when there is no data or a vector lacks EPOCH. |
| Queries.EpochListing | app.py:77-80 | The listing succeeds iff every vector has an EPOCH. It is empty for no vectors. One more vector appends exactly its EPOCH and a newline. |
| Queries.EpochLinesConcat | app.py:78-79 | The listing of two runs of vectors is the concatenation of their listings. |
| App.GetEpoch | app.py:93-105 | The result equals `FirstVectorFields`, the lookup as written. An empty list gives None. A match on vector 0 breaks out and gives None. Any other query gives vector 0's six components. A missing EPOCH or component gives the error. |
| Queries.FirstVectorOnly | app.py:97-102 | As written, the answer depends only on vector 0. Any two queries other than vector 0's epoch get the same answer, whatever the later vectors are. Vector 0's own epoch gets None. |
| Queries.FirstVectorMisses | app.py:97-102 | Take two vectors with different epochs and different X. As written, the query for vector 0's epoch gets None. The query for vector 1's epoch gets vector 0's components, while the intended lookup gets vector 1's. |
| Queries.EpochLookupFinds | app.py:87-91 | The lookup the docstring describes (`EpochLookup`) gives None iff every vector has an EPOCH and none equals the query. When the first vector carrying the epoch has all six components, the answer is exactly those components. Any other answer it gives is the components of the first vector carrying the epoch. |
| Records.ProjectFields | app.py:147-149 | Copying the named fields gives exactly those fields with the record's values. It gives None (the KeyError) iff a field is missing. |
| Dicts.Bump | midterm.py:164-167 | One counting step is `Count`: an existing key keeps its place and its count goes up by one, a new key goes last with count 1. |
| App.CountInto | app.py:121-125 | One counting step is `Count`. The counter goes up by one exactly when the key is new, and it always equals the number of keys. |
| App.ListCountries | app.py:115-129 | The result equals `CountryListing`: the per-country tally of all passes and the counter `j`. It is the error when there is no data or a pass lacks a country. |
| Queries.CountryListingCounts | app.py:117-126 | The keys are the distinct countries in order of first appearance. A country is a key iff some pass has it. Each count is that country's number of passes, so at least 1. The counts add up to the number of passes, and `j` is the number of countries. |
| Dicts.TallyCounts | app.py:121-125 | The counting fold's keys are the distinct elements, each mapped to its number of occurrences. |
| Dicts.TallySum | app.py:121-125 | The counts of the fold add up to the number of elements counted. |
| Dicts.DistinctOrder | app.py:123-125 | New keys go last, so the keys are ordered by first occurrence. |
| App.CountryData | app.py:140-154 | The result equals `CountryRecords`: for each pass of the country, in order, its eleven `country_list` fields. It is the error when a pass lacks a country or a matching pass lacks one of the fields. |
| Queries.CountryRecordsShape | app.py:142-151 | Matching is exact. There is one record per pass of the country, in input order, so as many records as the country's passes. Each record is that pass projected onto exactly the eleven fields, so it has no `country`. |
| Queries.SightingFoundByCountry | app.py:144-150 | When every pass of the data has a country and all eleven fields, each pass is among the records of its own country. |
| App.ListRegions | app.py:164-180 | The result equals `RegionListing`: the per-region tally of the country's passes and the counter `j`. A missing country, or a missing region on a matching pass, gives the error. |
| Queries.RegionListingCounts | app.py:166-177 | The keys are the distinct regions of the country's passes. Each count is at least 1 and equals that region's number of passes. The counts add up to the country's number of passes, and `j` is the number of regions. |
| Queries.AbsentCountry | app.py:142-254 | A country that no pass carries gives an empty answer, not the error, from country_data, list_regions, region_data, list_cities and city_data. |
| App.RegionData | app.py:191-204 | The result equals `RegionView`: `{region: records}`, holding the country's records of that region with `region` deleted. |
| Queries.RegionRecordsShape | app.py:194-200 | region_data fails exactly when country_data does. Its records are `SelectStrip` of country_data's records. Each has exactly the eleven fields minus `region`, and each still has a `city`. |
| App.ListCities | app.py:215-227 | The result equals `CityList`, the labelling as written over the region's cities. |
| Queries.CityListShape | app.py:217-224 | list_cities fails exactly when country_data does. The keys are "city 1".."city j". `j` is 0 iff the region has no records. "city j" holds the last record's city, and every value is a city of the region. When each city's records are contiguous, the values in key order are the distinct cities in first-seen order. |
| Cities.CityLabelsShape | app.py:220-223 | For any sequence of cities, the labelling as written has the keys "city 1".."city j" and `j` is at most the number of records. The last city sits under "city j", and every value is one of the cities. |
| Cities.DecimalInjective | app.py:223 | Different numbers print different decimal digits, as `str(j)` does. |
| Cities.LabelInjective | app.py:223 | Different counters give different labels. |
| Cities.ContiguousCitiesAgree | app.py:221-223 | When each city's records are contiguous, the labelling as written equals the intended one. |
| Cities.ListCitiesOverwritesLabel | app.py:221-223 | For distinct cities A, B, A, C the labelling as written is {"city 1": A, "city 2": A, "city 3": C}. |
| Cities.ListCitiesLosesCity | app.py:221-223 | In that example, B is among the region's cities but missing from the listing. |
| Cities.IntendedListsDistinct | app.py:221-223 | With the intended step, the values in key order are exactly the distinct cities in first-seen order. |
| Cities.IntendedListsAllCities | app.py:221-223 | The intended labelling of A, B, A, C is {"city 1": A, "city 2": B, "city 3": C}. |
| App.CityData | app.py:239-254 | The result equals `CityView`: `{city: records}` with `city` deleted, and `j` equal to the number of those records. |
| Queries.CityRecordsShape | app.py:242-250 | city_data fails exactly when country_data does. Each record has exactly the eleven fields minus `region` and `city`, so it has no `country`, `region` or `city`. |
| Queries.SightingFoundByCity | app.py:242-250 | When every pass of the data has a country and all eleven fields, each pass is found by city_data under its own country, region and city, with region and city removed. |
| Midterm.GetEpoch | midterm.py:92-105 | The result equals `EpochOrFirst`. The search stops at the first vector with the epoch. When none has it the index stays 0, so vector 0's components are returned. An empty list or a missing field gives the error. |
| Queries.ScanEpochFrom | midterm.py:94-97 | The search from `i` finds the first matching vector. |
| Queries.ScanEpochMissing | midterm.py:94-97 | A vector without EPOCH met before any match makes the search fail. |
| Queries.ScanEpochFirst | midterm.py:94-97 | The search finds the vector that first carries the epoch. |
| Midterm.EpochOrFirstAgrees | midterm.py:93-101 | For an epoch that exists, the answer is the intended lookup's. For one that does not, the answer is vector 0's components instead of "no match". An empty list gives the error. |
| Midterm.ListCountries | midterm.py:115-127 | The result equals `FirstCountry`. The `return` in the `else` branch ends the loop on the first pass: {first country: 1}. No pass gives None, and a first pass without a country gives the error. |
| Midterm.FirstCountryOnly | midterm.py:118-124 | The one country returned, counted 1, is the first key of app.py's listing. That listing's count for it is the country's full number of passes. |
| Midterm.FirstCountryUndercounts | midterm.py:118-124 | For two passes from "US", midterm.py answers {"US": 1} and app.py answers {"US": 2} with `j` = 1. |
| Midterm.ListRegions | midterm.py:157-171 | The result equals `RegionTally`, app.py's region counts without the counter. |
| Midterm.ScanPasses | midterm.py:186-190 | The loop runs to its end iff every pass has a country and none is the requested one. |
| Midterm.RegionData | midterm.py:182-198 | The result is the empty list when no pass has the country. Otherwise it is the error, because the comparison with the undefined `regions` raises NameError. |
| Midterm.ListCities | midterm.py:209-225 | The result is the empty dictionary when no pass has the country. Otherwise it is the error (NameError on `regions`). |
| Midterm.CityData | midterm.py:237-256 | The result is the empty list when no pass has the country. Otherwise it is the error (NameError on `regions`). |
| Midterm.NoPassOfMeansNoRecords | midterm.py:186-190 | midterm.py's region_data, list_cities and city_data answer exactly when app.py's country_data answers with no records. |
| Midterm.SightingLostByMidterm | midterm.py:242-248 | A pass that app.py's city_data finds under its own country, region and city is an error in midterm.py. |

## Left out

- Flask routing and HTTP status handling are not modelled. The route functions are called directly.
- The `/help` route's fixed text is not modelled.
- Opening and reading the two XML files is not modelled. `Store.Globals.Load` takes each parsed file as an argument, `None` for a missing file.
- Exceptions other than FileNotFoundError during load are not modelled (a parse error, for instance). The source does not catch them.
- XML parsing with xmltodict is not modelled. A record is a string-to-string map, and the record list is given directly.
- Parsed values that are not strings are not modelled: attributes, nested elements, `None` for empty elements, and the single dict that xmltodict produces for a one-element list.
- Logging is not modelled.
- Response text is not modelled. This includes the headers, the "There are {j} ..." sentences and the `json.dumps` text. The model returns the dictionaries and counters those texts are built from.
- The `json.dumps`/`json.loads` round trip between the routes is taken to be the identity on string records. A failed route's `error_string` does not parse as JSON, so that case is modelled as `Err`.
- The order of keys inside one record is not modelled. A record is a map. Key order is modelled only where it is observable in the source's counting dictionaries.
- A route that returns Python `None` (get_epoch after `break`, midterm's list_countries with no passes) is modelled as `Ok(None)`. What Flask then does with `None` is not modelled.
- `App.GetEpoch` and `Midterm.ListCountries` are written as the single iteration their loops can run. Each loop returns or breaks in its first iteration.
- midterm.py's `country_data` (lines 129-147) is not modelled. It raises TabError when Python compiles the file, and it reads records straight from the document root.
- midterm.py's other field lists (`regionData`, `cityData`) are not modelled. The NameError comes before any use of them.
- Case-insensitive matching is not modelled. Matching is exact, as in the code, apart from the `.title()` in midterm.py's `country_data`, which is not modelled.
- The tests in `test_app.py` are not modelled.

## Findings

| source | as written | input that shows it | evidently intended | confidence | as-written member | corrected member |
|---|---|---|---|---|---|---|
| app.py:221-223 | The label `city {j}` is assigned after the membership test, so a repeated city overwrites the newest label with itself. | The cities A, B, A, C in one region: B is lost and "city 2" holds A. | A new city gets the next label and a repeated city changes nothing, so each distinct city is listed once. | not executed | Cities.ListCitiesOverwritesLabel | Cities.IntendedListsAllCities |
| app.py:97-102 | The `return` sits inside the loop, so only vector 0 is examined. A match on vector 0 returns None. | Two vectors with different epochs: querying vector 1's epoch returns vector 0's components. | Return the components of the first vector whose EPOCH matches. | not executed | Queries.FirstVectorMisses | Queries.EpochLookupFinds |
| midterm.py:118-124 | The `return` sits in the `else` branch, so the loop ends after the first pass. | Two passes from "US": the answer is {"US": 1}. | Count every pass, as app.py does. | not executed | Midterm.FirstCountryUndercounts | Queries.CountryListingCounts |
| midterm.py:190 | region_data, list_cities and city_data compare with `regions` and `cities`, which are never defined, so any pass of the country raises NameError. | Any pass of the requested country. | Compare with the route parameters `region` and `city`, as app.py does. | not executed | Midterm.SightingLostByMidterm | Queries.SightingFoundByCity |
| midterm.py:93-101 | When no vector matches, `iEpoch` stays 0 and vector 0's components are returned. | Any epoch that no vector carries, with a non-empty list. | Report that the epoch was not found. | not executed | Midterm.EpochOrFirstAgrees | Queries.EpochLookupFinds |
