/** The "city N" labelling fold of list_cities (app.py), as the code does it
    and as its counter evidently intended, and how the two relate. */
module Cities {
  import opened Dicts

  /** The character of decimal digit `d`. */
  function DigitChar(d: nat): (c: char)
    requires d < 10
    ensures '0' <= c <= '9'
  {
    ('0' as int + d) as char
  }

  /** Python's `str(n)` for a natural number. */
  function Decimal(n: nat): (s: string)
    ensures |s| >= 1
    ensures |s| == 1 <==> n < 10
    decreases n
  {
    if n < 10 then [DigitChar(n)] else Decimal(n / 10) + [DigitChar(n % 10)]
  }

  /** Different numbers print differently. */
  lemma {:induction false} DecimalInjective(a: nat, b: nat)
    requires Decimal(a) == Decimal(b)
    ensures a == b
    decreases a
  {
    if a >= 10 && b >= 10 {
      var sa, sb := Decimal(a), Decimal(b);
      assert sa[..|sa| - 1] == Decimal(a / 10);
      assert sb[..|sb| - 1] == Decimal(b / 10);
      DecimalInjective(a / 10, b / 10);
      assert DigitChar(a % 10) == DigitChar(b % 10);
    } else if a < 10 && b < 10 {
      assert Decimal(a)[0] == DigitChar(a);
      assert Decimal(b)[0] == DigitChar(b);
    }
  }

  /** The dictionary key `f'city {j}'`. */
  function Label(j: nat): string
  {
    "city " + Decimal(j)
  }

  /** Different counters give different keys. */
  lemma LabelInjective(a: nat, b: nat)
    requires Label(a) == Label(b)
    ensures a == b
  {
    assert Label(a)[5..] == Decimal(a);
    assert Label(b)[5..] == Decimal(b);
    DecimalInjective(a, b);
  }

  /** The keys `"city 1"`, ..., `"city n"`, in that order. */
  function Labels(n: nat): (r: seq<string>)
    ensures |r| == n
    ensures forall k :: 0 <= k < n ==> r[k] == Label(k + 1)
  {
    if n == 0 then [] else Labels(n - 1) + [Label(n)]
  }

  /** The next label is not among the previous ones. */
  lemma LabelsFresh(n: nat)
    ensures Label(n + 1) !in Labels(n)
    ensures Labels(n + 1) == Labels(n) + [Label(n + 1)]
  {
    if Label(n + 1) in Labels(n) {
      var k :| 0 <= k < n && Labels(n)[k] == Label(n + 1);
      LabelInjective(k + 1, n + 1);
    }
  }

  /** The dictionary list_cities builds and its counter `j`. */
  datatype CityListing = CityListing(cities: Dict<string>, j: nat)

  /** One iteration of list_cities as written: `j` moves on only for a city
      not yet among the values, and the current label is then (re)assigned
      to this record's city whether or not it was new. */
  function ListStep(l: CityListing, c: string): (r: CityListing)
    requires WellFormed(l.cities)
    ensures WellFormed(r.cities)
  {
    var j := if c in l.cities.vals.Values then l.j else l.j + 1;
    CityListing(Put(l.cities, Label(j), c), j)
  }

  /** list_cities' loop over the region's records, given their cities. */
  function CityLabels(xs: seq<string>): (l: CityListing)
    ensures WellFormed(l.cities)
    decreases |xs|
  {
    if xs == [] then CityListing(Empty(), 0) else ListStep(CityLabels(xs[..|xs| - 1]), xs[|xs| - 1])
  }

  /** The evidently intended iteration: a new city gets the next label, a
      city already listed changes nothing. */
  function IntendedStep(l: CityListing, c: string): (r: CityListing)
    requires WellFormed(l.cities)
    ensures WellFormed(r.cities)
  {
    if c in l.cities.vals.Values then l else CityListing(Put(l.cities, Label(l.j + 1), c), l.j + 1)
  }

  function IntendedCityLabels(xs: seq<string>): (l: CityListing)
    ensures WellFormed(l.cities)
    decreases |xs|
  {
    if xs == [] then CityListing(Empty(), 0) else IntendedStep(IntendedCityLabels(xs[..|xs| - 1]), xs[|xs| - 1])
  }

  /** Every city's occurrences form one block. */
  ghost predicate Contiguous(xs: seq<string>)
  {
    forall a, b, c :: 0 <= a < b < c < |xs| && xs[a] == xs[c] ==> xs[b] == xs[a]
  }

  // ---------------------------------------------------------------------
  // list_cities as written

  /** The keys are exactly "city 1".."city j"; j is 0 (and the dictionary
      empty) exactly when there are no records; "city j" holds the last
      record's city; and every value is one of the records' cities. */
  lemma {:induction false} CityLabelsShape(xs: seq<string>)
    ensures CityLabels(xs).cities.keys == Labels(CityLabels(xs).j)
    ensures CityLabels(xs).j == 0 <==> xs == []
    ensures CityLabels(xs).j <= |xs|
    ensures xs != [] ==> CityLabels(xs).cities.vals[Label(CityLabels(xs).j)] == xs[|xs| - 1]
    ensures forall k :: k in CityLabels(xs).cities.vals ==> CityLabels(xs).cities.vals[k] in xs
    decreases |xs|
  {
    if xs != [] {
      var p, c := xs[..|xs| - 1], xs[|xs| - 1];
      assert xs == p + [c];
      CityLabelsShape(p);
      var l := CityLabels(p);
      if c in l.cities.vals.Values {
        var k :| k in l.cities.vals && l.cities.vals[k] == c;
        assert l.cities.keys != [];
        assert Label(l.j) in l.cities.keys;
      } else {
        LabelsFresh(l.j);
      }
    }
  }

  // ---------------------------------------------------------------------
  // The intended labelling lists the distinct cities

  /** One intended step keeps "keys are city 1..city j, values in key order
      are `d`", with `d` growing as Distinct does. */
  lemma IntendedStepLists(l: CityListing, d: seq<string>, c: string)
    requires WellFormed(l.cities)
    requires l.cities.keys == Labels(l.j) && ValuesInOrder(l.cities) == d
    ensures IntendedStep(l, c).cities.keys == Labels(IntendedStep(l, c).j)
    ensures ValuesInOrder(IntendedStep(l, c).cities) == if c in d then d else d + [c]
  {
    ValuesListed(l.cities);
    if c !in d {
      LabelsFresh(l.j);
      PutNewValue(l.cities, Label(l.j + 1), c);
    }
  }

  /** "city 1".."city j" hold the distinct cities in first-seen order. */
  lemma {:induction false} IntendedListsDistinct(xs: seq<string>)
    ensures IntendedCityLabels(xs).cities.keys == Labels(IntendedCityLabels(xs).j)
    ensures ValuesInOrder(IntendedCityLabels(xs).cities) == Distinct(xs)
    decreases |xs|
  {
    if xs != [] {
      IntendedListsDistinct(xs[..|xs| - 1]);
      IntendedStepLists(IntendedCityLabels(xs[..|xs| - 1]), Distinct(xs[..|xs| - 1]), xs[|xs| - 1]);
    }
  }

  // ---------------------------------------------------------------------
  // Where the two agree

  lemma ContiguousPrefix(xs: seq<string>)
    requires Contiguous(xs) && xs != []
    ensures Contiguous(xs[..|xs| - 1])
  {
  }

  /** A city that occurred before and occurs again at the end also ends the
      prefix. */
  lemma ContiguousEnd(p: seq<string>, c: string)
    requires Contiguous(p + [c]) && c in p
    ensures p[|p| - 1] == c
  {
    var xs := p + [c];
    var i :| 0 <= i < |p| && p[i] == c;
    if i < |p| - 1 {
      assert xs[i] == xs[|p|];
      assert xs[|p| - 1] == xs[i];
    }
  }

  lemma {:induction false} DistinctLast(xs: seq<string>)
    requires Contiguous(xs) && xs != []
    ensures Distinct(xs)[|Distinct(xs)| - 1] == xs[|xs| - 1]
    decreases |xs|
  {
    var p, c := xs[..|xs| - 1], xs[|xs| - 1];
    if c in Distinct(p) {
      assert xs == p + [c];
      ContiguousEnd(p, c);
      ContiguousPrefix(xs);
      DistinctLast(p);
    }
  }

  /** For a city already listed whose records so far end with it, the step
      as written reassigns the newest label its current value. */
  lemma StepsAgree(l: CityListing, p: seq<string>, c: string)
    requires WellFormed(l.cities)
    requires l.cities.keys == Labels(l.j) && ValuesInOrder(l.cities) == Distinct(p)
    requires Contiguous(p + [c])
    ensures ListStep(l, c) == IntendedStep(l, c)
  {
    ValuesListed(l.cities);
    if c in Distinct(p) {
      var xs := p + [c];
      assert xs[..|xs| - 1] == p;
      ContiguousEnd(p, c);
      ContiguousPrefix(xs);
      DistinctLast(p);
      var n := l.j;
      assert n == |Distinct(p)| >= 1;
      assert l.cities.keys[n - 1] == Label(n);
      assert l.cities.vals[Label(n)] == ValuesInOrder(l.cities)[n - 1] == c;
      PutSameValue(l.cities, Label(n));
    }
  }

  /** When each city's records are contiguous, list_cities as written gives
      the intended result: the distinct cities in first-seen order. */
  lemma {:induction false} ContiguousCitiesAgree(xs: seq<string>)
    requires Contiguous(xs)
    ensures CityLabels(xs) == IntendedCityLabels(xs)
    decreases |xs|
  {
    if xs != [] {
      var p, c := xs[..|xs| - 1], xs[|xs| - 1];
      assert xs == p + [c];
      ContiguousPrefix(xs);
      ContiguousCitiesAgree(p);
      IntendedListsDistinct(p);
      StepsAgree(IntendedCityLabels(p), p, c);
    }
  }

  lemma SnocListed(p: seq<string>, c: string)
    ensures CityLabels(p + [c]) == ListStep(CityLabels(p), c)
  {
    assert (p + [c])[..|p|] == p;
  }

  lemma SnocIntended(p: seq<string>, c: string)
    ensures IntendedCityLabels(p + [c]) == IntendedStep(IntendedCityLabels(p), c)
  {
    assert (p + [c])[..|p|] == p;
  }

  lemma FirstLabels()
    ensures Label(1) == "city 1" && Label(2) == "city 2" && Label(3) == "city 3"
    ensures "city 1" != "city 2" && "city 1" != "city 3" && "city 2" != "city 3"
  {
    assert "city 1"[5] == '1' && "city 2"[5] == '2' && "city 3"[5] == '3';
  }

  /** Neither labelling holds a city the records do not name. */
  lemma NotAmong(xs: seq<string>, c: string)
    requires c !in xs
    ensures c !in CityLabels(xs).cities.vals.Values
    ensures c !in IntendedCityLabels(xs).cities.vals.Values
  {
    CityLabelsShape(xs);
    IntendedListsDistinct(xs);
    ValuesListed(IntendedCityLabels(xs).cities);
  }

  /** Both iterations after one more city, for a listing known by its
      parts. */
  lemma ListedThen(xs: seq<string>, y: string, d: Dict<string>, j: nat)
    requires CityLabels(xs) == CityListing(d, j)
    ensures WellFormed(d)
    ensures CityLabels(xs + [y]) ==
      if y in d.vals.Values then CityListing(Put(d, Label(j), y), j) else CityListing(Put(d, Label(j + 1), y), j + 1)
  {
    SnocListed(xs, y);
  }

  lemma IntendedThen(xs: seq<string>, y: string, d: Dict<string>, j: nat)
    requires IntendedCityLabels(xs) == CityListing(d, j)
    ensures WellFormed(d)
    ensures IntendedCityLabels(xs + [y]) ==
      if y in d.vals.Values then CityListing(d, j) else CityListing(Put(d, Label(j + 1), y), j + 1)
  {
    SnocIntended(xs, y);
  }

  // The cities A, B, A, C (any three distinct names) one record at a time.

  lemma Appended(a: string, b: string, c: string, d: string)
    ensures [a] + [b] == [a, b]
    ensures [a, b] + [c] == [a, b, c]
    ensures [a, b, c] + [d] == [a, b, c, d]
  {
  }

  lemma PutFirst(v1: string)
    ensures Put(Empty(), Label(1), v1) == Dict(["city 1"], map["city 1" := v1])
  {
    FirstLabels();
  }

  lemma PutSecond(v1: string, v2: string)
    ensures WellFormed(Dict(["city 1"], map["city 1" := v1]))
    ensures Put(Dict(["city 1"], map["city 1" := v1]), Label(2), v2) ==
      Dict(["city 1", "city 2"], map["city 1" := v1, "city 2" := v2])
  {
    FirstLabels();
    assert ["city 1"] + ["city 2"] == ["city 1", "city 2"];
  }

  /** Re-assigning the second label. */
  lemma PutSecondAgain(v1: string, v2: string, v: string)
    ensures WellFormed(Dict(["city 1", "city 2"], map["city 1" := v1, "city 2" := v2]))
    ensures v1 in map["city 1" := v1, "city 2" := v2].Values
    ensures Put(Dict(["city 1", "city 2"], map["city 1" := v1, "city 2" := v2]), Label(2), v) ==
      Dict(["city 1", "city 2"], map["city 1" := v1, "city 2" := v])
  {
    FirstLabels();
    var m := map["city 1" := v1, "city 2" := v2];
    assert m["city 1"] in m.Values;
  }

  lemma CitiesA(a: string)
    ensures CityLabels([a]) == CityListing(Dict(["city 1"], map["city 1" := a]), 1)
    ensures IntendedCityLabels([a]) == CityLabels([a])
  {
    ListedThen([], a, Empty(), 0);
    IntendedThen([], a, Empty(), 0);
    assert [] + [a] == [a];
    PutFirst(a);
  }

  lemma CitiesAB(a: string, b: string)
    requires a != b
    ensures CityLabels([a, b]) == CityListing(Dict(["city 1", "city 2"], map["city 1" := a, "city 2" := b]), 2)
    ensures IntendedCityLabels([a, b]) == CityLabels([a, b])
  {
    CitiesA(a);
    NotAmong([a], b);
    ListedThen([a], b, Dict(["city 1"], map["city 1" := a]), 1);
    IntendedThen([a], b, Dict(["city 1"], map["city 1" := a]), 1);
    Appended(a, b, a, a);
    PutSecond(a, b);
  }

  lemma CitiesABA(a: string, b: string)
    requires a != b
    ensures CityLabels([a, b, a]) == CityListing(Dict(["city 1", "city 2"], map["city 1" := a, "city 2" := a]), 2)
    ensures IntendedCityLabels([a, b, a]) == CityListing(Dict(["city 1", "city 2"], map["city 1" := a, "city 2" := b]), 2)
  {
    CitiesAB(a, b);
    PutSecondAgain(a, b, a);
    ListedThen([a, b], a, Dict(["city 1", "city 2"], map["city 1" := a, "city 2" := b]), 2);
    IntendedThen([a, b], a, Dict(["city 1", "city 2"], map["city 1" := a, "city 2" := b]), 2);
    Appended(a, b, a, a);
  }

  /** Labelling a third city after two listed ones. */
  lemma PutThird(v1: string, v2: string, v3: string)
    ensures WellFormed(Dict(["city 1", "city 2"], map["city 1" := v1, "city 2" := v2]))
    ensures Put(Dict(["city 1", "city 2"], map["city 1" := v1, "city 2" := v2]), Label(3), v3) ==
      Dict(["city 1", "city 2", "city 3"], map["city 1" := v1, "city 2" := v2, "city 3" := v3])
  {
    FirstLabels();
    assert ["city 1", "city 2"] + ["city 3"] == ["city 1", "city 2", "city 3"];
  }

  lemma ListCitiesOverwritesLabel(a: string, b: string, c: string)
    requires a != b && a != c && b != c
    ensures CityLabels([a, b, a, c]) ==
      CityListing(Dict(["city 1", "city 2", "city 3"], map["city 1" := a, "city 2" := a, "city 3" := c]), 3)
  {
    CitiesABA(a, b);
    NotAmong([a, b, a], c);
    ListedThen([a, b, a], c, Dict(["city 1", "city 2"], map["city 1" := a, "city 2" := a]), 2);
    Appended(a, b, a, c);
    PutThird(a, a, c);
  }

  /** So B, although one of the region's cities, is not listed. */
  lemma ListCitiesLosesCity(a: string, b: string, c: string)
    requires a != b && a != c && b != c
    ensures b !in CityLabels([a, b, a, c]).cities.vals.Values
  {
    ListCitiesOverwritesLabel(a, b, c);
    var m := map["city 1" := a, "city 2" := a, "city 3" := c];
    assert forall v :: v in m.Values ==> v == a || v == c;
  }

  /** The intended labelling lists A, B, C for the same records. */
  lemma IntendedListsAllCities(a: string, b: string, c: string)
    requires a != b && a != c && b != c
    ensures IntendedCityLabels([a, b, a, c]) ==
      CityListing(Dict(["city 1", "city 2", "city 3"], map["city 1" := a, "city 2" := b, "city 3" := c]), 3)
  {
    CitiesABA(a, b);
    NotAmong([a, b, a], c);
    IntendedThen([a, b, a], c, Dict(["city 1", "city 2"], map["city 1" := a, "city 2" := b]), 2);
    Appended(a, b, a, c);
    PutThird(a, b, c);
  }
}
