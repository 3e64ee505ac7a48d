/** Values shared by every query: parsed records, the two documents, and the
    sequence operations (filter, project, strip) the queries are built from.
    Field lookups that can fail (a Python KeyError) are guarded by the
    predicates HasAll/HasFields; the query specifications turn a failing
    guard into Err. */
module Records {

  datatype Option<T> = None | Some(value: T)

  /** Err stands for the single error_string every query returns from its
      `except Exception` handler. */
  datatype Result<T> = Ok(value: T) | Err

  /** One parsed XML element whose children are text: a state vector or a
      visible_pass. All values stay strings. */
  type Record = map<string, string>

  /** A global as the queries see it. NoData is the initial `{}` (and any
      parsed document without the expected nesting): every lookup of the
      record list fails. Items is the list found at
      ndm/oem/body/segment/data/stateVector or visible_passes/visible_pass. */
  datatype Doc = NoData | Items(items: seq<Record>)

  /** Every record has the field `f`. */
  predicate HasAll(rs: seq<Record>, f: string)
  {
    forall k :: 0 <= k < |rs| ==> f in rs[k]
  }

  /** The record has every field in `fields`. */
  predicate HasFields(rec: Record, fields: seq<string>)
  {
    forall k :: 0 <= k < |fields| ==> fields[k] in rec
  }

  /** The dictionary `{f: rec[f] for f in fields}` that the projection loops
      build: exactly the named fields, with the record's values. */
  function Project(rec: Record, fields: seq<string>): (r: Record)
    requires HasFields(rec, fields)
    ensures forall f :: f in r <==> f in fields
    ensures forall f :: f in r ==> r[f] == rec[f]
  {
    map f | f in fields :: rec[f]
  }

  /** The values of field `f`, in record order. */
  function Column(rs: seq<Record>, f: string): (r: seq<string>)
    requires HasAll(rs, f)
    ensures |r| == |rs|
    ensures forall k :: 0 <= k < |rs| ==> r[k] == rs[k][f]
    decreases |rs|
  {
    if rs == [] then [] else Column(rs[..|rs| - 1], f) + [rs[|rs| - 1][f]]
  }

  /** The passes whose `country` equals `c` exactly, in input order. */
  function Matching(ps: seq<Record>, c: string): (r: seq<Record>)
    requires HasAll(ps, "country")
    decreases |ps|
  {
    if ps == [] then []
    else Matching(ps[..|ps| - 1], c) + (if ps[|ps| - 1]["country"] == c then [ps[|ps| - 1]] else [])
  }

  /** Each record projected onto `fields`, in order. */
  function ProjectAll(rs: seq<Record>, fields: seq<string>): (r: seq<Record>)
    requires forall k :: 0 <= k < |rs| ==> HasFields(rs[k], fields)
    ensures |r| == |rs|
    ensures forall k :: 0 <= k < |rs| ==> r[k] == Project(rs[k], fields)
    decreases |rs|
  {
    if rs == [] then [] else ProjectAll(rs[..|rs| - 1], fields) + [Project(rs[|rs| - 1], fields)]
  }

  /** The records whose field `f` equals `v`, each with `f` deleted, in order:
      the filter-and-`del` loops of region_data and city_data. */
  function SelectStrip(rs: seq<Record>, f: string, v: string): (r: seq<Record>)
    requires HasAll(rs, f)
    decreases |rs|
  {
    if rs == [] then []
    else SelectStrip(rs[..|rs| - 1], f, v) + (if rs[|rs| - 1][f] == v then [rs[|rs| - 1] - {f}] else [])
  }

  /** The names listed in `fields`, as a set. */
  function FieldSet(fields: seq<string>): set<string>
  {
    set f | f in fields
  }

  // ---------------------------------------------------------------------
  // What Matching, ProjectAll and SelectStrip select

  /** A projected field is present in every projected record. */
  lemma ProjectAllHas(rs: seq<Record>, fields: seq<string>, f: string)
    requires forall k :: 0 <= k < |rs| ==> HasFields(rs[k], fields)
    requires f in fields
    ensures HasAll(ProjectAll(rs, fields), f)
  {
  }

  /** Every projected record has exactly the projected fields. */
  lemma ProjectAllKeys(rs: seq<Record>, fields: seq<string>)
    requires forall k :: 0 <= k < |rs| ==> HasFields(rs[k], fields)
    ensures forall k :: 0 <= k < |rs| ==> ProjectAll(rs, fields)[k].Keys == FieldSet(fields)
  {
    var out := ProjectAll(rs, fields);
    forall k | 0 <= k < |rs| ensures out[k].Keys == FieldSet(fields) {
      assert out[k] == Project(rs[k], fields);
      assert forall f :: f in out[k].Keys <==> f in FieldSet(fields);
    }
  }

  lemma {:induction false} MatchingSelects(ps: seq<Record>, c: string)
    requires HasAll(ps, "country")
    ensures forall p :: p in Matching(ps, c) <==> p in ps && p["country"] == c
    ensures |Matching(ps, c)| <= |ps|
    decreases |ps|
  {
    if ps != [] {
      var init := ps[..|ps| - 1];
      MatchingSelects(init, c);
      assert ps == init + [ps[|ps| - 1]];
    }
  }

  /** A country no pass carries selects nothing. */
  lemma {:induction false} MatchingAbsent(ps: seq<Record>, c: string)
    requires HasAll(ps, "country")
    requires forall k :: 0 <= k < |ps| ==> ps[k]["country"] != c
    ensures Matching(ps, c) == []
    decreases |ps|
  {
    if ps != [] {
      MatchingAbsent(ps[..|ps| - 1], c);
    }
  }

  lemma {:induction false} SelectStripSelects(rs: seq<Record>, f: string, v: string)
    requires HasAll(rs, f)
    ensures forall r :: r in SelectStrip(rs, f, v) ==> exists q :: q in rs && q[f] == v && r == q - {f}
    ensures forall q :: q in rs && q[f] == v ==> q - {f} in SelectStrip(rs, f, v)
    ensures |SelectStrip(rs, f, v)| <= |rs|
    decreases |rs|
  {
    if rs != [] {
      var init := rs[..|rs| - 1];
      SelectStripSelects(init, f, v);
      assert rs == init + [rs[|rs| - 1]];
    }
  }

  /** Deleting `f` keeps the other fields of each selected record. */
  lemma {:induction false} SelectStripKeys(rs: seq<Record>, f: string, v: string, keys: set<string>)
    requires HasAll(rs, f)
    requires forall k :: 0 <= k < |rs| ==> rs[k].Keys == keys
    ensures forall k :: 0 <= k < |SelectStrip(rs, f, v)| ==> SelectStrip(rs, f, v)[k].Keys == keys - {f}
    decreases |rs|
  {
    if rs != [] {
      SelectStripKeys(rs[..|rs| - 1], f, v, keys);
    }
  }

  // ---------------------------------------------------------------------
  // One more record at the end: how each fold extends

  /** The prefix of length i + 1 is the prefix of length i and element i. */
  lemma PrefixStep<T>(s: seq<T>, i: nat)
    requires i < |s|
    ensures s[..i + 1] == s[..i] + [s[i]]
  {
  }

  lemma ColumnSnoc(rs: seq<Record>, r: Record, f: string)
    requires HasAll(rs, f) && f in r
    ensures HasAll(rs + [r], f)
    ensures Column(rs + [r], f) == Column(rs, f) + [r[f]]
  {
    assert (rs + [r])[..|rs|] == rs;
  }

  lemma MatchingSnoc(ps: seq<Record>, p: Record, c: string)
    requires HasAll(ps, "country") && "country" in p
    ensures HasAll(ps + [p], "country")
    ensures Matching(ps + [p], c) == Matching(ps, c) + (if p["country"] == c then [p] else [])
  {
    assert (ps + [p])[..|ps|] == ps;
  }

  lemma ProjectAllSnoc(rs: seq<Record>, r: Record, fields: seq<string>)
    requires forall k :: 0 <= k < |rs| ==> HasFields(rs[k], fields)
    requires HasFields(r, fields)
    ensures forall k :: 0 <= k < |rs + [r]| ==> HasFields((rs + [r])[k], fields)
    ensures ProjectAll(rs + [r], fields) == ProjectAll(rs, fields) + [Project(r, fields)]
  {
    assert (rs + [r])[..|rs|] == rs;
  }

  lemma SelectStripSnoc(rs: seq<Record>, r: Record, f: string, v: string)
    requires HasAll(rs, f) && f in r
    ensures HasAll(rs + [r], f)
    ensures SelectStrip(rs + [r], f, v) == SelectStrip(rs, f, v) + (if r[f] == v then [r - {f}] else [])
  {
    assert (rs + [r])[..|rs|] == rs;
  }

  /** One more pass for the country filter: pass `i` joins the selection
      exactly when it carries `c`. */
  lemma MatchingStep(ps: seq<Record>, i: nat, c: string)
    requires i < |ps| && HasAll(ps[..i], "country") && "country" in ps[i]
    ensures HasAll(ps[..i + 1], "country")
    ensures Matching(ps[..i + 1], c) == Matching(ps[..i], c) + (if ps[i]["country"] == c then [ps[i]] else [])
  {
    PrefixStep(ps, i);
    MatchingSnoc(ps[..i], ps[i], c);
  }

  /** One more record for the filter-and-delete loops. */
  lemma SelectStripStep(rs: seq<Record>, i: nat, f: string, v: string)
    requires i < |rs| && HasAll(rs, f)
    ensures HasAll(rs[..i], f) && HasAll(rs[..i + 1], f)
    ensures SelectStrip(rs[..i + 1], f, v) == SelectStrip(rs[..i], f, v) + (if rs[i][f] == v then [rs[i] - {f}] else [])
  {
    PrefixStep(rs, i);
    assert HasAll(rs[..i], f) by {
      forall k | 0 <= k < i ensures f in rs[..i][k] { assert rs[..i][k] == rs[k]; }
    }
    SelectStripSnoc(rs[..i], rs[i], f, v);
  }

  /** Pass `i` carries country `c`, so when every pass has a country it is
      among the selected ones. */
  lemma MatchedIsSelected(ps: seq<Record>, i: nat, c: string)
    requires i < |ps| && "country" in ps[i] && ps[i]["country"] == c
    ensures HasAll(ps, "country") ==> exists k :: 0 <= k < |Matching(ps, c)| && Matching(ps, c)[k] == ps[i]
  {
    if HasAll(ps, "country") {
      MatchingSelects(ps, c);
      assert ps[i] in Matching(ps, c);
    }
  }

  /** The loop `d = {}; for f in fields: d[f] = rec[f]`, None standing for
      the KeyError raised by the first field the record lacks. */
  method ProjectFields(rec: Record, fields: seq<string>) returns (r: Option<Record>)
    ensures r == if HasFields(rec, fields) then Some(Project(rec, fields)) else None
  {
    var d: Record := map[];
    var k := 0;
    while k < |fields|
      invariant 0 <= k <= |fields|
      invariant HasFields(rec, fields[..k])
      invariant d == map f | f in fields[..k] :: rec[f]
    {
      if fields[k] !in rec {
        return None;
      }
      assert fields[..k + 1] == fields[..k] + [fields[k]];
      d := d[fields[k] := rec[fields[k]]];
      k := k + 1;
    }
    assert fields[..k] == fields;
    return Some(d);
  }
}
