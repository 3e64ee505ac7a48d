/** Python's insertion-ordered dictionary with string keys, and the
    group-and-count fold that list_countries and list_regions run over it. */
module Dicts {

  /** `keys` is the insertion order, `vals` the association. */
  datatype Dict<V> = Dict(keys: seq<string>, vals: map<string, V>)

  predicate NoDup(s: seq<string>)
  {
    forall i, j :: 0 <= i < j < |s| ==> s[i] != s[j]
  }

  /** Each key is listed once, and the listed keys are the map's keys. */
  ghost predicate WellFormed<V>(d: Dict<V>)
  {
    NoDup(d.keys) && forall k :: k in d.vals <==> k in d.keys
  }

  function Empty<V>(): (d: Dict<V>)
    ensures WellFormed(d) && d.keys == []
  {
    Dict([], map[])
  }

  /** `d[k] = v`: an existing key keeps its position, a new key goes last. */
  function Put<V>(d: Dict<V>, k: string, v: V): (r: Dict<V>)
    requires WellFormed(d)
    ensures WellFormed(r)
    ensures r.vals == d.vals[k := v]
    ensures r.keys == if k in d.vals then d.keys else d.keys + [k]
  {
    if k in d.vals then Dict(d.keys, d.vals[k := v]) else Dict(d.keys + [k], d.vals[k := v])
  }

  /** The distinct elements of `xs` in order of first appearance. */
  function Distinct(xs: seq<string>): (r: seq<string>)
    ensures NoDup(r)
    ensures forall x :: x in r <==> x in xs
    decreases |xs|
  {
    if xs == [] then []
    else
      var d := Distinct(xs[..|xs| - 1]);
      var x := xs[|xs| - 1];
      assert forall y :: y in xs <==> y in xs[..|xs| - 1] || y == x by {
        assert xs == xs[..|xs| - 1] + [x];
      }
      if x in d then d else d + [x]
  }

  /** Index of the first occurrence of `x` in `xs`. */
  function FirstIndex(xs: seq<string>, x: string): (i: nat)
    requires x in xs
    ensures i < |xs| && xs[i] == x
    ensures forall k :: 0 <= k < i ==> xs[k] != x
  {
    if xs[0] == x then 0 else 1 + FirstIndex(xs[1..], x)
  }

  /** One counting step, `if x in d: d[x] += 1 else: d[x] = 1`. */
  function Count(d: Dict<nat>, x: string): (r: Dict<nat>)
    requires WellFormed(d)
    ensures WellFormed(r)
  {
    Put(d, x, if x in d.vals then d.vals[x] + 1 else 1)
  }

  /** The counting step as the loops write it. */
  method Bump(d: Dict<nat>, x: string) returns (r: Dict<nat>)
    requires WellFormed(d)
    ensures r == Count(d, x)
    ensures r.keys == if x in d.vals then d.keys else d.keys + [x]
    ensures r.vals[x] == if x in d.vals then d.vals[x] + 1 else 1
  {
    if x in d.vals {
      r := Put(d, x, d.vals[x] + 1);
    } else {
      r := Put(d, x, 1);
    }
  }

  /** The counting step applied to each element in turn. */
  function Tally(xs: seq<string>): (d: Dict<nat>)
    ensures WellFormed(d)
    decreases |xs|
  {
    if xs == [] then Empty() else Count(Tally(xs[..|xs| - 1]), xs[|xs| - 1])
  }

  /** The values stored under `keys`, in that order. */
  function InOrder<V>(keys: seq<string>, m: map<string, V>): (r: seq<V>)
    requires forall k :: k in keys ==> k in m
    ensures |r| == |keys|
    ensures forall i :: 0 <= i < |keys| ==> r[i] == m[keys[i]]
    decreases |keys|
  {
    if keys == [] then [] else InOrder(keys[..|keys| - 1], m) + [m[keys[|keys| - 1]]]
  }

  /** The dictionary's values in insertion order (`list(d.values())`). */
  ghost function ValuesInOrder<V>(d: Dict<V>): seq<V>
    requires WellFormed(d)
  {
    InOrder(d.keys, d.vals)
  }

  /** A value is stored in the dictionary iff it is among its listed values. */
  lemma ValuesListed<V>(d: Dict<V>)
    requires WellFormed(d)
    ensures forall v :: v in d.vals.Values <==> v in ValuesInOrder(d)
  {
    var r := ValuesInOrder(d);
    forall v | v in d.vals.Values ensures v in r {
      var k :| k in d.vals && d.vals[k] == v;
      var i :| 0 <= i < |d.keys| && d.keys[i] == k;
      assert r[i] == v;
    }
    forall v | v in r ensures v in d.vals.Values {
      var i :| 0 <= i < |r| && r[i] == v;
      assert d.keys[i] in d.vals;
    }
  }

  /** Adding a new key appends its value. */
  lemma PutNewValue<V>(d: Dict<V>, k: string, v: V)
    requires WellFormed(d) && k !in d.vals
    ensures ValuesInOrder(Put(d, k, v)) == ValuesInOrder(d) + [v]
  {
    var r, q := ValuesInOrder(Put(d, k, v)), ValuesInOrder(d) + [v];
    assert |r| == |q|;
    forall i | 0 <= i < |r| ensures r[i] == q[i] {
      if i < |d.keys| {
        assert d.keys[i] in d.vals;
      }
    }
  }

  /** Assigning an existing key its current value changes nothing. */
  lemma PutSameValue<V>(d: Dict<V>, k: string)
    requires WellFormed(d) && k in d.vals
    ensures Put(d, k, d.vals[k]) == d
  {
    assert d.vals[k := d.vals[k]] == d.vals;
  }

  /** Counting one more element is one more counting step. */
  lemma TallySnoc(xs: seq<string>, x: string)
    ensures Tally(xs + [x]) == Count(Tally(xs), x)
  {
    assert (xs + [x])[..|xs|] == xs;
  }

  /** Sum of the values stored under `keys`. */
  function SumOver(keys: seq<string>, m: map<string, nat>): nat
    requires forall k :: k in keys ==> k in m
    decreases |keys|
  {
    if keys == [] then 0 else SumOver(keys[..|keys| - 1], m) + m[keys[|keys| - 1]]
  }

  // ---------------------------------------------------------------------
  // Distinct keeps first-appearance order

  lemma {:induction false} FirstIndexPrefix(xs: seq<string>, x: string, y: string)
    requires x in xs
    ensures FirstIndex(xs + [y], x) == FirstIndex(xs, x)
  {
    if xs[0] != x {
      assert (xs + [y])[1..] == xs[1..] + [y];
      FirstIndexPrefix(xs[1..], x, y);
    }
  }

  lemma {:induction false} FirstIndexNew(xs: seq<string>, x: string)
    requires x !in xs
    ensures FirstIndex(xs + [x], x) == |xs|
  {
    if xs != [] {
      assert (xs + [x])[1..] == xs[1..] + [x];
      FirstIndexNew(xs[1..], x);
    }
  }

  /** The elements of Distinct(xs) are ordered by where they first occur. */
  lemma {:induction false} DistinctOrder(xs: seq<string>)
    ensures forall a, b :: 0 <= a < b < |Distinct(xs)| ==>
      FirstIndex(xs, Distinct(xs)[a]) < FirstIndex(xs, Distinct(xs)[b])
    decreases |xs|
  {
    if xs != [] {
      var init, x := xs[..|xs| - 1], xs[|xs| - 1];
      assert xs == init + [x];
      DistinctOrder(init);
      var d := Distinct(init);
      forall a | 0 <= a < |d| ensures FirstIndex(xs, d[a]) == FirstIndex(init, d[a]) {
        FirstIndexPrefix(init, d[a], x);
      }
      if x !in d {
        FirstIndexNew(init, x);
        forall a | 0 <= a < |d| ensures FirstIndex(xs, d[a]) < FirstIndex(xs, x) {
          assert FirstIndex(init, d[a]) < |init|;
        }
      }
    }
  }

  /** The first distinct element is the first element. */
  lemma {:induction false} DistinctFirst(xs: seq<string>)
    requires xs != []
    ensures Distinct(xs) != [] && Distinct(xs)[0] == xs[0]
    decreases |xs|
  {
    if |xs| > 1 {
      var init := xs[..|xs| - 1];
      DistinctFirst(init);
      assert init[0] == xs[0];
    } else {
      assert xs[..0] == [];
    }
  }

  // ---------------------------------------------------------------------
  // What Tally counts

  /** The keys are the distinct elements in first-seen order, and each key
      maps to its number of occurrences (so every count is at least 1). */
  lemma {:induction false} TallyCounts(xs: seq<string>)
    ensures Tally(xs).keys == Distinct(xs)
    ensures forall x :: x in Tally(xs).vals <==> x in xs
    ensures forall x :: x in Tally(xs).vals ==> Tally(xs).vals[x] == multiset(xs)[x] >= 1
    decreases |xs|
  {
    if xs != [] {
      var init, x := xs[..|xs| - 1], xs[|xs| - 1];
      assert xs == init + [x];
      TallyCounts(init);
      assert multiset(xs) == multiset(init) + multiset{x};
    }
  }

  lemma {:induction false} SumFrame(keys: seq<string>, m1: map<string, nat>, m2: map<string, nat>)
    requires forall k :: k in keys ==> k in m1 && k in m2 && m1[k] == m2[k]
    ensures SumOver(keys, m1) == SumOver(keys, m2)
    decreases |keys|
  {
    if keys != [] {
      SumFrame(keys[..|keys| - 1], m1, m2);
    }
  }

  lemma {:induction false} SumBump(keys: seq<string>, m: map<string, nat>, x: string)
    requires NoDup(keys) && x in keys
    requires forall k :: k in keys ==> k in m
    ensures SumOver(keys, m[x := m[x] + 1]) == SumOver(keys, m) + 1
    decreases |keys|
  {
    var init, last := keys[..|keys| - 1], keys[|keys| - 1];
    assert keys == init + [last];
    if last == x {
      SumFrame(init, m[x := m[x] + 1], m);
    } else {
      SumBump(init, m, x);
    }
  }

  lemma SumAfterInsert(d: Dict<nat>, x: string)
    requires WellFormed(d) && x !in d.vals
    ensures SumOver(d.keys + [x], d.vals[x := 1]) == SumOver(d.keys, d.vals) + 1
  {
    var ks, m := d.keys + [x], d.vals[x := 1];
    assert ks[..|ks| - 1] == d.keys;
    SumFrame(d.keys, m, d.vals);
  }

  /** One counting step adds exactly one to the sum of the counts. */
  lemma SumAfterCount(d: Dict<nat>, x: string)
    requires WellFormed(d)
    ensures SumOver(Count(d, x).keys, Count(d, x).vals) == SumOver(d.keys, d.vals) + 1
  {
    if x in d.vals {
      SumBump(d.keys, d.vals, x);
    } else {
      SumAfterInsert(d, x);
    }
  }

  /** The counts add up to the number of elements counted. */
  lemma {:induction false} TallySum(xs: seq<string>)
    ensures SumOver(Tally(xs).keys, Tally(xs).vals) == |xs|
    decreases |xs|
  {
    if xs != [] {
      TallySum(xs[..|xs| - 1]);
      SumAfterCount(Tally(xs[..|xs| - 1]), xs[|xs| - 1]);
    }
  }
}
