/**
 * Python's insertion-ordered `dict` with string keys: the keys in insertion
 * order (each once) and the value stored under each.
 */
module OrderedDict {

  datatype Dict<V> = Dict(keys: seq<string>, vals: map<string, V>)

  /** No key is listed twice. */
  ghost predicate Distinct(xs: seq<string>) {
    forall i, j :: 0 <= i < j < |xs| ==> xs[i] != xs[j]
  }

  /** The key list and the value map describe the same keys. */
  ghost predicate Valid<V>(d: Dict<V>) {
    Distinct(d.keys) && (forall k :: k in d.vals <==> k in d.keys)
  }

  /** `d[k] = v`: a new key goes to the end, an existing key keeps its place. */
  function Put<V>(d: Dict<V>, k: string, v: V): (r: Dict<V>)
    requires Valid(d)
    ensures Valid(r)
    ensures r.vals == d.vals[k := v]
    ensures k in d.vals ==> r.keys == d.keys
    ensures k !in d.vals ==> r.keys == d.keys + [k]
  {
    if k in d.vals then Dict(d.keys, d.vals[k := v])
    else Dict(d.keys + [k], d.vals[k := v])
  }

  /** The position of the last occurrence of `k` in `ks`. */
  function LastIndex(ks: seq<string>, k: string): (j: nat)
    requires k in ks
    ensures j < |ks| && ks[j] == k
    ensures forall j' :: j < j' < |ks| ==> ks[j'] != k
    decreases |ks|
  {
    var n := |ks| - 1;
    if ks[n] == k then n else LastIndex(ks[..n], k)
  }

  /** In a list without repeats the last occurrence of an item is its only one. */
  lemma {:induction false} LastIndexOfDistinct(ks: seq<string>, i: nat)
    requires Distinct(ks) && i < |ks|
    ensures LastIndex(ks, ks[i]) == i
    decreases |ks|
  {
    var n := |ks| - 1;
    if i < n {
      assert ks[..n][i] == ks[i];
      LastIndexOfDistinct(ks[..n], i);
    }
  }

  /**
   * `dict(zip(ks, vs))` and `{ks[i]: vs[i] for i ...}`: later pairs overwrite
   * earlier ones, so each key holds the value of its LAST pair.
   */
  function FromPairs<V>(ks: seq<string>, vs: seq<V>): (r: Dict<V>)
    requires |ks| == |vs|
    ensures Valid(r)
    ensures forall k :: k in r.vals <==> k in ks
    ensures forall k :: k in r.vals ==> r.vals[k] == vs[LastIndex(ks, k)]
    decreases |ks|
  {
    if ks == [] then Dict([], map[])
    else
      var n := |ks| - 1;
      var prev := FromPairs(ks[..n], vs[..n]);
      assert forall k :: k in ks ==> k == ks[n] || k in ks[..n] by {
        assert ks == ks[..n] + [ks[n]];
      }
      var r := Put(prev, ks[n], vs[n]);
      assert forall k :: k in r.vals ==> r.vals[k] == vs[LastIndex(ks, k)] by {
        forall k | k in r.vals && k != ks[n] ensures r.vals[k] == vs[LastIndex(ks, k)] {
          assert LastIndex(ks, k) == LastIndex(ks[..n], k);
        }
      }
      r
  }

  /** The elements of `xs` that lie in `keep`, in their order. */
  function Filter(xs: seq<string>, keep: set<string>): (r: seq<string>)
    ensures |r| <= |xs|
    ensures forall x :: x in r <==> x in xs && x in keep
  {
    if xs == [] then []
    else (if xs[0] in keep then [xs[0]] else []) + Filter(xs[1..], keep)
  }

  lemma {:induction false} FilterDistinct(xs: seq<string>, keep: set<string>)
    requires Distinct(xs)
    ensures Distinct(Filter(xs, keep))
  {
    if xs != [] {
      FilterDistinct(xs[1..], keep);
    }
  }

  /** Filtering twice is filtering once by both conditions. */
  lemma {:induction false} FilterFilter(xs: seq<string>, a: set<string>, b: set<string>)
    ensures Filter(Filter(xs, a), b) == Filter(xs, a * b)
  {
    if xs != [] {
      FilterFilter(xs[1..], a, b);
      var head := if xs[0] in a then [xs[0]] else [];
      assert Filter(xs, a) == head + Filter(xs[1..], a);
      if xs[0] in a {
        assert (head + Filter(xs[1..], a))[1..] == Filter(xs[1..], a);
      } else {
        assert head + Filter(xs[1..], a) == Filter(xs[1..], a);
      }
    }
  }

  /** Filtering a longer prefix: the new element is kept exactly when it lies in `keep`. */
  lemma {:induction false} FilterSnoc(xs: seq<string>, x: string, keep: set<string>)
    ensures Filter(xs + [x], keep) == Filter(xs, keep) + (if x in keep then [x] else [])
  {
    if xs == [] {
      assert [x][1..] == [];
    } else {
      var tail := if x in keep then [x] else [];
      var head := if xs[0] in keep then [xs[0]] else [];
      assert (xs + [x])[0] == xs[0];
      assert (xs + [x])[1..] == xs[1..] + [x];
      calc {
        Filter(xs + [x], keep);
        head + Filter(xs[1..] + [x], keep);
        { FilterSnoc(xs[1..], x, keep); }
        head + (Filter(xs[1..], keep) + tail);
        (head + Filter(xs[1..], keep)) + tail;
      }
    }
  }

  /** Filtering by a set that holds every element changes nothing. */
  lemma {:induction false} FilterAll(xs: seq<string>, keep: set<string>)
    requires forall x :: x in xs ==> x in keep
    ensures Filter(xs, keep) == xs
  {
    if xs != [] {
      FilterAll(xs[1..], keep);
      assert [xs[0]] + xs[1..] == xs;
    }
  }

  /** The dict comprehension `{k: v for k, v in d.items() if k in keep}`. */
  function Restrict<V>(d: Dict<V>, keep: set<string>): (r: Dict<V>)
    requires Valid(d)
    ensures Valid(r)
    ensures forall k :: k in r.vals <==> k in d.vals && k in keep
    ensures forall k :: k in r.vals ==> r.vals[k] == d.vals[k]
  {
    FilterDistinct(d.keys, keep);
    Dict(Filter(d.keys, keep), map k | k in d.vals && k in keep :: d.vals[k])
  }

  /** `for k in gone: d.pop(k, None)`. */
  function Drop<V>(d: Dict<V>, gone: set<string>): (r: Dict<V>)
    requires Valid(d)
    ensures Valid(r)
    ensures forall k :: k in r.vals <==> k in d.vals && k !in gone
    ensures forall k :: k in r.vals ==> r.vals[k] == d.vals[k]
    ensures r.vals == d.vals - gone
  {
    var r := Restrict(d, d.vals.Keys - gone);
    assert r.vals == d.vals - gone;
    r
  }

  /** `d.pop(k, None)`. */
  function Pop<V>(d: Dict<V>, k: string): (r: Dict<V>)
    requires Valid(d)
    ensures Valid(r)
    ensures r.vals == d.vals - {k}
  {
    Drop(d, {k})
  }

  /** Dropping nothing changes nothing. */
  lemma DropNothing<V>(d: Dict<V>)
    requires Valid(d)
    ensures Drop(d, {}) == d
  {
    assert d.vals.Keys - {} == d.vals.Keys;
    FilterAll(d.keys, d.vals.Keys);
    var r := Drop(d, {});
    assert r.vals == d.vals;
    assert r.keys == d.keys;
  }

  /** Both ways of dropping keep the same values. */
  lemma DropDropValues<V>(d: Dict<V>, x: set<string>, y: set<string>)
    requires Valid(d)
    ensures Drop(Drop(d, x), y).vals == Drop(d, x + y).vals
  {
    assert (d.vals - x) - y == d.vals - (x + y);
  }

  /** Dropping one set of keys and then another drops their union. */
  lemma DropDrop<V>(d: Dict<V>, x: set<string>, y: set<string>)
    requires Valid(d)
    ensures Drop(Drop(d, x), y) == Drop(d, x + y)
  {
    var once := Drop(d, x);
    var twice := Drop(once, y);
    var both := Drop(d, x + y);
    var a, b := d.vals.Keys - x, once.vals.Keys - y;
    assert once.keys == Filter(d.keys, a);
    assert twice.keys == Filter(once.keys, b);
    assert both.keys == Filter(d.keys, d.vals.Keys - (x + y));
    FilterFilter(d.keys, a, b);
    assert a * b == d.vals.Keys - (x + y);
    DropDropValues(d, x, y);
  }
}
