/**
 * `classify_output`: turn the network's per-tag scores into the kept tags,
 * applying the implication mode, category exclusion and the threshold.
 */
module Classify {
  import opened Wrappers
  import opened OrderedDict
  import opened Implications

  /** The implication modes the command line and the interactive prompt accept. */
  const ImplicationModes: seq<string> := ["inherit", "constrain", "remove", "constrain-remove", "off"]

  /** Modes that constrain scores before filtering. */
  predicate Constrains(mode: string) { mode == "constrain" || mode == "constrain-remove" }

  /** Modes that remove implied tags after filtering. */
  predicate Removes(mode: string) { mode == "remove" || mode == "constrain-remove" }

  /** A global threshold, or one threshold per tag loaded from a calibration file. */
  datatype Thresholds = Uniform(value: real) | PerTag(table: map<string, real>)

  datatype ClassifyError = LengthMismatch | InvalidMode

  /** `from_symmetric`: the user's [-1, 1] scale to the network's [0, 1] scale. */
  function FromSymmetric(t: real): (r: real)
    ensures -1.0 <= t <= 1.0 <==> 0.0 <= r <= 1.0
  {
    (t + 1.0) / 2.0
  }

  /** `to_symmetric`: the network's [0, 1] scale to the user's [-1, 1] scale. */
  function ToSymmetric(p: real): (r: real)
    ensures 0.0 <= p <= 1.0 <==> -1.0 <= r <= 1.0
  {
    (p - 0.5) * 2.0
  }

  /** The two conversions are inverse to each other and order-preserving. */
  lemma SymmetricInverse(t: real, p: real)
    ensures ToSymmetric(FromSymmetric(t)) == t
    ensures FromSymmetric(ToSymmetric(p)) == p
    ensures t <= p <==> FromSymmetric(t) <= FromSymmetric(p)
  {
  }

  /** `prob >= threshold.get(tag, inf)` or `prob >= threshold`. */
  predicate Passes(threshold: Thresholds, tag: string, prob: real) {
    match threshold
    case Uniform(v) => prob >= v
    case PerTag(table) => tag in table && prob >= table[tag]
  }

  /** The condition of the dict comprehension at the end of `classify_output`. */
  predicate Kept(meta: Metadata, exclude: set<int>, threshold: Thresholds, tag: string, prob: real)
    requires exclude != {} ==> tag in meta
  {
    (exclude == {} || meta[tag].category !in exclude) && Passes(threshold, tag, prob)
  }

  /** The filtering comprehension: order kept, values unchanged. */
  function FilterLabels(d: Dict<real>, meta: Metadata, exclude: set<int>, threshold: Thresholds): (r: Dict<real>)
    requires Valid(d)
    requires exclude != {} ==> forall k :: k in d.vals ==> k in meta
    ensures Valid(r)
    ensures forall k :: k in r.vals <==> k in d.vals && Kept(meta, exclude, threshold, k, d.vals[k])
    ensures forall k :: k in r.vals ==> r.vals[k] == d.vals[k]
  {
    Restrict(d, set k | k in d.vals && Kept(meta, exclude, threshold, k, d.vals[k]))
  }

  /** Every tag has metadata and its transitive consequents are tags as well. */
  ghost predicate Covered(meta: Metadata, rank: map<string, nat>, tags: seq<string>)
    requires Ranked(meta, rank)
  {
    forall t :: t in tags ==> t in meta && forall d :: d in Desc(meta, rank, t) ==> d in tags
  }

  /** `for tag in tags: inherit_implications(labels, tag, metadata)`. */
  ghost function InheritAll(L: Scores, meta: Metadata, rank: map<string, nat>, ts: seq<string>): (r: Scores)
    requires Ranked(meta, rank)
    requires forall t :: t in ts ==> t in meta && t in L && Desc(meta, rank, t) <= L.Keys
    ensures r.Keys == L.Keys
    ensures forall k :: k in L ==> r[k] >= L[k]
    decreases |ts|
  {
    if ts == [] then L else InheritAll(Inherit(L, meta, rank, ts[0]), meta, rank, ts[1..])
  }

  /** `for tag in tags: constrain_implications(labels, tag, metadata)`. */
  ghost function ConstrainAll(L: Scores, meta: Metadata, rank: map<string, nat>, ts: seq<string>): (r: Scores)
    requires Ranked(meta, rank)
    requires forall t :: t in ts ==> t in meta && t in L && Desc(meta, rank, t) <= L.Keys
    ensures r.Keys == L.Keys
    ensures forall k :: k in L ==> r[k] <= L[k]
    decreases |ts|
  {
    if ts == [] then L else ConstrainAll(Constrain(L, meta, rank, ts[0], ts[0]), meta, rank, ts[1..])
  }

  /** `for tag in tags: if tag in labels: remove_implications(labels, tag, metadata)`. */
  ghost function RemoveAll(d: Dict<real>, meta: Metadata, rank: map<string, nat>, ts: seq<string>): (r: Dict<real>)
    requires Ranked(meta, rank) && Valid(d)
    requires forall t :: t in ts ==> t in meta
    ensures Valid(r)
    decreases |ts|
  {
    if ts == [] then d
    else RemoveAll(if ts[0] in d.vals then RemoveImplied(d, meta, rank, ts[0]) else d, meta, rank, ts[1..])
  }

  /** What the source's callers guarantee before `classify_output` looks anything up. */
  ghost predicate CanClassify(tags: seq<string>, meta: Metadata, rank: map<string, nat>, mode: string, exclude: set<int>) {
    && Ranked(meta, rank)
    && (mode == "inherit" || Constrains(mode) ==> Covered(meta, rank, tags))
    && (Removes(mode) || exclude != {} ==> forall t :: t in tags ==> t in meta)
  }

  /** The scores after the implication mode is applied and before filtering. */
  ghost function Adjusted(d: Dict<real>, tags: seq<string>, meta: Metadata, rank: map<string, nat>, mode: string): (r: Dict<real>)
    requires CanClassify(tags, meta, rank, mode, {}) && Valid(d)
    requires forall k :: k in d.vals <==> k in tags
    ensures Valid(r) && r.keys == d.keys
  {
    if mode == "inherit" then d.(vals := InheritAll(d.vals, meta, rank, tags))
    else if Constrains(mode) then d.(vals := ConstrainAll(d.vals, meta, rank, tags))
    else d
  }

  /**
   * What `classify_output` returns or raises: an error only for an output of
   * the wrong length or an unknown mode, and otherwise model tags that pass
   * their threshold.
   */
  ghost function Classification(output: seq<real>, tags: seq<string>, threshold: Thresholds, meta: Metadata,
                                rank: map<string, nat>, mode: string, exclude: set<int>)
    : (r: Result<Dict<real>, ClassifyError>)
    requires CanClassify(tags, meta, rank, mode, exclude)
    ensures r.Err? <==> |output| != |tags| || mode !in ImplicationModes
    ensures r.Ok? ==> Valid(r.value)
    ensures r.Ok? ==> forall k :: k in r.value.vals ==> k in tags && Passes(threshold, k, r.value.vals[k])
  {
    if |output| != |tags| then Err(LengthMismatch)
    else if mode !in ImplicationModes then Err(InvalidMode)
    else
      var kept := FilterLabels(Adjusted(FromPairs(tags, output), tags, meta, rank, mode), meta, exclude, threshold);
      if Removes(mode) then
        RemoveAllShrinks(kept, meta, rank, tags);
        Ok(RemoveAll(kept, meta, rank, tags))
      else Ok(kept)
  }

  /** Removing keeps a subset of the keys, with their values. */
  lemma {:induction false} RemoveAllShrinks(d: Dict<real>, meta: Metadata, rank: map<string, nat>, ts: seq<string>)
    requires Ranked(meta, rank) && Valid(d)
    requires forall t :: t in ts ==> t in meta
    ensures var r := RemoveAll(d, meta, rank, ts);
      forall k :: k in r.vals ==> k in d.vals && r.vals[k] == d.vals[k]
    decreases |ts|
  {
    if ts != [] {
      var next := if ts[0] in d.vals then RemoveImplied(d, meta, rank, ts[0]) else d;
      if ts[0] in d.vals {
        RemoveDropsDescendants(d, meta, rank, ts[0]);
      }
      RemoveAllShrinks(next, meta, rank, ts[1..]);
    }
  }

  /** After removal, no remaining tag of `ts` has a transitive consequent that also remains. */
  lemma {:induction false} RemoveAllIndependent(d: Dict<real>, meta: Metadata, rank: map<string, nat>, ts: seq<string>)
    requires Ranked(meta, rank) && Valid(d)
    requires forall t :: t in ts ==> t in meta
    ensures var r := RemoveAll(d, meta, rank, ts);
      forall a, b :: a in ts && a in r.vals && b in r.vals ==> b !in Desc(meta, rank, a)
    decreases |ts|
  {
    if ts != [] {
      var t := ts[0];
      var next := if t in d.vals then RemoveImplied(d, meta, rank, t) else d;
      var r := RemoveAll(d, meta, rank, ts);
      assert r == RemoveAll(next, meta, rank, ts[1..]);
      RemoveAllIndependent(next, meta, rank, ts[1..]);
      RemoveAllShrinks(next, meta, rank, ts[1..]);
      if t in r.vals {
        assert t in d.vals;
        RemoveDropsDescendants(d, meta, rank, t);
        assert forall b :: b in r.vals ==> b in next.vals && b !in Desc(meta, rank, t);
      }
      forall a, b | a in ts && a in r.vals && b in r.vals ensures b !in Desc(meta, rank, a) {
        if a != t {
          assert a in ts[1..];
        }
      }
    }
  }

  /**
   * After `constrain` over all tags, every tag scores at most each of its
   * transitive consequents (the help text's "constrained to the lowest
   * probability of the more general tags they imply").
   */
  lemma {:induction false} ConstrainAllOrdered(L: Scores, meta: Metadata, rank: map<string, nat>, ts: seq<string>, done: set<string>)
    requires Ranked(meta, rank)
    requires forall t :: t in ts ==> t in meta && t in L && Desc(meta, rank, t) <= L.Keys
    requires forall t :: t in done ==> t in meta && t in L && Desc(meta, rank, t) <= L.Keys
    requires forall t, d :: t in done && d in Desc(meta, rank, t) ==> L[t] <= L[d]
    ensures forall t, d :: (t in done || t in ts) && d in Desc(meta, rank, t) ==>
      ConstrainAll(L, meta, rank, ts)[t] <= ConstrainAll(L, meta, rank, ts)[d]
    decreases |ts|
  {
    if ts != [] {
      var x := ts[0];
      var next := Constrain(L, meta, rank, x, x);
      DescRanked(meta, rank, x);
      ConstrainIsMinimum(L, meta, rank, x, x);
      forall t, d | t in done + {x} && d in Desc(meta, rank, t) ensures next[t] <= next[d] {
        if t == x {
          DescRanked(meta, rank, x);
        } else if d == x {
          DescTransitive(meta, rank, t, x);
        }
      }
      ConstrainAllOrdered(next, meta, rank, ts[1..], done + {x});
      forall t | t in ts ensures t in done + {x} || t in ts[1..] {
      }
    }
  }

  /** Every score of `r` is the tag's score in `L` or the `L` score of a tag of `S` that implies it. */
  ghost predicate Passed(meta: Metadata, rank: map<string, nat>, r: Scores, L: Scores, S: set<string>)
    requires Ranked(meta, rank)
  {
    forall k :: k in r ==> Witnessed(meta, rank, r, L, S, k)
  }

  /** A maximum is unique. */
  lemma IsMaximumUnique(v: real, w: real, base: real, L: Scores, over: set<string>)
    requires over <= L.Keys
    requires IsMaximum(v, base, L, over) && IsMaximum(w, base, L, over)
    ensures v == w
  {
    if v != base {
      var x :| x in over && v == L[x];
    }
    if w != base {
      var x :| x in over && w == L[x];
    }
  }

  /** One `inherit_implications` call only passes on scores of the tag and its consequents. */
  lemma InheritPassed(L: Scores, meta: Metadata, rank: map<string, nat>, a: string, U: set<string>)
    requires Ranked(meta, rank) && a in meta && a in L && Desc(meta, rank, a) <= L.Keys
    requires a in U && Desc(meta, rank, a) <= U
    ensures Passed(meta, rank, Inherit(L, meta, rank, a), L, U)
  {
    var r := Inherit(L, meta, rank, a);
    InheritIsMaximum(L, meta, rank, a);
    forall k | k in r ensures Witnessed(meta, rank, r, L, U, k) {
      if k in Desc(meta, rank, a) && r[k] != L[k] {
        var x :| x in Implying(meta, rank, k, {a} + Desc(meta, rank, a)) && r[k] == L[x];
      }
    }
  }

  /** Passing scores on twice, within the same tags, passes them on once. */
  lemma PassedCompose(meta: Metadata, rank: map<string, nat>, r: Scores, M: Scores, L: Scores, S: set<string>)
    requires Ranked(meta, rank) && r.Keys == M.Keys == L.Keys
    requires Passed(meta, rank, r, M, S) && Passed(meta, rank, M, L, S)
    ensures Passed(meta, rank, r, L, S)
  {
    forall k | k in r ensures Witnessed(meta, rank, r, L, S, k) {
      if r[k] != M[k] {
        var y :| y in S && y in M && y in meta && k in Desc(meta, rank, y) && r[k] == M[y];
        if M[y] != L[y] {
          var z :| z in S && z in L && z in meta && y in Desc(meta, rank, z) && M[y] == L[z];
          DescTransitive(meta, rank, z, y);
        }
      } else if M[k] != L[k] {
        var y :| y in S && y in L && y in meta && k in Desc(meta, rank, y) && M[k] == L[y];
      }
    }
  }

  /** The whole inherit pass only passes on scores of tags in `U`, when `U` holds the tags and their consequents. */
  lemma {:induction false} InheritAllPassed(L: Scores, meta: Metadata, rank: map<string, nat>, ts: seq<string>, U: set<string>)
    requires Ranked(meta, rank)
    requires forall t :: t in ts ==> t in meta && t in L && Desc(meta, rank, t) <= L.Keys
    requires forall t :: t in ts ==> t in U && Desc(meta, rank, t) <= U
    ensures Passed(meta, rank, InheritAll(L, meta, rank, ts), L, U)
    decreases |ts|
  {
    if ts != [] {
      var next := Inherit(L, meta, rank, ts[0]);
      InheritPassed(L, meta, rank, ts[0], U);
      InheritAllPassed(next, meta, rank, ts[1..], U);
      PassedCompose(meta, rank, InheritAll(next, meta, rank, ts[1..]), next, L, U);
    }
  }

  /** After the inherit pass, every consequent of a tag of `ts` scores at least that tag's original score. */
  lemma {:induction false} InheritAllDominates(L: Scores, meta: Metadata, rank: map<string, nat>, ts: seq<string>)
    requires Ranked(meta, rank)
    requires forall t :: t in ts ==> t in meta && t in L && Desc(meta, rank, t) <= L.Keys
    ensures forall x, k :: x in ts && k in Desc(meta, rank, x) ==> InheritAll(L, meta, rank, ts)[k] >= L[x]
    decreases |ts|
  {
    if ts != [] {
      var next := Inherit(L, meta, rank, ts[0]);
      InheritDominates(L, meta, rank, ts[0]);
      InheritAllDominates(next, meta, rank, ts[1..]);
      forall x, k | x in ts && k in Desc(meta, rank, x) ensures InheritAll(L, meta, rank, ts)[k] >= L[x] {
        if x != ts[0] {
          assert x in ts[1..];
        }
      }
    }
  }

  /**
   * `inherit` over tags closed under implication: every tag ends at the
   * maximum of its own score and the scores of the tags that imply it.
   */
  lemma InheritAllIsMaximum(L: Scores, meta: Metadata, rank: map<string, nat>, ts: seq<string>)
    requires Ranked(meta, rank)
    requires forall t :: t in ts ==> t in meta && t in L && Desc(meta, rank, t) <= L.Keys
    requires forall t, d :: t in ts && d in Desc(meta, rank, t) ==> d in ts
    ensures forall k :: k in L ==>
      IsMaximum(InheritAll(L, meta, rank, ts)[k], L[k], L, Implying(meta, rank, k, set x | x in ts))
  {
    var r := InheritAll(L, meta, rank, ts);
    var U := set x | x in ts;
    InheritAllPassed(L, meta, rank, ts, U);
    InheritAllDominates(L, meta, rank, ts);
    forall k | k in L ensures IsMaximum(r[k], L[k], L, Implying(meta, rank, k, U)) {
      assert Witnessed(meta, rank, r, L, U, k);
      if r[k] != L[k] {
        var y :| y in U && y in L && y in meta && k in Desc(meta, rank, y) && r[k] == L[y];
        assert y in Implying(meta, rank, k, U);
      }
    }
  }

  /**
   * After `inherit` over tags closed under implication, every tag scores at
   * most each of its transitive consequents; the mirror of `ConstrainAllOrdered`.
   */
  lemma InheritAllOrdered(L: Scores, meta: Metadata, rank: map<string, nat>, ts: seq<string>)
    requires Ranked(meta, rank)
    requires forall t :: t in ts ==> t in meta && t in L && Desc(meta, rank, t) <= L.Keys
    requires forall t, d :: t in ts && d in Desc(meta, rank, t) ==> d in ts
    ensures forall t, d :: t in ts && d in Desc(meta, rank, t) ==>
      InheritAll(L, meta, rank, ts)[t] <= InheritAll(L, meta, rank, ts)[d]
  {
    var r := InheritAll(L, meta, rank, ts);
    var U := set x | x in ts;
    InheritAllIsMaximum(L, meta, rank, ts);
    forall t, d | t in ts && d in Desc(meta, rank, t) ensures r[t] <= r[d] {
      assert t in Implying(meta, rank, d, U);
      if r[t] != L[t] {
        var x :| x in Implying(meta, rank, t, U) && r[t] == L[x];
        DescTransitive(meta, rank, x, t);
        assert x in Implying(meta, rank, d, U);
      }
    }
  }

  /** The tags that the removal pass drops: the consequents of every tag of `ts` present in `d`. */
  ghost function Implied(d: Dict<real>, meta: Metadata, rank: map<string, nat>, ts: seq<string>): set<string>
    requires Ranked(meta, rank)
    requires forall t :: t in ts ==> t in meta
  {
    set k, x | k in ts && k in d.vals && x in Desc(meta, rank, k) :: x
  }

  /**
   * The removal pass drops exactly the consequents of the tags of `ts`
   * present on entry: a tag already dropped when its turn comes is a
   * consequent of an earlier tag, so its own consequents are gone too.
   */
  lemma {:induction false} RemoveAllDrops(d: Dict<real>, meta: Metadata, rank: map<string, nat>, ts: seq<string>)
    requires Ranked(meta, rank) && Valid(d)
    requires forall t :: t in ts ==> t in meta
    ensures RemoveAll(d, meta, rank, ts) == Drop(d, Implied(d, meta, rank, ts))
    decreases |ts|
  {
    if ts == [] {
      assert Implied(d, meta, rank, ts) == {};
      DropNothing(d);
    } else {
      var t, rest := ts[0], ts[1..];
      if t in d.vals {
        var next := RemoveImplied(d, meta, rank, t);
        RemoveDropsDescendants(d, meta, rank, t);
        RemoveAllDrops(next, meta, rank, rest);
        DropDrop(d, Desc(meta, rank, t), Implied(next, meta, rank, rest));
        ImpliedPresent(d, next, meta, rank, ts);
      } else {
        RemoveAllDrops(d, meta, rank, rest);
        ImpliedAbsent(d, meta, rank, ts);
      }
    }
  }

  /** When the first tag is present, it contributes its consequents and the rest works on what remains. */
  lemma ImpliedPresent(d: Dict<real>, next: Dict<real>, meta: Metadata, rank: map<string, nat>, ts: seq<string>)
    requires Ranked(meta, rank) && Valid(d) && Valid(next)
    requires forall t :: t in ts ==> t in meta
    requires ts != [] && ts[0] in d.vals && next == Drop(d, Desc(meta, rank, ts[0]))
    ensures Implied(d, meta, rank, ts) == Desc(meta, rank, ts[0]) + Implied(next, meta, rank, ts[1..])
  {
    var t, rest := ts[0], ts[1..];
    forall x | x in Implied(d, meta, rank, ts) ensures x in Desc(meta, rank, t) + Implied(next, meta, rank, rest) {
      var k :| k in ts && k in d.vals && x in Desc(meta, rank, k);
      if k != t {
        assert k in rest;
        if k in next.vals {
          assert x in Implied(next, meta, rank, rest);
        } else {
          DescTransitive(meta, rank, t, k);
        }
      }
    }
    forall x | x in Implied(next, meta, rank, rest) ensures x in Implied(d, meta, rank, ts) {
      var k :| k in rest && k in next.vals && x in Desc(meta, rank, k);
    }
  }

  /** When the first tag is absent, it contributes nothing. */
  lemma ImpliedAbsent(d: Dict<real>, meta: Metadata, rank: map<string, nat>, ts: seq<string>)
    requires Ranked(meta, rank) && Valid(d)
    requires forall t :: t in ts ==> t in meta
    requires ts != [] && ts[0] !in d.vals
    ensures Implied(d, meta, rank, ts) == Implied(d, meta, rank, ts[1..])
  {
    forall x | x in Implied(d, meta, rank, ts) ensures x in Implied(d, meta, rank, ts[1..]) {
      var k :| k in ts && k in d.vals && x in Desc(meta, rank, k);
      assert k in ts[1..];
    }
    forall x | x in Implied(d, meta, rank, ts[1..]) ensures x in Implied(d, meta, rank, ts) {
      var k :| k in ts[1..] && k in d.vals && x in Desc(meta, rank, k);
    }
  }

  /** On a successful call, no kept tag is excluded, and with `remove` no kept tag implies another. */
  lemma ClassificationProperties(output: seq<real>, tags: seq<string>, threshold: Thresholds, meta: Metadata,
                                 rank: map<string, nat>, mode: string, exclude: set<int>)
    requires CanClassify(tags, meta, rank, mode, exclude)
    ensures var r := Classification(output, tags, threshold, meta, rank, mode, exclude);
      && (r.Ok? && exclude != {} ==> forall k :: k in r.value.vals ==> k in meta && meta[k].category !in exclude)
      && (r.Ok? && Removes(mode) ==>
            forall a, b :: a in r.value.vals && b in r.value.vals ==> a in meta && b !in Desc(meta, rank, a))
  {
    var r := Classification(output, tags, threshold, meta, rank, mode, exclude);
    if r.Ok? {
      var raw := FromPairs(tags, output);
      var kept := FilterLabels(Adjusted(raw, tags, meta, rank, mode), meta, exclude, threshold);
      if Removes(mode) {
        RemoveAllShrinks(kept, meta, rank, tags);
        RemoveAllIndependent(kept, meta, rank, tags);
      }
    }
  }

  /**
   * With `remove`, the result is the filtered dict less the consequents of
   * every tag that passed the filter.
   */
  lemma ClassificationRemoves(output: seq<real>, tags: seq<string>, threshold: Thresholds, meta: Metadata,
                              rank: map<string, nat>, mode: string, exclude: set<int>)
    requires CanClassify(tags, meta, rank, mode, exclude) && Removes(mode) && |output| == |tags|
    ensures var kept := FilterLabels(Adjusted(FromPairs(tags, output), tags, meta, rank, mode), meta, exclude, threshold);
      Classification(output, tags, threshold, meta, rank, mode, exclude) == Ok(Drop(kept, Implied(kept, meta, rank, tags)))
  {
    var kept := FilterLabels(Adjusted(FromPairs(tags, output), tags, meta, rank, mode), meta, exclude, threshold);
    RemoveAllDrops(kept, meta, rank, tags);
  }

  /**
   * With `inherit`, a tag is kept exactly when the maximum of its own score
   * and the scores of the tags implying it passes, and it is kept with that
   * maximum.
   */
  lemma ClassificationInherits(output: seq<real>, tags: seq<string>, threshold: Thresholds, meta: Metadata,
                               rank: map<string, nat>, exclude: set<int>)
    requires CanClassify(tags, meta, rank, "inherit", exclude) && |output| == |tags|
    ensures var r := Classification(output, tags, threshold, meta, rank, "inherit", exclude);
      var raw := FromPairs(tags, output).vals;
      && r.Ok?
      && forall k, v :: k in tags && IsMaximum(v, raw[k], raw, Implying(meta, rank, k, set x | x in tags)) ==>
           && (k in r.value.vals <==> Kept(meta, exclude, threshold, k, v))
           && (k in r.value.vals ==> r.value.vals[k] == v)
  {
    var raw := FromPairs(tags, output).vals;
    InheritedValues(raw, meta, rank, tags, set x | x in tags);
  }

  /** Each tag's score after the whole `inherit` pass is any maximum of its own and its implying tags' scores. */
  lemma InheritedValues(raw: Scores, meta: Metadata, rank: map<string, nat>, tags: seq<string>, U: set<string>)
    requires Ranked(meta, rank) && Covered(meta, rank, tags)
    requires forall t :: t in tags ==> t in raw
    requires U == set x | x in tags
    ensures forall k, v :: k in tags && IsMaximum(v, raw[k], raw, Implying(meta, rank, k, U)) ==>
      k in InheritAll(raw, meta, rank, tags) && InheritAll(raw, meta, rank, tags)[k] == v
  {
    var adjusted := InheritAll(raw, meta, rank, tags);
    InheritAllIsMaximum(raw, meta, rank, tags);
    forall k, v | k in tags && IsMaximum(v, raw[k], raw, Implying(meta, rank, k, U))
      ensures k in adjusted && adjusted[k] == v
    {
      IsMaximumUnique(v, adjusted[k], raw[k], raw, Implying(meta, rank, k, U));
    }
  }

  /** With implications off, a tag is kept exactly when its raw score passes, with that score. */
  lemma ClassificationOff(output: seq<real>, tags: seq<string>, threshold: Thresholds, meta: Metadata,
                          rank: map<string, nat>, exclude: set<int>)
    requires CanClassify(tags, meta, rank, "off", exclude) && |output| == |tags|
    ensures var r := Classification(output, tags, threshold, meta, rank, "off", exclude);
      var raw := FromPairs(tags, output);
      && r.Ok?
      && (forall k :: k in r.value.vals <==> k in tags && Kept(meta, exclude, threshold, k, raw.vals[k]))
      && (forall k :: k in r.value.vals ==> r.value.vals[k] == output[LastIndex(tags, k)])
  {
  }

  /** The `inherit` arm: `for tag in tags: inherit_implications(labels, tag, metadata)`. */
  method InheritEvery(labels: Labels, tags: seq<string>, meta: Metadata, ghost rank: map<string, nat>)
    requires Ranked(meta, rank) && Covered(meta, rank, tags)
    requires forall k :: k in labels.items.vals <==> k in tags
    modifies labels
    ensures labels.items == old(labels.items).(vals := InheritAll(old(labels.items.vals), meta, rank, tags))
  {
    ghost var start := labels.items;
    for i := 0 to |tags|
      invariant labels.items.keys == start.keys && labels.items.vals.Keys == start.vals.Keys
      invariant InheritAll(labels.items.vals, meta, rank, tags[i..]) == InheritAll(start.vals, meta, rank, tags)
    {
      assert tags[i..][0] == tags[i] && tags[i..][1..] == tags[i + 1..];
      InheritImplications(labels, tags[i], meta, rank);
    }
  }

  /** The `constrain` arm: `for tag in tags: constrain_implications(labels, tag, metadata)`. */
  method ConstrainEvery(labels: Labels, tags: seq<string>, meta: Metadata, ghost rank: map<string, nat>)
    requires Ranked(meta, rank) && Covered(meta, rank, tags)
    requires forall k :: k in labels.items.vals <==> k in tags
    modifies labels
    ensures labels.items == old(labels.items).(vals := ConstrainAll(old(labels.items.vals), meta, rank, tags))
  {
    ghost var start := labels.items;
    for i := 0 to |tags|
      invariant labels.items.keys == start.keys && labels.items.vals.Keys == start.vals.Keys
      invariant ConstrainAll(labels.items.vals, meta, rank, tags[i..]) == ConstrainAll(start.vals, meta, rank, tags)
    {
      assert tags[i..][0] == tags[i] && tags[i..][1..] == tags[i + 1..];
      ConstrainImplications(labels, tags[i], meta, rank, None);
    }
  }

  /** The removal pass: `for tag in tags: if tag in labels: remove_implications(labels, tag, metadata)`. */
  method RemoveEvery(labels: Labels, tags: seq<string>, meta: Metadata, ghost rank: map<string, nat>)
    requires Ranked(meta, rank) && Valid(labels.items)
    requires forall t :: t in tags ==> t in meta
    modifies labels
    ensures labels.items == RemoveAll(old(labels.items), meta, rank, tags)
  {
    ghost var start := labels.items;
    for i := 0 to |tags|
      invariant Valid(labels.items)
      invariant RemoveAll(labels.items, meta, rank, tags[i..]) == RemoveAll(start, meta, rank, tags)
    {
      assert tags[i..][0] == tags[i] && tags[i..][1..] == tags[i + 1..];
      if tags[i] in labels.items.vals {
        RemoveImplications(labels, tags[i], meta, rank);
      }
    }
  }

  /** The `match implications` of `classify_output`: mutates `labels`, or reports an unknown mode. */
  method AdjustLabels(labels: Labels, tags: seq<string>, meta: Metadata, ghost rank: map<string, nat>,
                      implications: string)
    returns (known: bool)
    requires CanClassify(tags, meta, rank, implications, {}) && Valid(labels.items)
    requires forall k :: k in labels.items.vals <==> k in tags
    modifies labels
    ensures known <==> implications in ImplicationModes
    ensures known ==> labels.items == Adjusted(old(labels.items), tags, meta, rank, implications)
  {
    known := true;
    match implications {
      case "inherit" =>
        InheritEvery(labels, tags, meta, rank);
      case "constrain" =>
        ConstrainEvery(labels, tags, meta, rank);
      case "constrain-remove" =>
        ConstrainEvery(labels, tags, meta, rank);
      case "remove" =>
      case "off" =>
      case _ =>
        known := false;
    }
  }

  /** `classify_output`: builds the `labels` dict, mutates it, filters it, then removes implied tags. */
  method ClassifyOutput(output: seq<real>, tags: seq<string>, threshold: Thresholds, meta: Metadata,
                        ghost rank: map<string, nat>, implications: string, exclude: set<int>)
    returns (r: Result<Dict<real>, ClassifyError>)
    requires CanClassify(tags, meta, rank, implications, exclude)
    ensures r == Classification(output, tags, threshold, meta, rank, implications, exclude)
    ensures r.Err? <==> |output| != |tags| || implications !in ImplicationModes
    ensures r.Ok? ==> forall k :: k in r.value.vals ==> k in tags && Passes(threshold, k, r.value.vals[k])
  {
    if |output| != |tags| {
      return Err(LengthMismatch);
    }
    var labels := new Labels(FromPairs(tags, output));
    var known := AdjustLabels(labels, tags, meta, rank, implications);
    if !known {
      return Err(InvalidMode);
    }
    labels := new Labels(FilterLabels(labels.items, meta, exclude, threshold));
    if implications == "remove" || implications == "constrain-remove" {
      RemoveEvery(labels, tags, meta, rank);
    }
    return Ok(labels.items);
  }
}
