/**
 * `calibrate` and its output step: per tag, keep the row with the best score
 * (ties go to the lower threshold), then write the winners in tag order with
 * the threshold shifted by epsilon and clamped to [0, 1].
 */
module Calibration {
  import opened Wrappers
  import opened Text
  import opened OrderedDict
  import opened Metrics

  /** The kept (threshold, score) pair of a tag. */
  type Choice = (real, real)

  /**
   * `(score, -threshold) > (best_score, -best_threshold)`: a higher score,
   * or the same score at a lower threshold.
   */
  predicate Beats(threshold: real, score: real, best: Choice) {
    score > best.1 || (score == best.1 && threshold < best.0)
  }

  /**
   * The tuple comparison is a strict total order on (threshold, score)
   * pairs: no pair beats itself, of two distinct pairs exactly one beats
   * the other, and a pair that beats a winner beats the loser too.
   */
  lemma BeatsStrictTotal(a: Choice, b: Choice, c: Choice)
    ensures !Beats(a.0, a.1, a)
    ensures a != b ==> (Beats(a.0, a.1, b) <==> !Beats(b.0, b.1, a))
    ensures Beats(a.0, a.1, b) && Beats(b.0, b.1, c) ==> Beats(a.0, a.1, c)
  {
  }

  /** Every row can be scored without dividing by zero. */
  predicate Scorable(m: Metric, filters: seq<Filter>, rows: seq<Row>) {
    forall i :: 0 <= i < |rows| ==> ScoredDefined(m, filters, rows[i])
  }

  /** A row's tag and threshold with the score the filtered metric gives it, if any. */
  datatype Scoring = Scoring(tag: string, threshold: real, score: Option<real>)

  /** The rows as the loop of `calibrate` scores them. */
  function Scorings(m: Metric, filters: seq<Filter>, rows: seq<Row>): (r: seq<Scoring>)
    requires Scorable(m, filters, rows)
    ensures |r| == |rows|
    ensures forall i :: 0 <= i < |rows| ==>
      r[i] == Scoring(rows[i].tag, rows[i].threshold, Scored(m, filters, rows[i]))
    decreases |rows|
  {
    if rows == [] then []
    else
      [Scoring(rows[0].tag, rows[0].threshold, Scored(m, filters, rows[0]))] + Scorings(m, filters, rows[1..])
  }

  /** `best` after the scored rows `es`, in order. */
  function Best(es: seq<Scoring>): (r: Dict<Choice>)
    ensures Valid(r)
    decreases |es|
  {
    if es == [] then Dict([], map[])
    else
      var n := |es| - 1;
      var prev := Best(es[..n]);
      var e := es[n];
      if e.score.Some? && (e.tag !in prev.vals || Beats(e.threshold, e.score.value, prev.vals[e.tag]))
      then Put(prev, e.tag, (e.threshold, e.score.value))
      else prev
  }

  /** Scored row `i` offers a (threshold, score) pair for `tag`. */
  predicate Candidate(es: seq<Scoring>, i: int, tag: string) {
    0 <= i < |es| && es[i].tag == tag && es[i].score.Some?
  }

  /** The pair a scored row offers. */
  function Offer(e: Scoring): (c: Choice)
    requires e.score.Some?
    ensures c.0 == e.threshold && c.1 == e.score.value
  {
    (e.threshold, e.score.value)
  }

  /** A tag is kept exactly when one of its rows has a score. */
  ghost predicate KeepsScored(es: seq<Scoring>, b: Dict<Choice>) {
    forall tag :: tag in b.vals <==> exists i :: Candidate(es, i, tag)
  }

  /** The kept pair of a tag is the pair one of its rows offers. */
  ghost predicate KeepsOffered(es: seq<Scoring>, b: Dict<Choice>) {
    forall tag :: tag in b.vals ==> exists i :: Candidate(es, i, tag) && Offer(es[i]) == b.vals[tag]
  }

  /** No scored row beats the pair kept for its tag. */
  ghost predicate Unbeaten(es: seq<Scoring>, b: Dict<Choice>) {
    forall i :: 0 <= i < |es| && es[i].score.Some? ==>
      es[i].tag in b.vals && !Beats(es[i].threshold, es[i].score.value, b.vals[es[i].tag])
  }

  /** The three promises of `calibrate` about the scored rows `es` and the result `b`. */
  ghost predicate IsBest(es: seq<Scoring>, b: Dict<Choice>) {
    KeepsScored(es, b) && KeepsOffered(es, b) && Unbeaten(es, b)
  }

  /**
   * What `calibrate` promises: a tag is kept exactly when one of its rows has
   * a score; the kept pair is one of its rows' pairs; and no row of the tag
   * beats it.
   */
  lemma {:induction false} BestIsBest(es: seq<Scoring>)
    ensures IsBest(es, Best(es))
    decreases |es|
  {
    if es != [] {
      var init := es[..|es| - 1];
      BestIsBest(init);
      assert forall i :: 0 <= i < |init| ==> init[i] == es[i];
      BestLastKeys(es, init);
      KeepsScoredStep(es, init, Best(init), Best(es));
      KeepsOfferedStep(es, init);
      UnbeatenStep(es, init);
    }
  }

  /** The tags kept after one more row: the earlier ones and, if it has a score, its own. */
  lemma BestLastKeys(es: seq<Scoring>, init: seq<Scoring>)
    requires es != [] && init == es[..|es| - 1]
    ensures forall tag :: tag in Best(es).vals <==>
      tag in Best(init).vals || (es[|init|].score.Some? && es[|init|].tag == tag)
  {
  }

  /** One more row keeps KeepsScored, for any `b` whose keys grow as Best's do. */
  lemma KeepsScoredStep(es: seq<Scoring>, init: seq<Scoring>, prev: Dict<Choice>, b: Dict<Choice>)
    requires es != [] && init == es[..|es| - 1]
    requires forall i :: 0 <= i < |init| ==> init[i] == es[i]
    requires KeepsScored(init, prev)
    requires forall tag :: tag in b.vals <==>
      tag in prev.vals || (es[|init|].score.Some? && es[|init|].tag == tag)
    ensures KeepsScored(es, b)
  {
    var n := |init|;
    forall tag ensures tag in b.vals <==> exists i :: Candidate(es, i, tag) {
      if exists i :: Candidate(es, i, tag) {
        var i :| Candidate(es, i, tag);
        if i < n {
          assert Candidate(init, i, tag);
        }
      }
      if tag in prev.vals {
        var i :| Candidate(init, i, tag);
        assert Candidate(es, i, tag);
      } else if es[n].score.Some? && es[n].tag == tag {
        assert Candidate(es, n, tag);
      }
    }
  }

  /** One more row keeps KeepsOffered. */
  lemma KeepsOfferedStep(es: seq<Scoring>, init: seq<Scoring>)
    requires es != [] && init == es[..|es| - 1]
    requires forall i :: 0 <= i < |init| ==> init[i] == es[i]
    requires KeepsOffered(init, Best(init))
    ensures KeepsOffered(es, Best(es))
  {
    var b := Best(es);
    forall tag | tag in b.vals ensures exists i :: Candidate(es, i, tag) && Offer(es[i]) == b.vals[tag] {
      OfferedStep(es, init, tag);
    }
  }

  /** KeepsOfferedStep for one tag. */
  lemma OfferedStep(es: seq<Scoring>, init: seq<Scoring>, tag: string)
    requires es != [] && init == es[..|es| - 1]
    requires forall i :: 0 <= i < |init| ==> init[i] == es[i]
    requires KeepsOffered(init, Best(init)) && tag in Best(es).vals
    ensures exists i :: Candidate(es, i, tag) && Offer(es[i]) == Best(es).vals[tag]
  {
    var n := |init|;
    var prev, b := Best(init), Best(es);
    if tag !in prev.vals || b.vals[tag] != prev.vals[tag] {
      assert Candidate(es, n, tag) && Offer(es[n]) == b.vals[tag];
    } else {
      var i :| Candidate(init, i, tag) && Offer(init[i]) == prev.vals[tag];
      assert Candidate(es, i, tag) && Offer(es[i]) == b.vals[tag];
    }
  }

  /** One more row keeps Unbeaten. */
  lemma UnbeatenStep(es: seq<Scoring>, init: seq<Scoring>)
    requires es != [] && init == es[..|es| - 1]
    requires forall i :: 0 <= i < |init| ==> init[i] == es[i]
    requires Unbeaten(init, Best(init))
    ensures Unbeaten(es, Best(es))
  {
    var prev, b := Best(init), Best(es);
    forall i | 0 <= i < |es| && es[i].score.Some?
      ensures es[i].tag in b.vals && !Beats(es[i].threshold, es[i].score.value, b.vals[es[i].tag])
    {
      if i < |init| {
        assert init[i] == es[i];
        BeatsTransitive(es[i].threshold, es[i].score.value, prev.vals[es[i].tag], b.vals[es[i].tag]);
      }
    }
  }

  /** If a pair does not beat the old best, it does not beat a best that replaced it either. */
  lemma BeatsTransitive(threshold: real, score: real, before: Choice, after: Choice)
    requires !Beats(threshold, score, before)
    requires after == before || Beats(after.0, after.1, before)
    ensures !Beats(threshold, score, after)
  {
  }

  /**
   * The result does not depend on the order of the rows: any two lists
   * holding the same scored rows keep the same (threshold, score) for every tag.
   */
  lemma OrderIndependent(es: seq<Scoring>, others: seq<Scoring>)
    requires forall e :: e in es <==> e in others
    ensures Best(es).vals == Best(others).vals
  {
    BestIsBest(es);
    BestIsBest(others);
    forall tag | tag in Best(es).vals
      ensures tag in Best(others).vals && Best(es).vals[tag] == Best(others).vals[tag]
    {
      SameChoice(es, others, Best(es), Best(others), tag);
    }
    forall tag | tag in Best(others).vals ensures tag in Best(es).vals {
      SameChoice(others, es, Best(others), Best(es), tag);
    }
  }

  /** Two results that keep the promises over the same rows agree on a kept tag. */
  lemma SameChoice(es: seq<Scoring>, others: seq<Scoring>, b1: Dict<Choice>, b2: Dict<Choice>, tag: string)
    requires forall e :: e in es <==> e in others
    requires IsBest(es, b1) && IsBest(others, b2)
    requires tag in b1.vals
    ensures tag in b2.vals && b1.vals[tag] == b2.vals[tag]
  {
    var i :| Candidate(es, i, tag) && Offer(es[i]) == b1.vals[tag];
    assert es[i] in others;
    var j' :| 0 <= j' < |others| && others[j'] == es[i];
    assert Candidate(others, j', tag);
    var j :| Candidate(others, j, tag) && Offer(others[j]) == b2.vals[tag];
    assert others[j] in es;
    var i' :| 0 <= i' < |es| && es[i'] == others[j];
    assert !Beats(others[j].threshold, others[j].score.value, b1.vals[tag]);
    assert !Beats(es[i].threshold, es[i].score.value, b2.vals[tag]);
  }

  /** Reordering the data rows reorders their scorings, so the calibration is the same. */
  lemma RowOrderIndependent(m: Metric, filters: seq<Filter>, rows: seq<Row>, others: seq<Row>)
    requires Scorable(m, filters, rows) && Scorable(m, filters, others)
    requires forall r :: r in rows <==> r in others
    ensures Best(Scorings(m, filters, rows)).vals == Best(Scorings(m, filters, others)).vals
  {
    var es, os := Scorings(m, filters, rows), Scorings(m, filters, others);
    forall e ensures e in es <==> e in os {
      if e in es {
        var i :| 0 <= i < |es| && es[i] == e;
        assert rows[i] in others;
        var j :| 0 <= j < |others| && others[j] == rows[i];
        assert os[j] == e;
      }
      if e in os {
        var j :| 0 <= j < |os| && os[j] == e;
        assert others[j] in rows;
        var i :| 0 <= i < |rows| && rows[i] == others[j];
        assert es[i] == e;
      }
    }
    OrderIndependent(es, os);
  }

  /** One more scored row either replaces its tag's pair or leaves `best` as it was. */
  lemma BestNext(es: seq<Scoring>, i: nat)
    requires i < |es|
    ensures var prev, e := Best(es[..i]), es[i];
      Best(es[..i + 1]) ==
        if e.score.Some? && (e.tag !in prev.vals || Beats(e.threshold, e.score.value, prev.vals[e.tag]))
        then Put(prev, e.tag, (e.threshold, e.score.value))
        else prev
  {
    assert es[..i + 1][..i] == es[..i];
  }

  /** `calibrate`: one pass over the rows, updating `best` in place. */
  method Calibrate(m: Metric, filters: seq<Filter>, rows: seq<Row>) returns (best: Dict<Choice>)
    requires Scorable(m, filters, rows)
    ensures best == Best(Scorings(m, filters, rows))
  {
    ghost var es := Scorings(m, filters, rows);
    best := Dict([], map[]);
    for i := 0 to |rows|
      invariant best == Best(es[..i])
    {
      BestNext(es, i);
      var row := rows[i];
      var score := Scored(m, filters, row);
      if score.Some? {
        if row.tag !in best.vals || Beats(row.threshold, score.value, best.vals[row.tag]) {
          best := Put(best, row.tag, (row.threshold, score.value));
        }
      }
    }
    assert es[..|rows|] == es;
  }

  // ----------------------------------------------------------------- output

  /** `min(1.0, max(0.0, threshold + epsilon))`. */
  function Clamp(threshold: real, epsilon: real): (r: real)
    ensures 0.0 <= r <= 1.0
    ensures 0.0 <= threshold + epsilon <= 1.0 ==> r == threshold + epsilon
  {
    var t := threshold + epsilon;
    if t < 0.0 then 0.0 else if t > 1.0 then 1.0 else t
  }

  /** Clamping keeps the order of thresholds. */
  lemma ClampMonotone(a: real, b: real, epsilon: real)
    requires a <= b
    ensures Clamp(a, epsilon) <= Clamp(b, epsilon)
  {
  }

  /** Tags in strictly ascending order. */
  predicate Ascending(tags: seq<string>) {
    forall i, j :: 0 <= i < j < |tags| ==> Less(tags[i], tags[j])
  }

  /** Insert `t` into an ascending list that does not hold it. */
  function Insert(t: string, tags: seq<string>): (r: seq<string>)
    requires Ascending(tags) && t !in tags
    ensures Ascending(r)
    ensures multiset(r) == multiset(tags) + multiset{t}
    decreases |tags|
  {
    if tags == [] then [t]
    else if Less(t, tags[0]) then
      InsertFront(t, tags);
      [t] + tags
    else
      LessTotal(t, tags[0]);
      var rest := Insert(t, tags[1..]);
      InsertLater(t, tags, rest);
      [tags[0]] + rest
  }

  /** `t` below the head of an ascending list stays ascending in front of it. */
  lemma InsertFront(t: string, tags: seq<string>)
    requires Ascending(tags) && tags != [] && Less(t, tags[0])
    ensures Ascending([t] + tags)
    ensures multiset([t] + tags) == multiset(tags) + multiset{t}
  {
    forall j | 0 < j < |tags| ensures Less(t, tags[j]) {
      LessTransitive(t, tags[0], tags[j]);
    }
    var r := [t] + tags;
    forall i, j | 0 <= i < j < |r| ensures Less(r[i], r[j]) {
      if i > 0 {
        assert r[i] == tags[i - 1] && r[j] == tags[j - 1];
      }
    }
  }

  /** The head of an ascending list stays in front of the list with `t` inserted after it. */
  lemma InsertLater(t: string, tags: seq<string>, rest: seq<string>)
    requires Ascending(tags) && tags != [] && Less(tags[0], t)
    requires Ascending(rest) && multiset(rest) == multiset(tags[1..]) + multiset{t}
    ensures Ascending([tags[0]] + rest)
    ensures multiset([tags[0]] + rest) == multiset(tags) + multiset{t}
  {
    assert tags == [tags[0]] + tags[1..];
    var r := [tags[0]] + rest;
    forall j | 0 < j < |r| ensures Less(tags[0], r[j]) {
      assert r[j] == rest[j - 1];
      assert r[j] in multiset(rest);
      if r[j] != t {
        assert r[j] in multiset(tags[1..]);
        var k :| 0 <= k < |tags[1..]| && tags[1..][k] == r[j];
        assert tags[k + 1] == r[j];
      }
    }
    forall i, j | 0 <= i < j < |r| ensures Less(r[i], r[j]) {
      if i > 0 {
        assert r[i] == rest[i - 1] && r[j] == rest[j - 1];
      }
    }
  }

  /** `sorted(tags)` on distinct tags. */
  function SortTags(tags: seq<string>): (r: seq<string>)
    requires Distinct(tags)
    ensures Ascending(r)
    ensures multiset(r) == multiset(tags)
    decreases |tags|
  {
    if tags == [] then []
    else
      var n := |tags| - 1;
      var rest := SortTags(tags[..n]);
      assert tags == tags[..n] + [tags[n]];
      assert tags[n] !in rest by {
        assert tags[n] !in multiset(tags[..n]);
      }
      Insert(tags[n], rest)
  }

  /** The same multiset means the same length and the same members. */
  lemma SameElements(a: seq<string>, b: seq<string>)
    requires multiset(a) == multiset(b)
    ensures |a| == |b|
    ensures forall t :: t in a <==> t in b
  {
    assert |multiset(a)| == |multiset(b)|;
    forall t ensures t in a <==> t in b {
      assert t in a <==> t in multiset(a);
      assert t in b <==> t in multiset(b);
    }
  }

  /** One written line: tag, clamped threshold, score. */
  datatype OutputRow = OutputRow(tag: string, threshold: real, score: real)

  /** The lines for `tags`, in the given order. */
  function RowsFor(tags: seq<string>, calibrated: Dict<Choice>, epsilon: real): (r: seq<OutputRow>)
    requires forall t :: t in tags ==> t in calibrated.vals
    ensures |r| == |tags|
    ensures forall i :: 0 <= i < |r| ==>
      && r[i].tag == tags[i]
      && r[i].threshold == Clamp(calibrated.vals[tags[i]].0, epsilon)
      && r[i].score == calibrated.vals[tags[i]].1
    decreases |tags|
  {
    if tags == [] then []
    else
      var c := calibrated.vals[tags[0]];
      [OutputRow(tags[0], Clamp(c.0, epsilon), c.1)] + RowsFor(tags[1..], calibrated, epsilon)
  }

  /** What the writer promises of `r`: every kept tag once, in ascending order, with its clamped threshold. */
  ghost predicate Written(calibrated: Dict<Choice>, epsilon: real, r: seq<OutputRow>) {
    && |r| == |calibrated.keys|
    && (forall i, j :: 0 <= i < j < |r| ==> Less(r[i].tag, r[j].tag))
    && (forall tag :: tag in calibrated.vals <==> exists i :: 0 <= i < |r| && r[i].tag == tag)
    && (forall i :: 0 <= i < |r| ==>
         && r[i].tag in calibrated.vals
         && r[i].threshold == Clamp(calibrated.vals[r[i].tag].0, epsilon)
         && r[i].score == calibrated.vals[r[i].tag].1
         && 0.0 <= r[i].threshold <= 1.0)
  }

  /** The lines for an ascending list of exactly the kept tags are what the writer promises. */
  lemma RowsForWritten(tags: seq<string>, calibrated: Dict<Choice>, epsilon: real, r: seq<OutputRow>)
    requires Valid(calibrated)
    requires Ascending(tags) && |tags| == |calibrated.keys|
    requires forall t :: t in tags <==> t in calibrated.keys
    requires |r| == |tags|
    requires forall i :: 0 <= i < |r| ==>
      && r[i].tag == tags[i]
      && r[i].threshold == Clamp(calibrated.vals[tags[i]].0, epsilon)
      && r[i].score == calibrated.vals[tags[i]].1
    ensures Written(calibrated, epsilon, r)
  {
    forall tag | tag in calibrated.vals ensures exists i :: 0 <= i < |r| && r[i].tag == tag {
      var i :| 0 <= i < |tags| && tags[i] == tag;
      assert r[i].tag == tag;
    }
  }

  /** The rows the writer emits for `calibrated`, in ascending tag order. */
  function OutputRows(calibrated: Dict<Choice>, epsilon: real): (r: seq<OutputRow>)
    requires Valid(calibrated)
    ensures Written(calibrated, epsilon, r)
  {
    var tags := SortTags(calibrated.keys);
    SameElements(tags, calibrated.keys);
    var r := RowsFor(tags, calibrated, epsilon);
    RowsForWritten(tags, calibrated, epsilon, r);
    r
  }
}
