/**
 * The tag handling of the web front end (`app.py`): the display rewrite of
 * model tag names, the tag-name index, threshold/calibration/blacklist
 * filtering, the comma-joined tag string with append tags, the payload
 * handling of the e621-style prediction endpoint, and the batch folder run.
 */
module AppTags {
  import opened Wrappers
  import opened Text
  import opened OrderedDict

  // ---------------------------------------------------------------------
  // rewrite_tag and the tag index
  // ---------------------------------------------------------------------

  /** `rewrite_tag`: every `_` becomes a space, then every `vulva` becomes `pussy`. */
  function RewriteTag(tag: string): (r: string)
    ensures '_' !in r && !Contains(r, "vulva")
  {
    var spaced := Replace(tag, "_", " ");
    ReplaceRemovesChar(tag, '_', " ");
    ReplaceKeepsAbsent(spaced, "vulva", "pussy", '_');
    NoVulvaLeft(spaced);
    Replace(spaced, "vulva", "pussy")
  }

  /** The first rewrite turns each `_` into a space and leaves every other character. */
  lemma RewriteUnderscores(tag: string)
    ensures |Replace(tag, "_", " ")| == |tag|
    ensures forall i :: 0 <= i < |tag| ==>
      Replace(tag, "_", " ")[i] == (if tag[i] == '_' then ' ' else tag[i])
  {
    ReplaceCharAt(tag, '_', ' ');
  }

  /** A tag already free of `_` and `vulva` is displayed as it is. */
  lemma RewriteTagKeepsClean(tag: string)
    requires '_' !in tag && !Contains(tag, "vulva")
    ensures RewriteTag(tag) == tag
  {
    forall i | 0 <= i <= |tag| ensures !OccursAt(tag, "_", i) {
      if i < |tag| {
        assert tag[i] in tag;
      }
    }
    ReplaceAbsent(tag, "_", " ");
    ReplaceAbsent(tag, "vulva", "pussy");
  }

  /** Rewriting is idempotent. */
  lemma RewriteTagIdempotent(tag: string)
    ensures RewriteTag(RewriteTag(tag)) == RewriteTag(tag)
  {
    RewriteTagKeepsClean(RewriteTag(tag));
  }

  /** `pussy` begins at index `j` of the rewrite of `t` when `vulva` first occurs there. */
  lemma FirstOccurrenceRewritten(t: string, j: nat)
    requires OccursAt(t, "vulva", j)
    requires forall j' :: 0 <= j' < j ==> !OccursAt(t, "vulva", j')
    ensures |Replace(t, "vulva", "pussy")| > j && Replace(t, "vulva", "pussy")[j] == 'p'
  {
    ReplaceCopiesPrefix(t, "vulva", "pussy", j);
    assert t[j..][..5] == "vulva";
  }

  /** One mismatching character rules out an occurrence. */
  lemma Mismatch(r: string, pat: string, i: nat, k: nat)
    requires k < |pat| && i + k < |r| && r[i + k] != pat[k]
    ensures !OccursAt(r, pat, i)
  {
    if i + |pat| <= |r| {
      assert r[i..i + |pat|][k] == r[i + k];
    }
  }

  /** An occurrence after a prefix of length `n` is an occurrence in the rest. */
  lemma Shifted(pre: string, t: string, pat: string, i: nat)
    requires |pre| <= i && OccursAt(pre + t, pat, i)
    ensures OccursAt(t, pat, i - |pre|)
  {
    var r := pre + t;
    forall k | i <= k < i + |pat| ensures r[k] == t[k - |pre|] {
    }
    assert t[i - |pre|..i - |pre| + |pat|] == r[i..i + |pat|];
  }

  /** A character kept in front of a non-occurrence never starts a new `vulva`. */
  lemma NoVulvaAtHead(s: string)
    requires |s| >= 5 && s[..5] != "vulva"
    ensures !OccursAt([s[0]] + Replace(s[1..], "vulva", "pussy"), "vulva", 0)
  {
    var t := s[1..];
    var rt := Replace(t, "vulva", "pussy");
    var r := [s[0]] + rt;
    if s[0] != 'v' {
      Mismatch(r, "vulva", 0, 0);
    } else if OccursAt(t, "vulva", 0) {
      FirstOccurrenceRewritten(t, 0);
      Mismatch(r, "vulva", 0, 1);
    } else if OccursAt(t, "vulva", 1) {
      FirstOccurrenceRewritten(t, 1);
      Mismatch(r, "vulva", 0, 2);
    } else if OccursAt(t, "vulva", 2) {
      FirstOccurrenceRewritten(t, 2);
      Mismatch(r, "vulva", 0, 3);
    } else if OccursAt(t, "vulva", 3) {
      FirstOccurrenceRewritten(t, 3);
      Mismatch(r, "vulva", 0, 4);
    } else {
      ReplaceCopiesPrefix(t, "vulva", "pussy", 4);
      assert r[..5] == s[..5];
    }
  }

  /** `pussy` in front of text without `vulva` does not create one. */
  lemma NoVulvaAfterPussy(t: string)
    requires !Contains(t, "vulva")
    ensures !Contains("pussy" + t, "vulva")
  {
    var r := "pussy" + t;
    forall i | 0 <= i <= |r| ensures !OccursAt(r, "vulva", i) {
      if i < 5 {
        Mismatch(r, "vulva", i, 0);
      } else if OccursAt(r, "vulva", i) {
        Shifted("pussy", t, "vulva", i);
      }
    }
  }

  /** A kept first character in front of text without `vulva` does not create one. */
  lemma NoVulvaAfterHead(s: string)
    requires |s| >= 5 && s[..5] != "vulva"
    requires !Contains(Replace(s[1..], "vulva", "pussy"), "vulva")
    ensures !Contains([s[0]] + Replace(s[1..], "vulva", "pussy"), "vulva")
  {
    var t := Replace(s[1..], "vulva", "pussy");
    var r := [s[0]] + t;
    forall i | 0 <= i <= |r| ensures !OccursAt(r, "vulva", i) {
      if i == 0 {
        NoVulvaAtHead(s);
      } else if OccursAt(r, "vulva", i) {
        Shifted([s[0]], t, "vulva", i);
      }
    }
  }

  /** Replacing `vulva` by `pussy` leaves no `vulva` behind. */
  lemma {:induction false} NoVulvaLeft(s: string)
    ensures !Contains(Replace(s, "vulva", "pussy"), "vulva")
    decreases |s|
  {
    if |s| < 5 {
      assert Replace(s, "vulva", "pussy") == s;
    } else if s[..5] == "vulva" {
      NoVulvaLeft(s[5..]);
      NoVulvaAfterPussy(Replace(s[5..], "vulva", "pussy"));
    } else {
      NoVulvaLeft(s[1..]);
      NoVulvaAfterHead(s);
    }
  }

  /**
   * The model's tag list with each name rewritten: no displayed name holds
   * `_` or `vulva`, and a name already free of both is displayed as it is.
   */
  function Rewritten(tagList: seq<string>): (r: seq<string>)
    ensures |r| == |tagList|
    ensures forall i :: 0 <= i < |tagList| ==> r[i] == RewriteTag(tagList[i])
    ensures forall t :: t in r ==> '_' !in t && !Contains(t, "vulva")
    ensures forall t :: t in tagList && '_' !in t && !Contains(t, "vulva") ==> t in r
  {
    var r := seq(|tagList|, i requires 0 <= i < |tagList| => RewriteTag(tagList[i]));
    assert forall i :: 0 <= i < |tagList| && '_' !in tagList[i] && !Contains(tagList[i], "vulva") ==>
      r[i] == tagList[i] by {
      forall i | 0 <= i < |tagList| && '_' !in tagList[i] && !Contains(tagList[i], "vulva") {
        RewriteTagKeepsClean(tagList[i]);
      }
    }
    r
  }

  /**
   * `tags = {rewrite_tag(tag): idx for idx, tag in enumerate(tag_list)}`; its
   * keys, in order, become the new `tag_list`.
   */
  function TagIndex(tagList: seq<string>): (r: Dict<int>)
    ensures Valid(r)
    ensures forall k :: k in r.vals <==> k in Rewritten(tagList)
    ensures forall k :: k in r.vals ==>
      var i := r.vals[k];
      && 0 <= i < |tagList|
      && RewriteTag(tagList[i]) == k
      && forall j :: i < j < |tagList| ==> RewriteTag(tagList[j]) != k
    ensures forall t :: t in r.keys ==> '_' !in t && !Contains(t, "vulva")
  {
    var names := Rewritten(tagList);
    var r := FromPairs(names, seq(|tagList|, i => i));
    assert forall k :: k in r.vals ==> r.vals[k] == LastIndex(names, k);
    r
  }

  // ---------------------------------------------------------------------
  // apply_filters and filter_tags
  // ---------------------------------------------------------------------

  /** Whether `apply_filters` keeps a prediction; a tag without a calibration entry never passes. */
  predicate Keeps(score: real, key: string, threshold: real, calibration: Option<map<string, real>>,
                  blacklist: set<string>)
  {
    key !in blacklist &&
    match calibration
    case None => score >= threshold
    case Some(cal) => key in cal && score >= cal[key]
  }

  /** `apply_filters`: the predictions that pass, in their order, with their scores. */
  function ApplyFilters(predictions: Dict<real>, threshold: real, calibration: Option<map<string, real>>,
                        blacklist: set<string>): (r: Dict<real>)
    requires Valid(predictions)
    ensures Valid(r)
    ensures forall k :: k in r.vals <==>
      k in predictions.vals && Keeps(predictions.vals[k], k, threshold, calibration, blacklist)
    ensures forall k :: k in r.vals ==> r.vals[k] == predictions.vals[k]
    ensures r.keys == Filter(predictions.keys, r.vals.Keys)
  {
    var keep := set k | k in predictions.vals && Keeps(predictions.vals[k], k, threshold, calibration, blacklist);
    var r := Restrict(predictions, keep);
    assert r.vals.Keys == keep;
    r
  }

  /** Without calibration: score at least the threshold and not blacklisted. */
  lemma UncalibratedFilter(predictions: Dict<real>, threshold: real, blacklist: set<string>)
    requires Valid(predictions)
    ensures forall k :: k in ApplyFilters(predictions, threshold, None, blacklist).vals <==>
      k in predictions.vals && predictions.vals[k] >= threshold && k !in blacklist
  {
  }

  /** With calibration: a calibration entry the score reaches, and not blacklisted. */
  lemma CalibratedFilter(predictions: Dict<real>, threshold: real, cal: map<string, real>, blacklist: set<string>)
    requires Valid(predictions)
    ensures forall k :: k in ApplyFilters(predictions, threshold, Some(cal), blacklist).vals <==>
      k in predictions.vals && k in cal && predictions.vals[k] >= cal[k] && k !in blacklist
  {
  }

  /** With a calibration the global threshold plays no part. */
  lemma CalibrationIgnoresThreshold(predictions: Dict<real>, t1: real, t2: real, cal: map<string, real>,
                                    blacklist: set<string>)
    requires Valid(predictions)
    ensures ApplyFilters(predictions, t1, Some(cal), blacklist) == ApplyFilters(predictions, t2, Some(cal), blacklist)
  {
    var a := ApplyFilters(predictions, t1, Some(cal), blacklist);
    var b := ApplyFilters(predictions, t2, Some(cal), blacklist);
    assert a.vals == b.vals;
  }

  /** `[tag.strip() for tag in s.split(',') if tag.strip()]`. */
  function ParseTagList(s: string): (r: seq<string>)
    ensures forall t :: t in r ==> IsListEntry(t)
  {
    var parts := Split(s, ',');
    EntriesAvoid(parts, ',');
    NonBlankEntries(parts)
  }

  /** A list of entries written with `", ".join` parses back to itself. */
  lemma ParseJoined(xs: seq<string>)
    requires forall t :: t in xs ==> IsListEntry(t)
    ensures ParseTagList(Join(xs, ", ")) == xs
  {
    EntriesOfJoin(xs);
  }

  /** The append tags `filter_tags` writes in front, in their order: those not already present. */
  function MissingAppend(appendList: seq<string>, present: set<string>): (r: seq<string>)
    ensures forall t :: t in r <==> t in appendList && t != [] && t !in present
  {
    if appendList == [] then []
    else
      var n := |appendList| - 1;
      var t := appendList[n];
      assert appendList == appendList[..n] + [t];
      MissingAppend(appendList[..n], present) + (if t != [] && t !in present then [t] else [])
  }

  /** One more append tag is written when it is not blank and not already present. */
  lemma MissingAppendStep(appendList: seq<string>, i: nat, present: set<string>)
    requires i < |appendList|
    ensures MissingAppend(appendList[..i + 1], present) == MissingAppend(appendList[..i], present) +
      (if appendList[i] != [] && appendList[i] !in present then [appendList[i]] else [])
  {
    assert appendList[..i + 1][..i] == appendList[..i];
  }

  /** `tag_order`: the missing append tags in their order, then the filtered keys. */
  function TagOrder(appendList: seq<string>, filtered: Dict<real>): (r: seq<string>)
    ensures forall t :: t in r <==> (t in appendList && t != [] && t !in filtered.vals) || t in filtered.keys
    ensures |filtered.keys| <= |r| && r[|r| - |filtered.keys|..] == filtered.keys
  {
    var front := MissingAppend(appendList, filtered.vals.Keys);
    assert (front + filtered.keys)[|front|..] == filtered.keys;
    front + filtered.keys
  }

  /** The blacklist as `filter_tags` reads it: the set of parsed entries. */
  function Blacklist(blacklistTags: string): (r: set<string>)
    ensures forall t :: t in r <==> t in ParseTagList(blacklistTags)
  {
    set t | t in ParseTagList(blacklistTags)
  }

  /** The tag string `filter_tags` returns. */
  function TagString(predictions: Dict<real>, threshold: real, calibration: Option<map<string, real>>,
                     appendTags: string, blacklistTags: string): (r: string)
    requires Valid(predictions)
    ensures (forall k :: k in predictions.vals ==> IsListEntry(k)) ==>
      ParseTagList(r) == TagOrder(ParseTagList(appendTags),
                                  ApplyFilters(predictions, threshold, calibration, Blacklist(blacklistTags)))
  {
    var blacklist := Blacklist(blacklistTags);
    var order := TagOrder(ParseTagList(appendTags), ApplyFilters(predictions, threshold, calibration, blacklist));
    assert (forall k :: k in predictions.vals ==> IsListEntry(k)) ==> ParseTagList(Join(order, ", ")) == order by {
      if forall k :: k in predictions.vals ==> IsListEntry(k) {
        ParseJoined(order);
      }
    }
    Join(order, ", ")
  }

  /**
   * `filter_tags`: the append and blacklist lists are parsed, the predictions
   * filtered, and `tag_order` built by appending in a loop.
   */
  method FilterTags(predictions: Dict<real>, threshold: real, calibration: Option<map<string, real>>,
                    appendTags: string, blacklistTags: string)
    returns (tagStr: string, filtered: Dict<real>)
    requires Valid(predictions)
    ensures filtered == ApplyFilters(predictions, threshold, calibration, Blacklist(blacklistTags))
    ensures tagStr == Join(TagOrder(ParseTagList(appendTags), filtered), ", ")
    ensures tagStr == TagString(predictions, threshold, calibration, appendTags, blacklistTags)
  {
    var appendList := ParseTagList(appendTags);
    var blacklist := Blacklist(blacklistTags);
    filtered := ApplyFilters(predictions, threshold, calibration, blacklist);
    var order := AppendMissing(appendList, filtered);
    order := order + filtered.keys;
    tagStr := Join(order, ", ");
  }

  /** The loop of `filter_tags` that puts in front the append tags not already present. */
  method AppendMissing(appendList: seq<string>, filtered: Dict<real>) returns (order: seq<string>)
    ensures order == MissingAppend(appendList, filtered.vals.Keys)
  {
    order := [];
    for i := 0 to |appendList|
      invariant order == MissingAppend(appendList[..i], filtered.vals.Keys)
    {
      var tag := appendList[i];
      MissingAppendStep(appendList, i, filtered.vals.Keys);
      if tag != [] && tag !in filtered.vals {
        order := order + [tag];
      }
    }
    assert appendList[..|appendList|] == appendList;
  }

  /** The filtered dict holds predictions only: an append tag the model did not score never enters it. */
  lemma AppendTagsNotScored(predictions: Dict<real>, threshold: real, calibration: Option<map<string, real>>,
                            appendTags: string, blacklistTags: string, t: string)
    requires Valid(predictions)
    requires t in ParseTagList(appendTags) && t !in predictions.vals
    ensures t !in ApplyFilters(predictions, threshold, calibration, Blacklist(blacklistTags)).vals
    ensures t in TagOrder(ParseTagList(appendTags),
                          ApplyFilters(predictions, threshold, calibration, Blacklist(blacklistTags)))
  {
  }

  // ---------------------------------------------------------------------
  // tag counting, the e621-style endpoint, and the batch folder run
  // ---------------------------------------------------------------------

  /** How many pieces hold something other than whitespace. */
  function CountNonBlank(parts: seq<string>): (n: nat)
    ensures n <= |parts|
  {
    if parts == [] then 0 else (if Strip(parts[0]) != [] then 1 else 0) + CountNonBlank(parts[1..])
  }

  /** `len([t for t in (s.split(",") if s else []) if t.strip()])`. */
  function TagCount(s: string): (n: nat)
    ensures n == |ParseTagList(s)|
  {
    if s == [] then
      assert ParseTagList(s) == [] by {
        assert Split(s, ',') == [[]];
        assert Strip([]) == [];
      }
      0
    else
      assert ParseTagList(s) == NonBlankEntries(Split(s, ','));
      CountIsEntries(Split(s, ','));
      CountNonBlank(Split(s, ','))
  }

  /** Counting non-blank pieces counts the parsed entries. */
  lemma {:induction false} CountIsEntries(parts: seq<string>)
    ensures CountNonBlank(parts) == |NonBlankEntries(parts)|
  {
    if parts != [] {
      CountIsEntries(parts[1..]);
    }
  }

  /** The count of a tag string is the number of tags joined into it. */
  lemma TagCountOfJoin(xs: seq<string>)
    requires forall t :: t in xs ==> IsListEntry(t)
    ensures TagCount(Join(xs, ", ")) == |xs|
  {
    EntriesOfJoin(xs);
    CountIsEntries(Split(Join(xs, ", "), ','));
  }

  /** The position of the first `c` in `s`. */
  function FirstIndex(s: string, c: char): (i: nat)
    requires c in s
    ensures i < |s| && s[i] == c && c !in s[..i]
  {
    if s[0] == c then 0 else 1 + FirstIndex(s[1..], c)
  }

  /** The image field of a request: stripped, and cut after its first comma (the data-URL header). */
  function PayloadData(image: string): (r: string)
    ensures var s := Strip(image);
      && (',' !in s ==> r == s)
      && (',' in s ==> exists i :: 0 <= i < |s| && ',' !in s[..i] && s[i] == ',' && r == s[i + 1..])
  {
    var s := Strip(image);
    if ',' in s then s[FirstIndex(s, ',') + 1..] else s
  }

  datatype HttpError = HttpError(status: int, detail: string)

  /** The tags of (tag, score) pairs, in order. */
  function PairTags(ps: seq<(string, real)>): (r: seq<string>)
    ensures |r| == |ps| && forall i :: 0 <= i < |ps| ==> r[i] == ps[i].0
  {
    seq(|ps|, i requires 0 <= i < |ps| => ps[i].0)
  }

  /** Highest score first. */
  ghost predicate Descending(ps: seq<(string, real)>) {
    forall i, j :: 0 <= i < j < |ps| ==> ps[i].1 >= ps[j].1
  }

  /** The pairs of `s` are those of `t`, or `p`. */
  lemma ElementsOf(s: seq<(string, real)>, t: seq<(string, real)>, p: (string, real))
    requires multiset(s) == multiset(t) + multiset{p}
    ensures forall x :: x in s ==> x in t || x == p
  {
    forall x | x in s ensures x in t || x == p {
      assert x in multiset(s);
    }
  }

  /** A pair scoring at least every pair of a descending list may go in front. */
  lemma ConsDescending(x: (string, real), s: seq<(string, real)>)
    requires Descending(s) && forall j :: 0 <= j < |s| ==> x.1 >= s[j].1
    ensures Descending([x] + s)
  {
    forall i, j | 0 <= i < j < |[x] + s| ensures ([x] + s)[i].1 >= ([x] + s)[j].1 {
      assert ([x] + s)[j] == s[j - 1];
      if i > 0 {
        assert ([x] + s)[i] == s[i - 1];
      }
    }
  }

  /** Puts `p` after every pair scoring at least as much. */
  function InsertDescending(s: seq<(string, real)>, p: (string, real)): (r: seq<(string, real)>)
    ensures multiset(r) == multiset(s) + multiset{p}
    decreases |s|
  {
    if s == [] then [p]
    else if s[0].1 >= p.1 then
      assert s == [s[0]] + s[1..];
      [s[0]] + InsertDescending(s[1..], p)
    else [p] + s
  }

  /** Inserting into a descending list keeps it descending. */
  lemma {:induction false} InsertKeepsDescending(s: seq<(string, real)>, p: (string, real))
    requires Descending(s)
    ensures Descending(InsertDescending(s, p))
    decreases |s|
  {
    if s == [] {
    } else if s[0].1 >= p.1 {
      var rest := InsertDescending(s[1..], p);
      InsertKeepsDescending(s[1..], p);
      ElementsOf(rest, s[1..], p);
      forall j | 0 <= j < |rest| ensures s[0].1 >= rest[j].1 {
        assert rest[j] in rest;
        if rest[j] != p {
          var m :| 0 <= m < |s[1..]| && s[1..][m] == rest[j];
          assert s[m + 1] == rest[j];
        }
      }
      ConsDescending(s[0], rest);
    } else {
      ConsDescending(p, s);
    }
  }

  /** Inserting a new tag keeps the tags distinct. */
  lemma {:induction false} InsertDistinct(s: seq<(string, real)>, p: (string, real))
    requires Distinct(PairTags(s)) && p.0 !in PairTags(s)
    ensures Distinct(PairTags(InsertDescending(s, p)))
    decreases |s|
  {
    if s == [] {
      ConsPairDistinct(p, []);
    } else if s[0].1 >= p.1 {
      var rest := InsertDescending(s[1..], p);
      TailDistinct(s, p);
      InsertDistinct(s[1..], p);
      ElementsOf(rest, s[1..], p);
      HeadNotInserted(s, rest, p);
      ConsPairDistinct(s[0], rest);
    } else {
      ConsPairDistinct(p, s);
    }
  }

  /** The tail of a list without repeats has none either, and lacks what the list lacks. */
  lemma TailDistinct(s: seq<(string, real)>, p: (string, real))
    requires s != [] && Distinct(PairTags(s)) && p.0 !in PairTags(s)
    ensures Distinct(PairTags(s[1..])) && p.0 !in PairTags(s[1..])
  {
    assert PairTags(s[1..]) == PairTags(s)[1..];
  }

  /** A pair whose tag is new, put in front, keeps the tags without repeats. */
  lemma ConsPairDistinct(x: (string, real), rest: seq<(string, real)>)
    requires Distinct(PairTags(rest)) && x.0 !in PairTags(rest)
    ensures Distinct(PairTags([x] + rest))
  {
    ConsDistinct(x.0, PairTags(rest));
    assert PairTags([x] + rest) == [x.0] + PairTags(rest);
  }

  /** The first tag of a list without repeats is not among the other pairs or `p`. */
  lemma HeadNotInserted(s: seq<(string, real)>, rest: seq<(string, real)>, p: (string, real))
    requires s != [] && Distinct(PairTags(s)) && p.0 !in PairTags(s)
    requires forall x :: x in rest ==> x in s[1..] || x == p
    ensures s[0].0 !in PairTags(rest)
  {
    forall i | 0 <= i < |rest| ensures rest[i].0 != s[0].0 {
      assert rest[i] in rest;
      if rest[i] in s[1..] {
        var j :| 0 <= j < |s[1..]| && s[1..][j] == rest[i];
        assert PairTags(s)[j + 1] == rest[i].0 && PairTags(s)[0] == s[0].0;
      } else {
        assert PairTags(s)[0] == s[0].0;
      }
    }
  }

  /** A new item in front of a list without repeats keeps it without repeats. */
  lemma ConsDistinct(x: string, ks: seq<string>)
    requires Distinct(ks) && x !in ks
    ensures Distinct([x] + ks)
  {
    forall i, j | 0 <= i < j < |[x] + ks| ensures ([x] + ks)[i] != ([x] + ks)[j] {
      assert ([x] + ks)[j] == ks[j - 1];
      if i > 0 {
        assert ([x] + ks)[i] == ks[i - 1];
      }
    }
  }

  /**
   * `sorted(pairs, key=score, reverse=True)`: a permutation of the pairs
   * (ties keep their order, as Python's sort is stable).
   */
  function SortDescending(ps: seq<(string, real)>): (r: seq<(string, real)>)
    ensures multiset(r) == multiset(ps)
    decreases |ps|
  {
    if ps == [] then []
    else
      var n := |ps| - 1;
      assert ps == ps[..n] + [ps[n]];
      InsertDescending(SortDescending(ps[..n]), ps[n])
  }

  /** The sort puts the highest score first. */
  lemma {:induction false} SortIsDescending(ps: seq<(string, real)>)
    ensures Descending(SortDescending(ps))
    decreases |ps|
  {
    if ps != [] {
      var n := |ps| - 1;
      SortIsDescending(ps[..n]);
      InsertKeepsDescending(SortDescending(ps[..n]), ps[n]);
    }
  }

  /** Sorting keeps distinct tags distinct. */
  lemma {:induction false} SortDistinct(ps: seq<(string, real)>)
    requires Distinct(PairTags(ps))
    ensures Distinct(PairTags(SortDescending(ps)))
    decreases |ps|
  {
    if ps != [] {
      var n := |ps| - 1;
      assert ps == ps[..n] + [ps[n]];
      var sorted := SortDescending(ps[..n]);
      assert Distinct(PairTags(ps[..n])) by {
        assert forall i :: 0 <= i < n ==> PairTags(ps[..n])[i] == PairTags(ps)[i];
      }
      SortDistinct(ps[..n]);
      assert ps[n].0 !in PairTags(sorted) by {
        forall i | 0 <= i < |sorted| ensures PairTags(sorted)[i] != ps[n].0 {
          assert sorted[i] in multiset(ps[..n]);
          var j :| 0 <= j < n && ps[..n][j] == sorted[i];
          assert PairTags(ps)[j] != PairTags(ps)[n];
        }
      }
      InsertDistinct(sorted, ps[n]);
    }
  }

  /** The lowest score listed for `k`. */
  function MinScore(pairs: seq<(string, real)>, k: string): real
    requires k in PairTags(pairs)
    decreases |pairs|
  {
    var n := |pairs| - 1;
    if k !in PairTags(pairs[..n]) then
      assert PairTags(pairs) == PairTags(pairs[..n]) + [pairs[n].0];
      pairs[n].1
    else
      var m := MinScore(pairs[..n], k);
      if pairs[n].0 == k && pairs[n].1 < m then pairs[n].1 else m
  }

  /** `MinScore` is a score listed for `k`, and no listed score is lower. */
  lemma {:induction false} MinScoreIsLowest(pairs: seq<(string, real)>, k: string)
    requires k in PairTags(pairs)
    ensures forall i :: 0 <= i < |pairs| && pairs[i].0 == k ==> MinScore(pairs, k) <= pairs[i].1
    ensures exists i :: 0 <= i < |pairs| && pairs[i].0 == k && MinScore(pairs, k) == pairs[i].1
    decreases |pairs|
  {
    var n := |pairs| - 1;
    assert PairTags(pairs) == PairTags(pairs[..n]) + [pairs[n].0];
    assert forall i :: 0 <= i < n ==> pairs[i] == pairs[..n][i];
    if k in PairTags(pairs[..n]) {
      MinScoreIsLowest(pairs[..n], k);
      var i :| 0 <= i < n && pairs[..n][i].0 == k && MinScore(pairs[..n], k) == pairs[..n][i].1;
    } else {
      assert forall i :: 0 <= i < n ==> pairs[i].0 == PairTags(pairs[..n])[i];
    }
  }

  /** `{tag: score for tag, score in ps}`: later pairs overwrite earlier ones. */
  function DictOf(ps: seq<(string, real)>): (r: Dict<real>)
    ensures Valid(r)
    ensures forall k :: k in r.vals <==> k in PairTags(ps)
    decreases |ps|
  {
    if ps == [] then Dict([], map[])
    else
      var n := |ps| - 1;
      assert PairTags(ps) == PairTags(ps[..n]) + [ps[n].0];
      Put(DictOf(ps[..n]), ps[n].0, ps[n].1)
  }

  /** Each key holds the score of its last pair. */
  lemma {:induction false} DictOfLast(ps: seq<(string, real)>, k: string)
    requires k in PairTags(ps)
    ensures DictOf(ps).vals[k] == ps[LastIndex(PairTags(ps), k)].1
    decreases |ps|
  {
    var n := |ps| - 1;
    assert PairTags(ps) == PairTags(ps[..n]) + [ps[n].0];
    if ps[n].0 != k {
      DictOfLast(ps[..n], k);
      assert LastIndex(PairTags(ps), k) == LastIndex(PairTags(ps[..n]), k);
    }
  }

  /** With distinct tags the keys keep the pairs' order. */
  lemma {:induction false} DictOfKeys(ps: seq<(string, real)>)
    requires Distinct(PairTags(ps))
    ensures DictOf(ps).keys == PairTags(ps)
    decreases |ps|
  {
    if ps != [] {
      var n := |ps| - 1;
      assert PairTags(ps) == PairTags(ps[..n]) + [ps[n].0];
      assert Distinct(PairTags(ps[..n]));
      DictOfKeys(ps[..n]);
      assert ps[n].0 !in PairTags(ps[..n]) by {
        forall i | 0 <= i < n ensures PairTags(ps[..n])[i] != ps[n].0 {
          assert PairTags(ps)[i] != PairTags(ps)[n];
        }
      }
    }
  }

  /** With distinct tags pair `i`'s score is kept. */
  lemma DistinctScoreKept(ps: seq<(string, real)>, i: nat)
    requires Distinct(PairTags(ps)) && i < |ps|
    ensures ps[i].0 in DictOf(ps).vals && DictOf(ps).vals[ps[i].0] == ps[i].1
  {
    var tags := PairTags(ps);
    DictOfLast(ps, tags[i]);
    LastIndexOfDistinct(tags, i);
  }

  /** A permutation lists the same tags. */
  lemma SameTags(ps: seq<(string, real)>, qs: seq<(string, real)>)
    requires multiset(ps) == multiset(qs)
    ensures forall k :: k in PairTags(ps) <==> k in PairTags(qs)
  {
    forall k | k in PairTags(ps) ensures k in PairTags(qs) {
      var i :| 0 <= i < |ps| && ps[i].0 == k;
      assert ps[i] in multiset(qs);
      var j :| 0 <= j < |qs| && qs[j] == ps[i];
      assert PairTags(qs)[j] == k;
    }
    forall k | k in PairTags(qs) ensures k in PairTags(ps) {
      var j :| 0 <= j < |qs| && qs[j].0 == k;
      assert qs[j] in multiset(ps);
      var i :| 0 <= i < |ps| && ps[i] == qs[j];
      assert PairTags(ps)[i] == k;
    }
  }

  /**
   * The predictions dict `run_classifier` builds from the model's (tag,
   * score) pairs: sorted highest first, then `{tag: score ...}`; it holds
   * exactly the listed tags.
   */
  function Predictions(pairs: seq<(string, real)>): (r: Dict<real>)
    ensures Valid(r)
    ensures forall k :: k in r.vals <==> k in PairTags(pairs)
  {
    SameTags(SortDescending(pairs), pairs);
    DictOf(SortDescending(pairs))
  }

  /**
   * Each predicted tag holds its lowest listed score: the sort puts it last
   * among the tag's pairs, and the comprehension keeps the last.
   */
  lemma PredictionsScores(pairs: seq<(string, real)>)
    ensures var r := Predictions(pairs);
      forall k :: k in r.vals ==> r.vals[k] == MinScore(pairs, k)
  {
    SortIsDescending(pairs);
    forall k | k in Predictions(pairs).vals ensures Predictions(pairs).vals[k] == MinScore(pairs, k) {
      LastIsLowest(pairs, SortDescending(pairs), k);
    }
  }

  /** In a descending permutation the last pair of a tag carries its lowest score. */
  lemma LastIsLowest(pairs: seq<(string, real)>, sorted: seq<(string, real)>, k: string)
    requires multiset(sorted) == multiset(pairs) && Descending(sorted) && k in PairTags(sorted)
    ensures k in PairTags(pairs)
    ensures DictOf(sorted).vals[k] == MinScore(pairs, k)
  {
    var tags := PairTags(sorted);
    DictOfLast(sorted, k);
    var q := LastIndex(tags, k);
    assert sorted[q] in multiset(pairs);
    var i :| 0 <= i < |pairs| && pairs[i] == sorted[q];
    assert PairTags(pairs)[i] == k;
    var m := MinScore(pairs, k);
    MinScoreIsLowest(pairs, k);
    var i' :| 0 <= i' < |pairs| && pairs[i'].0 == k && m == pairs[i'].1;
    assert pairs[i'] in multiset(sorted);
    var p :| 0 <= p < |sorted| && sorted[p] == pairs[i'];
    assert tags[p] == k;
    assert p <= q;
    DescendingAt(sorted, p, q);
  }

  /** In a descending list a pair scores at least every pair after it. */
  lemma DescendingAt(s: seq<(string, real)>, i: nat, j: nat)
    requires Descending(s) && i <= j < |s|
    ensures s[i].1 >= s[j].1
  {
  }

  /**
   * With distinct tags (the rewritten `tag_list` holds each tag once and
   * `topk` picks each index once), each tag keeps its own score.
   */
  lemma PredictionsKeepScores(pairs: seq<(string, real)>)
    requires Distinct(PairTags(pairs))
    ensures forall i :: 0 <= i < |pairs| ==> Predictions(pairs).vals[pairs[i].0] == pairs[i].1
  {
    SortDistinct(pairs);
    RankedScores(pairs, SortDescending(pairs));
  }

  /** With distinct tags the keys run from the highest score down. */
  lemma PredictionsDescending(pairs: seq<(string, real)>)
    requires Distinct(PairTags(pairs))
    ensures var r := Predictions(pairs);
      forall i, j :: 0 <= i < j < |r.keys| ==> r.vals[r.keys[i]] >= r.vals[r.keys[j]]
  {
    var sorted := SortDescending(pairs);
    var r := Predictions(pairs);
    assert r == DictOf(sorted);
    SortDistinct(pairs);
    SortIsDescending(pairs);
    RankedOrder(sorted);
    forall i, j | 0 <= i < j < |r.keys| ensures r.vals[r.keys[i]] >= r.vals[r.keys[j]] {
    }
  }

  /** A permutation with distinct tags keeps each pair's score in its dict. */
  lemma RankedScores(pairs: seq<(string, real)>, sorted: seq<(string, real)>)
    requires multiset(sorted) == multiset(pairs) && Distinct(PairTags(sorted))
    ensures forall i :: 0 <= i < |pairs| ==> pairs[i].0 in DictOf(sorted).vals && DictOf(sorted).vals[pairs[i].0] == pairs[i].1
  {
    forall i | 0 <= i < |pairs| ensures pairs[i].0 in DictOf(sorted).vals && DictOf(sorted).vals[pairs[i].0] == pairs[i].1 {
      assert pairs[i] in multiset(sorted);
      var p :| 0 <= p < |sorted| && sorted[p] == pairs[i];
      DistinctScoreKept(sorted, p);
    }
  }

  /** A descending list with distinct tags gives keys from the highest score down. */
  lemma RankedOrder(sorted: seq<(string, real)>)
    requires Descending(sorted) && Distinct(PairTags(sorted))
    ensures var r := DictOf(sorted);
      forall i, j :: 0 <= i < j < |r.keys| ==> r.vals[r.keys[i]] >= r.vals[r.keys[j]]
  {
    DictOfKeys(sorted);
    forall i, j | 0 <= i < j < |sorted| ensures DictOf(sorted).vals[sorted[i].0] >= DictOf(sorted).vals[sorted[j].0] {
      DistinctScoreKept(sorted, i);
      DistinctScoreKept(sorted, j);
    }
  }

  /** `tag_list[idx.item()]` for each of `topk`'s (index, score) pairs. */
  function TopPairs(tagList: seq<string>, top: seq<(int, real)>): (r: seq<(string, real)>)
    requires forall i :: 0 <= i < |top| ==> 0 <= top[i].0 < |tagList|
    ensures |r| == |top| && forall i :: 0 <= i < |top| ==> r[i] == (tagList[top[i].0], top[i].1)
  {
    seq(|top|, i requires 0 <= i < |top| => (tagList[top[i].0], top[i].1))
  }

  /**
   * `run_classifier`'s predictions from `topk`'s distinct indices into the
   * rewritten tag list: exactly the picked tags, each with its own score,
   * highest first.
   */
  lemma RunClassifierPredictions(tagList: seq<string>, top: seq<(int, real)>)
    requires Distinct(tagList)
    requires forall i :: 0 <= i < |top| ==> 0 <= top[i].0 < |tagList|
    requires forall i, j :: 0 <= i < j < |top| ==> top[i].0 != top[j].0
    ensures var r := Predictions(TopPairs(tagList, top));
      && (forall k :: k in r.vals <==> exists i :: 0 <= i < |top| && tagList[top[i].0] == k)
      && (forall i :: 0 <= i < |top| ==> r.vals[tagList[top[i].0]] == top[i].1)
      && (forall i, j :: 0 <= i < j < |r.keys| ==> r.vals[r.keys[i]] >= r.vals[r.keys[j]])
  {
    var pairs := TopPairs(tagList, top);
    assert Distinct(PairTags(pairs));
    PredictionsKeepScores(pairs);
    PredictionsDescending(pairs);
  }

  /** Empty append and blacklist fields parse to no tags, so the tag string is the filtered keys. */
  lemma EmptyLists(filtered: Dict<real>)
    ensures ParseTagList("") == [] && Blacklist("") == {}
    ensures TagOrder(ParseTagList(""), filtered) == filtered.keys
  {
    assert Split("", ',') == [[]];
    assert MissingAppend([], filtered.vals.Keys) == [];
    assert [] + filtered.keys == filtered.keys;
  }

  /** With empty append and blacklist fields, the tag string joins the thresholded keys. */
  lemma EmptyListsTagString(predictions: Dict<real>, confidence: real)
    requires Valid(predictions)
    ensures TagString(predictions, confidence, None, "", "") == Join(ApplyFilters(predictions, confidence, None, {}).keys, ", ")
  {
    EmptyLists(ApplyFilters(predictions, confidence, None, {}));
  }

  /**
   * `e6_predict`: decode the payload (any failure is a 400), classify, and
   * answer with the tag string alone in a one-element list.
   */
  method E6Predict<Image>(image: string, confidence: real, decode: string -> Option<Image>,
                          classify: Image -> seq<(string, real)>)
    returns (r: Result<seq<string>, HttpError>)
    ensures r.Err? <==> decode(PayloadData(image)).None?
    ensures r.Err? ==> r.error == HttpError(400, "Invalid image data")
    ensures r.Ok? ==>
      && |r.value| == 1
      && r.value[0] == Join(ApplyFilters(Predictions(classify(decode(PayloadData(image)).value)),
                                         confidence, None, {}).keys, ", ")
  {
    var decoded := decode(PayloadData(image));
    if decoded.None? {
      return Err(HttpError(400, "Invalid image data"));
    }
    var predictions := Predictions(classify(decoded.value));
    var tagStr, filtered := FilterTags(predictions, confidence, None, "", "");
    EmptyListsTagString(predictions, confidence);
    r := Ok([tagStr]);
  }

  /** `(output_dir or "").strip() or folder_path`. */
  function OutputDir(outputDir: Option<string>, folder: string): (r: string)
    ensures var given := Strip(if outputDir.Some? then outputDir.value else []);
      && (given == [] ==> r == folder)
      && (given != [] ==> r == given && IsTrimmed(r))
  {
    var given := Strip(if outputDir.Some? then outputDir.value else []);
    if given == [] then folder else given
  }

  /** The index of the last `c` in `s`, or -1. */
  function LastIndexOf(s: string, c: char): (r: int)
    ensures -1 <= r < |s|
    ensures r >= 0 ==> s[r] == c
    ensures forall j :: r < j < |s| ==> s[j] != c
    decreases |s|
  {
    if s == [] then -1
    else if s[|s| - 1] == c then |s| - 1
    else LastIndexOf(s[..|s| - 1], c)
  }

  /**
   * POSIX `os.path.splitext`: the extension runs from the last `.` of the
   * last path component, unless only dots precede it there (".bashrc").
   */
  function SplitExt(p: string): (r: (string, string))
    ensures r.0 + r.1 == p
    ensures r.1 == [] || (r.1[0] == '.' && '.' !in r.1[1..] && '/' !in r.1)
    ensures r.1 != [] ==> exists i :: LastIndexOf(p, '/') < i < |r.0| && p[i] != '.'
  {
    var dot := LastIndexOf(p, '.');
    var sep := LastIndexOf(p, '/');
    if dot > sep && exists i | sep < i < dot :: p[i] != '.' then
      assert p[..dot] + p[dot..] == p;
      (p[..dot], p[dot..])
    else
      (p, [])
  }

  const ImageExtensions: set<string> := {".jpg", ".jpeg", ".png", ".webp", ".bmp", ".gif"}

  /** The extension filter of `process_folder_batch`, case-insensitive. */
  predicate IsImageFile(name: string) {
    Lower(SplitExt(name).1) in ImageExtensions
  }

  /** The names of a listing that pass the extension filter, in listing order. */
  function ImageFiles(names: seq<string>): (r: seq<string>)
    ensures |r| <= |names|
    ensures forall f :: f in r <==> f in names && IsImageFile(f)
  {
    if names == [] then []
    else
      var n := |names| - 1;
      assert names == names[..n] + [names[n]];
      ImageFiles(names[..n]) + (if IsImageFile(names[n]) then [names[n]] else [])
  }

  /** The filtering options `process_folder_batch` passes to `filter_tags` for every image. */
  datatype Options = Options(threshold: real, calibration: Option<map<string, real>>,
                             appendTags: string, blacklistTags: string)

  /** One line of the per-image summary: a tag count, or an error. */
  datatype FileResult = Tagged(file: string, count: nat) | Failed(file: string)

  /**
   * What `process_folder_batch` reports: the folder could not be listed, it
   * holds no image, or the images were processed.
   */
  datatype BatchReport =
    | ListingFailed
    | NoImages
    | Completed(processed: nat, totalTags: nat, outputDir: string, results: seq<FileResult>,
                predictions: map<string, Dict<real>>, tagStrings: map<string, string>,
                written: seq<(string, string)>)

  /** The filtered predictions of one image. */
  function FilteredOf(pairs: seq<(string, real)>, o: Options): Dict<real> {
    ApplyFilters(Predictions(pairs), o.threshold, o.calibration, Blacklist(o.blacklistTags))
  }

  /** The tag string of one image. */
  function TagStringOf(pairs: seq<(string, real)>, o: Options): string {
    TagString(Predictions(pairs), o.threshold, o.calibration, o.appendTags, o.blacklistTags)
  }

  /** The summary line of one image; `classify` is `None` where opening or classifying it raised. */
  function Outcome(file: string, o: Options, classify: string -> Option<seq<(string, real)>>): FileResult {
    match classify(file)
    case None => Failed(file)
    case Some(pairs) => Tagged(file, TagCount(TagStringOf(pairs, o)))
  }

  /** The summary lines of the images, in order. */
  function Outcomes(files: seq<string>, o: Options, classify: string -> Option<seq<(string, real)>>)
    : (r: seq<FileResult>)
    ensures |r| == |files|
    ensures forall i :: 0 <= i < |files| ==> r[i] == Outcome(files[i], o, classify)
  {
    if files == [] then []
    else
      var n := |files| - 1;
      Outcomes(files[..n], o, classify) + [Outcome(files[n], o, classify)]
  }

  /** The images that could be opened and classified, in listing order. */
  function Classified(files: seq<string>, classify: string -> Option<seq<(string, real)>>): (r: seq<string>)
    ensures |r| <= |files|
    ensures forall f :: f in r <==> f in files && classify(f).Some?
  {
    if files == [] then []
    else
      var n := |files| - 1;
      assert files == files[..n] + [files[n]];
      Classified(files[..n], classify) + (if classify(files[n]).Some? then [files[n]] else [])
  }

  /**
   * The `.txt` files written, as (file name, contents), in order: one in the
   * output directory, under the image's stem, for each image that was
   * classified, holding its tag string, and none for the others.
   */
  function Writes(files: seq<string>, o: Options, classify: string -> Option<seq<(string, real)>>)
    : (r: seq<(string, string)>)
    ensures WrittenFor(r, Classified(files, classify), o, classify)
  {
    if files == [] then []
    else
      var n := |files| - 1;
      var f := files[n];
      var prev := Writes(files[..n], o, classify);
      assert Classified(files, classify) ==
        Classified(files[..n], classify) + (if classify(f).Some? then [f] else []);
      if classify(f).Some? then
        var w := (SplitExt(f).0 + ".txt", TagStringOf(classify(f).value, o));
        var images := Classified(files[..n], classify);
        assert (prev + [w])[..|prev|] == prev && (images + [f])[..|images|] == images;
        prev + [w]
      else
        assert Classified(files, classify) == Classified(files[..n], classify);
        prev
  }

  /** `w` is the `.txt` file in the output directory, under the stem of the classified image `f`, holding its tag string. */
  ghost predicate CaptionOf(w: (string, string), f: string, o: Options,
                            classify: string -> Option<seq<(string, real)>>) {
    classify(f).Some? && w == (SplitExt(f).0 + ".txt", TagStringOf(classify(f).value, o))
  }

  /** One `.txt` file per classified image, in order: `ws[i]` is the caption of `images[i]`. */
  ghost predicate WrittenFor(ws: seq<(string, string)>, images: seq<string>, o: Options,
                             classify: string -> Option<seq<(string, real)>>)
    decreases |ws|
  {
    && |ws| == |images|
    && (ws != [] ==>
          var n := |ws| - 1;
          WrittenFor(ws[..n], images[..n], o, classify) && CaptionOf(ws[n], images[n], o, classify))
  }

  /** Read by position: each written file is the caption of the image at the same position. */
  lemma {:induction false} WrittenForAt(ws: seq<(string, string)>, images: seq<string>, o: Options,
                                        classify: string -> Option<seq<(string, real)>>, i: nat)
    requires WrittenFor(ws, images, o, classify) && i < |ws|
    ensures CaptionOf(ws[i], images[i], o, classify)
    decreases |ws|
  {
    var n := |ws| - 1;
    if i < n {
      WrittenForPrefix(ws, images, o, classify);
      WrittenForAt(ws[..n], images[..n], o, classify, i);
      CaptionInPrefix(ws, images, o, classify, i, n);
    } else {
      assert i == |ws| - 1;
      WrittenForLast(ws, images, o, classify);
    }
  }

  /** The files written for all images but the last. */
  lemma WrittenForPrefix(ws: seq<(string, string)>, images: seq<string>, o: Options,
                         classify: string -> Option<seq<(string, real)>>)
    requires WrittenFor(ws, images, o, classify) && ws != []
    ensures WrittenFor(ws[..|ws| - 1], images[..|ws| - 1], o, classify)
  {
  }

  /** The file written for the last image. */
  lemma WrittenForLast(ws: seq<(string, string)>, images: seq<string>, o: Options,
                       classify: string -> Option<seq<(string, real)>>)
    requires WrittenFor(ws, images, o, classify) && ws != []
    ensures CaptionOf(ws[|ws| - 1], images[|ws| - 1], o, classify)
  {
  }

  /** A caption read in a prefix is the caption at the same position of the whole list. */
  lemma CaptionInPrefix(ws: seq<(string, string)>, images: seq<string>, o: Options,
                        classify: string -> Option<seq<(string, real)>>, i: nat, n: nat)
    requires i < n <= |ws| && n <= |images|
    requires CaptionOf(ws[..n][i], images[..n][i], o, classify)
    ensures CaptionOf(ws[i], images[i], o, classify)
  {
    assert ws[..n][i] == ws[i] && images[..n][i] == images[i];
  }

  /** `tag_strings`: each image that could be classified, mapped to its tag string. */
  function TagStringMap(files: seq<string>, o: Options, classify: string -> Option<seq<(string, real)>>)
    : (m: map<string, string>)
    ensures forall f :: f in m <==> f in files && classify(f).Some?
    ensures forall f :: f in m ==> m[f] == TagStringOf(classify(f).value, o)
  {
    if files == [] then map[]
    else
      var n := |files| - 1;
      var f := files[n];
      assert files == files[..n] + [f];
      var m := TagStringMap(files[..n], o, classify);
      if classify(f).Some? then m[f := TagStringOf(classify(f).value, o)] else m
  }

  /** `batch_mapping`: each image that could be classified, mapped to its filtered predictions. */
  function PredictionMap(files: seq<string>, o: Options, classify: string -> Option<seq<(string, real)>>)
    : (m: map<string, Dict<real>>)
    ensures forall f :: f in m <==> f in files && classify(f).Some?
    ensures forall f :: f in m ==> m[f] == FilteredOf(classify(f).value, o)
  {
    if files == [] then map[]
    else
      var n := |files| - 1;
      var f := files[n];
      assert files == files[..n] + [f];
      var m := PredictionMap(files[..n], o, classify);
      if classify(f).Some? then m[f := FilteredOf(classify(f).value, o)] else m
  }

  /** `total_tags`: the tag counts of the images that succeeded, summed. */
  function TotalTags(results: seq<FileResult>): nat {
    if results == [] then 0
    else
      var n := |results| - 1;
      TotalTags(results[..n]) + (if results[n].Tagged? then results[n].count else 0)
  }

  /** Every image is reported in listing order, and the total is the sum of the reported counts. */
  lemma {:induction false} OutcomesReport(files: seq<string>, o: Options,
                                          classify: string -> Option<seq<(string, real)>>)
    ensures forall i :: 0 <= i < |files| ==> Outcomes(files, o, classify)[i].file == files[i]
    ensures forall i :: 0 <= i < |files| ==>
      (Outcomes(files, o, classify)[i].Failed? <==> classify(files[i]).None?)
    ensures TotalTags(Outcomes(files, o, classify)) == CountSum(files, o, classify)
  {
    if files != [] {
      var n := |files| - 1;
      OutcomesReport(files[..n], o, classify);
      assert Outcomes(files, o, classify)[..n] == Outcomes(files[..n], o, classify);
    }
  }

  /** The tag counts of the images that can be classified, summed over the files. */
  function CountSum(files: seq<string>, o: Options, classify: string -> Option<seq<(string, real)>>): nat {
    if files == [] then 0
    else
      var n := |files| - 1;
      CountSum(files[..n], o, classify) +
      (if classify(files[n]).Some? then TagCount(TagStringOf(classify(files[n]).value, o)) else 0)
  }

  /** Tags listed as entries stay entries in the predictions dict. */
  lemma PredictionEntries(pairs: seq<(string, real)>)
    requires forall p :: p in pairs ==> IsListEntry(p.0)
    ensures forall t :: t in Predictions(pairs).vals ==> IsListEntry(t)
  {
    forall t | t in Predictions(pairs).vals ensures IsListEntry(t) {
      var i :| 0 <= i < |pairs| && PairTags(pairs)[i] == t;
      assert pairs[i] in pairs;
    }
  }

  /**
   * The tag count of an image is the number of tags in its tag order, as
   * long as no model tag holds a comma or surrounding whitespace.
   */
  lemma TagCountIsOrderLength(pairs: seq<(string, real)>, o: Options)
    requires forall p :: p in pairs ==> IsListEntry(p.0)
    ensures TagCount(TagStringOf(pairs, o)) ==
      |TagOrder(ParseTagList(o.appendTags), FilteredOf(pairs, o))|
  {
    var filtered := FilteredOf(pairs, o);
    var order := TagOrder(ParseTagList(o.appendTags), filtered);
    PredictionEntries(pairs);
    TagCountOfJoin(order);
  }

  /** The body of the loop of `process_folder_batch` for one image. */
  method ProcessImage(file: string, o: Options, classify: string -> Option<seq<(string, real)>>)
    returns (result: FileResult, tagStr: string, filtered: Dict<real>)
    ensures result == Outcome(file, o, classify)
    ensures result.Tagged? <==> classify(file).Some?
    ensures classify(file).Some? ==>
      tagStr == TagStringOf(classify(file).value, o) && filtered == FilteredOf(classify(file).value, o)
  {
    var outcome := classify(file);
    if outcome.None? {
      return Failed(file), [], Dict([], map[]);
    }
    tagStr, filtered := FilterTags(Predictions(outcome.value), o.threshold, o.calibration,
                                   o.appendTags, o.blacklistTags);
    result := Tagged(file, TagCount(tagStr));
  }

  /** One more image extends the summary lines by its own. */
  lemma OutcomesStep(files: seq<string>, i: nat, o: Options, classify: string -> Option<seq<(string, real)>>)
    requires i < |files|
    ensures Outcomes(files[..i + 1], o, classify) == Outcomes(files[..i], o, classify) + [Outcome(files[i], o, classify)]
  {
    assert files[..i + 1][..i] == files[..i];
  }

  /** One more image adds its `.txt` file when it could be classified. */
  lemma WritesStep(files: seq<string>, i: nat, o: Options, classify: string -> Option<seq<(string, real)>>,
                   written: seq<(string, string)>, tagged: bool, tagStr: string)
    requires i < |files| && written == Writes(files[..i], o, classify)
    requires tagged <==> classify(files[i]).Some?
    requires tagged ==> tagStr == TagStringOf(classify(files[i]).value, o)
    ensures Writes(files[..i + 1], o, classify) ==
      if tagged then written + [(SplitExt(files[i]).0 + ".txt", tagStr)] else written
  {
    assert files[..i + 1][..i] == files[..i];
  }

  /** One more image adds its entries to both maps when it could be classified. */
  lemma MapsStep(files: seq<string>, i: nat, o: Options, classify: string -> Option<seq<(string, real)>>)
    requires i < |files|
    ensures TagStringMap(files[..i + 1], o, classify) ==
      var m := TagStringMap(files[..i], o, classify);
      if classify(files[i]).Some? then m[files[i] := TagStringOf(classify(files[i]).value, o)] else m
    ensures PredictionMap(files[..i + 1], o, classify) ==
      var m := PredictionMap(files[..i], o, classify);
      if classify(files[i]).Some? then m[files[i] := FilteredOf(classify(files[i]).value, o)] else m
  {
    TagStringMapStep(files, i, o, classify);
    PredictionMapStep(files, i, o, classify);
  }

  /** The tag-string half of MapsStep. */
  lemma TagStringMapStep(files: seq<string>, i: nat, o: Options, classify: string -> Option<seq<(string, real)>>)
    requires i < |files|
    ensures TagStringMap(files[..i + 1], o, classify) ==
      var m := TagStringMap(files[..i], o, classify);
      if classify(files[i]).Some? then m[files[i] := TagStringOf(classify(files[i]).value, o)] else m
  {
    assert files[..i + 1][..i] == files[..i];
  }

  /** The predictions half of MapsStep. */
  lemma PredictionMapStep(files: seq<string>, i: nat, o: Options, classify: string -> Option<seq<(string, real)>>)
    requires i < |files|
    ensures PredictionMap(files[..i + 1], o, classify) ==
      var m := PredictionMap(files[..i], o, classify);
      if classify(files[i]).Some? then m[files[i] := FilteredOf(classify(files[i]).value, o)] else m
  {
    assert files[..i + 1][..i] == files[..i];
  }

  /** What the loop of `process_folder_batch` has gathered after the images `files`. */
  ghost predicate Gathered(files: seq<string>, o: Options, classify: string -> Option<seq<(string, real)>>,
                           results: seq<FileResult>, total: nat, predictions: map<string, Dict<real>>,
                           tagStrings: map<string, string>, written: seq<(string, string)>)
  {
    && results == Outcomes(files, o, classify)
    && total == TotalTags(results)
    && written == Writes(files, o, classify)
    && tagStrings == TagStringMap(files, o, classify)
    && predictions == PredictionMap(files, o, classify)
  }

  /** Recording image `i` as the loop body does keeps `Gathered` true of one more image. */
  lemma RecordStep(files: seq<string>, i: nat, o: Options, classify: string -> Option<seq<(string, real)>>,
                   results: seq<FileResult>, total: nat, predictions: map<string, Dict<real>>,
                   tagStrings: map<string, string>, written: seq<(string, string)>,
                   result: FileResult, tagStr: string, filtered: Dict<real>)
    requires i < |files|
    requires Gathered(files[..i], o, classify, results, total, predictions, tagStrings, written)
    requires result == Outcome(files[i], o, classify)
    requires result.Tagged? <==> classify(files[i]).Some?
    requires result.Tagged? ==>
      tagStr == TagStringOf(classify(files[i]).value, o) && filtered == FilteredOf(classify(files[i]).value, o)
    ensures Gathered(files[..i + 1], o, classify, results + [result],
                     if result.Tagged? then total + result.count else total,
                     if result.Tagged? then predictions[files[i] := filtered] else predictions,
                     if result.Tagged? then tagStrings[files[i] := tagStr] else tagStrings,
                     if result.Tagged? then written + [(SplitExt(files[i]).0 + ".txt", tagStr)] else written)
  {
    OutcomesStep(files, i, o, classify);
    WritesStep(files, i, o, classify, written, result.Tagged?, tagStr);
    MapsStep(files, i, o, classify);
    assert (results + [result])[..|results|] == results;
  }

  /** One pass of the loop body: process image `i` and record it. */
  method RecordImage(images: seq<string>, i: nat, o: Options, classify: string -> Option<seq<(string, real)>>,
                     results: seq<FileResult>, total: nat, predictions: map<string, Dict<real>>,
                     tagStrings: map<string, string>, written: seq<(string, string)>)
    returns (results': seq<FileResult>, total': nat, predictions': map<string, Dict<real>>,
             tagStrings': map<string, string>, written': seq<(string, string)>)
    requires i < |images|
    requires Gathered(images[..i], o, classify, results, total, predictions, tagStrings, written)
    ensures Gathered(images[..i + 1], o, classify, results', total', predictions', tagStrings', written')
  {
    var file := images[i];
    var result, tagStr, filtered := ProcessImage(file, o, classify);
    RecordStep(images, i, o, classify, results, total, predictions, tagStrings, written, result, tagStr, filtered);
    results' := results + [result];
    total' := if result.Tagged? then total + result.count else total;
    predictions' := if result.Tagged? then predictions[file := filtered] else predictions;
    tagStrings' := if result.Tagged? then tagStrings[file := tagStr] else tagStrings;
    written' := if result.Tagged? then written + [(SplitExt(file).0 + ".txt", tagStr)] else written;
  }

  /** The loop of `process_folder_batch` over the images. */
  method ProcessImages(images: seq<string>, o: Options, classify: string -> Option<seq<(string, real)>>)
    returns (results: seq<FileResult>, total: nat, predictions: map<string, Dict<real>>,
             tagStrings: map<string, string>, written: seq<(string, string)>)
    ensures results == Outcomes(images, o, classify)
    ensures total == TotalTags(results)
    ensures written == Writes(images, o, classify)
    ensures tagStrings == TagStringMap(images, o, classify)
    ensures predictions == PredictionMap(images, o, classify)
  {
    results, total, predictions, tagStrings, written := [], 0, map[], map[], [];
    for i := 0 to |images|
      invariant Gathered(images[..i], o, classify, results, total, predictions, tagStrings, written)
    {
      results, total, predictions, tagStrings, written :=
        RecordImage(images, i, o, classify, results, total, predictions, tagStrings, written);
    }
    assert images[..|images|] == images;
  }

  /**
   * `process_folder_batch`: list the folder, keep the images, and for each
   * one classify, filter, record the tag string and count its tags.
   */
  method ProcessFolderBatch(folder: string, o: Options, outputDir: Option<string>,
                            listing: Option<seq<string>>,
                            classify: string -> Option<seq<(string, real)>>)
    returns (r: BatchReport)
    ensures r.ListingFailed? <==> listing.None?
    ensures r.NoImages? <==> listing.Some? && ImageFiles(listing.value) == []
    ensures r.Completed? ==>
      var images := ImageFiles(listing.value);
      && r.processed == |images|
      && r.outputDir == OutputDir(outputDir, folder)
      && r.results == Outcomes(images, o, classify)
      && r.totalTags == TotalTags(r.results)
      && r.written == Writes(images, o, classify)
      && r.tagStrings == TagStringMap(images, o, classify)
      && r.predictions == PredictionMap(images, o, classify)
  {
    if listing.None? {
      return ListingFailed;
    }
    var images := ImageFiles(listing.value);
    if images == [] {
      return NoImages;
    }
    var dir := OutputDir(outputDir, folder);
    var results, total, predictions, tagStrings, written := ProcessImages(images, o, classify);
    return Completed(|images|, total, dir, results, predictions, tagStrings, written);
  }
}
