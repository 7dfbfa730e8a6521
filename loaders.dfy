/**
 * `load_calibration` and `load_metadata` of inference.py: read a CSV table
 * row by row into a dict, the last row for a tag winning. The CSV reader,
 * `float` and `int` are parameters; a table is its header (absent for an
 * empty file) and its rows as column-to-text maps.
 */
module Loaders {
  import opened Wrappers
  import opened Text
  import opened Implications

  /** What Python's `float` returns: a finite value, or NaN / an infinity. */
  datatype PyFloat = Finite(value: real) | NonFinite

  /** One row of `csv.DictReader`. */
  type Row = map<string, string>

  /** The header (`fieldnames`, `None` for an empty file) and the rows. */
  datatype Table = Table(fieldnames: Option<seq<string>>, rows: seq<Row>)

  /** Why loading stops: the reader's `TypeError` on an empty file, or a `RuntimeError` / `ValueError` message. */
  datatype LoadError = NoHeader | Invalid(message: string)

  const CalibrationColumns: string := "CSV must have the columns 'tag' and 'threshold'"
  const ThresholdRange: string := "'threshold' must be between 0.0 and 1.0, or blank"
  const MetadataColumns: string := "CSV must have the columns 'tag', 'category', and 'implications'"
  const NotAnInteger: string := "invalid literal for int()"

  /** `row[column]`, with a missing cell read as blank. */
  function Field(row: Row, column: string): string {
    if column in row then row[column] else ""
  }

  // ------------------------------------------------------------ row folding

  /** What one row does to the dict being filled. */
  datatype Step<V> = Skip | Store(key: string, value: V) | Fail(error: LoadError)

  /** The dict after the rows, in order, or the error of the first failing row. */
  function Fill<V>(rows: seq<Row>, step: Row -> Step<V>): (r: Result<map<string, V>, LoadError>)
    ensures r.Ok? <==> forall i :: 0 <= i < |rows| ==> !step(rows[i]).Fail?
    decreases |rows|
  {
    if rows == [] then Ok(map[])
    else
      var n := |rows| - 1;
      var prev := Fill(rows[..n], step);
      assert forall i :: 0 <= i < n ==> rows[..n][i] == rows[i];
      if prev.Err? then prev
      else match step(rows[n])
        case Skip => prev
        case Store(k, v) => Ok(prev.value[k := v])
        case Fail(e) => Err(e)
  }

  /** Row `i` is the last one storing under `k`. */
  predicate LastStore<V>(rows: seq<Row>, step: Row -> Step<V>, k: string, i: int) {
    && 0 <= i < |rows| && step(rows[i]).Store? && step(rows[i]).key == k
    && forall j :: i < j < |rows| ==> !(step(rows[j]).Store? && step(rows[j]).key == k)
  }

  /** What a fill promises: no row fails, and each key holds the value of its last storing row. */
  ghost predicate Filled<V>(rows: seq<Row>, step: Row -> Step<V>, d: map<string, V>) {
    && (forall i :: 0 <= i < |rows| ==> !step(rows[i]).Fail?)
    && (forall k :: k in d <==> exists i :: 0 <= i < |rows| && step(rows[i]).Store? && step(rows[i]).key == k)
    && (forall k :: k in d ==> exists i :: LastStore(rows, step, k, i) && step(rows[i]).value == d[k])
  }

  /** A fill that succeeds holds each stored key with the value of its last storing row. */
  lemma {:induction false} FillFilled<V>(rows: seq<Row>, step: Row -> Step<V>)
    ensures Fill(rows, step).Ok? ==> Filled(rows, step, Fill(rows, step).value)
    decreases |rows|
  {
    if rows != [] {
      var n := |rows| - 1;
      var init := rows[..n];
      FillFilled(init, step);
      assert forall i :: 0 <= i < n ==> init[i] == rows[i];
      if Fill(init, step).Ok? && !step(rows[n]).Fail? {
        FillStep(rows, step, Fill(init, step).value, Fill(rows, step).value);
      }
    }
  }

  /** The step of FillFilled, for a `d` that is `prev` with row `n`'s store applied. */
  lemma FillStep<V>(rows: seq<Row>, step: Row -> Step<V>, prev: map<string, V>, d: map<string, V>)
    requires rows != [] && !step(rows[|rows| - 1]).Fail?
    requires Filled(rows[..|rows| - 1], step, prev)
    requires d == match step(rows[|rows| - 1]) case Store(k, v) => prev[k := v] case _ => prev
    ensures Filled(rows, step, d)
  {
    var n := |rows| - 1;
    assert forall i :: 0 <= i < n ==> rows[..n][i] == rows[i];
    forall k | k in d ensures exists i :: LastStore(rows, step, k, i) && step(rows[i]).value == d[k] {
      FillStepLast(rows, step, prev, d, k);
    }
    forall k | exists i :: 0 <= i < |rows| && step(rows[i]).Store? && step(rows[i]).key == k ensures k in d {
      var i :| 0 <= i < |rows| && step(rows[i]).Store? && step(rows[i]).key == k;
      FillStepStored(rows, step, prev, d, i);
    }
    forall k | k in d ensures exists i :: 0 <= i < |rows| && step(rows[i]).Store? && step(rows[i]).key == k {
      FillStepLast(rows, step, prev, d, k);
      var i :| LastStore(rows, step, k, i) && step(rows[i]).value == d[k];
    }
  }

  /** In the step of FillFilled, a key of `d` has a last storing row holding its value. */
  lemma FillStepLast<V>(rows: seq<Row>, step: Row -> Step<V>, prev: map<string, V>, d: map<string, V>, k: string)
    requires rows != [] && !step(rows[|rows| - 1]).Fail?
    requires Filled(rows[..|rows| - 1], step, prev)
    requires d == match step(rows[|rows| - 1]) case Store(k, v) => prev[k := v] case _ => prev
    requires k in d
    ensures exists i :: LastStore(rows, step, k, i) && step(rows[i]).value == d[k]
  {
    var n := |rows| - 1;
    var init := rows[..n];
    var s := step(rows[n]);
    if s.Store? && s.key == k {
      assert LastStore(rows, step, k, n);
    } else {
      var i :| LastStore(init, step, k, i) && step(init[i]).value == prev[k];
      assert forall j :: i < j < n ==> init[j] == rows[j];
      assert init[i] == rows[i];
      assert LastStore(rows, step, k, i);
    }
  }

  /** In the step of FillFilled, every storing row's key is in `d`. */
  lemma FillStepStored<V>(rows: seq<Row>, step: Row -> Step<V>, prev: map<string, V>, d: map<string, V>, i: nat)
    requires rows != [] && !step(rows[|rows| - 1]).Fail?
    requires Filled(rows[..|rows| - 1], step, prev)
    requires d == match step(rows[|rows| - 1]) case Store(k, v) => prev[k := v] case _ => prev
    requires i < |rows| && step(rows[i]).Store?
    ensures step(rows[i]).key in d
  {
    var n := |rows| - 1;
    if i < n {
      assert rows[..n][i] == rows[i];
    }
  }

  /** A successful fill holds the key of every storing row. */
  lemma {:induction false} FillStores<V>(rows: seq<Row>, step: Row -> Step<V>, i: nat)
    requires i < |rows| && Fill(rows, step).Ok? && step(rows[i]).Store?
    ensures step(rows[i]).key in Fill(rows, step).value
    decreases |rows|
  {
    var n := |rows| - 1;
    if i < n {
      assert rows[..n][i] == rows[i];
      FillStores(rows[..n], step, i);
    }
  }

  /** The error of the first failing row is the result, whatever follows it. */
  lemma {:induction false} FillFailStays<V>(rows: seq<Row>, step: Row -> Step<V>, i: nat, j: nat)
    requires i <= j <= |rows| && Fill(rows[..i], step).Err?
    ensures Fill(rows[..j], step) == Fill(rows[..i], step)
    decreases j
  {
    if j > i {
      FillFailStays(rows, step, i, j - 1);
      assert rows[..j][..j - 1] == rows[..j - 1];
    }
  }

  /** One more row, as the loaders' loops take it. */
  lemma FillNext<V>(rows: seq<Row>, step: Row -> Step<V>, i: nat)
    requires i < |rows| && Fill(rows[..i], step).Ok?
    ensures Fill(rows[..i + 1], step) == match step(rows[i])
      case Skip => Fill(rows[..i], step)
      case Store(k, v) => Ok(Fill(rows[..i], step).value[k := v])
      case Fail(e) => Err(e)
  {
    assert rows[..i + 1][..i] == rows[..i];
  }

  // ------------------------------------------------------------ calibration

  /** A parsed threshold that `0.0 <= value <= 1.0` accepts (NaN and infinities never do). */
  function InUnitRange(f: Option<PyFloat>): (r: Option<real>)
    ensures r.Some? <==> f.Some? && f.value.Finite? && 0.0 <= f.value.value <= 1.0
    ensures r.Some? ==> r.value == f.value.value
  {
    if f.Some? && f.value.Finite? && 0.0 <= f.value.value <= 1.0 then Some(f.value.value) else None
  }

  /** One calibration row: blank threshold skipped, a bad one fails, a good one stored under the rewritten tag. */
  function CalibrationStep(row: Row, parse: string -> Option<PyFloat>, rewrite: string -> string): Step<real> {
    var text := Field(row, "threshold");
    if text == [] then Skip
    else match InUnitRange(parse(text))
      case None => Fail(Invalid(ThresholdRange))
      case Some(v) => Store(rewrite(Field(row, "tag")), v)
  }

  /** The calibration row step as a function value. */
  function CalibrationSteps(parse: string -> Option<PyFloat>, rewrite: string -> string): Row -> Step<real> {
    row => CalibrationStep(row, parse, rewrite)
  }

  /** The header `load_calibration` accepts. */
  predicate CalibrationHeader(t: Table) {
    t.fieldnames.Some? && "tag" in t.fieldnames.value && "threshold" in t.fieldnames.value
  }

  /**
   * What `load_calibration` returns or raises for a table: past the header
   * check the only error is the range message, and a loaded calibration
   * holds thresholds in [0, 1] for the rewritten tag of every non-blank row.
   */
  function Calibration(t: Table, parse: string -> Option<PyFloat>, rewrite: string -> string)
    : (r: Result<map<string, real>, LoadError>)
    ensures r.Ok? ==> CalibrationHeader(t)
    ensures CalibrationHeader(t) && r.Err? ==> r == Err(Invalid(ThresholdRange))
    ensures r.Ok? ==> forall k :: k in r.value ==> 0.0 <= r.value[k] <= 1.0
    ensures r.Ok? ==> forall i :: 0 <= i < |t.rows| && Field(t.rows[i], "threshold") != [] ==>
      rewrite(Field(t.rows[i], "tag")) in r.value
  {
    if t.fieldnames.None? then Err(NoHeader)
    else if !CalibrationHeader(t) then Err(Invalid(CalibrationColumns))
    else
      FillCalibration(t.rows, parse, rewrite);
      Fill(t.rows, CalibrationSteps(parse, rewrite))
  }

  /** Every threshold the row fold of `load_calibration` stores is in [0, 1]. */
  lemma FillInRange(rows: seq<Row>, parse: string -> Option<PyFloat>, rewrite: string -> string)
    requires Fill(rows, CalibrationSteps(parse, rewrite)).Ok?
    ensures var d := Fill(rows, CalibrationSteps(parse, rewrite)).value;
      forall k :: k in d ==> 0.0 <= d[k] <= 1.0
  {
    var step := CalibrationSteps(parse, rewrite);
    var d := Fill(rows, step).value;
    FillFilled(rows, step);
    forall k | k in d ensures 0.0 <= d[k] <= 1.0 {
      var i :| LastStore(rows, step, k, i) && step(rows[i]).value == d[k];
      StoreInRange(rows[i], parse, rewrite);
    }
  }

  /** The row fold of `load_calibration` fails only with the range message, and stores in-range thresholds. */
  lemma FillCalibration(rows: seq<Row>, parse: string -> Option<PyFloat>, rewrite: string -> string)
    ensures var r := Fill(rows, CalibrationSteps(parse, rewrite));
      && (r.Err? ==> r == Err(Invalid(ThresholdRange)))
      && (r.Ok? ==> forall k :: k in r.value ==> 0.0 <= r.value[k] <= 1.0)
      && (r.Ok? ==> forall i :: 0 <= i < |rows| && Field(rows[i], "threshold") != [] ==>
            rewrite(Field(rows[i], "tag")) in r.value)
  {
    var step := CalibrationSteps(parse, rewrite);
    FillFailsWith(rows, step, Invalid(ThresholdRange));
    var r := Fill(rows, step);
    if r.Ok? {
      var d := r.value;
      FillInRange(rows, parse, rewrite);
      forall i | 0 <= i < |rows| && Field(rows[i], "threshold") != [] ensures rewrite(Field(rows[i], "tag")) in d {
        FillStores(rows, step, i);
      }
    }
  }

  /** Row `i` has a threshold that is not a number in [0, 1]. */
  predicate BadThreshold(t: Table, parse: string -> Option<PyFloat>, i: int) {
    0 <= i < |t.rows| && Field(t.rows[i], "threshold") != [] && InUnitRange(parse(Field(t.rows[i], "threshold"))).None?
  }

  /** With a good header, loading fails exactly when some non-blank threshold is bad, and always with the range message. */
  lemma CalibrationFailure(t: Table, parse: string -> Option<PyFloat>, rewrite: string -> string)
    requires CalibrationHeader(t)
    ensures Calibration(t, parse, rewrite).Err? <==> exists i :: BadThreshold(t, parse, i)
    ensures Calibration(t, parse, rewrite).Err? ==> Calibration(t, parse, rewrite) == Err(Invalid(ThresholdRange))
  {
    var step := CalibrationSteps(parse, rewrite);
    FillFilled(t.rows, step);
    FillFailsWith(t.rows, step, Invalid(ThresholdRange));
    assert forall i :: 0 <= i < |t.rows| ==> (step(t.rows[i]).Fail? <==> BadThreshold(t, parse, i));
  }

  /** A loaded calibration holds the rewritten tags of the non-blank rows, and only those. */
  lemma CalibrationKeys(t: Table, parse: string -> Option<PyFloat>, rewrite: string -> string)
    requires Calibration(t, parse, rewrite).Ok?
    ensures var d := Calibration(t, parse, rewrite).value;
      forall k :: k in d <==> exists i :: (0 <= i < |t.rows| && Field(t.rows[i], "threshold") != [] &&
        rewrite(Field(t.rows[i], "tag")) == k)
  {
    var step := CalibrationSteps(parse, rewrite);
    FillFilled(t.rows, step);
    assert forall i :: 0 <= i < |t.rows| ==>
      (step(t.rows[i]).Store? <==> Field(t.rows[i], "threshold") != []);
  }

  /** A row that stores a threshold stores one in [0, 1]. */
  lemma StoreInRange(row: Row, parse: string -> Option<PyFloat>, rewrite: string -> string)
    requires CalibrationSteps(parse, rewrite)(row).Store?
    ensures 0.0 <= CalibrationSteps(parse, rewrite)(row).value <= 1.0
  {
  }

  /** Each tag of a loaded calibration holds the threshold of its last non-blank row. */
  lemma CalibrationLastRow(t: Table, parse: string -> Option<PyFloat>, rewrite: string -> string)
    requires Calibration(t, parse, rewrite).Ok?
    ensures var d := Calibration(t, parse, rewrite).value;
      forall k :: k in d ==> exists i :: (LastStore(t.rows, CalibrationSteps(parse, rewrite), k, i) &&
        parse(Field(t.rows[i], "threshold")) == Some(Finite(d[k])))
  {
    FillLastThreshold(t.rows, parse, rewrite);
  }

  /** CalibrationLastRow for the row fold alone. */
  lemma FillLastThreshold(rows: seq<Row>, parse: string -> Option<PyFloat>, rewrite: string -> string)
    requires Fill(rows, CalibrationSteps(parse, rewrite)).Ok?
    ensures var d := Fill(rows, CalibrationSteps(parse, rewrite)).value;
      forall k :: k in d ==> exists i :: (LastStore(rows, CalibrationSteps(parse, rewrite), k, i) &&
        parse(Field(rows[i], "threshold")) == Some(Finite(d[k])))
  {
    var step := CalibrationSteps(parse, rewrite);
    var d := Fill(rows, step).value;
    FillFilled(rows, step);
    forall k | k in d ensures exists i :: (LastStore(rows, step, k, i) &&
        parse(Field(rows[i], "threshold")) == Some(Finite(d[k])))
    {
      var i :| LastStore(rows, step, k, i) && step(rows[i]).value == d[k];
    }
  }

  /** When every failing row fails with `e`, a failed fill fails with `e`. */
  lemma {:induction false} FillFailsWith<V>(rows: seq<Row>, step: Row -> Step<V>, e: LoadError)
    requires forall i :: 0 <= i < |rows| && step(rows[i]).Fail? ==> step(rows[i]).error == e
    ensures Fill(rows, step).Err? ==> Fill(rows, step) == Err(e)
    decreases |rows|
  {
    if rows != [] {
      var n := |rows| - 1;
      assert forall i :: 0 <= i < n ==> rows[..n][i] == rows[i];
      FillFailsWith(rows[..n], step, e);
    }
  }

  /** `load_calibration`: check the header, then read the rows, stopping at the first bad threshold. */
  method LoadCalibration(t: Table, parse: string -> Option<PyFloat>, rewrite: string -> string)
    returns (r: Result<map<string, real>, LoadError>)
    ensures r == Calibration(t, parse, rewrite)
  {
    if t.fieldnames.None? {
      return Err(NoHeader);
    }
    if "tag" !in t.fieldnames.value || "threshold" !in t.fieldnames.value {
      return Err(Invalid(CalibrationColumns));
    }
    ghost var step := CalibrationSteps(parse, rewrite);
    var thresholds: map<string, real> := map[];
    for i := 0 to |t.rows|
      invariant Fill(t.rows[..i], step) == Ok(thresholds)
    {
      FillNext(t.rows, step, i);
      var row := t.rows[i];
      var text := Field(row, "threshold");
      if text == [] {
        continue;
      }
      var value := parse(text);
      if value.None? || value.value.NonFinite? || !(0.0 <= value.value.value <= 1.0) {
        FillFailStays(t.rows, step, i + 1, |t.rows|);
        assert t.rows[..|t.rows|] == t.rows;
        return Err(Invalid(ThresholdRange));
      }
      thresholds := thresholds[rewrite(Field(row, "tag")) := value.value.value];
    }
    assert t.rows[..|t.rows|] == t.rows;
    r := Ok(thresholds);
  }

  // ------------------------------------------------------------ metadata

  /** The index just past the word starting at `i`. */
  function WordEnd(s: string, i: nat): (k: nat)
    requires i <= |s|
    ensures i <= k <= |s|
    ensures forall j :: i <= j < k ==> !IsSpace(s[j])
    ensures k < |s| ==> IsSpace(s[k])
    decreases |s| - i
  {
    if i == |s| || IsSpace(s[i]) then i else WordEnd(s, i + 1)
  }

  /** A non-empty run of non-space characters. */
  predicate IsWord(w: string) {
    w != [] && forall c :: c in w ==> !IsSpace(c)
  }

  /** `s.split()`: the maximal runs of non-whitespace, in order. */
  function Words(s: string): (r: seq<string>)
    ensures forall w :: w in r ==> IsWord(w)
    decreases |s|
  {
    if s == [] then []
    else if IsSpace(s[0]) then Words(s[1..])
    else
      var k := WordEnd(s, 0);
      [s[..k]] + Words(s[k..])
  }

  /** A word followed by a space (or nothing) splits off as the first word. */
  lemma WordsOfWordThen(w: string, rest: string)
    requires IsWord(w) && (rest == [] || IsSpace(rest[0]))
    ensures Words(w + rest) == [w] + Words(rest)
  {
    var s := w + rest;
    assert forall j :: 0 <= j < |w| ==> s[j] == w[j] && w[j] in w;
    WordEndAt(s, 0, |w|);
    assert s[..|w|] == w && s[|w|..] == rest;
  }

  /** The word starting at `i` ends at the first space at or after it. */
  lemma {:induction false} WordEndAt(s: string, i: nat, k: nat)
    requires i <= k <= |s|
    requires forall j :: i <= j < k ==> !IsSpace(s[j])
    requires k == |s| || IsSpace(s[k])
    ensures WordEnd(s, i) == k
    decreases k - i
  {
    if i < k {
      WordEndAt(s, i + 1, k);
    }
  }

  /** A leading space separates no word. */
  lemma WordsAfterSpace(s: string)
    ensures Words(" " + s) == Words(s)
  {
    assert (" " + s)[1..] == s;
  }

  /** Splitting space-joined words gives the words back. */
  lemma {:induction false} WordsOfJoin(ws: seq<string>)
    requires forall w :: w in ws ==> IsWord(w)
    ensures Words(Join(ws, " ")) == ws
    decreases |ws|
  {
    if |ws| == 1 {
      WordsOfWordThen(ws[0], []);
      assert ws[0] + [] == ws[0] && ws == [ws[0]];
    } else if |ws| > 1 {
      var rest := Join(ws[1..], " ");
      JoinCons(ws, " ");
      WordsOfJoin(ws[1..]);
      WordsOfWordThen(ws[0], " " + rest);
      WordsAfterSpace(rest);
      assert ws == [ws[0]] + ws[1..];
    }
  }

  /** One metadata row: `int(category)` (a `ValueError` when it is not an integer) and the rewritten implications. */
  function MetadataStep(row: Row, parseInt: string -> Option<int>, rewrite: string -> string): Step<TagInfo> {
    match parseInt(Field(row, "category"))
    case None => Fail(Invalid(NotAnInteger))
    case Some(category) =>
      Store(rewrite(Field(row, "tag")), TagInfo(category, Each(Words(Field(row, "implications")), rewrite)))
  }

  /** The metadata row step as a function value. */
  function MetadataSteps(parseInt: string -> Option<int>, rewrite: string -> string): Row -> Step<TagInfo> {
    row => MetadataStep(row, parseInt, rewrite)
  }

  /** The header `load_metadata` accepts. */
  predicate MetadataHeader(t: Table) {
    t.fieldnames.Some? && "tag" in t.fieldnames.value && "category" in t.fieldnames.value
      && "implications" in t.fieldnames.value
  }

  /**
   * What `load_metadata` returns or raises for a table: past the header
   * check the only error is the integer conversion, and loaded metadata
   * holds the rewritten tag of every row, each category an integer.
   */
  function MetadataOf(t: Table, parseInt: string -> Option<int>, rewrite: string -> string)
    : (r: Result<Metadata, LoadError>)
    ensures r.Ok? ==> MetadataHeader(t)
    ensures MetadataHeader(t) && r.Err? ==> r == Err(Invalid(NotAnInteger))
    ensures r.Ok? ==> forall i :: 0 <= i < |t.rows| ==>
      parseInt(Field(t.rows[i], "category")).Some? && rewrite(Field(t.rows[i], "tag")) in r.value
  {
    if t.fieldnames.None? then Err(NoHeader)
    else if !MetadataHeader(t) then Err(Invalid(MetadataColumns))
    else
      FillMetadata(t.rows, parseInt, rewrite);
      Fill(t.rows, MetadataSteps(parseInt, rewrite))
  }

  /** The row fold of `load_metadata` fails only on a category, and stores every row's rewritten tag. */
  lemma FillMetadata(rows: seq<Row>, parseInt: string -> Option<int>, rewrite: string -> string)
    ensures var r := Fill(rows, MetadataSteps(parseInt, rewrite));
      && (r.Err? ==> r == Err(Invalid(NotAnInteger)))
      && (r.Ok? ==> forall i :: 0 <= i < |rows| ==>
            parseInt(Field(rows[i], "category")).Some? && rewrite(Field(rows[i], "tag")) in r.value)
  {
    var step := MetadataSteps(parseInt, rewrite);
    FillFailsWith(rows, step, Invalid(NotAnInteger));
    var r := Fill(rows, step);
    if r.Ok? {
      forall i | 0 <= i < |rows| ensures parseInt(Field(rows[i], "category")).Some? && rewrite(Field(rows[i], "tag")) in r.value {
        assert !step(rows[i]).Fail?;
        FillStores(rows, step, i);
      }
    }
  }

  /** The entry row `i` stores. */
  function RowInfo(t: Table, parseInt: string -> Option<int>, rewrite: string -> string, i: int): TagInfo
    requires 0 <= i < |t.rows| && parseInt(Field(t.rows[i], "category")).Some?
  {
    TagInfo(parseInt(Field(t.rows[i], "category")).value, Each(Words(Field(t.rows[i], "implications")), rewrite))
  }

  /** With a good header, loading fails exactly when some category is not an integer. */
  lemma MetadataFailure(t: Table, parseInt: string -> Option<int>, rewrite: string -> string)
    requires MetadataHeader(t)
    ensures MetadataOf(t, parseInt, rewrite).Err? <==>
      exists i :: 0 <= i < |t.rows| && parseInt(Field(t.rows[i], "category")).None?
    ensures MetadataOf(t, parseInt, rewrite).Err? ==> MetadataOf(t, parseInt, rewrite) == Err(Invalid(NotAnInteger))
  {
    var step := MetadataSteps(parseInt, rewrite);
    FillFilled(t.rows, step);
    FillFailsWith(t.rows, step, Invalid(NotAnInteger));
    assert forall i :: 0 <= i < |t.rows| ==> (step(t.rows[i]).Fail? <==> parseInt(Field(t.rows[i], "category")).None?);
  }

  /** Loaded metadata holds every row's rewritten tag, and only those. */
  lemma MetadataKeys(t: Table, parseInt: string -> Option<int>, rewrite: string -> string)
    requires MetadataOf(t, parseInt, rewrite).Ok?
    ensures var d := MetadataOf(t, parseInt, rewrite).value;
      forall k :: k in d <==> exists i :: 0 <= i < |t.rows| && rewrite(Field(t.rows[i], "tag")) == k
  {
    var step := MetadataSteps(parseInt, rewrite);
    FillFilled(t.rows, step);
    assert forall i :: 0 <= i < |t.rows| ==> step(t.rows[i]).Store? && step(t.rows[i]).key == rewrite(Field(t.rows[i], "tag"));
  }

  /** Each tag of loaded metadata holds the category and rewritten implications of its last row. */
  lemma MetadataLastRow(t: Table, parseInt: string -> Option<int>, rewrite: string -> string)
    requires MetadataOf(t, parseInt, rewrite).Ok?
    ensures var d := MetadataOf(t, parseInt, rewrite).value;
      forall k :: k in d ==> exists i :: (0 <= i < |t.rows| && rewrite(Field(t.rows[i], "tag")) == k &&
        parseInt(Field(t.rows[i], "category")).Some? && d[k] == RowInfo(t, parseInt, rewrite, i) &&
        forall j :: i < j < |t.rows| ==> rewrite(Field(t.rows[j], "tag")) != k)
  {
    var step := MetadataSteps(parseInt, rewrite);
    var d := Fill(t.rows, step).value;
    FillFilled(t.rows, step);
    assert forall j :: 0 <= j < |t.rows| ==> parseInt(Field(t.rows[j], "category")).Some? by {
      forall j | 0 <= j < |t.rows| ensures parseInt(Field(t.rows[j], "category")).Some? {
        assert !step(t.rows[j]).Fail?;
      }
    }
    forall k | k in d ensures exists i :: (0 <= i < |t.rows| && rewrite(Field(t.rows[i], "tag")) == k &&
        parseInt(Field(t.rows[i], "category")).Some? && d[k] == RowInfo(t, parseInt, rewrite, i) &&
        forall j :: i < j < |t.rows| ==> rewrite(Field(t.rows[j], "tag")) != k)
    {
      var i :| LastStore(t.rows, step, k, i) && step(t.rows[i]).value == d[k];
      LastRowMeaning(t, parseInt, rewrite, k, i);
    }
  }

  /** The last storing metadata row for `k` is the last row whose rewritten tag is `k`. */
  lemma LastRowMeaning(t: Table, parseInt: string -> Option<int>, rewrite: string -> string, k: string, i: int)
    requires forall j :: 0 <= j < |t.rows| ==> parseInt(Field(t.rows[j], "category")).Some?
    requires LastStore(t.rows, MetadataSteps(parseInt, rewrite), k, i)
    ensures 0 <= i < |t.rows| && rewrite(Field(t.rows[i], "tag")) == k
    ensures MetadataSteps(parseInt, rewrite)(t.rows[i]).value == RowInfo(t, parseInt, rewrite, i)
    ensures forall j :: i < j < |t.rows| ==> rewrite(Field(t.rows[j], "tag")) != k
  {
    var step := MetadataSteps(parseInt, rewrite);
    forall j | i < j < |t.rows| ensures rewrite(Field(t.rows[j], "tag")) != k {
      assert step(t.rows[j]).Store?;
    }
  }

  /** `load_metadata`: check the header, then store every row, stopping at the first bad category. */
  method LoadMetadata(t: Table, parseInt: string -> Option<int>, rewrite: string -> string)
    returns (r: Result<Metadata, LoadError>)
    ensures r == MetadataOf(t, parseInt, rewrite)
  {
    if t.fieldnames.None? {
      return Err(NoHeader);
    }
    if "tag" !in t.fieldnames.value || "category" !in t.fieldnames.value || "implications" !in t.fieldnames.value {
      return Err(Invalid(MetadataColumns));
    }
    ghost var step := MetadataSteps(parseInt, rewrite);
    var metadata: Metadata := map[];
    for i := 0 to |t.rows|
      invariant Fill(t.rows[..i], step) == Ok(metadata)
    {
      FillNext(t.rows, step, i);
      var row := t.rows[i];
      var category := parseInt(Field(row, "category"));
      if category.None? {
        FillFailStays(t.rows, step, i + 1, |t.rows|);
        assert t.rows[..|t.rows|] == t.rows;
        return Err(Invalid(NotAnInteger));
      }
      var implies := Each(Words(Field(row, "implications")), rewrite);
      metadata := metadata[rewrite(Field(row, "tag")) := TagInfo(category.value, implies)];
    }
    assert t.rows[..|t.rows|] == t.rows;
    r := Ok(metadata);
  }
}
