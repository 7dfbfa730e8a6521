/**
 * `_run_batched` of inference.py: the paths to classify (explicit files and
 * the files found by scanning directories), cut into batches, and what is
 * written for each image that loads: a `.txt` caption next to it, or a CSV
 * row of raw probabilities.
 */
module BatchRun {
  import opened Wrappers
  import opened Text
  import opened OrderedDict
  import opened Implications
  import opened Classify
  import opened AppTags

  // ---------------------------------------------------------------- batching

  /** `batched(xs, n)`: consecutive chunks of `n`, the last one possibly shorter. */
  function Batches<T>(xs: seq<T>, n: nat): (r: seq<seq<T>>)
    requires n >= 1
    ensures r == [] <==> xs == []
    ensures Chunked(r, n)
    decreases |xs|
  {
    if xs == [] then []
    else if |xs| <= n then [xs]
    else [xs[..n]] + Batches(xs[n..], n)
  }

  /** The chunks one after another. */
  function Flatten<T>(chunks: seq<seq<T>>): (r: seq<T>)
    decreases |chunks|
  {
    if chunks == [] then [] else chunks[0] + Flatten(chunks[1..])
  }

  /** Chunks of 1 to `n` items, all but the last exactly `n`. */
  ghost predicate Chunked<T>(chunks: seq<seq<T>>, n: nat) {
    && (forall i :: 0 <= i < |chunks| ==> 1 <= |chunks[i]| <= n)
    && (forall i :: 0 <= i < |chunks| - 1 ==> |chunks[i]| == n)
  }

  /** The batches hold the input in order, in full chunks of `n` but for the last. */
  lemma {:induction false} BatchesPartition<T>(xs: seq<T>, n: nat)
    requires n >= 1
    ensures Flatten(Batches(xs, n)) == xs
    ensures Chunked(Batches(xs, n), n)
    decreases |xs|
  {
    if |xs| > n {
      BatchesPartition(xs[n..], n);
      var rest := Batches(xs[n..], n);
      assert ([xs[..n]] + rest)[1..] == rest;
      assert xs[..n] + xs[n..] == xs;
    } else if xs != [] {
      assert [xs][1..] == [];
    }
  }

  /** `batched`: takes `n` items at a time until the input runs out. */
  method Batched<T>(xs: seq<T>, n: nat) returns (chunks: seq<seq<T>>)
    requires n >= 1
    ensures chunks == Batches(xs, n)
  {
    chunks := [];
    var i := 0;
    while i < |xs|
      invariant 0 <= i <= |xs|
      invariant chunks + Batches(xs[i..], n) == Batches(xs, n)
      decreases |xs| - i
    {
      var j := if i + n <= |xs| then i + n else |xs|;
      if j < |xs| {
        assert xs[i..][..n] == xs[i..j] && xs[i..][n..] == xs[j..];
      } else {
        assert xs[i..] == xs[i..j] && xs[j..] == [];
      }
      chunks := chunks + [xs[i..j]];
      i := j;
    }
    assert xs[i..] == [];
  }

  // ---------------------------------------------------------- caption text

  /** `list.remove(x)`: drops the first item equal to `x`; a list without `x` is kept. */
  function RemoveFirst(xs: seq<string>, x: string): (r: seq<string>)
    ensures multiset(r) == multiset(xs) - multiset{x}
    decreases |xs|
  {
    if xs == [] then []
    else if xs[0] == x then
      assert xs == [xs[0]] + xs[1..];
      xs[1..]
    else
      assert xs == [xs[0]] + xs[1..];
      [xs[0]] + RemoveFirst(xs[1..], x)
  }

  /** Removing an item that is not there changes nothing. */
  lemma {:induction false} RemoveAbsent(xs: seq<string>, x: string)
    requires x !in xs
    ensures RemoveFirst(xs, x) == xs
    decreases |xs|
  {
    if xs != [] {
      RemoveAbsent(xs[1..], x);
    }
  }

  /** Removing the first occurrence, at `i`, closes the gap and keeps the order. */
  lemma {:induction false} RemoveAt(xs: seq<string>, x: string, i: nat)
    requires i < |xs| && xs[i] == x && x !in xs[..i]
    ensures RemoveFirst(xs, x) == xs[..i] + xs[i + 1..]
    decreases i
  {
    if i > 0 {
      assert xs[1..][..i - 1] == xs[1..i];
      RemoveAt(xs[1..], x, i - 1);
      assert xs[1..][i..] == xs[i + 1..];
      assert [xs[0]] + xs[1..i] == xs[..i];
    }
  }

  /** The caption's tag list: `prefix` first and nowhere else, or the list as it was. */
  function Placed(classes: seq<string>, prefix: string): (r: seq<string>)
    ensures prefix == [] ==> r == classes
    ensures prefix != [] ==> r != [] && r[0] == prefix && multiset(r[1..]) == multiset(classes) - multiset{prefix}
  {
    if prefix == [] then classes
    else
      assert ([prefix] + RemoveFirst(classes, prefix))[1..] == RemoveFirst(classes, prefix);
      [prefix] + RemoveFirst(classes, prefix)
  }

  /** A list without repeats holds each item at most once. */
  lemma {:induction false} DistinctCount(xs: seq<string>, x: string)
    requires Distinct(xs)
    ensures multiset(xs)[x] <= 1
    decreases |xs|
  {
    if xs != [] {
      assert xs == [xs[0]] + xs[1..];
      assert Distinct(xs[1..]) by {
        forall i, j | 0 <= i < j < |xs[1..]| ensures xs[1..][i] != xs[1..][j] {
          assert xs[1..][i] == xs[i + 1] && xs[1..][j] == xs[j + 1];
        }
      }
      DistinctCount(xs[1..], x);
      if xs[0] == x {
        assert x !in xs[1..] by {
          forall k | 0 <= k < |xs[1..]| ensures xs[1..][k] != x {
            assert xs[1..][k] == xs[k + 1];
          }
        }
      }
    }
  }

  /**
   * A non-empty prefix comes first and, when the tags held it at most once,
   * appears exactly once; every other tag is kept as often as it was.
   */
  lemma PrefixOnce(classes: seq<string>, prefix: string)
    requires multiset(classes)[prefix] <= 1 && prefix != []
    ensures Placed(classes, prefix)[0] == prefix
    ensures multiset(Placed(classes, prefix))[prefix] == 1
    ensures forall t :: t != prefix ==> multiset(Placed(classes, prefix))[t] == multiset(classes)[t]
  {
    var r := Placed(classes, prefix);
    assert multiset(r) == multiset{prefix} + (multiset(classes) - multiset{prefix});
  }

  /**
   * `if prefix: classes.remove(prefix) (ignoring ValueError);
   * classes.insert(0, prefix)`, with the search for the first occurrence written out.
   */
  method PlacePrefix(classes: seq<string>, prefix: string) returns (r: seq<string>)
    ensures r == Placed(classes, prefix)
  {
    r := classes;
    if prefix != [] {
      var i := 0;
      while i < |r| && r[i] != prefix
        invariant 0 <= i <= |r| && prefix !in r[..i]
      {
        assert r[..i + 1] == r[..i] + [r[i]];
        i := i + 1;
      }
      if i < |r| {
        RemoveAt(r, prefix, i);
        r := r[..i] + r[i + 1..];
      } else {
        assert r[..i] == r;
        RemoveAbsent(r, prefix);
      }
      r := [prefix] + r;
    }
  }

  /** `f"{os.path.splitext(path)[0]}.txt"`. */
  function CaptionPath(path: string): (r: string)
    ensures EndsWith(r, ".txt")
  {
    var stem := SplitExt(path).0;
    assert (stem + ".txt")[|stem|..] == ".txt";
    stem + ".txt"
  }

  /** The caption of a path with an extension sits beside it under the same stem. */
  lemma CaptionKeepsStem(path: string)
    ensures CaptionPath(path) == SplitExt(path).0 + ".txt"
    ensures StartsWith(path, SplitExt(path).0)
    ensures EndsWith(path, SplitExt(path).1)
  {
    var (stem, ext) := SplitExt(path);
    assert path[..|stem|] == stem && path[|path| - |ext|..] == ext by {
      assert path == stem + ext;
    }
  }

  // --------------------------------------------------------- directory scan

  /** What `os.scandir` reports: a regular file, a directory with its entries, or something else. */
  datatype Entry = File(name: string) | Dir(name: string, entries: seq<Entry>) | Other(name: string)

  /** A file found by the scan: the directory it was listed in and its name. */
  datatype Found = Found(dir: string, name: string)

  /** `os.path.join(dir, name)` for a name without separators, as `DirEntry.path` forms it. */
  function JoinPath(dir: string, name: string): (r: string)
    ensures StartsWith(r, dir) && EndsWith(r, name)
  {
    var r := if dir == [] then name else if dir[|dir| - 1] == '/' then dir + name else dir + "/" + name;
    assert r[|r| - |name|..] == name;
    r
  }

  /** The path of a found file. */
  function PathOf(f: Found): string {
    JoinPath(f.dir, f.name)
  }

  /** Not a dotfile and not `__pycache__`. */
  predicate Visible(name: string) {
    !StartsWith(name, ".") && name != "__pycache__"
  }

  /** The suffixes `dir_iter` never yields: text, tables, JSON, Python and model files. */
  predicate Skipped(name: string) {
    EndsWith(name, ".txt") || EndsWith(name, ".csv") || EndsWith(name, ".json")
    || EndsWith(name, ".py") || EndsWith(name, ".safetensors")
  }

  /** A file name `dir_iter` yields. */
  predicate Yielded(name: string) {
    Visible(name) && !Skipped(name)
  }

  /** `dir_iter(path)` over the listing `entries`, as (directory, name) pairs in scan order. */
  function Walk(path: string, entries: seq<Entry>, recursive: bool): (r: seq<Found>)
    ensures forall f :: f in r ==> Yielded(f.name) && StartsWith(f.dir, path)
    ensures !recursive ==> forall f :: f in r ==> f.dir == path
    ensures !recursive ==> |r| <= |entries|
    decreases entries
  {
    if entries == [] then []
    else
      var e := entries[0];
      var here :=
        if !Visible(e.name) then []
        else if e.File? then (if Skipped(e.name) then [] else [Found(path, e.name)])
        else if recursive && e.Dir? then Walk(JoinPath(path, e.name), e.entries, recursive)
        else [];
      assert forall f :: f in here ==> StartsWith(f.dir, path) by {
        forall f | f in here ensures StartsWith(f.dir, path) {
          if e.Dir? && f.dir != path {
            var sub := JoinPath(path, e.name);
            assert f.dir[..|sub|] == sub;
            assert f.dir[..|path|] == sub[..|path|];
          }
        }
      }
      here + Walk(path, entries[1..], recursive)
  }

  /** Every visible, non-skipped file listed directly in the directory is found. */
  lemma {:induction false} WalkFindsTopLevel(path: string, entries: seq<Entry>, recursive: bool)
    ensures forall e :: e in entries && e.File? && Yielded(e.name) ==> Found(path, e.name) in Walk(path, entries, recursive)
    decreases |entries|
  {
    if entries != [] {
      WalkFindsTopLevel(path, entries[1..], recursive);
    }
  }

  /** With `--recursive`, everything found in a visible subdirectory is found. */
  lemma {:induction false} WalkFindsNested(path: string, entries: seq<Entry>, d: Entry)
    requires d in entries && d.Dir? && Visible(d.name)
    ensures forall f :: f in Walk(JoinPath(path, d.name), d.entries, true) ==> f in Walk(path, entries, true)
    decreases |entries|
  {
    if entries[0] != d {
      WalkFindsNested(path, entries[1..], d);
    }
  }

  /** A path ends in `.txt` only if its last component does (or is too short to hold it). */
  lemma JoinedNotTxt(dir: string, name: string)
    requires Yielded(name)
    ensures !EndsWith(JoinPath(dir, name), ".txt")
  {
    var p := JoinPath(dir, name);
    if |p| >= 4 {
      if |name| >= 4 {
        assert name[|name| - 4..] == p[|p| - 4..];
      } else if dir != [] {
        var k := |p| - |name| - 1;
        assert p[k] == '/';
        assert p[|p| - 4..][k - (|p| - 4)] == '/';
      } else {
        assert p == name;
      }
    }
  }

  /** A caption never overwrites an image that the directory scan found. */
  lemma CaptionNeverOverwritesScanned(f: Found)
    requires Yielded(f.name)
    ensures CaptionPath(PathOf(f)) != PathOf(f)
  {
    JoinedNotTxt(f.dir, f.name);
  }

  /** `paths_iter()`: directories are scanned, every other path is yielded as given. */
  function PathsToClassify(paths: seq<string>, isDir: string -> bool, listing: string -> seq<Entry>,
                           recursive: bool): (r: seq<string>)
    ensures forall p :: p in paths && !isDir(p) ==> p in r
    decreases |paths|
  {
    if paths == [] then []
    else
      var p := paths[0];
      var here := if isDir(p) then Scanned(p, Walk(p, listing(p), recursive)) else [p];
      here + PathsToClassify(paths[1..], isDir, listing, recursive)
  }

  /** The paths of the files a scan found. */
  function Scanned(dir: string, found: seq<Found>): (r: seq<string>)
    ensures |r| == |found|
    ensures forall i :: 0 <= i < |found| ==> r[i] == PathOf(found[i])
    decreases |found|
  {
    if found == [] then [] else [PathOf(found[0])] + Scanned(dir, found[1..])
  }

  // ------------------------------------------------------------ one run

  /** What the run writes for a loaded image. */
  datatype Written = Caption(file: string, text: string) | CsvRow(path: string, probs: seq<real>)

  /** The settings `_run_batched` is called with (other than model, device and workers). */
  datatype Config = Config(tags: seq<string>, threshold: Thresholds, meta: Metadata, mode: string,
                           exclude: set<int>, prefix: string, csv: bool)

  /** What `main` has checked before calling `_run_batched`. */
  ghost predicate Ready(c: Config, rank: map<string, nat>) {
    CanClassify(c.tags, c.meta, rank, c.mode, c.exclude) && c.mode in ImplicationModes
  }

  /** The caption's tags: the classified tags in shuffled order, the prefix placed first. */
  ghost function CaptionTags(output: seq<real>, c: Config, rank: map<string, nat>,
                             shuffle: seq<string> -> seq<string>): (r: seq<string>)
    requires Ready(c, rank) && |output| == |c.tags|
  {
    ClassificationProperties(output, c.tags, c.threshold, c.meta, rank, c.mode, c.exclude);
    var labels := Classification(output, c.tags, c.threshold, c.meta, rank, c.mode, c.exclude).value;
    Placed(shuffle(labels.keys), c.prefix)
  }

  /** The header row `main` writes to a CSV target: `filename`, then the model's tags. */
  function CsvHeader(tags: seq<string>): (r: seq<string>)
    ensures |r| == |tags| + 1 && r[0] == "filename" && r[1..] == tags
  {
    ["filename"] + tags
  }

  /**
   * What is written for one loaded image, given the model's probabilities
   * for it: for a CSV target a row of the path and one probability per
   * header column after `filename`; otherwise a `.txt` caption file whose
   * name starts with the image's stem.
   */
  ghost function Output(p: string, c: Config, rank: map<string, nat>, infer: string -> seq<real>,
                        shuffle: seq<string> -> seq<string>): (r: Written)
    requires Ready(c, rank) && |infer(p)| == |c.tags|
    ensures r.CsvRow? <==> c.csv
    ensures r.CsvRow? ==> r.path == p && |r.probs| + 1 == |CsvHeader(c.tags)|
    ensures r.Caption? ==> EndsWith(r.file, ".txt") && StartsWith(r.file, SplitExt(p).0)
  {
    if c.csv then CsvRow(p, infer(p))
    else
      var file := CaptionPath(p);
      assert file[..|SplitExt(p).0|] == SplitExt(p).0;
      Caption(file, Join(CaptionTags(infer(p), c, rank, shuffle), ", "))
  }

  /** `Output` as a total function of the path, for the configuration `main` prepared. */
  ghost function Writer(c: Config, rank: map<string, nat>, infer: string -> seq<real>,
                        shuffle: seq<string> -> seq<string>): string -> Written
  {
    p => if Ready(c, rank) && |infer(p)| == |c.tags| then Output(p, c, rank, infer, shuffle) else CsvRow(p, [])
  }

  /** Under the checked configuration, the writer gives exactly `Output`. */
  lemma WriterIsOutput(p: string, c: Config, rank: map<string, nat>, infer: string -> seq<real>,
                       shuffle: seq<string> -> seq<string>)
    requires Ready(c, rank) && |infer(p)| == |c.tags|
    ensures Writer(c, rank, infer, shuffle)(p) == Output(p, c, rank, infer, shuffle)
  {
  }

  /** The writes of two runs of images one after the other. */
  lemma {:induction false} PathWritesAppend<W>(a: seq<string>, b: seq<string>, write: string -> W)
    ensures Each(a + b, write) == Each(a, write) + Each(b, write)
    decreases |a|
  {
    if a == [] {
      assert a + b == b;
    } else {
      assert (a + b)[0] == a[0] && (a + b)[1..] == a[1..] + b;
      PathWritesAppend(a[1..], b, write);
    }
  }

  /** One more loaded image adds its write at the end. */
  lemma PathWritesNext<W>(ps: seq<string>, i: nat, write: string -> W)
    requires i < |ps|
    ensures Each(ps[..i + 1], write) == Each(ps[..i], write) + [write(ps[i])]
  {
    assert ps[..i + 1] == ps[..i] + [ps[i]];
  }

  /** The writes of all the images of a batch. */
  lemma PathWritesWhole<W>(ps: seq<string>, write: string -> W)
    ensures Each(ps[..|ps|], write) == Each(ps, write)
  {
    assert ps[..|ps|] == ps;
  }

  /** What is written for the batches, each reduced by the loader to the images that loaded. */
  function RunWrites<W>(batches: seq<seq<string>>, loaded: seq<string> -> seq<string>, write: string -> W): (r: seq<W>)
    decreases |batches|
  {
    if batches == [] then [] else Each(loaded(batches[0]), write) + RunWrites(batches[1..], loaded, write)
  }

  /** The writes of the batches from `i` on are those of batch `i`, then those after it. */
  lemma RunWritesNext<W>(batches: seq<seq<string>>, i: nat, loaded: seq<string> -> seq<string>, write: string -> W)
    requires i < |batches|
    ensures RunWrites(batches[i..], loaded, write)
         == Each(loaded(batches[i]), write) + RunWrites(batches[i + 1..], loaded, write)
  {
    assert batches[i..][0] == batches[i] && batches[i..][1..] == batches[i + 1..];
  }

  /** Appending batch `i`'s writes keeps the run's writes split at the next batch. */
  lemma RunWritesStep<W>(batches: seq<seq<string>>, i: nat, loaded: seq<string> -> seq<string>, write: string -> W,
                         out: seq<W>, ws: seq<W>)
    requires i < |batches|
    requires out + RunWrites(batches[i..], loaded, write) == RunWrites(batches, loaded, write)
    requires ws == Each(loaded(batches[i]), write)
    ensures (out + ws) + RunWrites(batches[i + 1..], loaded, write) == RunWrites(batches, loaded, write)
  {
    var rest := RunWrites(batches[i + 1..], loaded, write);
    RunWritesNext(batches, i, loaded, write);
    assert RunWrites(batches[i..], loaded, write) == ws + rest;
    AppendAssociates(out, ws, rest);
  }

  /** Concatenation regroups freely. */
  lemma AppendAssociates<W>(a: seq<W>, b: seq<W>, c: seq<W>)
    ensures (a + b) + c == a + (b + c)
  {
  }

  /** Past the last batch nothing is written. */
  lemma RunWritesEnd<W>(batches: seq<seq<string>>, loaded: seq<string> -> seq<string>, write: string -> W)
    ensures RunWrites(batches[|batches|..], loaded, write) == []
  {
    assert batches[|batches|..] == [];
  }

  /**
   * With a caption-file run, each caption lists the prefix first and once,
   * and otherwise exactly the tags `classify_output` kept, each once.
   */
  lemma CaptionHoldsClassified(output: seq<real>, c: Config, rank: map<string, nat>,
                               shuffle: seq<string> -> seq<string>)
    requires Ready(c, rank) && |output| == |c.tags| && c.prefix != []
    requires forall xs :: multiset(shuffle(xs)) == multiset(xs)
    ensures var labels := Classification(output, c.tags, c.threshold, c.meta, rank, c.mode, c.exclude);
      var r := CaptionTags(output, c, rank, shuffle);
      && labels.Ok?
      && r[0] == c.prefix
      && multiset(r)[c.prefix] == 1
      && forall t :: t != c.prefix ==> multiset(r)[t] == (if t in labels.value.vals then 1 else 0)
  {
    ClassificationProperties(output, c.tags, c.threshold, c.meta, rank, c.mode, c.exclude);
    var labels := Classification(output, c.tags, c.threshold, c.meta, rank, c.mode, c.exclude).value;
    var keys := labels.keys;
    var shuffled := shuffle(keys);
    assert multiset(shuffled) == multiset(keys);
    DistinctCount(keys, c.prefix);
    PrefixOnce(shuffled, c.prefix);
    forall t | t != c.prefix
      ensures multiset(shuffled)[t] == (if t in labels.vals then 1 else 0)
    {
      DistinctCount(keys, t);
      assert t in keys <==> t in multiset(keys);
    }
  }

  /** Writes one loaded image's caption file or CSV row. */
  method WriteImage(p: string, c: Config, ghost rank: map<string, nat>, infer: string -> seq<real>,
                    shuffle: seq<string> -> seq<string>) returns (w: Written)
    requires Ready(c, rank) && |infer(p)| == |c.tags|
    ensures w == Output(p, c, rank, infer, shuffle)
    ensures w == Writer(c, rank, infer, shuffle)(p)
  {
    WriterIsOutput(p, c, rank, infer, shuffle);
    var output := infer(p);
    if c.csv {
      return CsvRow(p, output);
    }
    var r := ClassifyOutput(output, c.tags, c.threshold, c.meta, rank, c.mode, c.exclude);
    var classes := shuffle(r.value.keys);
    var placed := PlacePrefix(classes, c.prefix);
    w := Caption(CaptionPath(p), Join(placed, ", "));
  }

  /** The inner loop: one write per image of the batch that loaded. */
  method WriteBatch(batchPaths: seq<string>, c: Config, ghost rank: map<string, nat>, infer: string -> seq<real>,
                    shuffle: seq<string> -> seq<string>) returns (out: seq<Written>)
    requires Ready(c, rank) && forall p :: |infer(p)| == |c.tags|
    ensures out == Each(batchPaths, Writer(c, rank, infer, shuffle))
  {
    ghost var write := Writer(c, rank, infer, shuffle);
    out := [];
    for i := 0 to |batchPaths|
      invariant out == Each(batchPaths[..i], write)
    {
      var w := WriteImage(batchPaths[i], c, rank, infer, shuffle);
      PathWritesNext(batchPaths, i, write);
      out := out + [w];
    }
    PathWritesWhole(batchPaths, write);
  }

  /**
   * `_run_batched`: cuts the paths into batches, lets the loader keep the
   * images that load (`loaded`, which reports the others), and writes each.
   */
  method RunBatched(paths: seq<string>, batchSize: nat, c: Config, ghost rank: map<string, nat>,
                    loaded: seq<string> -> seq<string>, infer: string -> seq<real>,
                    shuffle: seq<string> -> seq<string>) returns (out: seq<Written>)
    requires batchSize >= 1
    requires Ready(c, rank) && forall p :: |infer(p)| == |c.tags|
    ensures out == RunWrites(Batches(paths, batchSize), loaded, Writer(c, rank, infer, shuffle))
  {
    ghost var write := Writer(c, rank, infer, shuffle);
    var batches := Batched(paths, batchSize);
    out := [];
    for i := 0 to |batches|
      invariant out + RunWrites(batches[i..], loaded, write) == RunWrites(batches, loaded, write)
    {
      var ws := WriteBatch(loaded(batches[i]), c, rank, infer, shuffle);
      RunWritesStep(batches, i, loaded, write, out, ws);
      out := out + ws;
    }
    RunWritesEnd(batches, loaded, write);
  }

  /** The paths of `ps` that load, in order. */
  function Loadable(ps: seq<string>, ok: string -> bool): (r: seq<string>)
    ensures forall p :: p in r <==> p in ps && ok(p)
    decreases |ps|
  {
    if ps == [] then [] else (if ok(ps[0]) then [ps[0]] else []) + Loadable(ps[1..], ok)
  }

  /** Loading a concatenation loads each part. */
  lemma {:induction false} LoadableAppend(a: seq<string>, b: seq<string>, ok: string -> bool)
    ensures Loadable(a + b, ok) == Loadable(a, ok) + Loadable(b, ok)
    decreases |a|
  {
    if a == [] {
      assert a + b == b;
    } else {
      assert (a + b)[0] == a[0] && (a + b)[1..] == a[1..] + b;
      LoadableAppend(a[1..], b, ok);
    }
  }

  /**
   * The paths of a batch as the keys of the dict `loader.load` returns: each
   * path once, at its first occurrence.
   */
  function Dedup(ps: seq<string>): (r: seq<string>)
    ensures forall p :: p in r <==> p in ps
    ensures Distinct(r)
    decreases |ps|
  {
    if ps == [] then []
    else
      var init, last := ps[..|ps| - 1], ps[|ps| - 1];
      assert ps == init + [last];
      var r := Dedup(init);
      if last in init then r
      else
        assert forall i, j :: 0 <= i < j < |r + [last]| ==> (r + [last])[i] != (r + [last])[j] by {
          forall i, j | 0 <= i < j < |r + [last]| ensures (r + [last])[i] != (r + [last])[j] {
            if j == |r| {
              assert (r + [last])[i] == r[i] && r[i] in r;
            }
          }
        }
        r + [last]
  }

  /** A batch without repeated paths keeps its order and length. */
  lemma {:induction false} DedupDistinct(ps: seq<string>)
    requires Distinct(ps)
    ensures Dedup(ps) == ps
    decreases |ps|
  {
    if ps != [] {
      var init, last := ps[..|ps| - 1], ps[|ps| - 1];
      assert Distinct(init) by {
        forall i, j | 0 <= i < j < |init| ensures init[i] != init[j] {
          assert init[i] == ps[i] && init[j] == ps[j];
        }
      }
      DedupDistinct(init);
      assert last !in init by {
        forall i | 0 <= i < |init| ensures init[i] != last {
          assert init[i] == ps[i];
        }
      }
      assert init + [last] == ps;
    }
  }

  /** Both halves of a path list without repeats are without repeats. */
  lemma DistinctSplit(ps: seq<string>, n: nat)
    requires Distinct(ps) && n <= |ps|
    ensures Distinct(ps[..n]) && Distinct(ps[n..])
  {
    forall i, j | 0 <= i < j < |ps[..n]| ensures ps[..n][i] != ps[..n][j] {
      assert ps[..n][i] == ps[i] && ps[..n][j] == ps[j];
    }
    forall i, j | 0 <= i < j < |ps[n..]| ensures ps[n..][i] != ps[n..][j] {
      assert ps[n..][i] == ps[n + i] && ps[n..][j] == ps[n + j];
    }
  }

  /**
   * When the loader keeps the images of a batch without repeats that load,
   * in batch order, the batches write one image per loadable path, in path
   * order.
   */
  lemma {:induction false} BatchesWriteLoadable<W>(paths: seq<string>, n: nat, ok: string -> bool,
                                                   loaded: seq<string> -> seq<string>, write: string -> W)
    requires n >= 1 && Distinct(paths)
    requires forall b :: Distinct(b) ==> loaded(b) == Loadable(b, ok)
    ensures RunWrites(Batches(paths, n), loaded, write) == Each(Loadable(paths, ok), write)
    decreases |paths|
  {
    if paths == [] {
    } else if |paths| <= n {
      RunWritesCons([paths], loaded, write);
      assert [paths][1..] == [];
    } else {
      var head, tail := paths[..n], paths[n..];
      assert head + tail == paths;
      var rest := Batches(tail, n);
      assert Batches(paths, n) == [head] + rest;
      RunWritesCons([head] + rest, loaded, write);
      assert ([head] + rest)[1..] == rest;
      DistinctSplit(paths, n);
      assert loaded(head) == Loadable(head, ok);
      BatchesWriteLoadable(tail, n, ok, loaded, write);
      LoadableAppend(head, tail, ok);
      PathWritesAppend(Loadable(head, ok), Loadable(tail, ok), write);
    }
  }

  /** The writes of a run are those of its first batch, then those of the rest. */
  lemma RunWritesCons<W>(batches: seq<seq<string>>, loaded: seq<string> -> seq<string>, write: string -> W)
    requires batches != []
    ensures RunWrites(batches, loaded, write)
         == Each(loaded(batches[0]), write) + RunWrites(batches[1..], loaded, write)
  {
  }

  /**
   * When the loader returns the images of a batch that load, keyed by path,
   * and no path is given twice, the batch size does not change what is
   * written: one write per loadable path, in path order.
   */
  lemma BatchSizeIrrelevant<W>(paths: seq<string>, n: nat, ok: string -> bool,
                               loaded: seq<string> -> seq<string>, write: string -> W)
    requires n >= 1 && Distinct(paths)
    requires forall b :: loaded(b) == Loadable(Dedup(b), ok)
    ensures RunWrites(Batches(paths, n), loaded, write) == Each(Loadable(paths, ok), write)
  {
    forall b | Distinct(b) ensures loaded(b) == Loadable(b, ok) {
      DedupDistinct(b);
    }
    BatchesWriteLoadable(paths, n, ok, loaded, write);
  }

  /**
   * The same path given twice is written twice with batches of one and once
   * with batches of two, since the loader's dict holds each path once.
   */
  lemma RepeatedPathDependsOnBatchSize<W>(p: string, loaded: seq<string> -> seq<string>, write: string -> W)
    requires forall b :: loaded(b) == Loadable(Dedup(b), _ => true)
    ensures |RunWrites(Batches([p, p], 1), loaded, write)| == 2
    ensures |RunWrites(Batches([p, p], 2), loaded, write)| == 1
  {
    var one: string -> bool := _ => true;
    assert [p, p][..1] == [p] && [p, p][1..] == [p];
    assert Batches([p, p], 1) == [[p], [p]];
    assert Batches([p, p], 2) == [[p, p]];
    assert Dedup([p]) == [p];
    assert Dedup([p, p]) == [p];
    assert Loadable([p], one) == [p];
    assert loaded([p]) == [p] && loaded([p, p]) == [p];
    assert [[p], [p]][1..] == [[p]];
    assert [[p]][1..] == [] && [[p, p]][1..] == [];
    assert RunWrites([[p]], loaded, write) == Each([p], write);
  }
}
