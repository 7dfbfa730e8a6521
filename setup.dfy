/**
 * `main` of inference.py: the command line's tag rewrite, the checks on
 * the arguments, the threshold, metadata and implication-mode settings, the
 * rewrite of the model's tag list, and the choice of output.
 */
module Setup {
  import opened Wrappers
  import opened Text
  import opened Implications
  import opened Classify
  import opened Loaders
  import opened AppTags

  // ------------------------------------------------------------ rewrite_tag

  /** `\` before each parenthesis, every other character kept. */
  function EscapeChar(c: char): string {
    if c == '(' then "\\(" else if c == ')' then "\\)" else [c]
  }

  /** Each character escaped in turn. */
  function Escape(s: string): (r: string)
    decreases |s|
  {
    if s == [] then [] else EscapeChar(s[0]) + Escape(s[1..])
  }

  /** Reads `\(` and `\)` back as parentheses. */
  function Unescape(s: string): (r: string)
    decreases |s|
  {
    if s == [] then []
    else if |s| >= 2 && s[0] == '\\' && (s[1] == '(' || s[1] == ')') then [s[1]] + Unescape(s[2..])
    else [s[0]] + Unescape(s[1..])
  }

  /** The escaped text never starts with a bare parenthesis. */
  lemma EscapeHead(s: string)
    requires s != []
    ensures Escape(s) != [] && Escape(s)[0] != '(' && Escape(s)[0] != ')'
  {
  }

  /** The escaping loses nothing: unescaping gives the text back. */
  lemma {:induction false} UnescapeEscape(s: string)
    ensures Unescape(Escape(s)) == s
    decreases |s|
  {
    if s != [] {
      UnescapeEscape(s[1..]);
      var rest := Escape(s[1..]);
      if s[0] == '(' || s[0] == ')' {
        assert Escape(s) == ['\\', s[0]] + rest;
        assert (['\\', s[0]] + rest)[2..] == rest;
      } else {
        assert Escape(s) == [s[0]] + rest;
        if s[0] == '\\' && s[1..] != [] {
          EscapeHead(s[1..]);
        }
        assert ([s[0]] + rest)[1..] == rest;
      }
      assert s == [s[0]] + s[1..];
    }
  }

  /** Replacing a single character splits over a concatenation. */
  lemma {:induction false} ReplaceCharAppend(a: string, b: string, c: char, rep: string)
    ensures Replace(a + b, [c], rep) == Replace(a, [c], rep) + Replace(b, [c], rep)
    decreases |a|
  {
    if a == [] {
      assert a + b == b;
    } else {
      assert (a + b)[..1] == a[..1] && (a + b)[1..] == a[1..] + b;
      ReplaceCharAppend(a[1..], b, c, rep);
    }
  }

  /** The two `replace` calls of `rewrite_tag` escape the parentheses. */
  lemma {:induction false} EscapeByReplace(s: string)
    ensures Replace(Replace(s, "(", "\\("), ")", "\\)") == Escape(s)
    decreases |s|
  {
    if s != [] {
      var once := Replace(s[1..], "(", "\\(");
      EscapeByReplace(s[1..]);
      if s[0] == '(' {
        assert Replace(s, "(", "\\(") == "\\(" + once;
        ReplaceCharAppend("\\(", once, ')', "\\)");
        assert Replace("\\(", ")", "\\)") == "\\(" by {
          assert Replace("(", ")", "\\)") == "(";
        }
      } else {
        assert Replace(s, "(", "\\(") == [s[0]] + once;
        ReplaceCharAppend([s[0]], once, ')', "\\)");
      }
    }
  }

  /**
   * `rewrite_tag` of `main`: `vulva` becomes `pussy` unless the original
   * tags are asked for; for caption files, `_` becomes a space and
   * parentheses are escaped. A caption tag then holds no underscore and
   * unescapes to the spaced tag; without caption files only `vulva` is
   * rewritten, and none is left unless the original tags are asked for.
   */
  function MainRewrite(tag: string, originalTags: bool, captions: bool): (r: string)
    ensures captions ==> '_' !in r
    ensures captions ==> Unescape(r) == Replace(if originalTags then tag else Replace(tag, "vulva", "pussy"), "_", " ")
    ensures !captions && originalTags ==> r == tag
    ensures !captions && !originalTags ==> !Contains(r, "vulva")
  {
    var t := if originalTags then tag else Replace(tag, "vulva", "pussy");
    if captions then
      var spaced := Replace(t, "_", " ");
      ReplaceRemovesChar(t, '_', " ");
      ReplaceKeepsAbsent(spaced, "(", "\\(", '_');
      ReplaceKeepsAbsent(Replace(spaced, "(", "\\("), ")", "\\)", '_');
      EscapeByReplace(spaced);
      UnescapeEscape(spaced);
      Replace(Replace(spaced, "(", "\\("), ")", "\\)")
    else
      NoVulvaLeft(tag);
      t
  }

  // ------------------------------------------------------------ arguments

  /** `TAG_CATEGORIES`: the category names `--exclude` accepts and their ids. */
  const TagCategories: map<string, int> :=
    map["general" := 0, "copyright" := 3, "character" := 4, "species" := 5, "meta" := 7, "lore" := 8]

  /** The parsed command line (the model, device, worker and memory options are not modelled). */
  datatype Args = Args(threshold: string, implications: Option<string>, exclude: seq<string>,
                       recursive: bool, prefix: string, output: Option<string>, originalTags: bool,
                       metadata: string, batch: int, seqlen: int, paths: seq<string>)

  /** What `main` reads from outside: CSV files, `float`, `int` and the model's tag list. */
  datatype Env = Env(readCsv: string -> Option<Table>, parseFloat: string -> Option<PyFloat>,
                     parseInt: string -> Option<int>, modelTags: seq<string>)

  /** How `main` stops: `parser.error`, a loader error, or a file that cannot be opened. */
  datatype MainError = Usage(message: string) | LoadFailed(error: LoadError) | OpenFailed(path: string)
                     | NoAttribute(name: string)

  /** Where classifications go: caption files, CSV on standard output, or a CSV file. */
  datatype Target = CaptionFiles | Stdout | CsvFile(path: string)

  /** Everything `main` hands to the batch or interactive run. */
  datatype Settings = Settings(tags: seq<string>, threshold: Thresholds, meta: Metadata, mode: string,
                               exclude: set<int>, batch: int, seqlen: int, target: Option<Target>)

  const InvalidChoice: string := "invalid choice"

  /** Caption files are written when paths are given without `--output`. */
  predicate Captions(a: Args) {
    a.output.None? && a.paths != []
  }

  /** `main`'s `rewrite_tag` for these arguments. */
  function Rewriter(a: Args): string -> string {
    tag => MainRewrite(tag, a.originalTags, Captions(a))
  }

  /** The `parser.error` message for a number outside [-1, 1]. */
  const ThresholdRange: string := "--threshold value must be between -1.0 and 1.0"

  /** The threshold: a number in [-1, 1] on the symmetric scale, or else the path of a calibration file. */
  function ThresholdSetting(a: Args, env: Env): (r: Result<Thresholds, MainError>)
    ensures r.Ok? && r.value.Uniform? ==> 0.0 <= r.value.value <= 1.0
    ensures r.Ok? && r.value.PerTag? ==> forall k :: k in r.value.table ==> 0.0 <= r.value.table[k] <= 1.0
    ensures env.parseFloat(a.threshold).Some? && r.Ok? ==> r.value.Uniform?
    ensures env.parseFloat(a.threshold).Some? && env.parseFloat(a.threshold).value.Finite? ==>
      var t := env.parseFloat(a.threshold).value.value;
      && (r.Ok? <==> -1.0 <= t <= 1.0)
      && (r.Ok? ==> r.value == Uniform(FromSymmetric(t)) && ToSymmetric(r.value.value) == t)
    ensures env.parseFloat(a.threshold).Some? && r.Err? ==> r.error == Usage(ThresholdRange)
    ensures env.parseFloat(a.threshold).None? ==>
      && (env.readCsv(a.threshold).None? ==> r == Err(OpenFailed(a.threshold)))
      && (r.Ok? <==> env.readCsv(a.threshold).Some?
                     && Calibration(env.readCsv(a.threshold).value, env.parseFloat, Rewriter(a)).Ok?)
      && (r.Ok? ==> r.value == PerTag(Calibration(env.readCsv(a.threshold).value, env.parseFloat, Rewriter(a)).value))
  {
    match env.parseFloat(a.threshold)
    case Some(Finite(t)) =>
      SymmetricInverse(t, 0.0);
      if -1.0 <= t <= 1.0 then Ok(Uniform(FromSymmetric(t)))
      else Err(Usage(ThresholdRange))
    case Some(NonFinite) => Err(Usage(ThresholdRange))
    case None =>
      match env.readCsv(a.threshold)
      case None => Err(OpenFailed(a.threshold))
      case Some(table) =>
        var c := Calibration(table, env.parseFloat, Rewriter(a));
        if c.Err? then Err(LoadFailed(c.error)) else Ok(PerTag(c.value))
  }

  /**
   * The metadata setting as written: `args.metadata` is a string, never
   * `None`, so the file is opened even when no default was found and the
   * path is "".
   */
  function MetadataAsWritten(a: Args, env: Env): (r: Result<Metadata, MainError>)
    ensures env.readCsv(a.metadata).None? ==> r == Err(OpenFailed(a.metadata))
    ensures env.readCsv(a.metadata).Some? && r.Err? ==> r.error.LoadFailed?
    ensures r.Ok? ==> env.readCsv(a.metadata).Some?
    ensures r.Ok? ==> var rows := env.readCsv(a.metadata).value.rows;
      forall k :: k in r.value <==> exists i :: 0 <= i < |rows| && Rewriter(a)(Field(rows[i], "tag")) == k
  {
    match env.readCsv(a.metadata)
    case None => Err(OpenFailed(a.metadata))
    case Some(table) =>
      var m := MetadataOf(table, env.parseInt, Rewriter(a));
      if m.Err? then Err(LoadFailed(m.error))
      else
        MetadataKeys(table, env.parseInt, Rewriter(a));
        Ok(m.value)
  }

  /** Without a metadata file on disk, the as-written setting fails on the empty path. */
  lemma MetadataAsWrittenOpensEmptyPath(a: Args, env: Env)
    requires a.metadata == [] && env.readCsv([]).None?
    ensures MetadataAsWritten(a, env) == Err(OpenFailed([]))
  {
  }

  /** The metadata setting as the help text (`<none>`) intends: an empty path loads nothing. */
  function MetadataSetting(a: Args, env: Env): (r: Result<Metadata, MainError>)
    ensures a.metadata == [] ==> r == Ok(map[])
    ensures a.metadata != [] ==> r == MetadataAsWritten(a, env)
  {
    if a.metadata == [] then Ok(map[]) else MetadataAsWritten(a, env)
  }

  /** The implication mode: `inherit` by default when metadata is loaded, else `off`; any other mode needs metadata. */
  function ModeSetting(implications: Option<string>, meta: Metadata): (r: Result<string, MainError>)
    ensures r.Ok? ==> r.value in ImplicationModes
    ensures r.Ok? && r.value != "off" ==> |meta| > 0
    ensures implications.Some? && r.Ok? ==> r.value == implications.value
    ensures implications.Some? && implications.value in ImplicationModes ==>
      (r.Err? <==> implications.value != "off" && |meta| == 0)
  {
    match implications
    case None => Ok(if |meta| > 0 then "inherit" else "off")
    case Some(m) =>
      if m !in ImplicationModes then Err(Usage(InvalidChoice))
      else if m != "off" && |meta| == 0 then Err(Usage("--implications " + m + " requires tag metadata"))
      else Ok(m)
  }

  /**
   * The output target as written: no `-o` means caption files and `-o -`
   * standard output, as intended; any other path reads the missing
   * attribute `args.file`.
   */
  function TargetAsWritten(output: Option<string>): (r: Result<Target, MainError>)
    ensures r.Ok? <==> output.None? || output == Some("-")
    ensures r.Ok? ==> r.value == OutputTarget(output)
    ensures r.Err? ==> r.error == NoAttribute("file")
  {
    match output
    case None => Ok(CaptionFiles)
    case Some(p) => if p == "-" then Ok(Stdout) else Err(NoAttribute("file"))
  }

  /** The output target as the help text intends: `-o PATH` writes the CSV file PATH. */
  function OutputTarget(output: Option<string>): (r: Target)
    ensures output.None? <==> r == CaptionFiles
    ensures output == Some("-") <==> r == Stdout
    ensures r.CsvFile? ==> output == Some(r.path) && r.path != "-"
  {
    match output
    case None => CaptionFiles
    case Some(p) => if p == "-" then Stdout else CsvFile(p)
  }

  /** Every `--exclude` and `--implications` value is one argparse accepts. */
  predicate ChoicesValid(a: Args) {
    (forall c :: c in a.exclude ==> c in TagCategories)
    && (a.implications.Some? ==> a.implications.value in ImplicationModes)
  }

  /** `{TAG_CATEGORIES[category] for category in args.exclude}`. */
  function ExcludeIds(names: seq<string>): (r: set<int>)
    requires forall c :: c in names ==> c in TagCategories
    ensures forall id :: id in r <==> exists c :: c in names && TagCategories[c] == id
    decreases |names|
  {
    if names == [] then {} else {TagCategories[names[0]]} + ExcludeIds(names[1..])
  }

  /** Some rewritten model tag has no metadata row. */
  predicate BadMetadata(tags: seq<string>, meta: Metadata) {
    |meta| > 0 && exists i :: 0 <= i < |tags| && tags[i] !in meta
  }

  /** Every check of `main` passes, in its order, up to the rewrite of the model's tags. */
  predicate ChecksPass(a: Args, env: Env) {
    && ChoicesValid(a) && a.batch >= 1 && 64 <= a.seqlen <= 2048
    && ThresholdSetting(a, env).Ok? && MetadataSetting(a, env).Ok?
    && ModeSetting(a.implications, MetadataSetting(a, env).value).Ok?
    && (a.exclude == [] || |MetadataSetting(a, env).value| > 0)
    && !BadMetadata(Each(env.modelTags, Rewriter(a)), MetadataSetting(a, env).value)
  }

  /**
   * The checks and settings of `main`, in its order, up to the start of the
   * run: argparse's choices first, then batch and sequence length; it
   * succeeds exactly when every check passes, and then holds the settings
   * the checks computed.
   */
  function Configure(a: Args, env: Env): (r: Result<Settings, MainError>)
    ensures !ChoicesValid(a) ==> r == Err(Usage(InvalidChoice))
    ensures ChoicesValid(a) && a.batch < 1 ==> r == Err(Usage("--batch must be at least 1"))
    ensures ChoicesValid(a) && a.batch >= 1 && !(64 <= a.seqlen <= 2048) ==>
      r == Err(Usage("--seqlen must be between 64 and 2048"))
    ensures r.Ok? <==> ChecksPass(a, env)
    ensures r.Ok? ==> && r.value.threshold == ThresholdSetting(a, env).value
                      && r.value.meta == MetadataSetting(a, env).value
                      && r.value.mode == ModeSetting(a.implications, r.value.meta).value
                      && r.value.batch == a.batch && r.value.seqlen == a.seqlen
  {
    if !ChoicesValid(a) then Err(Usage(InvalidChoice))
    else if a.batch < 1 then Err(Usage("--batch must be at least 1"))
    else if !(64 <= a.seqlen <= 2048) then Err(Usage("--seqlen must be between 64 and 2048"))
    else
      var threshold := ThresholdSetting(a, env);
      if threshold.Err? then Err(threshold.error)
      else
        var meta := MetadataSetting(a, env);
        if meta.Err? then Err(meta.error)
        else
          var mode := ModeSetting(a.implications, meta.value);
          if mode.Err? then Err(mode.error)
          else if a.exclude != [] && |meta.value| == 0 then Err(Usage("--exclude requires tag metadata"))
          else
            var tags := Each(env.modelTags, Rewriter(a));
            if BadMetadata(tags, meta.value) then Err(Usage("--metadata does not match model tags"))
            else Ok(Settings(tags, threshold.value, meta.value, mode.value, ExcludeIds(a.exclude),
                             a.batch, a.seqlen, if a.paths == [] then None else Some(OutputTarget(a.output))))
  }

  /**
   * What a successful `main` guarantees to the run: a usable batch size and
   * sequence length, thresholds on the [0, 1] scale, a known implication
   * mode, metadata whenever implications or exclusions are used, and then
   * metadata for every model tag.
   */
  lemma ConfigureGuarantees(a: Args, env: Env)
    requires Configure(a, env).Ok?
    ensures var s := Configure(a, env).value;
      && s.batch >= 1 && 64 <= s.seqlen <= 2048
      && (s.threshold.Uniform? ==> 0.0 <= s.threshold.value <= 1.0)
      && (s.threshold.PerTag? ==> forall k :: k in s.threshold.table ==> 0.0 <= s.threshold.table[k] <= 1.0)
      && s.mode in ImplicationModes
      && (s.mode != "off" || s.exclude != {} ==> |s.meta| > 0)
      && (|s.meta| > 0 ==> forall t :: t in s.tags ==> t in s.meta)
      && s.tags == Each(env.modelTags, Rewriter(a))
      && (s.target.Some? <==> a.paths != [])
  {
    var s := Configure(a, env).value;
    if s.exclude != {} {
      var id :| id in s.exclude;
    }
    if |s.meta| > 0 {
      forall t | t in s.tags ensures t in s.meta {
        var i :| 0 <= i < |s.tags| && s.tags[i] == t;
      }
    }
  }

  /**
   * The CSV file the help text describes: with paths, no `-o` writes caption
   * files, `-o -` standard output and `-o PATH` the CSV file PATH; without
   * paths there is no batch target.
   */
  lemma ConfigureTarget(a: Args, env: Env)
    requires Configure(a, env).Ok?
    ensures var t := Configure(a, env).value.target;
      && (a.paths == [] ==> t.None?)
      && (a.paths != [] && a.output.None? ==> t == Some(CaptionFiles))
      && (a.paths != [] && a.output == Some("-") ==> t == Some(Stdout))
      && (forall p :: a.paths != [] && a.output == Some(p) && p != "-" ==> t == Some(CsvFile(p)))
  {
  }

  /**
   * The help text's `<none>`: with an empty metadata path, implications off
   * or left to their default and nothing excluded, `main` goes on once its
   * other checks pass, without metadata and with implications off.
   */
  lemma ConfigureWithoutMetadata(a: Args, env: Env)
    requires a.metadata == [] && a.exclude == [] && (a.implications.None? || a.implications == Some("off"))
    requires a.batch >= 1 && 64 <= a.seqlen <= 2048 && ThresholdSetting(a, env).Ok?
    ensures Configure(a, env).Ok?
    ensures var s := Configure(a, env).value;
      s.meta == map[] && s.mode == "off" && s.exclude == {}
  {
  }

  /**
   * With an acyclic metadata graph whose implications stay within the model's
   * tags, every successful configuration can classify without a missing key.
   */
  lemma ConfigureCanClassify(a: Args, env: Env, rank: map<string, nat>)
    requires Configure(a, env).Ok?
    requires Ranked(Configure(a, env).value.meta, rank)
    requires var s := Configure(a, env).value;
      forall t :: t in s.tags && t in s.meta ==> forall d :: d in Desc(s.meta, rank, t) ==> d in s.tags
    ensures var s := Configure(a, env).value;
      CanClassify(s.tags, s.meta, rank, s.mode, s.exclude)
  {
    ConfigureGuarantees(a, env);
  }

  /**
   * The rewrite loop over the model's tag list, in place, noting whether any
   * rewritten tag is missing from non-empty metadata.
   */
  method RewriteModelTags(tags: array<string>, meta: Metadata, rewrite: string -> string) returns (bad: bool)
    modifies tags
    ensures tags[..] == Each(old(tags[..]), rewrite)
    ensures bad <==> BadMetadata(tags[..], meta)
  {
    bad := false;
    for idx := 0 to tags.Length
      invariant forall i :: 0 <= i < idx ==> tags[i] == rewrite(old(tags[i]))
      invariant forall i :: idx <= i < tags.Length ==> tags[i] == old(tags[i])
      invariant bad <==> |meta| > 0 && exists i :: 0 <= i < idx && tags[i] !in meta
    {
      var tag := rewrite(tags[idx]);
      if |meta| > 0 && tag !in meta {
        bad := true;
      }
      tags[idx] := tag;
    }
  }

  /** The threshold setting, loading a calibration file through the loader's loop. */
  method LoadThreshold(a: Args, env: Env) returns (r: Result<Thresholds, MainError>)
    ensures r == ThresholdSetting(a, env)
  {
    match env.parseFloat(a.threshold) {
      case Some(Finite(t)) =>
        if -1.0 <= t <= 1.0 {
          r := Ok(Uniform(FromSymmetric(t)));
        } else {
          r := Err(Usage(ThresholdRange));
        }
      case Some(NonFinite) =>
        r := Err(Usage(ThresholdRange));
      case None =>
        var table := env.readCsv(a.threshold);
        if table.None? {
          return Err(OpenFailed(a.threshold));
        }
        var loaded := LoadCalibration(table.value, env.parseFloat, Rewriter(a));
        if loaded.Err? {
          r := Err(LoadFailed(loaded.error));
        } else {
          r := Ok(PerTag(loaded.value));
        }
    }
  }

  /** The metadata setting, loading the file through the loader's loop. */
  method LoadMetadataSetting(a: Args, env: Env) returns (r: Result<Metadata, MainError>)
    ensures r == MetadataSetting(a, env)
  {
    if a.metadata == [] {
      return Ok(map[]);
    }
    var table := env.readCsv(a.metadata);
    if table.None? {
      return Err(OpenFailed(a.metadata));
    }
    var loaded := LoadMetadata(table.value, env.parseInt, Rewriter(a));
    if loaded.Err? {
      r := Err(LoadFailed(loaded.error));
    } else {
      r := Ok(loaded.value);
    }
  }

  /** `main` up to the run: the checks in order, then the rewrite of the model's tags in place. */
  method Prepare(a: Args, env: Env) returns (r: Result<Settings, MainError>)
    ensures r == Configure(a, env)
  {
    if !ChoicesValid(a) {
      return Err(Usage(InvalidChoice));
    }
    if a.batch < 1 {
      return Err(Usage("--batch must be at least 1"));
    }
    if !(64 <= a.seqlen <= 2048) {
      return Err(Usage("--seqlen must be between 64 and 2048"));
    }
    var threshold := LoadThreshold(a, env);
    if threshold.Err? {
      return Err(threshold.error);
    }
    var meta := LoadMetadataSetting(a, env);
    if meta.Err? {
      return Err(meta.error);
    }
    var mode := ModeSetting(a.implications, meta.value);
    if mode.Err? {
      return Err(mode.error);
    }
    if a.exclude != [] && |meta.value| == 0 {
      return Err(Usage("--exclude requires tag metadata"));
    }
    var tags := new string[|env.modelTags|](i requires 0 <= i < |env.modelTags| => env.modelTags[i]);
    assert tags[..] == env.modelTags;
    var bad := RewriteModelTags(tags, meta.value, Rewriter(a));
    if bad {
      return Err(Usage("--metadata does not match model tags"));
    }
    r := Ok(Settings(tags[..], threshold.value, meta.value, mode.value, ExcludeIds(a.exclude),
                     a.batch, a.seqlen, if a.paths == [] then None else Some(OutputTarget(a.output))));
  }
}
