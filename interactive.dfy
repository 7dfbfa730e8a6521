/**
 * `_run_interactive` of inference.py: a prompt that reads one line at a
 * time and either changes the threshold, sequence length, excluded
 * categories or implication mode, or classifies the image the line names.
 */
module Interactive {
  import opened Wrappers
  import opened Text
  import opened OrderedDict
  import opened Implications
  import opened Classify
  import opened Loaders
  import opened Setup

  /** The settings the prompt changes: the local variables of `_run_interactive`. */
  datatype Session = Session(threshold: Thresholds, seqlen: int, exclude: set<int>, mode: string)

  /** What stays fixed for the whole prompt, and the outside world it reads. */
  datatype Context = Context(tags: seq<string>, meta: Metadata, rewrite: string -> string,
                             readCsv: string -> Option<Table>, parseFloat: string -> Option<PyFloat>,
                             parseInt: string -> Option<int>, infer: (string, int) -> Option<seq<real>>)

  /** A command line, after `strip`. */
  datatype Command =
    | Quit
    | Help
    | SetThreshold(number: string)
    | LoadCalibrationFile(path: string)
    | SetSeqlen(number: string)
    | ExcludeCategory(category: string)
    | IncludeCategory(category: string)
    | SetImplications(mode: string)
    | ClassifyImage(path: string)

  /** Why a command was turned down; each is printed and the prompt goes on. */
  datatype Rejection =
    | NotANumber
    | ThresholdOutOfRange
    | SeqlenOutOfRange
    | NoMetadata
    | UnknownCategory
    | UnknownMode
    | CannotOpen(path: string)
    | BadCalibration(error: LoadError)
    | ImageNotLoaded(path: string)

  /** What the prompt answers. */
  datatype Reply =
    | Bye
    | HelpText(withMetadata: bool)
    | Updated
    | Rejected(why: Rejection)
    | Scored(path: string, output: seq<real>)

  /** The file `calibration` loads when no path follows it. */
  const DefaultCalibration: string := "calibration.csv"

  /** The commands in the order the prompt tests for them; anything else names an image. */
  function Parse(l: string): (r: Command)
    ensures l !in ["q", "quit", "exit", "", "h", "help", "?", "calibration"] ==> Render(r) == l
  {
    assert StartsWith(l, "threshold ") ==> "threshold " + l[10..] == l by {
      if StartsWith(l, "threshold ") { assert l[..10] + l[10..] == l; }
    }
    assert StartsWith(l, "calibration ") ==> "calibration " + l[12..] == l by {
      if StartsWith(l, "calibration ") { assert l[..12] + l[12..] == l; }
    }
    assert StartsWith(l, "seqlen ") ==> "seqlen " + l[7..] == l by {
      if StartsWith(l, "seqlen ") { assert l[..7] + l[7..] == l; }
    }
    assert StartsWith(l, "exclude ") ==> "exclude " + l[8..] == l by {
      if StartsWith(l, "exclude ") { assert l[..8] + l[8..] == l; }
    }
    assert StartsWith(l, "include ") ==> "include " + l[8..] == l by {
      if StartsWith(l, "include ") { assert l[..8] + l[8..] == l; }
    }
    assert StartsWith(l, "implications ") ==> "implications " + l[13..] == l by {
      if StartsWith(l, "implications ") { assert l[..13] + l[13..] == l; }
    }
    if l in ["q", "quit", "exit"] then Quit
    else if l in ["", "h", "help", "?"] then Help
    else if StartsWith(l, "threshold ") then SetThreshold(l[10..])
    else if l == "calibration" then LoadCalibrationFile(DefaultCalibration)
    else if StartsWith(l, "calibration ") then LoadCalibrationFile(l[12..])
    else if StartsWith(l, "seqlen ") then SetSeqlen(l[7..])
    else if StartsWith(l, "exclude ") then ExcludeCategory(l[8..])
    else if StartsWith(l, "include ") then IncludeCategory(l[8..])
    else if StartsWith(l, "implications ") then SetImplications(l[13..])
    else ClassifyImage(l)
  }

  /** A path the prompt reads as an image rather than as a command. */
  predicate ImagePath(p: string) {
    Parse(p) == ClassifyImage(p)
  }

  /** The canonical line for a command. */
  function Render(c: Command): string {
    match c
    case Quit => "q"
    case Help => "h"
    case SetThreshold(n) => "threshold " + n
    case LoadCalibrationFile(p) => "calibration " + p
    case SetSeqlen(n) => "seqlen " + n
    case ExcludeCategory(x) => "exclude " + x
    case IncludeCategory(x) => "include " + x
    case SetImplications(m) => "implications " + m
    case ClassifyImage(p) => p
  }

  /** Reading the canonical line gives the command back (an image path only when it looks like no command). */
  lemma ParseRender(c: Command)
    requires c.ClassifyImage? ==> ImagePath(c.path)
    ensures Parse(Render(c)) == c
  {
    match c
    case SetThreshold(n) => Prefixed("threshold ", n);
    case LoadCalibrationFile(p) =>
      var l := "calibration " + p;
      Prefixed("calibration ", p);
      NotStartsWith(l, "threshold ", 0);
    case SetSeqlen(n) =>
      var l := "seqlen " + n;
      Prefixed("seqlen ", n);
      NotStartsWith(l, "threshold ", 0);
      NotStartsWith(l, "calibration ", 0);
    case ExcludeCategory(x) =>
      var l := "exclude " + x;
      Prefixed("exclude ", x);
      NotStartsWith(l, "threshold ", 0);
      NotStartsWith(l, "calibration ", 0);
      NotStartsWith(l, "seqlen ", 0);
    case IncludeCategory(x) =>
      var l := "include " + x;
      Prefixed("include ", x);
      NotStartsWith(l, "threshold ", 0);
      NotStartsWith(l, "calibration ", 0);
      NotStartsWith(l, "seqlen ", 0);
      NotStartsWith(l, "exclude ", 0);
    case SetImplications(m) =>
      var l := "implications " + m;
      Prefixed("implications ", m);
      NotStartsWith(l, "threshold ", 0);
      NotStartsWith(l, "calibration ", 0);
      NotStartsWith(l, "seqlen ", 0);
      NotStartsWith(l, "exclude ", 0);
      NotStartsWith(l, "include ", 1);
    case _ =>
  }

  /** Text that differs from `q` at position `i` does not start with `q`. */
  lemma NotStartsWith(l: string, q: string, i: nat)
    requires i < |q| && i < |l| && l[i] != q[i]
    ensures !StartsWith(l, q)
  {
    if |q| <= |l| {
      assert l[..|q|][i] == l[i];
    }
  }

  /** `p + rest` starts with `p`, which is cut off again by slicing. */
  lemma Prefixed(p: string, rest: string)
    ensures StartsWith(p + rest, p) && (p + rest)[|p|..] == rest
  {
    assert (p + rest)[..|p|] == p;
  }

  /** The categories `include` and `exclude` accept, by id. */
  predicate KnownCategories(ids: set<int>) {
    ids <= TagCategories.Values
  }

  /**
   * The settings the prompt keeps: a threshold on the [0, 1] scale, a
   * sequence length in range, a known mode, known categories, and metadata
   * whenever implications are on or a category is excluded.
   */
  predicate Valid(meta: Metadata, s: Session) {
    && (s.threshold.Uniform? ==> 0.0 <= s.threshold.value <= 1.0)
    && (s.threshold.PerTag? ==> forall k :: k in s.threshold.table ==> 0.0 <= s.threshold.table[k] <= 1.0)
    && 64 <= s.seqlen <= 2048
    && s.mode in ImplicationModes
    && KnownCategories(s.exclude)
    && (s.mode != "off" || s.exclude != {} ==> |meta| > 0)
  }

  /** The metadata is acyclic and, when loaded, covers the model's tags and what they imply. */
  ghost predicate Ready(ctx: Context, rank: map<string, nat>) {
    Ranked(ctx.meta, rank) && (|ctx.meta| > 0 ==> Covered(ctx.meta, rank, ctx.tags))
  }

  /** Valid settings over ready metadata never make `classify_output` look up a missing tag. */
  lemma ValidCanClassify(ctx: Context, rank: map<string, nat>, s: Session)
    requires Ready(ctx, rank) && Valid(ctx.meta, s)
    ensures CanClassify(ctx.tags, ctx.meta, rank, s.mode, s.exclude)
  {
  }

  /**
   * What the prompt prints for an image the model scored: the tags
   * `classify_output` keeps under the current settings, each passing its
   * threshold.
   */
  ghost function Shown(ctx: Context, rank: map<string, nat>, s: Session, output: seq<real>): (r: Result<Dict<real>, ClassifyError>)
    requires Ready(ctx, rank) && Valid(ctx.meta, s)
    ensures r.Err? <==> |output| != |ctx.tags|
    ensures r.Ok? ==> forall k :: k in r.value.vals ==> k in ctx.tags && Passes(s.threshold, k, r.value.vals[k])
    ensures r.Ok? && s.exclude != {} ==> forall k :: k in r.value.vals ==> ctx.meta[k].category !in s.exclude
  {
    ValidCanClassify(ctx, rank, s);
    ClassificationProperties(output, ctx.tags, s.threshold, ctx.meta, rank, s.mode, s.exclude);
    Classification(output, ctx.tags, s.threshold, ctx.meta, rank, s.mode, s.exclude)
  }

  /** `calibration [PATH]`: the file replaces the threshold when it loads, and is reported otherwise. */
  function Calibrate(ctx: Context, s: Session, path: string): (r: (Session, Reply))
    ensures Valid(ctx.meta, s) ==> Valid(ctx.meta, r.0)
    ensures r.1 != Updated ==> r.0 == s
  {
    match ctx.readCsv(path)
    case None => (s, Rejected(CannotOpen(path)))
    case Some(t) =>
      match Calibration(t, ctx.parseFloat, ctx.rewrite)
      case Err(e) => (s, Rejected(BadCalibration(e)))
      case Ok(table) => (s.(threshold := PerTag(table)), Updated)
  }

  /** The effect of one command on the settings, and the answer. */
  function Apply(ctx: Context, s: Session, c: Command): (r: (Session, Reply))
    ensures Valid(ctx.meta, s) ==> Valid(ctx.meta, r.0)
    ensures r.1 != Updated ==> r.0 == s
    ensures r.1 == Bye <==> c == Quit
  {
    match c
    case Quit => (s, Bye)
    case Help => (s, HelpText(|ctx.meta| > 0))
    case SetThreshold(n) =>
      (match ctx.parseFloat(n)
       case None => (s, Rejected(NotANumber))
       case Some(Finite(t)) =>
         if -1.0 <= t <= 1.0 then (s.(threshold := Uniform(FromSymmetric(t))), Updated)
         else (s, Rejected(ThresholdOutOfRange))
       case Some(NonFinite) => (s, Rejected(ThresholdOutOfRange)))
    case LoadCalibrationFile(p) => Calibrate(ctx, s, p)
    case SetSeqlen(n) =>
      (match ctx.parseInt(n)
       case None => (s, Rejected(NotANumber))
       case Some(v) => if 64 <= v <= 2048 then (s.(seqlen := v), Updated) else (s, Rejected(SeqlenOutOfRange)))
    case ExcludeCategory(x) =>
      if |ctx.meta| == 0 then (s, Rejected(NoMetadata))
      else if x in TagCategories then (s.(exclude := s.exclude + {TagCategories[x]}), Updated)
      else (s, Rejected(UnknownCategory))
    case IncludeCategory(x) =>
      if x in TagCategories then (s.(exclude := s.exclude - {TagCategories[x]}), Updated)
      else (s, Rejected(UnknownCategory))
    case SetImplications(m) =>
      if |ctx.meta| == 0 && m != "off" then (s, Rejected(NoMetadata))
      else if m in ImplicationModes then (s.(mode := m), Updated)
      else (s, Rejected(UnknownMode))
    case ClassifyImage(p) =>
      match ctx.infer(p, s.seqlen)
      case None => (s, Rejected(ImageNotLoaded(p)))
      case Some(output) => (s, Scored(p, output))
  }

  /** One line typed at the prompt. */
  function Interpret(ctx: Context, s: Session, line: string): (r: (Session, Reply))
    ensures Valid(ctx.meta, s) ==> Valid(ctx.meta, r.0)
    ensures r.1 != Updated ==> r.0 == s
    ensures r.1 == Bye <==> Strip(line) in ["q", "quit", "exit"]
  {
    Apply(ctx, s, Parse(Strip(line)))
  }

  /** `threshold NUM` takes exactly the finite numbers in [-1, 1], stored on the [0, 1] scale. */
  lemma ThresholdCommand(ctx: Context, s: Session, n: string)
    ensures var (next, reply) := Apply(ctx, s, SetThreshold(n));
      && (reply == Updated <==> ctx.parseFloat(n).Some? && ctx.parseFloat(n).value.Finite?
                                && -1.0 <= ctx.parseFloat(n).value.value <= 1.0)
      && (reply == Updated ==> next == s.(threshold := Uniform(FromSymmetric(ctx.parseFloat(n).value.value))))
      && (reply == Updated ==> ToSymmetric(next.threshold.value) == ctx.parseFloat(n).value.value)
  {
    if ctx.parseFloat(n).Some? && ctx.parseFloat(n).value.Finite? {
      SymmetricInverse(ctx.parseFloat(n).value.value, 0.0);
    }
  }

  /** `seqlen LEN` takes exactly the integers from 64 to 2048. */
  lemma SeqlenCommand(ctx: Context, s: Session, n: string)
    ensures var (next, reply) := Apply(ctx, s, SetSeqlen(n));
      && (reply == Updated <==> ctx.parseInt(n).Some? && 64 <= ctx.parseInt(n).value <= 2048)
      && (reply == Updated ==> next == s.(seqlen := ctx.parseInt(n).value))
  {
  }

  /** `exclude CATEGORY` needs metadata and a known category, and then adds its id. */
  lemma ExcludeCommand(ctx: Context, s: Session, x: string)
    ensures var (next, reply) := Apply(ctx, s, ExcludeCategory(x));
      && (reply == Updated <==> |ctx.meta| > 0 && x in TagCategories)
      && (reply == Updated ==> next == s.(exclude := s.exclude + {TagCategories[x]}))
      && (|ctx.meta| == 0 ==> reply == Rejected(NoMetadata))
  {
  }

  /** `include CATEGORY` needs only a known category, and then drops its id. */
  lemma IncludeCommand(ctx: Context, s: Session, x: string)
    ensures var (next, reply) := Apply(ctx, s, IncludeCategory(x));
      && (reply == Updated <==> x in TagCategories)
      && (reply == Updated ==> next == s.(exclude := s.exclude - {TagCategories[x]}))
  {
  }

  /** `implications MODE` needs a known mode, and metadata unless the mode is `off`. */
  lemma ImplicationsCommand(ctx: Context, s: Session, m: string)
    ensures var (next, reply) := Apply(ctx, s, SetImplications(m));
      && (reply == Updated <==> m in ImplicationModes && (|ctx.meta| > 0 || m == "off"))
      && (reply == Updated ==> next == s.(mode := m))
  {
  }

  /** `calibration [PATH]` replaces the threshold exactly when the file opens and loads. */
  lemma CalibrationCommand(ctx: Context, s: Session, p: string)
    ensures var (next, reply) := Apply(ctx, s, LoadCalibrationFile(p));
      && (reply == Updated <==> ctx.readCsv(p).Some? && Calibration(ctx.readCsv(p).value, ctx.parseFloat, ctx.rewrite).Ok?)
      && (reply == Updated ==> next == s.(threshold := PerTag(Calibration(ctx.readCsv(p).value, ctx.parseFloat, ctx.rewrite).value)))
  {
  }

  /** An image path is scored with the current sequence length when it loads, and reported otherwise. */
  lemma ImageCommand(ctx: Context, s: Session, p: string)
    ensures var (next, reply) := Apply(ctx, s, ClassifyImage(p));
      && next == s
      && (reply.Scored? <==> ctx.infer(p, s.seqlen).Some?)
      && (reply.Scored? ==> reply.output == ctx.infer(p, s.seqlen).value)
  {
  }

  /** Lines fed one at a time to `step` until a reply that `stops` ends on, or until the lines run out. */
  function Steps(step: (Session, string) -> (Session, Reply), stops: Reply -> bool, s: Session, lines: seq<string>)
    : (r: (Session, seq<Reply>))
    ensures |r.1| <= |lines|
    decreases |lines|
  {
    if lines == [] then (s, [])
    else
      var (next, reply) := step(s, lines[0]);
      if stops(reply) then (next, [reply])
      else
        var (last, replies) := Steps(step, stops, next, lines[1..]);
        (last, [reply] + replies)
  }

  /** The prompt's step for this context. */
  function Prompt(ctx: Context): (Session, string) -> (Session, Reply) {
    (s, line) => Interpret(ctx, s, line)
  }

  /**
   * The replies that end `_run_interactive`: `Bye`, and a scored image whose
   * output does not match the tag list, on which `classify_output` raises
   * outside any `try`.
   */
  predicate Ends(ctx: Context, r: Reply) {
    r == Bye || (r.Scored? && |r.output| != |ctx.tags|)
  }

  /** `Ends` as a function value. */
  function Halts(ctx: Context): Reply -> bool {
    r => Ends(ctx, r)
  }

  /** The lines up to and including the one that ends the prompt: the settings at the end and every answer. */
  function Run(ctx: Context, s: Session, lines: seq<string>): (r: (Session, seq<Reply>))
    ensures |r.1| <= |lines|
  {
    Steps(Prompt(ctx), Halts(ctx), s, lines)
  }

  /** A step that keeps the settings valid keeps them valid over any number of lines. */
  lemma {:induction false} StepsKeepValid(step: (Session, string) -> (Session, Reply), stops: Reply -> bool,
                                          meta: Metadata, s: Session, lines: seq<string>)
    requires Valid(meta, s)
    requires forall t: Session, l: string :: Valid(meta, t) ==> Valid(meta, step(t, l).0)
    ensures Valid(meta, Steps(step, stops, s, lines).0)
    decreases |lines|
  {
    if lines != [] {
      StepsKeepValid(step, stops, meta, step(s, lines[0]).0, lines[1..]);
    }
  }

  /** However many commands the prompt reads, its settings stay valid. */
  lemma RunKeepsValid(ctx: Context, s: Session, lines: seq<string>)
    requires Valid(ctx.meta, s)
    ensures Valid(ctx.meta, Run(ctx, s, lines).0)
  {
    var step := Prompt(ctx);
    assert forall t: Session, l: string :: Valid(ctx.meta, t) ==> Valid(ctx.meta, step(t, l).0);
    StepsKeepValid(step, Halts(ctx), ctx.meta, s, lines);
  }

  /** Stepping stops at the first stopping reply, and only such a reply ends it before the lines run out. */
  lemma {:induction false} StepsStopAtFirst(step: (Session, string) -> (Session, Reply), stops: Reply -> bool,
                                            s: Session, lines: seq<string>)
    ensures var replies := Steps(step, stops, s, lines).1;
      && (forall i :: 0 <= i < |replies| - 1 ==> !stops(replies[i]))
      && (|replies| < |lines| ==> replies != [] && stops(replies[|replies| - 1]))
    decreases |lines|
  {
    if lines != [] {
      var (next, reply) := step(s, lines[0]);
      if !stops(reply) {
        StepsStopAtFirst(step, stops, next, lines[1..]);
      }
    }
  }

  /**
   * The prompt stops at the first quit command or the first scored image
   * whose output does not match the tag list, and only those end it before
   * the input runs out.
   */
  lemma RunStopsAtQuit(ctx: Context, s: Session, lines: seq<string>)
    ensures var replies := Run(ctx, s, lines).1;
      && (forall i :: 0 <= i < |replies| - 1 ==> !Ends(ctx, replies[i]))
      && (|replies| < |lines| ==> replies != [] && Ends(ctx, replies[|replies| - 1]))
  {
    var stops := Halts(ctx);
    assert forall r :: stops(r) == Ends(ctx, r);
    StepsStopAtFirst(Prompt(ctx), stops, s, lines);
  }

  /** After a line that does not end the prompt, the rest of the run starts from the settings that line left. */
  lemma StepsNext(step: (Session, string) -> (Session, Reply), stops: Reply -> bool, s: Session,
                  lines: seq<string>, i: nat)
    requires i < |lines| && !stops(step(s, lines[i]).1)
    ensures var (next, reply) := step(s, lines[i]);
      && Steps(step, stops, s, lines[i..]).0 == Steps(step, stops, next, lines[i + 1..]).0
      && Steps(step, stops, s, lines[i..]).1 == [reply] + Steps(step, stops, next, lines[i + 1..]).1
  {
    assert lines[i..][0] == lines[i] && lines[i..][1..] == lines[i + 1..];
  }

  /** The replies so far, then the answer to line `i`, then the rest: the same list of replies. */
  lemma StepsAfter(step: (Session, string) -> (Session, Reply), stops: Reply -> bool, s: Session,
                   lines: seq<string>, i: nat, replies: seq<Reply>)
    requires i < |lines| && !stops(step(s, lines[i]).1)
    ensures var (next, reply) := step(s, lines[i]);
      replies + Steps(step, stops, s, lines[i..]).1 == replies + [reply] + Steps(step, stops, next, lines[i + 1..]).1
  {
    StepsNext(step, stops, s, lines, i);
  }

  /** A line whose reply stops the stepping ends it with that reply. */
  lemma StepsStop(step: (Session, string) -> (Session, Reply), stops: Reply -> bool, s: Session,
                  lines: seq<string>, i: nat)
    requires i < |lines| && stops(step(s, lines[i]).1)
    ensures Steps(step, stops, s, lines[i..]).0 == step(s, lines[i]).0
    ensures Steps(step, stops, s, lines[i..]).1 == [step(s, lines[i]).1]
  {
    assert lines[i..][0] == lines[i];
  }

  /** `threshold NUM`. */
  method HandleThreshold(ctx: Context, s: Session, number: string) returns (next: Session, reply: Reply)
    ensures (next, reply) == Apply(ctx, s, SetThreshold(number))
  {
    next := s;
    match ctx.parseFloat(number) {
      case None => reply := Rejected(NotANumber);
      case Some(Finite(t)) =>
        if -1.0 <= t <= 1.0 {
          next := s.(threshold := Uniform(FromSymmetric(t)));
          reply := Updated;
        } else {
          reply := Rejected(ThresholdOutOfRange);
        }
      case Some(NonFinite) => reply := Rejected(ThresholdOutOfRange);
    }
  }

  /** `calibration [PATH]`, loading through the loader's loop. */
  method HandleCalibration(ctx: Context, s: Session, path: string) returns (next: Session, reply: Reply)
    ensures (next, reply) == Apply(ctx, s, LoadCalibrationFile(path))
  {
    var table := ctx.readCsv(path);
    if table.None? {
      return s, Rejected(CannotOpen(path));
    }
    var loaded := LoadCalibration(table.value, ctx.parseFloat, ctx.rewrite);
    if loaded.Err? {
      return s, Rejected(BadCalibration(loaded.error));
    }
    return s.(threshold := PerTag(loaded.value)), Updated;
  }

  /** `seqlen LEN`. */
  method HandleSeqlen(ctx: Context, s: Session, number: string) returns (next: Session, reply: Reply)
    ensures (next, reply) == Apply(ctx, s, SetSeqlen(number))
  {
    next := s;
    match ctx.parseInt(number) {
      case None => reply := Rejected(NotANumber);
      case Some(v) =>
        if 64 <= v <= 2048 {
          next := s.(seqlen := v);
          reply := Updated;
        } else {
          reply := Rejected(SeqlenOutOfRange);
        }
    }
  }

  /** `exclude CATEGORY`: `exclude.add`. */
  method HandleExclude(ctx: Context, s: Session, category: string) returns (next: Session, reply: Reply)
    ensures (next, reply) == Apply(ctx, s, ExcludeCategory(category))
  {
    if |ctx.meta| == 0 {
      return s, Rejected(NoMetadata);
    }
    if category in TagCategories {
      return s.(exclude := s.exclude + {TagCategories[category]}), Updated;
    }
    return s, Rejected(UnknownCategory);
  }

  /** `include CATEGORY`: `exclude.discard`. */
  method HandleInclude(ctx: Context, s: Session, category: string) returns (next: Session, reply: Reply)
    ensures (next, reply) == Apply(ctx, s, IncludeCategory(category))
  {
    if category in TagCategories {
      return s.(exclude := s.exclude - {TagCategories[category]}), Updated;
    }
    return s, Rejected(UnknownCategory);
  }

  /** `implications MODE`. */
  method HandleImplications(ctx: Context, s: Session, mode: string) returns (next: Session, reply: Reply)
    ensures (next, reply) == Apply(ctx, s, SetImplications(mode))
  {
    if |ctx.meta| == 0 && mode != "off" {
      return s, Rejected(NoMetadata);
    }
    if mode in ImplicationModes {
      return s.(mode := mode), Updated;
    }
    return s, Rejected(UnknownMode);
  }

  /** One pass of the prompt's loop: the command tests in order. */
  method Execute(ctx: Context, s: Session, input: string) returns (next: Session, reply: Reply)
    ensures (next, reply) == Interpret(ctx, s, input)
  {
    var line := Strip(input);
    if line in ["q", "quit", "exit"] {
      next, reply := s, Bye;
    } else if line in ["", "h", "help", "?"] {
      next, reply := s, HelpText(|ctx.meta| > 0);
    } else if StartsWith(line, "threshold ") {
      next, reply := HandleThreshold(ctx, s, line[10..]);
    } else if line == "calibration" {
      next, reply := HandleCalibration(ctx, s, DefaultCalibration);
    } else {
      next, reply := ExecuteRest(ctx, s, line);
    }
  }

  /** The tests after `threshold` and the bare `calibration`. */
  method ExecuteRest(ctx: Context, s: Session, line: string) returns (next: Session, reply: Reply)
    requires line !in ["q", "quit", "exit"] && line !in ["", "h", "help", "?"]
    requires !StartsWith(line, "threshold ") && line != "calibration"
    ensures (next, reply) == Apply(ctx, s, Parse(line))
  {
    if StartsWith(line, "calibration ") {
      next, reply := HandleCalibration(ctx, s, line[12..]);
    } else if StartsWith(line, "seqlen ") {
      next, reply := HandleSeqlen(ctx, s, line[7..]);
    } else if StartsWith(line, "exclude ") {
      next, reply := HandleExclude(ctx, s, line[8..]);
    } else {
      next, reply := ExecuteLast(ctx, s, line);
    }
  }

  /** The last tests: `include`, `implications`, and otherwise an image path. */
  method ExecuteLast(ctx: Context, s: Session, line: string) returns (next: Session, reply: Reply)
    requires line !in ["q", "quit", "exit"] && line !in ["", "h", "help", "?"]
    requires !StartsWith(line, "threshold ") && line != "calibration" && !StartsWith(line, "calibration ")
    requires !StartsWith(line, "seqlen ") && !StartsWith(line, "exclude ")
    ensures (next, reply) == Apply(ctx, s, Parse(line))
  {
    if StartsWith(line, "include ") {
      next, reply := HandleInclude(ctx, s, line[8..]);
    } else if StartsWith(line, "implications ") {
      next, reply := HandleImplications(ctx, s, line[13..]);
    } else {
      var output := ctx.infer(line, s.seqlen);
      next := s;
      reply := if output.None? then Rejected(ImageNotLoaded(line)) else Scored(line, output.value);
    }
  }

  /** The kept tags for an image the model scored, under the settings of the prompt at that point. */
  method Show(ctx: Context, ghost rank: map<string, nat>, s: Session, output: seq<real>)
    returns (labels: Result<Dict<real>, ClassifyError>)
    requires Ready(ctx, rank) && Valid(ctx.meta, s)
    ensures labels == Shown(ctx, rank, s, output)
  {
    ValidCanClassify(ctx, rank, s);
    labels := ClassifyOutput(output, ctx.tags, s.threshold, ctx.meta, rank, s.mode, s.exclude);
  }

  /** What is printed for a reply given under the settings `s`: the kept tags of a scored image, nothing otherwise. */
  ghost function PrintedFor(ctx: Context, rank: map<string, nat>, s: Session, reply: Reply)
    : Option<Result<Dict<real>, ClassifyError>>
    requires Ready(ctx, rank) && Valid(ctx.meta, s)
  {
    if reply.Scored? then Some(Shown(ctx, rank, s, reply.output)) else None
  }

  /** The settings the next line is read under: the start, or what `step` left after the last line. */
  function Current(step: (Session, string) -> (Session, Reply), start: Session, lines: seq<string>,
                   sessions: seq<Session>): Session
    requires |sessions| <= |lines|
  {
    if sessions == [] then start else step(sessions[|sessions| - 1], lines[|sessions| - 1]).0
  }

  /**
   * The prompt's history line by line, last line first: `sessions[j]` is
   * the settings in force when line j is read (the start settings, then
   * what each line left), `replies[j]` is `step`'s answer to line j under
   * them, and `shown[j]` is what is printed beside it, classified under them.
   */
  ghost predicate ShownFor(ctx: Context, rank: map<string, nat>, step: (Session, string) -> (Session, Reply),
                           start: Session, lines: seq<string>, sessions: seq<Session>, replies: seq<Reply>,
                           shown: seq<Option<Result<Dict<real>, ClassifyError>>>)
    decreases |sessions|
  {
    && Ready(ctx, rank)
    && |sessions| == |replies| == |shown| <= |lines|
    && (sessions != [] ==>
          var n := |sessions| - 1;
          && ShownFor(ctx, rank, step, start, lines, sessions[..n], replies[..n], shown[..n])
          && sessions[n] == Current(step, start, lines, sessions[..n])
          && Valid(ctx.meta, sessions[n])
          && replies[n] == step(sessions[n], lines[n]).1
          && shown[n] == PrintedFor(ctx, rank, sessions[n], replies[n]))
  }

  /**
   * `ShownFor` read by position: line j is answered and printed under the
   * settings in force at that moment, which are the start settings for the
   * first line and otherwise what the line before left.
   */
  lemma {:induction false} ShownForAt(ctx: Context, rank: map<string, nat>, step: (Session, string) -> (Session, Reply),
                                      start: Session, lines: seq<string>, sessions: seq<Session>, replies: seq<Reply>,
                                      shown: seq<Option<Result<Dict<real>, ClassifyError>>>, j: nat)
    requires ShownFor(ctx, rank, step, start, lines, sessions, replies, shown) && j < |sessions|
    ensures Ready(ctx, rank) && Valid(ctx.meta, sessions[j])
    ensures sessions[j] == if j == 0 then start else step(sessions[j - 1], lines[j - 1]).0
    ensures replies[j] == step(sessions[j], lines[j]).1
    ensures replies[j].Scored? ==> shown[j] == Some(Shown(ctx, rank, sessions[j], replies[j].output))
    ensures !replies[j].Scored? ==> shown[j] == None
    decreases |sessions|
  {
    var n := |sessions| - 1;
    if j < n {
      ShownForAt(ctx, rank, step, start, lines, sessions[..n], replies[..n], shown[..n], j);
      assert sessions[..n][j] == sessions[j] && replies[..n][j] == replies[j] && shown[..n][j] == shown[j];
      if j > 0 {
        assert sessions[..n][j - 1] == sessions[j - 1];
      }
    } else if j > 0 {
      assert sessions[..n][n - 1] == sessions[j - 1];
    }
  }

  /** One more line, answered and printed under the current settings, extends `ShownFor`. */
  lemma ShownForAppend(ctx: Context, rank: map<string, nat>, step: (Session, string) -> (Session, Reply),
                       start: Session, lines: seq<string>, sessions: seq<Session>, replies: seq<Reply>,
                       shown: seq<Option<Result<Dict<real>, ClassifyError>>>, s: Session, reply: Reply,
                       printed: Option<Result<Dict<real>, ClassifyError>>)
    requires ShownFor(ctx, rank, step, start, lines, sessions, replies, shown)
    requires |sessions| < |lines| && s == Current(step, start, lines, sessions) && Valid(ctx.meta, s)
    requires reply == step(s, lines[|sessions|]).1 && printed == PrintedFor(ctx, rank, s, reply)
    ensures ShownFor(ctx, rank, step, start, lines, sessions + [s], replies + [reply], shown + [printed])
  {
    var n := |sessions|;
    assert (sessions + [s])[..n] == sessions;
    assert (replies + [reply])[..n] == replies;
    assert (shown + [printed])[..n] == shown;
  }

  /**
   * One pass of the loop with its printing: the answer to the line, the
   * classification printed beside a scored image, and whether the pass
   * ends the prompt (a quit, or the `ValueError` of `classify_output`).
   */
  method ReadLine(ctx: Context, ghost rank: map<string, nat>, s: Session, line: string)
    returns (next: Session, reply: Reply, labels: Option<Result<Dict<real>, ClassifyError>>, done: bool)
    requires Ready(ctx, rank) && Valid(ctx.meta, s)
    ensures (next, reply) == Prompt(ctx)(s, line) && Valid(ctx.meta, next)
    ensures labels == PrintedFor(ctx, rank, s, reply)
    ensures done == Halts(ctx)(reply)
  {
    next, reply := Execute(ctx, s, line);
    labels := None;
    if reply.Scored? {
      var l := Show(ctx, rank, s, reply.output);
      labels := Some(l);
    }
    done := reply == Bye || (labels.Some? && labels.value.Err?);
  }

  /**
   * `_run_interactive`: reads lines until `quit`, answering each and
   * keeping the settings it changes; each scored image is classified under
   * the settings of that moment, and a classification error ends the run.
   */
  method RunInteractive(ctx: Context, ghost rank: map<string, nat>, start: Session, lines: seq<string>)
    returns (last: Session, replies: seq<Reply>, shown: seq<Option<Result<Dict<real>, ClassifyError>>>,
             ghost sessions: seq<Session>)
    requires Ready(ctx, rank) && Valid(ctx.meta, start)
    ensures last == Run(ctx, start, lines).0 && replies == Run(ctx, start, lines).1
    ensures Valid(ctx.meta, last)
    ensures ShownFor(ctx, rank, Prompt(ctx), start, lines, sessions, replies, shown)
  {
    RunKeepsValid(ctx, start, lines);
    last := start;
    replies := [];
    shown := [];
    sessions := [];
    var i := 0;
    assert lines[i..] == lines;
    ghost var step := Prompt(ctx);
    ghost var stops := Halts(ctx);
    while i < |lines|
      invariant 0 <= i <= |lines| && Valid(ctx.meta, last) && |sessions| == i
      invariant last == Current(step, start, lines, sessions)
      invariant Steps(step, stops, start, lines).0 == Steps(step, stops, last, lines[i..]).0
      invariant Steps(step, stops, start, lines).1 == replies + Steps(step, stops, last, lines[i..]).1
      invariant ShownFor(ctx, rank, step, start, lines, sessions, replies, shown)
    {
      var next, reply, labels, done := ReadLine(ctx, rank, last, lines[i]);
      ShownForAppend(ctx, rank, step, start, lines, sessions, replies, shown, last, reply, labels);
      if done {
        StepsStop(step, stops, last, lines, i);
        return next, replies + [reply], shown + [labels], sessions + [last];
      }
      StepsNext(step, stops, last, lines, i);
      StepsAfter(step, stops, last, lines, i, replies);
      last, replies, shown, sessions, i := next, replies + [reply], shown + [labels], sessions + [last], i + 1;
    }
    assert lines[i..] == [];
  }

  /**
   * Over the prompt's history, a classification error is printed at most
   * once, for the last line read: `classify_output` raising ends the run.
   */
  lemma ErrorEndsRun(ctx: Context, rank: map<string, nat>, start: Session, lines: seq<string>,
                     sessions: seq<Session>, replies: seq<Reply>, shown: seq<Option<Result<Dict<real>, ClassifyError>>>)
    requires ShownFor(ctx, rank, Prompt(ctx), start, lines, sessions, replies, shown)
    requires replies == Run(ctx, start, lines).1
    ensures forall j :: 0 <= j < |shown| - 1 && shown[j].Some? ==> shown[j].value.Ok?
  {
    RunStopsAtQuit(ctx, start, lines);
    forall j | 0 <= j < |shown| - 1 && shown[j].Some?
      ensures shown[j].value.Ok?
    {
      ShownForAt(ctx, rank, Prompt(ctx), start, lines, sessions, replies, shown, j);
      assert !Ends(ctx, replies[j]);
    }
  }

  /** The settings a successful `main` starts the prompt with. */
  function Start(s: Settings): Session {
    Session(s.threshold, s.seqlen, s.exclude, s.mode)
  }

  /** `main` always hands the prompt valid settings. */
  lemma ConfigureStartsValid(a: Args, env: Env)
    requires Configure(a, env).Ok?
    ensures Valid(Configure(a, env).value.meta, Start(Configure(a, env).value))
  {
    ConfigureGuarantees(a, env);
    var s := Configure(a, env).value;
    forall id | id in s.exclude ensures exists c :: c in TagCategories && TagCategories[c] == id {
      var c :| c in a.exclude && TagCategories[c] == id;
    }
  }
}
