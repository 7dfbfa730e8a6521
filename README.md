# JTP-3 tag post-processing, modelled in Dafny

JTP-3 Hydra is an image tagger. A neural network gives every tag of its
vocabulary a probability; everything after that is ordinary program logic.
This project models that logic and proves what it promises:

- **The web backend (`app.py`).**
  - `rewrite_tag` and the `tags`/`tag_list` index.
  - `apply_filters` (threshold, per-tag calibration, blacklist) and `filter_tags`, which builds the comma-joined tag string with the append tags in front.
  - The payload handling of the `/api/e6/predict` endpoint.
  - The tag count, output directory and image-extension logic of `process_folder_batch`, including its loop over the images.
- **The command-line classifier (`inference.py`).**
  - The symmetric threshold scale (`from_symmetric`/`to_symmetric`).
  - The three implication passes that rewrite the `labels` dict in place along the tag→implied-tags graph (`inherit_implications`, `constrain_implications`, `remove_implications`).
  - `classify_output`, `load_calibration` and `load_metadata`.
  - The argument checks and settings of `main`, including its caption `rewrite_tag` with parenthesis escaping.
  - The interactive prompt `_run_interactive`, as a state machine over threshold, sequence length, excluded categories and implication mode.
  - The batch run `_run_batched`: directory scan, `batched` chunking, prefix placement and what is written per image.
- **The calibration tool (`calibrate.py`).**
  - The metrics (`cti`, `j`, `p4`, `f_score`) and the filters (`score_filter`, `pr_filter`, `threshold_filter`, `tag_filter`).
  - `apply_filter`, and `calibrate`'s choice of the best (threshold, score) per tag.
  - The clamping and sorting of the written calibration file.

Scores are exact `real`s. A Python dict is an `OrderedDict.Dict`: a list of distinct keys in insertion order plus a map. The implication metadata is a `map<string, TagInfo>`.

The recursion of the implication passes has no cycle check and ends only on an acyclic graph. The model therefore carries a ghost `rank` map that strictly decreases along every edge (`Implications.Ranked`). `Desc` is the set of transitive consequents of a tag.

The outside world becomes function parameters:
- reading a CSV file (`readCsv`);
- Python's `float` and `int` on strings (`parseFloat`, `parseInt`);
- the network (`infer`, `classify`);
- image decoding (`decode`);
- `random.shuffle` (`shuffle`);
- which images the loader can open (`loaded`, `ok`);
- directory listings (`listing`, `Entry`).

Modules, one per file:
- `Wrappers`: `Option`, `Result`.
- `Text`: Python `str` operations.
- `OrderedDict`: insertion-ordered dicts.
- `AppTags`: `app.py`.
- `Implications`: the three passes, with a `Labels` class holding the mutated dict.
- `Classify`: `classify_output` and the threshold scale.
- `Loaders`: the CSV loaders.
- `Setup`: `main`.
- `Interactive`: the prompt.
- `BatchRun`: the batch run.
- `Metrics`, `Calibration`: `calibrate.py`.

## Model

| member | source | states |
|---|---|---|
| AppTags.RewriteTag | JTP-3/app.py:39-40 | the rewritten tag holds no `_` and no `vulva` |
| AppTags.RewriteUnderscores | JTP-3/app.py:40 | the first `replace` keeps the length and turns exactly the `_` characters into spaces |
| AppTags.RewriteTagKeepsClean | JTP-3/app.py:39-40 | a tag already free of `_` and `vulva` is left unchanged |
| AppTags.RewriteTagIdempotent | JTP-3/app.py:39-40 | rewriting twice is rewriting once |
| AppTags.NoVulvaLeft | JTP-3/app.py:40 | `replace("vulva", "pussy")` leaves no `vulva` behind, even where a `pussy` meets the following text |
| AppTags.Rewritten | JTP-3/app.py:42-44 | no displayed tag holds `_` or `vulva`, and a tag already free of both is displayed unchanged |
| AppTags.TagIndex | JTP-3/app.py:42-46 | `tags` has no repeated key; its keys are exactly the rewritten tags; each maps to the index of the LAST original tag rewriting to it; every key is clean |
| AppTags.ApplyFilters | JTP-3/app.py:180-202 | the kept predictions are exactly those that pass, with their scores, in their original order |
| AppTags.UncalibratedFilter | JTP-3/app.py:191-196 | without calibration: kept iff score ≥ threshold and not blacklisted |
| AppTags.CalibratedFilter | JTP-3/app.py:198-202 | with calibration: kept iff the tag has a calibration entry, the score reaches it, and it is not blacklisted |
| AppTags.CalibrationIgnoresThreshold | JTP-3/app.py:198-202 | with a calibration the global threshold has no effect on the result |
| AppTags.ParseTagList | JTP-3/app.py:217 | every parsed append entry is non-empty, trimmed and free of commas |
| AppTags.ParseJoined | JTP-3/app.py:217 | a list of such entries joined with `", "` parses back to the same list |
| AppTags.TagString | JTP-3/app.py:204-231 | the entries of the returned tag string are the missing append tags, then the kept predictions, in order |
| AppTags.MissingAppend | JTP-3/app.py:224-227 | the append tags written in front are exactly the non-empty ones not among the filtered predictions |
| AppTags.MissingAppendStep | JTP-3/app.py:225-227 | one loop iteration appends the tag exactly when it is non-empty and not yet present |
| AppTags.TagOrder | JTP-3/app.py:224-228 | `tag_order` holds the missing append tags and the filtered keys, and ends with the filtered keys in their order |
| AppTags.FilterTags | JTP-3/app.py:204-231 | returns `apply_filters`' dict and the `", "`-join of `tag_order` |
| AppTags.AppendMissing | JTP-3/app.py:224-227 | the loop keeps, in their order, exactly the append tags that are non-blank and not among the filtered predictions |
| AppTags.AppendTagsNotScored | JTP-3/app.py:220-231 | an append tag the model did not score never enters the returned dict, yet is written in the tag string (the blacklist does not apply to it) |
| AppTags.CountIsEntries | JTP-3/app.py:407 | counting non-blank pieces counts the parsed entries |
| AppTags.TagCountOfJoin | JTP-3/app.py:407 | the tag count of a joined tag string is the number of tags joined |
| AppTags.TagCountIsOrderLength | JTP-3/app.py:399-407 | for model tags without commas or surrounding blanks, an image's tag count is the length of its tag order |
| AppTags.TagCount | JTP-3/app.py:407 | the count is the number of non-blank comma-separated entries |
| AppTags.FirstIndex | JTP-3/app.py:262-263 | the index of the first occurrence of a character |
| AppTags.PayloadData | JTP-3/app.py:260-263 | the stripped image field, cut after its first comma when it has one |
| AppTags.Predictions | JTP-3/app.py:80-88 | the predictions dict holds exactly the tags of the given pairs; scores and order in AppTags.PredictionsScores, AppTags.PredictionsDescending and AppTags.RunClassifierPredictions |
| AppTags.InsertDescending | JTP-3/app.py:82-86 | inserting a pair adds exactly that pair |
| AppTags.SortDescending | JTP-3/app.py:82-86 | `sorted(..., reverse=True)` returns a permutation of the pairs |
| AppTags.SortIsDescending | JTP-3/app.py:82-86 | the sorted pairs run from the highest score down |
| AppTags.MinScoreIsLowest | JTP-3/app.py:81-87 | the score a repeated tag keeps is one of its listed scores and no listed score is lower |
| AppTags.PredictionsScores | JTP-3/app.py:81-87 | each predicted tag holds its lowest listed score, the last one the sorted comprehension writes |
| AppTags.PredictionsKeepScores | JTP-3/app.py:81-87 | with distinct tags each tag keeps its own score |
| AppTags.PredictionsDescending | JTP-3/app.py:81-87 | with distinct tags the dict's keys run from the highest score down |
| AppTags.TopPairs | JTP-3/app.py:80-84 | one (tag, score) pair per `topk` entry, naming `tag_list[idx]` |
| AppTags.RunClassifierPredictions | JTP-3/app.py:80-88 | for distinct `topk` indices: exactly the picked tags, each with its own score, highest first |
| AppTags.EmptyLists | JTP-3/app.py:273-279 | empty append and blacklist fields parse to nothing, so the tag string is the filtered keys |
| AppTags.E6Predict | JTP-3/app.py:250-281 | answers 400 "Invalid image data" exactly when the payload does not decode; otherwise a one-element list holding the thresholded tags, joined |
| AppTags.EmptyListsTagString | JTP-3/app.py:204-231 | with no append and no blacklist tags the tag string joins the thresholded keys |
| AppTags.OutputDir | JTP-3/app.py:367 | the stripped output directory, or the folder when it is blank |
| AppTags.LastIndexOf | JTP-3/app.py:377 | the index of the last occurrence of a character, or -1 |
| AppTags.SplitExt | JTP-3/app.py:377 | `splitext`: the two parts concatenate to the path; the extension is empty or a dot-led last-component suffix without another dot, not the whole leading-dots name |
| AppTags.ImageFiles | JTP-3/app.py:369-378 | the listed names whose lower-cased extension is an image extension, in listing order |
| AppTags.Outcomes | JTP-3/app.py:390-419 | one summary line per image, in order |
| AppTags.Classified | JTP-3/app.py:393-399 | an image is classified exactly when it could be opened and run |
| AppTags.Writes | JTP-3/app.py:393-405 | the files written stand in `WrittenFor` relation to the classified images: one `.txt` file per classified image, in listing order, named after the image's stem and holding its tag string; nothing for an image that failed |
| AppTags.WrittenForAt | JTP-3/app.py:403-405 | read by position: the i-th file written is the caption file of the i-th classified image |
| AppTags.TagStringMap | JTP-3/app.py:411 | `tag_strings` holds exactly the images that were classified, each with its tag string |
| AppTags.PredictionMap | JTP-3/app.py:410 | `batch_mapping` holds exactly the classified images, each with its filtered predictions |
| AppTags.OutcomesReport | JTP-3/app.py:409-419 | every image is reported in listing order; a line is an error exactly when the image could not be classified; the total is the sum of the counts |
| AppTags.ProcessImage | JTP-3/app.py:393-419 | one loop body: an error line when classifying fails, otherwise the image's tag string, filtered dict and count |
| AppTags.OutcomesStep | JTP-3/app.py:413-419 | one more image appends its own summary line |
| AppTags.WritesStep | JTP-3/app.py:403-405 | one more image adds its caption file when it was classified |
| AppTags.MapsStep | JTP-3/app.py:410-411 | one more image adds its entries to both maps when it was classified |
| AppTags.RecordStep | JTP-3/app.py:409-413 | recording one image as the loop body does keeps everything gathered so far accurate |
| AppTags.RecordImage | JTP-3/app.py:390-419 | one pass of the loop keeps what was gathered accurate for one more image |
| AppTags.ProcessImages | JTP-3/app.py:385-419 | after the loop: the summary lines, the total, the files written and both maps are those of all the images |
| AppTags.ProcessFolderBatch | JTP-3/app.py:353-425 | listing failure and "no images" are reported exactly when they occur; otherwise the count, output directory, lines, total, writes and maps are those of the image files |
| Implications.DescRanked | JTP-3/inference.py:51-83 | every transitive consequent has metadata and a lower rank, so no tag implies itself |
| Implications.DescListRanked | JTP-3/inference.py:56 | everything reached from a consequent list ranks below the bound |
| Implications.DescListSuffix | JTP-3/inference.py:56 | the rest of a consequent list reaches a subset |
| Implications.DescTransitive | JTP-3/inference.py:51-60 | implication is transitive |
| Implications.DescListTransitive | JTP-3/inference.py:56-60 | a reached tag's consequents are reached too |
| Implications.Inherit | JTP-3/inference.py:51-60 | inheriting never lowers a score and never adds or removes a key |
| Implications.InheritEach | JTP-3/inference.py:56-60 | the loop over the consequents never lowers a score and keeps the keys; the exact value it reaches is stated by Implications.InheritIsMaximum |
| Implications.InheritDominates | JTP-3/inference.py:51-60 | afterwards every transitive consequent scores at least the antecedent's score on entry |
| Implications.InheritIsMaximum | JTP-3/inference.py:51-60 | after inheriting from a tag, each consequent holds the maximum of its own score and the scores of the tags above it that imply it; every other tag keeps its score |
| Implications.InheritEachDominates | JTP-3/inference.py:56-60 | the loop raises everything it reaches to at least the antecedent's score |
| Implications.Constrain | JTP-3/inference.py:62-75 | constraining changes only the target's score, and never raises it |
| Implications.ConstrainEach | JTP-3/inference.py:70-75 | the loop changes only the target, never upwards |
| Implications.ConstrainIsMinimum | JTP-3/inference.py:62-75 | the target ends at the minimum of its own score and the scores of all transitive consequents |
| Implications.ConstrainEachIsMinimum | JTP-3/inference.py:70-75 | the loop leaves the target at the minimum over everything it reaches |
| Implications.ConstrainStep | JTP-3/inference.py:71-75 | one consequent and its recursive call extend that minimum |
| Implications.MinimumCombine | JTP-3/inference.py:72-73 | minimums over the parts combine |
| Implications.RemoveImplied | JTP-3/inference.py:77-83 | removal keeps a well-formed dict |
| Implications.RemoveEach | JTP-3/inference.py:81-83 | the loop keeps a well-formed dict |
| Implications.RemoveDropsDescendants | JTP-3/inference.py:77-83 | removal deletes exactly the transitive consequents, keeping all other keys, values and order |
| Implications.RemoveEachDrops | JTP-3/inference.py:81-83 | the loop deletes exactly what its consequents reach |
| Implications.RemoveKeepsAntecedent | JTP-3/inference.py:77-83 | the antecedent itself is never deleted |
| Implications.Labels.constructor | JTP-3/inference.py:94 | wraps the `labels` dict |
| Implications.InheritImplications | JTP-3/inference.py:51-60 | the in-place recursion leaves `labels` as `Inherit` describes, key order unchanged |
| Implications.ConstrainImplications | JTP-3/inference.py:62-75 | the in-place recursion, with `_target` defaulting to the antecedent, leaves `labels` as `Constrain` describes |
| Implications.RemoveImplications | JTP-3/inference.py:77-83 | the in-place recursion of `pop(consequent, None)` leaves `labels` as `RemoveImplied` describes |
| Classify.FromSymmetric | JTP-3/inference.py:45-46 | maps [-1, 1] onto [0, 1], and nothing else there |
| Classify.ToSymmetric | JTP-3/inference.py:48-49 | maps [0, 1] onto [-1, 1], and nothing else there |
| Classify.SymmetricInverse | JTP-3/inference.py:45-49 | the two conversions are inverse and order-preserving |
| Classify.FilterLabels | JTP-3/inference.py:111-122 | the comprehension keeps exactly the tags that pass the exclusion and the threshold (a tag missing from a dict threshold never passes), with their scores |
| Classify.InheritAll | JTP-3/inference.py:97-99 | inheriting for every tag never lowers a score and keeps the keys |
| Classify.ConstrainAll | JTP-3/inference.py:101-103 | constraining for every tag never raises a score and keeps the keys |
| Classify.RemoveAll | JTP-3/inference.py:124-127 | the removal pass keeps a well-formed dict |
| Classify.Adjusted | JTP-3/inference.py:96-109 | the mode dispatch keeps the keys and their order |
| Classify.Classification | JTP-3/inference.py:85-129 | an error exactly on a length mismatch or an unknown mode; otherwise only model tags that pass their threshold |
| Classify.RemoveAllShrinks | JTP-3/inference.py:124-127 | removal keeps a subset of the keys with their values |
| Classify.RemoveAllIndependent | JTP-3/inference.py:124-127 | after removal no kept tag is a transitive consequent of another kept tag |
| Classify.ConstrainAllOrdered | JTP-3/inference.py:101-103 | after constraining every tag, each tag scores at most each of its transitive consequents |
| Classify.InheritAllIsMaximum | JTP-3/inference.py:97-99 | after the whole `inherit` pass each tag holds the maximum of its own score and those of all tags implying it |
| Classify.InheritAllOrdered | JTP-3/inference.py:97-99 | after `inherit` no tag scores above any of its transitive consequents |
| Classify.RemoveAllDrops | JTP-3/inference.py:124-127 | the removal pass drops exactly the consequents of the tags present on entry |
| Classify.ClassificationProperties | JTP-3/inference.py:111-127 | on success no kept tag belongs to an excluded category, and in the removing modes no kept tag implies another |
| Classify.ClassificationOff | JTP-3/inference.py:105-122 | with implications off a tag is kept exactly when its raw score passes, with that score |
| Classify.ClassificationRemoves | JTP-3/inference.py:111-127 | with `remove`, the result is the filtered dict less the consequents of every tag that passed the filter |
| Classify.ClassificationInherits | JTP-3/inference.py:97-122 | with `inherit`, a tag is kept exactly when the maximum of its own and its implying tags' scores passes, and is kept with that maximum |
| Classify.InheritEvery | JTP-3/inference.py:97-99 | the `inherit` loop over the tags leaves `labels` as `InheritAll` describes |
| Classify.ConstrainEvery | JTP-3/inference.py:101-103 | the `constrain` loop leaves `labels` as `ConstrainAll` describes |
| Classify.RemoveEvery | JTP-3/inference.py:124-127 | the removal loop leaves `labels` as `RemoveAll` describes |
| Classify.AdjustLabels | JTP-3/inference.py:96-109 | the `match` on the mode rewrites the labels as specified, and rejects exactly an unknown mode |
| Classify.ClassifyOutput | JTP-3/inference.py:85-129 | returns the specified classification; errors exactly on a length mismatch or unknown mode; every kept tag is a model tag that passes |
| Loaders.FillFilled | JTP-3/inference.py:395-407 | reading the rows succeeds exactly when no row fails, and each key then holds the value of its last storing row |
| Loaders.Fill | JTP-3/inference.py:395-407 | reading the rows succeeds exactly when no row fails |
| Loaders.FillStores | JTP-3/inference.py:404-407 | a successful read holds the key of every storing row |
| Loaders.FillStep | JTP-3/inference.py:407 | one more stored row keeps that description true |
| Loaders.FillFailStays | JTP-3/inference.py:399-405 | the first failing row decides the error, whatever follows |
| Loaders.FillNext | JTP-3/inference.py:395-407 | one more row skips, stores or fails as its step says |
| Loaders.CalibrationFailure | JTP-3/inference.py:395-405 | with a good header, loading fails exactly when some non-blank threshold is not a number in [0, 1], always with the range message |
| Loaders.CalibrationKeys | JTP-3/inference.py:395-407 | a loaded calibration holds exactly the rewritten tags of the rows with a non-blank threshold |
| Loaders.Calibration | JTP-3/inference.py:385-409 | an error before the rows only for a bad header, then only the range message; a loaded calibration holds thresholds in [0, 1] for the rewritten tag of every non-blank row |
| Loaders.FillCalibration | JTP-3/inference.py:395-407 | the row loop fails only with the range message and stores in-range thresholds for every non-blank row |
| Loaders.StoreInRange | JTP-3/inference.py:404-407 | a row that stores a threshold stores one in [0, 1] |
| Loaders.FillInRange | JTP-3/inference.py:400-407 | every threshold the row loop stores is in [0, 1] |
| Loaders.CalibrationLastRow | JTP-3/inference.py:407 | each tag holds the threshold of its last non-blank row |
| Loaders.FillLastThreshold | JTP-3/inference.py:407 | each stored threshold is the parsed value of the last row storing that tag |
| Loaders.FillFailsWith | JTP-3/inference.py:399-405 | when every failing row fails with the same error, so does the fill |
| Loaders.LoadCalibration | JTP-3/inference.py:385-409 | the header check, then the loop over the rows, give the specified result or error |
| Loaders.WordEnd | JTP-3/inference.py:425 | the end of the word starting at an index: non-space up to it, a space or the end there |
| Loaders.Words | JTP-3/inference.py:425 | `split()` gives non-empty runs of non-space characters |
| Loaders.WordsOfWordThen | JTP-3/inference.py:425 | a word followed by a space splits off first |
| Loaders.WordEndAt | JTP-3/inference.py:425 | a word ends at the first space after it |
| Loaders.WordsOfJoin | JTP-3/inference.py:425 | splitting space-joined words gives the words back |
| Loaders.MetadataFailure | JTP-3/inference.py:415-426 | with a good header, loading fails exactly when some category is not an integer |
| Loaders.MetadataOf | JTP-3/inference.py:411-428 | an error past the header only on a category that is not an integer; loaded metadata holds the rewritten tag of every row |
| Loaders.FillMetadata | JTP-3/inference.py:422-426 | the row loop fails only on a category and stores every row's rewritten tag |
| Loaders.MetadataKeys | JTP-3/inference.py:422-426 | loaded metadata holds exactly the rewritten tags of the rows |
| Loaders.MetadataLastRow | JTP-3/inference.py:423-426 | each tag holds the category and rewritten implications of its last row |
| Loaders.LastRowMeaning | JTP-3/inference.py:423 | the last storing row for a key is the last row whose rewritten tag is that key |
| Loaders.LoadMetadata | JTP-3/inference.py:411-428 | the header check and the row loop give the specified result or error |
| Setup.EscapeHead | JTP-3/inference.py:524-525 | escaped text never starts with a bare parenthesis |
| Setup.UnescapeEscape | JTP-3/inference.py:524-525 | escaping loses nothing: unescaping gives the text back |
| Setup.ReplaceCharAppend | JTP-3/inference.py:523-525 | replacing one character splits over concatenation |
| Setup.MainRewrite | JTP-3/inference.py:518-527 | caption tags hold no underscore and unescape to the spaced tag; otherwise only `vulva` is rewritten, and none is left unless the original tags are asked for |
| Setup.EscapeByReplace | JTP-3/inference.py:524-525 | the two `replace` calls escape each parenthesis |
| Setup.ThresholdSetting | JTP-3/inference.py:534-544 | a finite number is accepted exactly when it lies in [-1, 1], and is then stored as `Uniform(from_symmetric(t))`, which `to_symmetric` maps back to t; any other number, NaN and inf included, gives the range usage error; text that is not a number is loaded as a calibration file: a file that cannot be opened is reported, the setting succeeds exactly when the file loads, and the loaded table, with every threshold in [0, 1], is kept |
| Setup.MetadataAsWrittenOpensEmptyPath | JTP-3/inference.py:546-549 | as written, with the default path "" (no tag file found) and without a metadata file on disk `main` fails opening the empty path |
| Setup.MetadataAsWritten | JTP-3/inference.py:546-550 | as written: the path is opened even when empty, fails when it cannot be read, and loads the rewritten tags of its rows otherwise |
| Setup.ModeSetting | JTP-3/inference.py:552-555 | the mode is a known one; anything but `off` needs metadata; a given mode is kept; the default is `inherit` with metadata and `off` without |
| Setup.TargetAsWritten | JTP-3/inference.py:583-598 | as written: no `-o` and `-o -` give their targets; every other path fails on the missing `args.file` |
| Setup.ExcludeIds | JTP-3/inference.py:577 | the excluded ids are exactly the ids of the named categories |
| Setup.Configure | JTP-3/inference.py:529-598 | argparse's choices, then the batch and sequence-length errors in that order; succeeds exactly when every check passes, holding the settings the checks computed |
| Setup.ConfigureGuarantees | JTP-3/inference.py:529-598 | a successful `main` yields batch ≥ 1, seqlen in [64, 2048], thresholds in [0, 1], a known mode, metadata whenever implications or exclusions are used, metadata for every rewritten model tag, and a target exactly when paths are given |
| Setup.ConfigureTarget | JTP-3/inference.py:583-598 | with paths: no `-o` writes caption files, `-o -` standard output and `-o PATH` the CSV file PATH; without paths no target |
| Setup.ConfigureWithoutMetadata | JTP-3/inference.py:546-557 | an empty metadata path with implications off or defaulted and nothing excluded runs on without metadata and with implications off |
| Setup.ConfigureCanClassify | JTP-3/inference.py:564-577 | over acyclic metadata closed under the model's tags, every successful configuration can classify without a missing key |
| Setup.RewriteModelTags | JTP-3/inference.py:564-572 | rewrites the model's tags in place and reports exactly when some rewritten tag lacks metadata |
| Setup.LoadThreshold | JTP-3/inference.py:534-544 | the threshold branch gives the specified setting |
| Setup.LoadMetadataSetting | JTP-3/inference.py:546-550 | the metadata branch gives the (corrected) specified setting |
| Setup.Prepare | JTP-3/inference.py:529-598 | the checks of `main` in order, with the tag rewrite in place, give exactly `Setup.Configure`, which uses the two corrected settings of the Findings (the `-o PATH` CSV file and no metadata for an empty path) |
| Interactive.ParseRender | JTP-3/inference.py:154-253 | the command tests read every command's canonical line back as that command |
| Interactive.Parse | JTP-3/inference.py:154-253 | every line that is not one of the fixed words is read back unchanged by `Render` from its command |
| Interactive.Calibrate | JTP-3/inference.py:191-205 | keeps the settings valid, and leaves them unchanged unless the file loads |
| Interactive.Apply | JTP-3/inference.py:152-276 | keeps the settings valid, changes them only on an update, and says goodbye exactly on quit |
| Interactive.Interpret | JTP-3/inference.py:152-276 | the same for one typed line: goodbye exactly for `q`, `quit` or `exit` after stripping |
| Interactive.ValidCanClassify | JTP-3/inference.py:269-274 | valid settings over ready metadata never make `classify_output` look up a missing tag |
| Interactive.Shown | JTP-3/inference.py:269-276 | the shown tags: an error only on a length mismatch; each is a model tag whose score passes the threshold; excluded categories are not shown |
| Interactive.ThresholdCommand | JTP-3/inference.py:177-189 | `threshold NUM` is accepted exactly for finite numbers in [-1, 1], stored via `from_symmetric` |
| Interactive.SeqlenCommand | JTP-3/inference.py:207-219 | `seqlen LEN` is accepted exactly for integers in [64, 2048] |
| Interactive.ExcludeCommand | JTP-3/inference.py:221-231 | `exclude CATEGORY` is accepted exactly with metadata and a known category, and adds its id |
| Interactive.IncludeCommand | JTP-3/inference.py:233-239 | `include CATEGORY` is accepted exactly for a known category, and drops its id |
| Interactive.ImplicationsCommand | JTP-3/inference.py:241-251 | `implications MODE` is accepted exactly for a known mode, with metadata unless the mode is `off` |
| Interactive.CalibrationCommand | JTP-3/inference.py:191-205 | `calibration [PATH]` replaces the threshold exactly when the file opens and loads |
| Interactive.ImageCommand | JTP-3/inference.py:253-274 | any other line is an image, scored at the current sequence length when it loads; settings unchanged |
| Interactive.Steps | JTP-3/inference.py:150-155 | the loop answers at most one reply per line, stopping after the first reply that ends it |
| Interactive.Run | JTP-3/inference.py:150-274 | the prompt answers at most one reply per line, ending on a quit or on an output whose length does not match the tag list |
| Interactive.StepsKeepValid | JTP-3/inference.py:150 | a step that keeps the settings valid keeps them valid over any input |
| Interactive.RunKeepsValid | JTP-3/inference.py:150-276 | however many lines are read, the settings stay valid |
| Interactive.StepsStopAtFirst | JTP-3/inference.py:154-155 | the loop stops at the first stopping reply, and only such a reply ends it early |
| Interactive.RunStopsAtQuit | JTP-3/inference.py:154-274 | no reply before the last quits or carries an output of the wrong length, and a run that ends before the input does ends on one of those |
| Interactive.StepsNext | JTP-3/inference.py:150-276 | after a line that does not end the prompt, the run continues from the settings that line left |
| Interactive.StepsStop | JTP-3/inference.py:154-155 | a line whose reply ends the prompt ends the run with that reply |
| Interactive.StepsAfter | JTP-3/inference.py:150-276 | the replies so far, the answer to the next line, then the rest, are the replies of the whole run |
| Interactive.HandleThreshold | JTP-3/inference.py:177-189 | the `threshold` branch behaves as specified |
| Interactive.HandleCalibration | JTP-3/inference.py:191-205 | the `calibration` branches load through the loader's loop, as specified |
| Interactive.HandleSeqlen | JTP-3/inference.py:207-219 | the `seqlen` branch behaves as specified |
| Interactive.HandleExclude | JTP-3/inference.py:221-231 | the `exclude` branch behaves as specified |
| Interactive.HandleInclude | JTP-3/inference.py:233-239 | the `include` branch behaves as specified |
| Interactive.HandleImplications | JTP-3/inference.py:241-251 | the `implications` branch behaves as specified |
| Interactive.Execute | JTP-3/inference.py:152-257 | one pass of the loop: the stripped line, matched against the commands in the source's order |
| Interactive.ExecuteRest | JTP-3/inference.py:199-257 | the tests after `threshold` and the bare `calibration` |
| Interactive.ExecuteLast | JTP-3/inference.py:233-257 | the last tests and the image fallback |
| Interactive.Show | JTP-3/inference.py:269-274 | the classification shown for a scored image is `Shown` |
| Interactive.ShownForAppend | JTP-3/inference.py:253-274 | one more line, answered and classified under the settings in force, extends the history |
| Interactive.ShownForAt | JTP-3/inference.py:150-274 | line j is read under the start settings or what line j - 1 left; its reply is the command's answer under those settings, and a scored image prints `classify_output` under those same settings (threshold, exclusions, mode) |
| Interactive.ErrorEndsRun | JTP-3/inference.py:269-274 | a classification error is printed at most once, for the last line read, because the `ValueError` ends the prompt |
| Interactive.ReadLine | JTP-3/inference.py:152-274 | one pass of the loop: the command's answer under the current settings, which stay valid; the printed classification of a scored image; and the pass ends the prompt exactly on a quit or a length mismatch |
| Interactive.RunInteractive | JTP-3/inference.py:131-280 | the `while` loop ends in the specified settings with the specified replies, keeps the settings valid, returns the session in force for each line, and prints each scored image's `classify_output` under that session; a classification error ends the loop |
| Interactive.ConfigureStartsValid | JTP-3/inference.py:613-620 | `main` always starts the prompt with valid settings |
| BatchRun.BatchesPartition | JTP-3/inference.py:23-26 | the batches hold the input in order, all full but the last, none empty |
| BatchRun.Batches | JTP-3/inference.py:23-26 | no batch exactly for no input; every batch holds `n` items, only the last possibly fewer |
| BatchRun.Batched | JTP-3/inference.py:23-26 | the chunking loop yields the specified batches |
| BatchRun.RemoveFirst | JTP-3/inference.py:370-373 | `list.remove` takes one copy of the item away, or nothing when it is absent |
| BatchRun.RemoveAbsent | JTP-3/inference.py:370-373 | removing an absent item changes nothing |
| BatchRun.RemoveAt | JTP-3/inference.py:371 | removing the first occurrence keeps the order of the rest |
| BatchRun.DistinctCount | JTP-3/inference.py:363-366 | the keys of a dict occur once each |
| BatchRun.PrefixOnce | JTP-3/inference.py:369-375 | after prefix handling the prefix is first and occurs once, and every other tag keeps its count |
| BatchRun.Placed | JTP-3/inference.py:369-375 | with a prefix it comes first and the rest is the list without one copy of it; without one the list is unchanged |
| BatchRun.PlacePrefix | JTP-3/inference.py:369-375 | the `remove`/`insert` steps give the specified list |
| BatchRun.CaptionPath | JTP-3/inference.py:360 | the caption path ends in `.txt` |
| BatchRun.CaptionKeepsStem | JTP-3/inference.py:360 | the caption sits beside the image under the same stem |
| BatchRun.JoinPath | JTP-3/inference.py:307 | an entry path starts with its directory and ends with its name |
| BatchRun.Walk | JTP-3/inference.py:306-319 | every yielded name is visible and not skipped, under the scanned directory; without `--recursive` only top-level files |
| BatchRun.WalkFindsTopLevel | JTP-3/inference.py:306-317 | every visible, non-skipped file of the directory is yielded |
| BatchRun.WalkFindsNested | JTP-3/inference.py:318-319 | with `--recursive`, everything found in a visible subdirectory is yielded |
| BatchRun.JoinedNotTxt | JTP-3/inference.py:313-317 | a path whose name is not a `.txt` file does not end in `.txt` |
| BatchRun.CaptionNeverOverwritesScanned | JTP-3/inference.py:313-317 | a caption never overwrites an image that the directory scan found |
| BatchRun.PathsToClassify | JTP-3/inference.py:321-326 | every path that is not a directory is classified as given |
| BatchRun.Scanned | JTP-3/inference.py:324 | the paths of the scanned files, in scan order |
| BatchRun.WriterIsOutput | JTP-3/inference.py:357-379 | under the checked configuration the writer gives exactly the specified output |
| BatchRun.PathWritesNext | JTP-3/inference.py:357 | one more image appends its write |
| BatchRun.PathWritesWhole | JTP-3/inference.py:357 | the writes of a whole batch |
| BatchRun.RunWritesNext | JTP-3/inference.py:328 | the writes from one batch on are that batch's, then the rest |
| BatchRun.RunWritesStep | JTP-3/inference.py:328-379 | appending one batch's writes keeps the run's writes split at the next batch |
| BatchRun.RunWritesEnd | JTP-3/inference.py:328 | past the last batch nothing is written |
| BatchRun.CaptionHoldsClassified | JTP-3/inference.py:363-377 | a caption lists the prefix once and first, and otherwise exactly the tags `classify_output` kept, once each |
| BatchRun.WriteImage | JTP-3/inference.py:358-379 | a CSV row of probabilities, or the caption file with the classified, shuffled, prefixed tags |
| BatchRun.WriteBatch | JTP-3/inference.py:357-379 | the inner loop writes each loaded image of the batch in order |
| BatchRun.RunBatched | JTP-3/inference.py:282-383 | the run writes, batch after batch, each image the loader kept |
| BatchRun.CsvHeader | JTP-3/inference.py:598 | the header row is `filename` followed by the model tags |
| BatchRun.Output | JTP-3/inference.py:357-379 | a CSV row exactly for a CSV target, with one probability per header column after `filename`; otherwise a `.txt` caption named after the image's stem |
| BatchRun.Dedup | JTP-3/inference.py:334 | the loader's dict keeps each path of a batch once |
| BatchRun.BatchesWriteLoadable | JTP-3/inference.py:328-379 | batches without repeats write one image per loadable path, in path order |
| BatchRun.Loadable | JTP-3/inference.py:334-342 | exactly the paths that load |
| BatchRun.LoadableAppend | JTP-3/inference.py:334-342 | loading a concatenation loads each part |
| BatchRun.BatchSizeIrrelevant | JTP-3/inference.py:328-379 | when no path is given twice, the batch size does not change what is written: one write per loadable path, in path order (see BatchRun.RepeatedPathDependsOnBatchSize for repeated paths) |
| BatchRun.RepeatedPathDependsOnBatchSize | JTP-3/inference.py:328-342 | a path given twice is written twice with batches of one and once with batches of two |
| Metrics.CtiMetric | JTP-3/calibrate.py:16-20 | 0 without true positives, else tp/(tp+fp+fn); in [0, 1] for non-negative counts |
| Metrics.Ratio | JTP-3/calibrate.py:27-28 | a quotient of a part by a larger whole lies in [0, 1] |
| Metrics.JMetric | JTP-3/calibrate.py:22-30 | in [-1, 1] for non-negative counts, and 1 for perfect predictions |
| Metrics.P4Metric | JTP-3/calibrate.py:32-37 | 0 when 4·tp·tn vanishes; in [0, 1]; 1 without errors |
| Metrics.FScore | JTP-3/calibrate.py:39-52 | rejects exactly a non-positive beta, with its message; otherwise a metric defined on all counts with values in [0, 1] (its harmonic-mean meaning is Metrics.FBetaHarmonic) |
| Metrics.CountsDefined | JTP-3/calibrate.py:16-52 | no metric divides by zero on non-negative counts |
| Metrics.MetricValue | JTP-3/calibrate.py:16-52 | every metric but J lies in [0, 1], J in [-1, 1]; F-beta is `cti` with tp weighted by 1+β² and fn by β² |
| Metrics.NonNegative | JTP-3/calibrate.py:43-44 | the F-beta weights are non-negative |
| Metrics.PerfectScores | JTP-3/calibrate.py:16-52 | perfect predictions score 1 on every metric |
| Metrics.NoHitScores | JTP-3/calibrate.py:16-52 | without a true positive, `cti`, `p4` and F-beta score 0, J at most 0 |
| Metrics.DivBounds | JTP-3/calibrate.py:20 | a non-negative part over a positive whole it does not exceed lies in [0, 1], the bound behind every ratio the metrics take |
| Metrics.LooserPasses | JTP-3/calibrate.py:54-97 | loosening a filter's bounds never rejects what the stricter one accepted |
| Metrics.CountsFilterDefined | JTP-3/calibrate.py:63-76 | `pr_filter` never divides by zero on non-negative counts |
| Metrics.ScoredIsConjunction | JTP-3/calibrate.py:99-121 | the wrapped metric gives a score exactly when every filter accepts, and then the unchanged score |
| Metrics.Scored | JTP-3/calibrate.py:99-121 | a filtered metric yields a score only where the inner metric is defined, and then that score unchanged |
| Metrics.FBetaHarmonic | JTP-3/calibrate.py:39-52 | with a true positive the F-beta value is the weighted harmonic mean of precision and recall |
| Metrics.CountsScoredDefined | JTP-3/calibrate.py:99-121 | with non-negative counts, any combination of metric and filters is defined |
| Calibration.Scorings | JTP-3/calibrate.py:125-132 | each row scored by the wrapped metric, in order |
| Calibration.Best | JTP-3/calibrate.py:123-137 | `best` stays a well-formed dict |
| Calibration.BestIsBest | JTP-3/calibrate.py:125-137 | a tag is kept exactly when one of its rows has a score; its pair comes from such a row; no row beats it (higher score, or equal score at a lower threshold) |
| Calibration.BestLastKeys | JTP-3/calibrate.py:134-137 | one more row adds its tag exactly when it has a score |
| Calibration.KeepsScoredStep | JTP-3/calibrate.py:134-137 | one more row keeps "kept iff scored" |
| Calibration.KeepsOfferedStep | JTP-3/calibrate.py:134-137 | one more row keeps "pair from a row" |
| Calibration.UnbeatenStep | JTP-3/calibrate.py:134-137 | one more row keeps "unbeaten" |
| Calibration.BeatsTransitive | JTP-3/calibrate.py:136 | a pair that does not beat the old best does not beat its replacement |
| Calibration.BeatsStrictTotal | JTP-3/calibrate.py:136 | `Beats`, the tuple comparison, is a strict total order on (threshold, score) pairs |
| Calibration.OrderIndependent | JTP-3/calibrate.py:136-137 | the result does not depend on the order of the scored rows |
| Calibration.SameChoice | JTP-3/calibrate.py:136-137 | two results keeping the promises over the same rows agree on every tag |
| Calibration.RowOrderIndependent | JTP-3/calibrate.py:115-139 | reordering the data file does not change the calibration |
| Calibration.Calibrate | JTP-3/calibrate.py:115-139 | the loop updating `best` in place gives the specified result |
| Calibration.Clamp | JTP-3/calibrate.py:236 | the written threshold lies in [0, 1], and is the shifted threshold when that is in range |
| Calibration.ClampMonotone | JTP-3/calibrate.py:236 | clamping keeps the order of thresholds |
| Calibration.Insert | JTP-3/calibrate.py:232-235 | inserting into an ascending list keeps it ascending and adds exactly the new tag |
| Calibration.InsertFront | JTP-3/calibrate.py:232-235 | a smaller tag goes in front |
| Calibration.InsertLater | JTP-3/calibrate.py:232-235 | a larger tag goes after the head |
| Calibration.SortTags | JTP-3/calibrate.py:232-235 | `sorted` gives an ascending permutation of the tags |
| Calibration.SameElements | JTP-3/calibrate.py:232-235 | a permutation has the same length and members |
| Calibration.RowsFor | JTP-3/calibrate.py:236-237 | one line per tag with its clamped threshold and its score |
| Calibration.RowsForWritten | JTP-3/calibrate.py:231-237 | lines for an ascending list of exactly the kept tags meet the writer's promise |
| Calibration.OutputRows | JTP-3/calibrate.py:231-237 | every kept tag is written once, in ascending order, with its clamped threshold and score |
| OrderedDict.Put | JTP-3/calibrate.py:137 | `d[k] = v`: a new key goes last, an existing key keeps its place |
| OrderedDict.FromPairs | JTP-3/inference.py:94 | `dict(zip(...))`: the keys are the given ones; each holds the value of its last occurrence |
| OrderedDict.Filter | JTP-3/inference.py:111-122 | the elements that are kept, in order |
| OrderedDict.FilterDistinct | JTP-3/inference.py:111-122 | filtering distinct keys keeps them distinct |
| OrderedDict.FilterFilter | JTP-3/inference.py:111-122 | filtering twice is filtering by both conditions |
| OrderedDict.Restrict | JTP-3/app.py:192-202 | a dict comprehension keeps exactly the selected keys with their values |
| OrderedDict.Drop | JTP-3/inference.py:82 | popping a set of keys removes exactly those, keeping the rest in order |
| OrderedDict.Pop | JTP-3/inference.py:82 | `pop(k, None)` removes `k` if present |
| OrderedDict.DropDrop | JTP-3/inference.py:81-83 | dropping one set and then another drops their union |
| Text.Strip | JTP-3/app.py:217 | `strip()` leaves no whitespace at either end |
| Text.Split | JTP-3/app.py:217 | `split(',')` is never empty and its pieces hold no comma |
| Text.NonBlankEntries | JTP-3/app.py:217 | the entries are non-empty and trimmed |
| Text.EntriesOfJoin | JTP-3/app.py:217 | reading back a `", "`-joined list of entries gives the same entries |
| Text.ReplaceRemovesChar | JTP-3/app.py:40 | replacing a character by text without it leaves none behind |
| Text.Replace | JTP-3/app.py:40 | the result uses only characters of the input and the replacement, and a same-length replacement keeps the length |
| Text.Each | JTP-3/inference.py:423-426 | a list comprehension keeps the length and applies the function at each position |
| Text.Lower | JTP-3/app.py:377 | `lower()` maps each character, keeping the length |
| Text.LessTotal | JTP-3/calibrate.py:232-235 | string order is total on distinct strings |

## Left out

- The neural network: model loading, patching, tensors, sigmoid and `topk`. Class activation maps. The Gradio UI and its event wiring. The FastAPI/uvicorn server. All of these become parameters (`infer`, `classify`, `decode`).
- File, network and CSV I/O: opening, writing and closing files; `os.listdir`/`os.scandir`; `os.makedirs`; `save_tags_to_file`; `requests`. A CSV file is a `Loaders.Table` of header and rows, read by a `readCsv` parameter. Errors raised while writing a file are not modelled.
- `Loader`, its worker pool, shared memory and `model_lock`: concurrency. `loader.py` is not part of this model. Which images load is the `loaded`/`ok` parameter.
- `random.shuffle`: a parameter, assumed only to permute (`BatchRun.CaptionHoldsClassified`).
- Number formatting (`:.4f`, `:6.1f`, percentages) and the display sort of the interactive prompt. The prompt's reply `Scored` carries the raw probabilities. `Interactive.RunInteractive` returns the kept tags printed beside each scored reply, but not their text.
- `process_folder`: it calls an undefined `apply_tag_modifications`, so it has no behaviour to state. `checkver.py` is an interpreter version check. `custom_metric` raises `NotImplementedError` by design.
- `calibrate.py`'s command-line parsing (metric names, default filters): the model starts from a metric and a filter list.
- `main`'s model, device, worker and shared-memory options, and the `_if_exists` file test. The default threshold and metadata paths are ordinary fields of `Setup.Args`.
- Python's `float`/`int` parsing is a parameter. NaN and the infinities appear only as `Loaders.PyFloat.NonFinite`, which every range check rejects.
- `Text.Lower` lowers ASCII letters only. Python lower-cases all of Unicode; image extensions are ASCII.
- `AppTags.SplitExt` follows POSIX `splitext` only. `BatchRun.JoinPath` joins with one `/` for entry names without separators.
- A `csv.DictReader` row shorter than the header gets `None` for its missing cells. The model reads such cells as blank (`Loaders.Field`). This agrees with the source for a missing threshold, which is skipped either way. It also agrees for a missing category: `int(None)` raises, and the model fails as for a non-integer category, though with the `ValueError` message. A missing `implications` cell makes `None.split()` raise in the source; the model reads it as no implications.
- An empty CSV file has no field names, and the `in` test on `None` raises `TypeError`. It is modelled as the `NoHeader` error.
- The end of input (`EOFError` from `input()`) ends the model's run without a `Bye`.
- `Implications.Ranked`: the model assumes acyclic metadata. The source has no cycle check and would recurse forever on a cycle. The model also assumes that every implied tag has metadata and is a model tag (`Classify.CanClassify`); otherwise the source raises `KeyError`.
- `Metrics.MetricValue`: it states the source's form, `cti` with weighted counts. The harmonic-mean reading of F-beta is `Metrics.FBetaHarmonic`, which needs a true positive.
- `Metrics.CountsDefined`: counts are non-negative reals. Division by zero with negative counts, where Python raises, is excluded by a precondition rather than modelled.
- `Loaders.Fill`: its own contract says when reading succeeds. Which error it returns, that of the first failing row, is stated by `Loaders.FillFailsWith` and `Loaders.FillFailStays`.
- `Text.Replace`: its contract states the characters and the length of the result. Its left-to-right meaning is stated by the lemmas beside it (`Text.ReplaceCopiesPrefix`, `Text.ReplaceAbsent`, `Text.ReplaceKeepsAbsent`).
- `AppTags.Predictions`: `topk` is left out with the network. The model starts from its (index, score) pairs, and `AppTags.TopPairs` is the lookup in `tag_list`.
- `AppTags.TopPairs`: it requires every `topk` index to fall inside the rebuilt `tag_list`. When two model tags rewrite to the same name, `tag_list` is rebuilt shorter (JTP-3/app.py:42-46), so the network's later indices name a different tag or fall off the end. The model does not follow that case; `AppTags.RunClassifierPredictions` assumes the rebuilt list lines up with the network's output.
- `BatchRun.BatchSizeIrrelevant`: it holds only when no path is given twice. `loader.load` returns a dict, so a path repeated within one batch is written once. `BatchRun.RepeatedPathDependsOnBatchSize` shows the difference.
- `BatchRun.Writer`: its fallback arm for an unchecked configuration is never taken, because `main` checks first.

## Findings

| source | as written | input that shows it | evidently intended | confidence | as-written member | corrected member |
|---|---|---|---|---|---|---|
| JTP-3/inference.py:590-592 | for `-o PATH` with PATH other than `-`, `main` opens `args.file`; argparse defines no `file` attribute, so this raises `AttributeError` | `inference.py -o out.csv image.png` | open `args.output`, the path the help text describes, and write the CSV there | high, not executed | Setup.TargetAsWritten | Setup.ConfigureTarget |
| JTP-3/inference.py:443-549 | the default metadata path is `""` when the tag file is absent; `""` is not `None`, so `load_metadata("")` is called and opening fails | running without `data/jtp-3-hydra-tags.csv` and without `-m` | the help text's `<none>`: no metadata is loaded and the run continues with implications off | high, not executed | Setup.MetadataAsWritten, Setup.MetadataAsWrittenOpensEmptyPath | Setup.ConfigureWithoutMetadata |
