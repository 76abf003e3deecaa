# Neuroimaging pipeline: a Dafny model of its control logic

`run_pipeline.py` takes one subject through a fixed pipeline of containerised
tools. The stages run in this order:

1. DICOM to BIDS conversion with HeuDiConv;
2. MRIQC;
3. FastSurfer, then its QA tools;
4. DeepBrainNet brain-age prediction;
5. white-matter-hyperintensity segmentation with BIANCA;
6. QSIprep;
7. fMRIprep.

Each tool is one shell command. A command that exits with a non-zero status
raises, and nothing catches it, so the run ends there. The FastSurfer, QSIprep
and fMRIprep stages first check for a FreeSurfer license file; without it they
report an error and skip their commands. Every stage except the conversion
creates its output directory before it does anything else.

Inside the containers:

- The segmentation script writes the BIANCA masterfile. It runs BIANCA and
  binarises its probability map at each threshold. For each threshold it then
  parses the cluster statistics report and appends one row to a CSV table
  shared by all subjects.
- `run_prediction.py` reads the subject's T1 image and computes the brain
  age with `antspynet.brain_age`. It writes the age to a per-subject table and
  appends it to a table shared by all subjects.
- A second brain-age route is made of two scripts that `run_prediction.py`
  does not call. `Slicer.py` cuts an MNI-space volume into 80 axial slices,
  saved as JPEG files under `<directory>/Test/`. `Model_Test.py` predicts an
  age for every image the Keras generator finds under the folder named by its
  first argument. It groups the predictions by scan ID, applies `np.median`
  and writes one row to the file named by its second argument. Nothing in
  either script ties the two folders together. `Slicer.SlicedSubjectAge`
  assumes the generator is pointed at `<directory>`, so that it lists the
  slices as `Test/<file>`.
- The HeuDiConv heuristic maps scanner series to BIDS output names. It uses
  exact matches on each series' description and dimensions.

The model works on values for the pure parts. Where the source changes state
step by step, the model is imperative:

- `Pipeline.Pipeline` is a class whose fields are the directory tree, the
  command log, the skipped stages and the abort flag. Its methods are the
  stage functions of `run_pipeline.py`.
- `Tables.CsvFile` is a file on disk whose content the scripts append to or
  replace.
- Loops in the source are loops in the model, with invariants. Examples are
  the masterfile writer, the threshold loops, the report parser, the ID parse
  and grouping of `Model_Test.py`, the slice writer and `infotodict`.

Each method is proved against a specification function. These properties are
then proved about that function:

- what runs, and what stops the run;
- which stages skip;
- the shape of the collated tables;
- that the BIDS label stays the same when the pipeline runs again;
- the scan IDs;
- the grouping;
- that the median depends only on the set of predictions;
- which series each heuristic rule claims.

These are parameters of the model:

- The exit status of each command is an oracle, `Command -> int`.
- The presence of the license file is an oracle. It gives the answer
  `license.is_file()` returns when a stage checks it.
- The text of each BIANCA statistics report is an oracle, keyed by the
  report's path.
- The network's predictions are a sequence of exact `real` values.

Points of the code's behaviour that the model keeps as written:

- Every stage is fail-fast: `check_call` raises on any non-zero exit and
  nothing catches it, so `__main__` ends (`Pipeline.AbortStopsTheRun`).
- `Model_Test.py` calls `np.median` once, on the list of per-scan
  prediction columns, not once per scan:
  - equal-length columns give the median of all predictions pooled;
  - columns of different lengths raise;
  - an empty list gives NaN (`AgeModel.PredictAge`).
- The collated tables are appended to without checking the width of the rows
  and without a lock (`Tables.AppendOrCreate`).
- Subject sanitisation is not idempotent: applying it to its own output gives
  `sub-sub…` (`Subjects.BidsSubjectTwice`). The code never applies it twice.
  The idempotent part is the label after `sub-`
  (`Subjects.BidsSubjectSuffixStable`).
- In `run_segmentation.py`, `n` and `v` are not reset between thresholds.
  If a report has no `number` line, or no `volume` line, the row takes the
  previous threshold's value. If there is no previous value, the script
  raises `UnboundLocalError`. The model does both (`Segmentation.StaleCounts`,
  `Segmentation.FirstReportUnbound`, `Segmentation.FirstReportUnboundVolume`).
  Row `i` therefore holds `n` and `v` as the line loop leaves them after the
  reports of thresholds `0` to `i`, read one after another
  (`Segmentation.StatsRows`).

## Model

| member | source | states |
|---|---|---|
| Shell.ExecutedSpec | run_pipeline.py:77-82 | Calling `runBash` on commands one after another runs a prefix of them. It runs all of them when each succeeds. Otherwise it runs exactly up to the first failing command, which is the last to run, and every earlier one succeeded |
| Shell.ExecutedOne | run_pipeline.py:77-82 | A single command always runs, and it succeeds exactly when its exit status is 0 |
| Shell.ExecutedAll | run_pipeline.py:77-82 | When every command succeeds, every command runs |
| Shell.ExecutedConcat | run_pipeline.py:77-82 | Running `a` then `b`: `b` starts only when every command of `a` succeeded |
| Shell.ExecutedAtFailure | run_pipeline.py:77-82 | The first failing command is the last one run, and the sequence as a whole did not succeed |
| Shell.AllSucceedConcat | run_pipeline.py:197-199 | The FastSurfer and QA pair succeeds exactly when both commands succeed |
| Subjects.BidsSubjectShape | run_pipeline.py:335 | The label starts with `sub-`, is alphanumeric after it, and holds no `/` or `.` |
| Subjects.KeepAlnumAlnum | run_pipeline.py:335 | Only ASCII letters and digits survive the substitution |
| Subjects.KeepAlnumConcat | run_pipeline.py:335 | Removing characters acts on each part of a concatenation separately |
| Subjects.KeepAlnumMembers | run_pipeline.py:335 | A character is kept exactly when it occurs in the raw subject and is an ASCII letter or digit |
| Subjects.BidsSubjectLength | run_pipeline.py:335 | The label is four characters longer than the number of alphanumerics in the raw subject |
| Subjects.KeepAlnumFixedPoint | run_pipeline.py:335 | Removing non-alphanumerics leaves a string unchanged exactly when it is all alphanumeric |
| Subjects.BidsSubjectSuffixStable | run_pipeline.py:335 | Sanitising the part after `sub-` again changes nothing |
| Subjects.SanitisedTwice | run_pipeline.py:335 | Sanitising `sub-` followed by an alphanumeric label drops only the `-` |
| Subjects.BidsSubjectTwice | run_pipeline.py:335 | Sanitising a label a second time gives `sub-sub…`, which differs from the label |
| Pipeline.RunStagesSpec | run_pipeline.py:338-347 | The step-by-step run agrees with the stage-by-stage description. The log is the plan cut after its first failing command. The run aborts exactly when some planned command fails. The directories and the license errors are those of the stages reached |
| Pipeline.StageStepSpec | run_pipeline.py:139-323 | One stage: it creates its output directory, then either prints the license error or runs its commands until one fails |
| Pipeline.ReachedIsPrefix | run_pipeline.py:338-347 | The stages entered are the first stages of the call order, at least one of them |
| Pipeline.MainPlan | run_pipeline.py:338-347 | The planned commands are the stages' own commands in the call order of `__main__` |
| Pipeline.PlanCommandsNotSkipped | run_pipeline.py:88-323 | Every planned command belongs to a stage in the run. None belongs to a gated stage whose license was missing. Each carries the subject its stage is given |
| Pipeline.QaFollowsFastSurfer | run_pipeline.py:197-199 | The QA command directly follows the FastSurfer command for the same subject |
| Pipeline.StageDirsCreated | run_pipeline.py:139-323 | Every directory a reached stage creates exists afterwards, also when the stage skipped |
| Pipeline.SkippedAreGatedUnlicensed | run_pipeline.py:197-201 | A stage skips exactly when it is license-gated and the license is missing at its check |
| Pipeline.AbortStopsTheRun | run_pipeline.py:329-349 | The log is a prefix of the plan. The run aborts exactly when a planned command fails. Then that command is the last to run, every earlier one succeeded, and no later stage ran. A run that did not abort ran the whole plan and entered all seven stages |
| Pipeline.ReachedAll | run_pipeline.py:338-347 | When every planned command succeeds, every stage is entered |
| Pipeline.CommandsThatRan | run_pipeline.py:335-347 | The conversion ran with the raw subject and every other command with the sanitised label. No command of a skipped stage ran. The QA command ran only with the license present and right after a FastSurfer command that succeeded |
| Pipeline.LogInPlan | run_pipeline.py:338-347 | Every command that ran is one of the planned commands |
| Pipeline.RanCommandsPlanned | run_pipeline.py:88-347 | The conversion ran with the raw subject and every other command with the sanitised label. No command of a gated stage ran without its license |
| Pipeline.RanQaAfterFastSurfer | run_pipeline.py:197-199 | A QA command ran only with the FastSurfer license present, right after a FastSurfer command for the same subject that succeeded |
| Pipeline.QaInCutPlan | run_pipeline.py:197-199 | Cutting a plan after its first failing command keeps each QA command behind a FastSurfer command, which then succeeded |
| Pipeline.LicenseSkips | run_pipeline.py:162-323 | A stage prints the license error exactly when it is reached, gated and unlicensed. DeepBrainNet and the segmentation never skip. A skipped stage still created its directory |
| Pipeline.RerunWithExistingDirs | run_pipeline.py:150 | Directories that already exist change neither the commands, the skips nor the abort. A second run over the first run's directories leaves them unchanged |
| Pipeline.AdvanceAt | run_pipeline.py:338-347 | Calling stage `i` leaves the remaining stages of `__main__` to run |
| Pipeline.Pipeline.RunBash | run_pipeline.py:77-82 | The command is logged. The run aborts exactly when its exit status is non-zero |
| Pipeline.Pipeline.MakeDirs | run_pipeline.py:150 | The directory and all its ancestors exist, whether or not they existed before |
| Pipeline.Pipeline.SkipStage | run_pipeline.py:200-201 | The stage is recorded as skipped and nothing else changes |
| Pipeline.Pipeline.RunDcm2Bids | run_pipeline.py:88-136 | The new state is the conversion stage applied to the old state |
| Pipeline.Pipeline.RunMriqc | run_pipeline.py:139-159 | The new state is the MRIQC stage applied to the old state |
| Pipeline.Pipeline.RunFastSurfer | run_pipeline.py:162-201 | The new state is the FastSurfer stage applied to the old state, QA included and license-gated |
| Pipeline.Pipeline.RunDeepBrainNet | run_pipeline.py:204-228 | The new state is the DeepBrainNet stage applied to the old state |
| Pipeline.Pipeline.RunWmhSegmentation | run_pipeline.py:231-251 | The new state is the segmentation stage applied to the old state |
| Pipeline.Pipeline.RunQsiPrep | run_pipeline.py:254-291 | The new state is the QSIprep stage applied to the old state, license-gated |
| Pipeline.Pipeline.RunFmriPrep | run_pipeline.py:294-323 | The new state is the fMRIprep stage applied to the old state, license-gated |
| Pipeline.Pipeline.RunMain | run_pipeline.py:329-349 | The final state is the seven stages of `__main__` run in order until one raises |
| Tables.AppendedWellFormed | lesion-segmentation_src/run_segmentation.py:144-152 | Appending rows that are not the header and have the header's width keeps one header followed by rectangular rows. Creating the file gives the same shape |
| Tables.AppendedTwice | deep-brain-net_src/run_prediction.py:30-38 | Two appends equal one append of both batches |
| Tables.AppendedEachFlatten | deep-brain-net_src/run_prediction.py:30-38 | A series of runs appends all their rows in run order |
| Tables.RunsFromNoFile | deep-brain-net_src/run_prediction.py:30-38 | Starting with no file, the runs leave one header followed by every run's rows |
| Tables.CsvFile.Write | deep-brain-net_src/run_prediction.py:25-28 | Opening with `"w"` replaces the content with the rows written |
| Tables.CsvFile.Append | deep-brain-net_src/run_prediction.py:31-33 | Opening with `"a+"` adds the rows after the existing content |
| Tables.AppendOrCreate | deep-brain-net_src/run_prediction.py:30-38 | An existing file gets the rows appended without a header. A missing file is created with the header and the rows |
| Text.RStripSpec | lesion-segmentation_src/run_segmentation.py:137 | `rstrip()` keeps a prefix that does not end in whitespace and removes only whitespace |
| Text.SplitPiecesLackSep | lesion-segmentation_src/run_segmentation.py:137 | No piece of `split(" ")` contains the separator |
| Text.JoinSplit | lesion-segmentation_src/run_segmentation.py:137 | Joining the pieces with the separator gives back the string |
| Text.SplitJoin | lesion-segmentation_src/run_segmentation.py:137 | Splitting the join of separator-free pieces gives back the pieces |
| Text.UniversalNewlines | lesion-segmentation_src/run_segmentation.py:135 | Text-mode reading leaves no carriage return and never lengthens the text |
| Text.SplitLinesConcat | lesion-segmentation_src/run_segmentation.py:136 | `readlines()` loses nothing: the lines concatenate to the text |
| Text.SplitLinesShape | lesion-segmentation_src/run_segmentation.py:136 | Every line is non-empty. Every line but the last ends in its only newline |
| Text.NatToStringRoundTrip | lesion-segmentation_src/run_segmentation.py:143 | `int(str(n)) == n` for the minimum cluster size and the slice number |
| Text.NatToStringInjective | deep-brain-net_src/Slicer.py:39 | Distinct numbers have distinct decimal forms |
| Segmentation.MakeMasterfile | lesion-segmentation_src/run_segmentation.py:93-103 | The file holds the three paths, each followed by a space |
| Segmentation.SpaceTerminatedJoin | lesion-segmentation_src/run_segmentation.py:101-102 | Writing each element and a space equals joining the elements and a final empty field with spaces |
| Segmentation.MasterfileFields | lesion-segmentation_src/run_segmentation.py:97-102 | For an output directory without spaces, splitting the masterfile on spaces gives back the three paths, then an empty field |
| Segmentation.MasterfileOneLine | lesion-segmentation_src/run_segmentation.py:97-102 | For an output directory without newlines, the masterfile is a single line |
| Segmentation.OutputPathsDistinct | lesion-segmentation_src/run_segmentation.py:120-135 | Distinct thresholds have distinct mask and report paths, and no mask path is a report path |
| Segmentation.BiancaCommands | lesion-segmentation_src/run_segmentation.py:106-122 | BIANCA runs first on the masterfile. Then comes one binarisation of its probability map per threshold, in threshold order |
| Segmentation.RunBianca | lesion-segmentation_src/run_segmentation.py:106-122 | The commands run until the first failure, and the result says whether all succeeded |
| Segmentation.Tokens | lesion-segmentation_src/run_segmentation.py:137 | A line always yields at least one field, so `l[-1]` exists |
| Segmentation.ParseReport | lesion-segmentation_src/run_segmentation.py:136-142 | The loop leaves `n` and `v` as the prefix fold of the line rule over the report |
| Segmentation.ScanNumber | lesion-segmentation_src/run_segmentation.py:138-139 | Without a `number` line, `n` keeps its earlier value. Otherwise `n` is the last field of the last `number` line |
| Segmentation.ScanVolume | lesion-segmentation_src/run_segmentation.py:140-141 | Without a `volume` line that is not a `number` line, `v` keeps its earlier value. Otherwise `v` is the last field of the last such line |
| Segmentation.RunBiancaStats | lesion-segmentation_src/run_segmentation.py:125-152 | The commands, the error and the collated table are those of the threshold loop |
| Segmentation.StatsLoopStops | lesion-segmentation_src/run_segmentation.py:125-152 | After an error, later thresholds change nothing |
| Segmentation.StatsCommands | lesion-segmentation_src/run_segmentation.py:125-128 | One statistics command runs per threshold, in order, until a failure. There is a row per threshold exactly when nothing failed |
| Segmentation.StatsRows | lesion-segmentation_src/run_segmentation.py:125-143 | Row `i` has the header's five fields: the subject, threshold `i`, the minimum cluster size, then `n` and `v` as the line loop leaves them after scanning the reports of thresholds `0` to `i` in order, from both unbound |
| Segmentation.StatsCounts | lesion-segmentation_src/run_segmentation.py:125-141 | While nothing has raised, the loop's `n` and `v` are the scan of every report so far, joined in threshold order |
| Segmentation.ScanConcat | lesion-segmentation_src/run_segmentation.py:136-141 | Scanning two runs of lines in turn gives what scanning them joined gives |
| Segmentation.ScanNumberBound | lesion-segmentation_src/run_segmentation.py:138-139 | After a line with `number`, `n` is bound |
| Segmentation.StatsRowNotHeader | lesion-segmentation_src/run_segmentation.py:131-143 | No collated row equals the header |
| Segmentation.StatsCollatedWellFormed | lesion-segmentation_src/run_segmentation.py:144-152 | A well-formed collated file stays well formed, and a newly created one is well formed |
| Segmentation.FirstReportUnbound | lesion-segmentation_src/run_segmentation.py:138-143 | With no `number` line in the first report, building the row raises and nothing is collated |
| Segmentation.FirstReportUnboundVolume | lesion-segmentation_src/run_segmentation.py:138-143 | With a `number` line but no line that assigns `v` in the first report, building the row raises on `v` and nothing is collated |
| Segmentation.StaleCounts | lesion-segmentation_src/run_segmentation.py:138-143 | A second report with neither line repeats the first row's `n` and `v` |
| Segmentation.RunSegmentation | lesion-segmentation_src/run_segmentation.py:170-175 | Masterfile, then BIANCA, then statistics. A failing BIANCA command ends the script before any statistics, and the collated table is untouched |
| Prediction.PredictionRow | deep-brain-net_src/run_prediction.py:22 | The row has the header's width: the subject, then the age |
| Prediction.PerSubjectNotCollated | deep-brain-net_src/run_prediction.py:23-25 | The per-subject file is never the collated file |
| Prediction.WritePrediction | deep-brain-net_src/run_prediction.py:21-38 | The per-subject file holds the header and the row. The collated file gets the row appended, or is created with both |
| Prediction.CollatedAfterRuns | deep-brain-net_src/run_prediction.py:30-38 | Starting with no collated file, N runs leave one header and then one row per run, in run order |
| Median.SortSpec | deep-brain-net_src/Model_Test.py:66 | Sorting yields a sorted permutation |
| Median.InsertMultiset | deep-brain-net_src/Model_Test.py:66 | Inserting a value adds exactly that value |
| Median.InsertSorted | deep-brain-net_src/Model_Test.py:66 | Inserting a value keeps a sorted sequence sorted |
| Median.SortedUnique | deep-brain-net_src/Model_Test.py:66 | A multiset has exactly one sorted arrangement |
| Median.MedianPermutation | deep-brain-net_src/Model_Test.py:66 | The median depends only on the multiset of values |
| Median.MedianBetween | deep-brain-net_src/Model_Test.py:66 | The median lies between the smallest and the largest value |
| Median.MedianConstant | deep-brain-net_src/Model_Test.py:66 | A constant collection has that constant as median |
| AgeModel.ScanIdSpec | deep-brain-net_src/Model_Test.py:41 | The ID is the prefix of the file name before its first `_T1`, or all of the file name when there is none |
| AgeModel.ScanIdWhole | deep-brain-net_src/Model_Test.py:41 | A name without `_T1` is its own ID |
| AgeModel.ScanIdUnique | deep-brain-net_src/Model_Test.py:41 | A prefix free of `_T1` that ends at a `_T1` or at the end of the name is the ID |
| AgeModel.FirstWithoutDash | deep-brain-net_src/Model_Test.py:40 | Finds the first file name without `-`, where `split('-')[1]` raises. There is none exactly when every name has a `-` |
| AgeModel.ParseIds | deep-brain-net_src/Model_Test.py:38-42 | The loop raises at the first name without `-`. Otherwise it gives one ID per file name, in order |
| AgeModel.GroupPredictions | deep-brain-net_src/Model_Test.py:55-64 | The keys are distinct and are exactly the IDs. Each column holds, in order, the predictions whose ID is its key |
| AgeModel.GroupOfSnoc | deep-brain-net_src/Model_Test.py:61-62 | A further file's prediction joins the end of its own ID's column and no other |
| AgeModel.GroupsMultisetSnoc | deep-brain-net_src/Model_Test.py:55-64 | A further prediction joins the columns exactly when its ID is among the keys |
| AgeModel.GroupsMultisetAll | deep-brain-net_src/Model_Test.py:55-64 | Columns for distinct keys covering every ID hold exactly the predictions |
| AgeModel.GroupsCoverPredictions | deep-brain-net_src/Model_Test.py:55-64 | Between them, the columns hold every prediction exactly once |
| AgeModel.GroupOfLength | deep-brain-net_src/Model_Test.py:61-62 | A column is as long as its ID is frequent |
| AgeModel.GroupsBalanced | deep-brain-net_src/Model_Test.py:58-66 | The columns can be stacked exactly when every ID occurs equally often |
| AgeModel.PredictAge | deep-brain-net_src/Model_Test.py:38-67 | The result, in order of precedence: the missing-`-` error; a count mismatch; NaN for no files; the ragged error when IDs occur unequally often; otherwise the median of all predictions, pooled |
| AgeModel.DistinctIdsPool | deep-brain-net_src/Model_Test.py:58-66 | When every file has its own ID, the columns stack and the age is the median of all predictions |
| AgeModel.SharedIdPool | deep-brain-net_src/Model_Test.py:58-66 | When every file has the same ID, there is one column and the age is the median of all predictions |
| Slicer.DropLast7 | deep-brain-net_src/Slicer.py:39 | Python's `[:-7]`: a prefix, seven characters shorter, or empty |
| Slicer.StemOfInput | deep-brain-net_src/Slicer.py:22 | Cutting `.nii.gz` leaves the subject and `_brain_MNI` |
| Slicer.WriteSlices | deep-brain-net_src/Slicer.py:22-39 | Reads `<dir>/<subject>_brain_MNI.nii.gz` and records it as the one name. Writes slice `x` for planes `45 + x` in turn. It succeeds exactly when the volume has at least 125 planes, and otherwise stops at the first missing plane |
| Slicer.SlicePathsDistinct | deep-brain-net_src/Slicer.py:38-39 | Distinct slices go to distinct files, so none overwrites another |
| Slicer.MarkerInSliceName | deep-brain-net_src/Slicer.py:39 | A `_T1` occurs in a slice name exactly where the subject holds one: the `_brain_MNI-<x>.jpg` suffix neither makes nor completes one |
| Slicer.SliceScanId | deep-brain-net_src/Slicer.py:39 | Every slice name has a `-`; its scan ID is `Test/` plus the subject's own scan ID when the subject holds a `_T1` (the same for all slices), and the whole slice name otherwise |
| Slicer.SlicedSubjectAge | deep-brain-net_src/Slicer.py:34-39 | For distinct slices of any subject, listed in any order, the reported age is the median of all their predictions, whether the slices share one scan ID (one column) or have one each |
| Heuristic.CreateKey | hediconv_src/heuristic.py:4-7 | A missing or empty template is refused. Otherwise the template, output types and annotation classes come back unchanged, with `('nii.gz',)` as the default output type |
| Heuristic.KeysValid | hediconv_src/heuristic.py:15-25 | Every template of the heuristic is accepted, and distinct outputs have distinct keys |
| Heuristic.RulesExclusive | hediconv_src/heuristic.py:30-46 | No series matches two rules. The two fieldmap rules are told apart by `dim3` alone |
| Heuristic.LastMatchSpec | hediconv_src/heuristic.py:30-46 | The winning series matches the rule and no later series does. There is none exactly when no series matches |
| Heuristic.InfoToDict | hediconv_src/heuristic.py:10-48 | The seven outputs are always present. The resting-state output is present only once a series matched its rule. Each output holds nothing, or the id of the last series matching its rule |
| Heuristic.FileSeries | hediconv_src/heuristic.py:30-46 | A series files its id under the one output whose rule it matches. A series matching no rule changes nothing |
| Heuristic.ReadOne | hediconv_src/heuristic.py:30-46 | One series sets the output whose rule it matches, if any, and leaves every other output as it was |

## Left out

- The shell text of each command (container flags, bind mounts, tool options) is left out. A command is the image and subject it runs with, or for the segmentation the files it reads and writes.
- Printing and timestamps are left out: `printParameters`, the `[START]`/`[FINISHED]` lines and the stage banners.
- The command-line parsing in `run_pipeline.py` and `run_segmentation.py` is left out. The subject is a parameter.
- `runPreprocess`, `runMasking` and `tidy` in `run_segmentation.py` are left out. They are fixed tool calls with no logic of their own, and the model starts from the preprocessed images.
- The `mkdir` of `outdir` at the top of `run_segmentation.py` is left out.
- Pipeline.Pipeline.MakeDirs: every `mkdir(parents=True, exist_ok=True)` succeeds in the model. The `FileExistsError` raised when a path part exists as a file, and the `OSError` raised on a permission or disk error, are not modelled, so `Pipeline.StageStep` never fails at its `mkdir` and `Pipeline.RerunWithExistingDirs` holds only under that assumption.
- The networks are not modelled: the Keras model of `Model_Test.py` and `antspynet.brain_age` in `run_prediction.py`. Predictions are given values; the age in `run_prediction.py` is the text `csv.writer` writes for it.
- Floating point is left out. Predictions, the median and the thresholds are exact. A threshold is carried as the text `str(t)` gives.
- Loading the volume, the intensity rescaling and the image conversion of `Slicer.py` are left out. The volume is only its number of axial planes.
- `AgeModel.PredictAge` leaves out the generator's batching (`batch_size`, `steps`) and the CSV writing of the result row. The result row is returned.
- `AgeModel.PredictAge` returns NaN for an empty slice folder, as `np.median([])` does. It does not model whatever the network call does on zero files.
- `Heuristic.InfoToDict` keys its dictionary by output rather than by the `create_key` tuple. `Heuristic.KeysValid` shows the two keyings are in one-to-one correspondence.
- `Heuristic.InfoToDict` keeps only the fields of a series that the heuristic reads.
- `Heuristic.CreateKey` takes a template that is a string or absent. Python values of other types are not modelled.
- The first `x.split('-')[1]` in `Model_Test.py` also yields a slice number that is never used. Only its error is modelled.
- Concurrency between subjects writing the same collated file is not modelled. The source takes no lock.
