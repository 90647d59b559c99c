# AZ-Config-Converter, modelled in Dafny

The converter turns local Azure Functions settings files (`{"Values": {...}}`)
into two deployment artefacts, once per target environment:

- a release-pipeline argument line, `-Key1 "value1" -Key2 "value2"`, written to
  `{env}_environment\Azure-DevOps-ReleasePipeline-Config\{env}_{filename}.txt`
  (`Converter.LocalToPipeline`);
- a Function App settings array, `[{name, value, slotSetting: false}, ...]`,
  written to `{env}_environment\Azure-FunctionApp-Config\{env}-{filename}.json`
  (`Converter.PipelineToAzureFAConfig`).

Every value goes through `Converter.replace_variables`, which looks up the
configuration's `variables` table. It is keyed by environment, then by setting
key. If the table has no override for the pair, the raw value is kept. A
literal override replaces the value. An override of the form `#$X$#` is an
indirection marker: it takes the entry for the same key under environment `X`.
That lookup is done exactly once.

The project has four modules:

- `Outcomes` (outcomes.dfy) holds `Option`, `Result`, and the three errors the
  model keeps: a `KeyError` for a missing environment, a `KeyError` for a
  missing key, and a missing input file. The other ways `convert.py` can stop
  are listed under "Left out".
- `Resolution` (resolution.dfy) models `replace_variables`. That includes
  Python's `startswith`, `endswith` and the slice `value[2:-2]`, with its
  negative-index and empty-range rules.
- `Formats` (formats.dfy) models the two serialising loops. Each is a method
  with a loop, proved equal to a specification function over the resolved
  entries. The module also gives a reader for the argument line, with a proved
  round trip.
- `Convert` (convert.dfy) covers output naming and the jobs enumerated by the
  three nested loops (mapping, then path pair, then environment). It also holds
  the run over those jobs. A run writes one output per job and ends at the
  first exception. Outputs written before that exception stay written.

How `convert.py` behaves, as the model states it:

- Any exception ends the whole command. Nothing is skipped per file.
- A marker whose target environment or key is missing raises a `KeyError`
  (convert.py:82). The model turns it into a `Result` error that ends the run.
- Output folders are `{env}_environment\{subfolder}`, relative to the working
  directory, with no root folder above them.

## Model

| member | source | states |
|---|---|---|
| Resolution.StartsWith | convert.py:80 | Python's `startswith`: the prefix is no longer than the string and equals its first characters |
| Resolution.EndsWith | convert.py:80 | Python's `endswith`: the suffix is no longer than the string and equals its last characters |
| Resolution.SliceBound | convert.py:81 | one slice bound as Python normalises it: a bound in 0..n is kept, a negative bound counts from the end, one below -n becomes 0 and one above n becomes n |
| Resolution.Slice | convert.py:81 | Python's `s[start:stop]`: the characters between the normalised bounds, or empty when they cross; never longer than s |
| Resolution.IsMarker | convert.py:80 | the indirection test: starts with `#$` and ends with `$#`, where the two may overlap |
| Resolution.MarkerTarget | convert.py:81 | the environment a marker names, `value[2:-2]` |
| Resolution.Marker | convert.py:80-81 | the marker `#$env$#` that names env; MarkerRoundTrip proves MarkerTarget undoes it |
| Resolution.Resolve | convert.py:76-85 | an error is possible only when (env, key) has an override that is a marker, and the error names the marker's target environment or the missing key under it |
| Resolution.ResolveWithoutOverride | convert.py:78-85 | with no entry for the environment or the key, the raw value is returned unchanged |
| Resolution.ResolveEmptyTable | convert.py:78-85 | an empty table never changes a value |
| Resolution.ResolveLiteral | convert.py:78-83 | an override that is not a marker is the result, whatever the raw value was |
| Resolution.ResolveOneHop | convert.py:80-83 | a marker yields the target environment's entry for the same key, returned as-is even when it is itself a marker (one hop only) |
| Resolution.ResolveMissingTarget | convert.py:80-82 | a marker naming an absent environment gives MissingEnvironment, and one naming an environment without the key gives MissingKey |
| Resolution.ResolveThroughMarker | convert.py:79-82 | an override `#$other$#` yields other's entry for the key |
| Resolution.ResolveOverlappingMarker | convert.py:80-82 | `#$#` counts as a marker, because the prefix and suffix overlap, and it refers to the environment named "" |
| Resolution.MarkerShape | convert.py:80-81 | every marker has at least 3 characters; one of 4 or more is `#$` + target + `$#`, and the only 3-character marker is `#$#`, with target "" |
| Resolution.MarkerRoundTrip | convert.py:80-81 | wrapping a name in `#$…$#` gives a marker whose extracted target is that name |
| Formats.ResolveAll | convert.py:27-62 | the per-entry walk in Values order; on success the result has the input's length and keys, and the first failing entry's error ends it (lines 27-28 and 61-62) |
| Formats.ResolveAllOk | convert.py:27-28 | resolving all values succeeds if and only if every entry resolves; on success the keys keep their order and each is paired with its resolved value |
| Formats.ResolveAllFirstError | convert.py:27-28 | a failed walk reports the error of the first entry that does not resolve, and every earlier entry resolved |
| Formats.ResolveAllErrPersists | convert.py:27-28 | once a prefix fails, every longer prefix fails with the same error |
| Formats.Token | convert.py:29 | one argument `-{key} "{value}"`, with the value neither quoted nor escaped |
| Formats.Tokens | convert.py:26-30 | one token per entry, in entry order |
| Formats.SpaceJoin | convert.py:31 | Python's `' '.join`: the parts separated by single spaces, "" for no parts |
| Formats.PipelineLine | convert.py:26-31 | the joined tokens of the resolved entries, or the first resolution error |
| Formats.SpaceJoinTokensEnds | convert.py:31 | the joined line is empty exactly when there are no entries; otherwise it starts with `-` and ends with `"`, so it has no leading or trailing space |
| Formats.PipelineLineShape | convert.py:26-31 | the line is the space-join of exactly one `-key "value'"` token per entry, in input order, where value' is the resolved value |
| Formats.FormatPipelineLine | convert.py:26-31 | the append loop followed by the join returns exactly the specified line, or the first resolution error |
| Formats.ParseToken | convert.py:29 | a reader for one token; whatever it returns is strictly shorter than its input |
| Formats.ParseTokenSound | convert.py:29 | whatever the reader accepts is exactly a token `-key "value"` followed by the text it returns |
| Formats.ParseTokenOfToken | convert.py:29 | a token whose key has no space and whose value has no `"` reads back as its key and value, followed by the text after it |
| Formats.ParseLineRoundTrip | convert.py:26-31 | when no key has a space and no value has a `"`, reading the line back gives the entries it was made from |
| Formats.ParseTokensRoundTrip | convert.py:26-31 | the same round trip for a non-empty entry list |
| Formats.QuotedValueIsAmbiguous | convert.py:29 | values are not escaped, so one entry whose value has quotes prints like two plain entries |
| Formats.Settings | convert.py:63-67 | one `{name, value, slotSetting: false}` record per entry, in entry order |
| Formats.FunctionAppSettings | convert.py:60-67 | the records of the resolved entries, as many as the input has, or the first resolution error |
| Formats.FunctionAppSettingsShape | convert.py:60-67 | the array has the input's length and key order; entry i has name = key i, value = resolved value i, and slotSetting false |
| Formats.FunctionAppNamesDistinct | convert.py:60-67 | distinct input keys give distinct setting names |
| Formats.FunctionAppRoundTrip | convert.py:60-67 | with no override for the environment, the array's (name, value) pairs are the input entries |
| Formats.LineMatchesSettings | convert.py:26-31 | the two serialisers fail together with the same error; otherwise the line is the token join of the array's (name, value) pairs |
| Formats.BuildSettings | convert.py:60-67 | the record-appending loop returns exactly the specified array, or the first resolution error |
| Formats.ResolveAllTwo | convert.py:27-31 | two entries that resolve to v1 and v2 give the entries (k1, v1), (k2, v2) and the line `token1 token2` |
| Formats.ExampleWithoutOverrides | convert.py:26-31 | `ApiKey=abc, Debug=true` for "dev" with no overrides gives `-ApiKey "abc" -Debug "true"` and the matching two-record array |
| Formats.ExampleWithIndirection | convert.py:76-85 | a `#$prod$#` override on ApiKey takes prod's value, and Debug keeps its raw value |
| Convert.Subfolder | convert.py:19-52 | `Azure-DevOps-ReleasePipeline-Config` for the pipeline command, `Azure-FunctionApp-Config` for the function-app command (lines 19 and 52) |
| Convert.OutputFolder | convert.py:19-52 | `{env}_environment\{subfolder}` (lines 19 and 52) |
| Convert.OutputFileName | convert.py:33-71 | the name starts with the environment and ends with the filename plus `.txt` (pipeline) or `.json` (function app) (lines 33 and 71) |
| Convert.OutputPath | convert.py:33-71 | the path starts with `{env}_environment\` and ends with a backslash and the output file name (lines 33 and 71) |
| Convert.EnvOfPath | convert.py:19 | with no backslash in environment names, the environment is determined by the path |
| Convert.FileNameInjective | convert.py:33 | for a fixed environment, the file name determines the logical filename (both commands) |
| Convert.OutputPathInjective | convert.py:33 | within one command, distinct (environment, filename) pairs get distinct output paths when environment names have no backslash |
| Convert.OutputPathsOfCommandsDiffer | convert.py:71 | a pipeline output path (`.txt`) never equals a function-app output path (`.json`) |
| Convert.PairJobs | convert.py:18 | the innermost loop: one job per environment name, in order, all for the same input file and filename |
| Convert.PairsJobs | convert.py:17-18 | the middle loop: the jobs of each (path, filename) pair in turn |
| Convert.Plan | convert.py:13-18 | the outer loop: the jobs of each mapping in turn |
| Convert.PairsJobsAt | convert.py:17-18 | one mapping yields P·N jobs (P path pairs, N environment names), and the job at a·N+b is path pair a with environment b |
| Convert.PairsJobsAppend | convert.py:17 | the jobs of concatenated path lists are the concatenated jobs |
| Convert.PlanAppend | convert.py:13 | the jobs of concatenated mapping lists are the concatenated jobs |
| Convert.PlanSplit | convert.py:13-18 | mapping i's jobs form one block, after all earlier mappings' jobs and before all later ones |
| Convert.PlanAt | convert.py:13-18 | every (mapping, path pair, environment) triple is a job, at the position the loop order gives it |
| Convert.PairsJobsOnly | convert.py:17-18 | conversely, every job of one mapping is path pair a with environment b, at position a·N+b for N environment names |
| Convert.PlanOnlyTriples | convert.py:13-18 | conversely, every job of the plan is one (mapping, path pair, environment) triple, at its loop-order position |
| Convert.PlanSize | convert.py:13-18 | the sum over the mappings of (number of path pairs)·(number of environment names) |
| Convert.PlanLength | convert.py:13-18 | the plan has exactly PlanSize jobs: one per (mapping, path pair, environment) triple |
| Convert.ConvertValues | convert.py:24-69 | the pipeline command converts a file to its argument line, the function-app command to its settings array; both fail with the first resolution error (lines 24-31 and 57-69) |
| Convert.RunJob | convert.py:19-74 | one job: FileNotFound when the input is absent, otherwise the conversion for the job's environment at OutputPath (lines 19-36 and 52-74) |
| Convert.JobResults | convert.py:13-36 | what each job would produce, one result per job, in job order |
| Convert.Run | convert.py:13-36 | the jobs in order until the first error; never more outputs than jobs, and one per job when nothing fails |
| Outcomes.Collect | convert.py:13-36 | steps in order until the first error, which ends the run like an uncaught exception; never more values than steps, and one per step when nothing fails |
| Convert.RunJobOk | convert.py:19-74 | a successful job read an existing input file, converted it for the job's environment, and names its output after that environment and the job's filename (lines 19-36 and 52-74) |
| Convert.RunOutcome | convert.py:13-36 | a run with no failure writes one output per job, in order; a failed run wrote the outputs of the jobs before the failing one, and its error is that job's error |
| Convert.RunStopsAtFailure | convert.py:13-36 | no job after a failure is attempted |
| Convert.RunWritesEachJob | convert.py:13-36 | output k of a run with no failure is job k's conversion, at job k's path |
| Convert.EveryTripleWritten | convert.py:13-74 | a run with no failure writes, at the loop-order position, the conversion of each input file for each environment of its mapping, to that environment's path (lines 13-36 and 46-74) |
| Convert.EveryOutputFromTriple | convert.py:13-74 | conversely, every output of a run with no failure is the conversion of one triple's input file for its environment, at that environment's path and its loop-order position (lines 13-36 and 46-74) |
| Convert.RunStep | convert.py:18-36 | one more job extends a run with no failure by that job's output, or ends it with that job's error |
| Convert.ConvertFile | convert.py:24-69 | the per-file conversion dispatches to the serialising loops and equals the specified content (lines 24-31 and 57-69) |
| Convert.RunOneJob | convert.py:19-74 | one job: a missing input file is FileNotFound, otherwise the file's conversion at the job's output path (lines 19-36 and 52-74) |
| Convert.RunPair | convert.py:18-36 | the environment loop extends a run by the jobs of one path pair, stopping at the first error |
| Convert.RunMapping | convert.py:17-36 | the path loop extends a run by the jobs of one mapping, stopping at the first error |
| Convert.RunCommand | convert.py:13-36 | the three nested loops produce exactly the run of the whole job plan |
| Convert.LocalToPipeline | convert.py:6-36 | the pipeline command's outputs and final error are the run of the plan with argument lines |
| Convert.PipelineToAzureFAConfig | convert.py:39-74 | the function-app command's outputs and final error are the run of the plan with settings arrays |

## Left out

- Exceptions other than the three the model keeps are not modelled. These are
  a JSON decode error (convert.py:24, 57), a `KeyError` on `Values`
  (convert.py:27, 58), an `AttributeError` from `startswith` on a non-string
  override (convert.py:80), an `OSError` from `makedirs` or from opening an
  output file (convert.py:20, 35, 53, 73), and a `ValueError` when a path
  entry is not a pair (convert.py:17, 50).
- Reading `converter.json` and the input files, and `json.load`/`json.loads`
  (convert.py:7-8, 22-24, 40-41, 55-58). Configuration arrives as parsed values.
  Input files are a map from path to the parsed `Values` entries, so malformed
  JSON, a missing `Values` key and non-string JSON values are not modelled. An
  absent path is the `FileNotFound` error.
- The exact text of `json.dumps(..., indent=2)` (convert.py:69). The model keeps
  the record list, not its printed whitespace.
- `os.makedirs` and the writes themselves (convert.py:20, 35-36, 53, 73-74).
  Outputs are a sequence of (path, content) in write order. The final state of
  the file system is not modelled, including a later write to the same path
  replacing an earlier one.
- `os.path.join` is plain concatenation with a backslash. On POSIX it would put
  a `/` before the file name.
- The entry point `main` (convert.py:87-92). It runs the two commands one after
  the other.
- The input file is re-opened for each environment. The model assumes its
  content does not change during a run.
- Values in the `variables` table are assumed to be strings nested two levels
  deep. A non-string override, where Python would fail on `startswith`, is not
  modelled.
- Formats.ParseLineRoundTrip: the round trip is proved only for keys without
  spaces and values without double quotes. The line format cannot be read back
  otherwise, as Formats.QuotedValueIsAmbiguous shows.
- Convert.OutputPathInjective: proved only for environment names without a
  backslash.
