/** The two commands of Converter (convert.py:6-74): output naming, the
    enumeration of (mapping, input file, environment) jobs, and a run that
    converts and writes one output per job, stopping at the first exception. */
module Convert {
  import opened Outcomes
  import opened Resolution
  import opened Formats

  /** Which command runs: LocalToPipeline or PipelineToAzureFAConfig. */
  datatype Target = ReleasePipeline | FunctionApp

  /** One (path, filename) item of a mapping's "path" list: where the input
      settings file is and the logical name its outputs are given. */
  datatype PathPair = PathPair(path: string, filename: string)

  /** One item of config-path.env: environment names sharing input files. */
  datatype EnvMapping = EnvMapping(names: seq<string>, paths: seq<PathPair>)

  /** One conversion: an input file, its logical name, and one environment. */
  datatype Job = Job(path: string, filename: string, env: string)

  /** What is written: an argument line, or the settings array that is
      dumped as JSON. */
  datatype Content = Text(line: string) | Json(settings: seq<Setting>)

  datatype Output = Output(path: string, content: Content)

  /** The separator os.path.join puts between folder and file name. */
  const Sep := "\\"

  function Subfolder(target: Target): string {
    match target
    case ReleasePipeline => "Azure-DevOps-ReleasePipeline-Config"
    case FunctionApp => "Azure-FunctionApp-Config"
  }

  function OutputFolder(target: Target, env: string): string {
    env + "_environment" + Sep + Subfolder(target)
  }

  /** `{env}_{filename}.txt` for the pipeline line, `{env}-{filename}.json`
      for the settings array. */
  function OutputFileName(target: Target, env: string, filename: string): (name: string)
    ensures StartsWith(name, env)
    ensures EndsWith(name, filename + (if target.ReleasePipeline? then ".txt" else ".json"))
  {
    match target
    case ReleasePipeline => env + "_" + filename + ".txt"
    case FunctionApp => env + "-" + filename + ".json"
  }

  /** `{env}_environment\{subfolder}\{file name}`. */
  function OutputPath(target: Target, env: string, filename: string): (p: string)
    ensures StartsWith(p, env + "_environment" + Sep)
    ensures EndsWith(p, Sep + OutputFileName(target, env, filename))
  {
    var name := OutputFileName(target, env, filename);
    PrefixAndSuffix(env + "_environment" + Sep, Subfolder(target), Sep + name);
    OutputFolder(target, env) + Sep + name
  }

  lemma PrefixAndSuffix(head: string, middle: string, tail: string)
    ensures StartsWith(head + middle + tail, head) && EndsWith(head + middle + tail, tail)
  {
    var s := head + middle + tail;
    assert s[..|head|] == head;
    assert s[|s| - |tail|..] == tail;
  }

  /** Text before the first occurrence of `c` is determined by the whole. */
  lemma HeadBeforeFirst(h1: string, r1: string, h2: string, r2: string, c: char)
    requires c !in h1 && c !in h2
    requires h1 + [c] + r1 == h2 + [c] + r2
    ensures h1 == h2
  {
    IndexOfFirst(h1, c, r1);
    IndexOfFirst(h2, c, r2);
    var p := h1 + [c] + r1;
    assert p[..|h1|] == h1;
    assert p[..|h2|] == h2;
  }

  /** The environment is the text before the first backslash of a path. */
  lemma EnvOfPath(target: Target, env1: string, name1: string, env2: string, name2: string)
    requires '\\' !in env1 && '\\' !in env2
    requires OutputFolder(target, env1) + Sep + name1 == OutputFolder(target, env2) + Sep + name2
    ensures env1 == env2
  {
    var suffix := "_environment";
    var rest1 := Subfolder(target) + Sep + name1;
    var rest2 := Subfolder(target) + Sep + name2;
    assert OutputFolder(target, env1) + Sep + name1 == (env1 + suffix) + ['\\'] + rest1;
    assert OutputFolder(target, env2) + Sep + name2 == (env2 + suffix) + ['\\'] + rest2;
    assert '\\' !in suffix;
    assert '\\' !in env1 + suffix && '\\' !in env2 + suffix;
    HeadBeforeFirst(env1 + suffix, rest1, env2 + suffix, rest2, '\\');
    assert env1 == (env1 + suffix)[..|env1|];
    assert env2 == (env2 + suffix)[..|env2|];
  }

  /** For a fixed environment the file name determines the logical filename. */
  lemma FileNameInjective(target: Target, env: string, filename1: string, filename2: string)
    requires OutputFileName(target, env, filename1) == OutputFileName(target, env, filename2)
    ensures filename1 == filename2
  {
    var name1 := OutputFileName(target, env, filename1);
    var name2 := OutputFileName(target, env, filename2);
    var ext := if target.ReleasePipeline? then 4 else 5;
    assert |name1| == |env| + 1 + |filename1| + ext;
    assert filename1 == name1[|env| + 1..|name1| - ext];
    assert filename2 == name2[|env| + 1..|name2| - ext];
  }

  /** For one command, distinct (environment, filename) pairs are written to
      distinct files, as long as environment names hold no backslash. */
  lemma OutputPathInjective(target: Target, env1: string, filename1: string, env2: string, filename2: string)
    requires '\\' !in env1 && '\\' !in env2
    requires OutputPath(target, env1, filename1) == OutputPath(target, env2, filename2)
    ensures env1 == env2 && filename1 == filename2
  {
    var name1 := OutputFileName(target, env1, filename1);
    var name2 := OutputFileName(target, env2, filename2);
    EnvOfPath(target, env1, name1, env2, name2);
    var prefix := OutputFolder(target, env1) + Sep;
    assert prefix + name1 == prefix + name2;
    assert name1 == (prefix + name1)[|prefix|..];
    assert name2 == (prefix + name2)[|prefix|..];
    FileNameInjective(target, env1, filename1, filename2);
  }

  /** The two commands never write the same file. */
  lemma OutputPathsOfCommandsDiffer(env1: string, filename1: string, env2: string, filename2: string)
    ensures OutputPath(ReleasePipeline, env1, filename1) != OutputPath(FunctionApp, env2, filename2)
  {
    var p1 := OutputPath(ReleasePipeline, env1, filename1);
    var p2 := OutputPath(FunctionApp, env2, filename2);
    assert p1[|p1| - 1] == 't';
    assert p2[|p2| - 1] == 'n';
  }

  // ---------------------------------------------------------------------
  // The jobs, in the order of the three nested loops

  /** The innermost loop: one job per environment name. */
  function PairJobs(p: PathPair, names: seq<string>): (js: seq<Job>)
    ensures |js| == |names|
  {
    seq(|names|, i requires 0 <= i < |names| => Job(p.path, p.filename, names[i]))
  }

  /** The middle loop: the jobs of each (path, filename) pair in turn. */
  function PairsJobs(paths: seq<PathPair>, names: seq<string>): seq<Job> {
    if paths == [] then []
    else
      var n := |paths| - 1;
      PairsJobs(paths[..n], names) + PairJobs(paths[n], names)
  }

  /** The outer loop: the jobs of each mapping in turn. */
  function Plan(ms: seq<EnvMapping>): seq<Job> {
    if ms == [] then []
    else
      var n := |ms| - 1;
      Plan(ms[..n]) + PairsJobs(ms[n].paths, ms[n].names)
  }

  lemma MulStep(a: nat, b: nat, n: nat, k: nat)
    requires a < n && b < k
    ensures a * k + b < n * k
  {
    calc {
      a * k + b;
    <  a * k + k;
    == (a + 1) * k;
    <= n * k;
    }
  }

  lemma {:induction false} PairsJobsLength(paths: seq<PathPair>, names: seq<string>)
    ensures |PairsJobs(paths, names)| == |paths| * |names|
  {
    if paths != [] {
      var n := |paths| - 1;
      PairsJobsLength(paths[..n], names);
      assert |paths| * |names| == n * |names| + |names|;
    }
  }

  /** The middle loop yields |paths| * |names| jobs; the one at a * |names| + b
      is path pair a with environment b. */
  lemma {:induction false} PairsJobsAt(paths: seq<PathPair>, names: seq<string>, a: nat, b: nat)
    requires a < |paths| && b < |names|
    ensures |PairsJobs(paths, names)| == |paths| * |names|
    ensures a * |names| + b < |paths| * |names|
    ensures PairsJobs(paths, names)[a * |names| + b] == Job(paths[a].path, paths[a].filename, names[b])
  {
    var n := |paths| - 1;
    var pre := paths[..n];
    var front := PairsJobs(pre, names);
    var last := PairJobs(paths[n], names);
    assert PairsJobs(paths, names) == front + last;
    PairsJobsLength(paths, names);
    PairsJobsLength(pre, names);
    MulStep(a, b, |paths|, |names|);
    var k := a * |names| + b;
    if a < n {
      MulStep(a, b, n, |names|);
      PairsJobsAt(pre, names, a, b);
      assert (front + last)[k] == front[k];
      assert pre[a] == paths[a];
    } else {
      assert k == |front| + b;
      assert (front + last)[k] == last[b];
    }
  }

  lemma {:induction false} PairsJobsAppend(xs: seq<PathPair>, ys: seq<PathPair>, names: seq<string>)
    ensures PairsJobs(xs + ys, names) == PairsJobs(xs, names) + PairsJobs(ys, names)
  {
    if ys != [] {
      var m := |ys| - 1;
      PairsJobsAppend(xs, ys[..m], names);
      assert (xs + ys)[..|xs + ys| - 1] == xs + ys[..m];
    } else {
      assert xs + ys == xs;
    }
  }

  lemma {:induction false} PlanAppend(xs: seq<EnvMapping>, ys: seq<EnvMapping>)
    ensures Plan(xs + ys) == Plan(xs) + Plan(ys)
  {
    if ys != [] {
      var m := |ys| - 1;
      PlanAppend(xs, ys[..m]);
      assert (xs + ys)[..|xs + ys| - 1] == xs + ys[..m];
    } else {
      assert xs + ys == xs;
    }
  }

  lemma PlanOfConcat(front: seq<EnvMapping>, back: seq<EnvMapping>, ms: seq<EnvMapping>)
    requires ms == front + back
    ensures Plan(ms) == Plan(front) + Plan(back)
  {
    PlanAppend(front, back);
  }

  lemma PairsJobsOfConcat(front: seq<PathPair>, back: seq<PathPair>, paths: seq<PathPair>, names: seq<string>)
    requires paths == front + back
    ensures PairsJobs(paths, names) == PairsJobs(front, names) + PairsJobs(back, names)
  {
    PairsJobsAppend(front, back, names);
  }

  /** The jobs of mapping i come as one block, after those of every earlier
      mapping and before those of every later one. */
  lemma PlanSplit(ms: seq<EnvMapping>, i: nat)
    requires i < |ms|
    ensures Plan(ms) == Plan(ms[..i]) + PairsJobs(ms[i].paths, ms[i].names) + Plan(ms[i + 1..])
  {
    PlanOfConcat(ms[..i + 1], ms[i + 1..], ms);
    PlanSnoc(ms, i);
  }

  /** Every (mapping, path pair, environment) triple is a job, at the position
      the loop order gives it. */
  lemma PlanAt(ms: seq<EnvMapping>, i: nat, a: nat, b: nat) returns (k: nat)
    requires i < |ms| && a < |ms[i].paths| && b < |ms[i].names|
    ensures k == |Plan(ms[..i])| + a * |ms[i].names| + b
    ensures k < |Plan(ms)|
    ensures Plan(ms)[k] == Job(ms[i].paths[a].path, ms[i].paths[a].filename, ms[i].names[b])
  {
    k := |Plan(ms[..i])| + a * |ms[i].names| + b;
    var mid := PairsJobs(ms[i].paths, ms[i].names);
    PlanSplit(ms, i);
    PairsJobsAt(ms[i].paths, ms[i].names, a, b);
    IndexInMiddle(Plan(ms), Plan(ms[..i]), mid, Plan(ms[i + 1..]), a * |ms[i].names| + b);
  }

  /** The converse of PairsJobsAt: every job of one mapping is some path
      pair a with some environment b, at position a * |names| + b. */
  lemma {:induction false} PairsJobsOnly(paths: seq<PathPair>, names: seq<string>, k: nat) returns (a: nat, b: nat)
    requires k < |PairsJobs(paths, names)|
    ensures a < |paths| && b < |names|
    ensures k == a * |names| + b
    ensures PairsJobs(paths, names)[k] == Job(paths[a].path, paths[a].filename, names[b])
  {
    assert paths != [];
    var n := |paths| - 1;
    var pre := paths[..n];
    var front := PairsJobs(pre, names);
    var last := PairJobs(paths[n], names);
    assert PairsJobs(paths, names) == front + last;
    PairsJobsLength(pre, names);
    if k < |front| {
      a, b := PairsJobsOnly(pre, names, k);
      assert pre[a] == paths[a];
      assert (front + last)[k] == front[k];
    } else {
      a, b := n, k - |front|;
      assert (front + last)[k] == last[b];
    }
  }

  /** The converse of PlanAt: every job of the plan comes from one
      (mapping, path pair, environment) triple, at its loop-order position. */
  lemma {:induction false} PlanOnlyTriples(ms: seq<EnvMapping>, k: nat) returns (i: nat, a: nat, b: nat)
    requires k < |Plan(ms)|
    ensures i < |ms| && a < |ms[i].paths| && b < |ms[i].names|
    ensures k == |Plan(ms[..i])| + a * |ms[i].names| + b
    ensures Plan(ms)[k] == Job(ms[i].paths[a].path, ms[i].paths[a].filename, ms[i].names[b])
  {
    assert ms != [];
    var n := |ms| - 1;
    var pre := ms[..n];
    var front := Plan(pre);
    var block := PairsJobs(ms[n].paths, ms[n].names);
    assert Plan(ms) == front + block;
    if k < |front| {
      i, a, b := PlanOnlyTriples(pre, k);
      assert pre[i] == ms[i];
      assert pre[..i] == ms[..i];
      assert (front + block)[k] == front[k];
    } else {
      i := n;
      a, b := PairsJobsOnly(ms[n].paths, ms[n].names, k - |front|);
      assert pre == ms[..i];
      assert (front + block)[k] == block[k - |front|];
    }
  }

  /** The number of jobs: |paths| * |names| summed over the mappings. */
  function PlanSize(ms: seq<EnvMapping>): nat {
    if ms == [] then 0
    else
      var n := |ms| - 1;
      PlanSize(ms[..n]) + |ms[n].paths| * |ms[n].names|
  }

  /** The plan holds exactly one job per (mapping, path pair, environment). */
  lemma {:induction false} PlanLength(ms: seq<EnvMapping>)
    ensures |Plan(ms)| == PlanSize(ms)
  {
    if ms != [] {
      var n := |ms| - 1;
      PlanLength(ms[..n]);
      PairsJobsLength(ms[n].paths, ms[n].names);
    }
  }

  /** Splits PlanAt for the solver: indexing into the middle of three concatenated blocks. */
  lemma IndexInMiddle<T>(whole: seq<T>, front: seq<T>, mid: seq<T>, back: seq<T>, j: nat)
    requires whole == front + mid + back && j < |mid|
    ensures |front| + j < |whole| && whole[|front| + j] == mid[j]
  {
  }

  // ---------------------------------------------------------------------
  // Running the jobs

  /** The conversion of one parsed settings file for one environment. */
  function ConvertValues(target: Target, values: seq<Entry>, env: string, table: Table): Result<Content> {
    match target
    case ReleasePipeline =>
      (match PipelineLine(values, env, table)
       case Err(e) => Err(e)
       case Ok(line) => Ok(Text(line)))
    case FunctionApp =>
      (match FunctionAppSettings(values, env, table)
       case Err(e) => Err(e)
       case Ok(ss) => Ok(Json(ss)))
  }

  /** One job: read its input file (given here already parsed, by path),
      convert it for the job's environment, and name the output. */
  function RunJob(target: Target, job: Job, table: Table, files: map<string, seq<Entry>>): Result<Output> {
    if job.path !in files then Err(FileNotFound(job.path))
    else
      match ConvertValues(target, files[job.path], job.env, table)
      case Err(e) => Err(e)
      case Ok(c) => Ok(Output(OutputPath(target, job.env, job.filename), c))
  }

  /** What each job would produce, in job order. */
  function JobResults(target: Target, jobs: seq<Job>, table: Table, files: map<string, seq<Entry>>)
    : (rs: seq<Result<Output>>)
    ensures |rs| == |jobs|
  {
    seq(|jobs|, i requires 0 <= i < |jobs| => RunJob(target, jobs[i], table, files))
  }

  /** The jobs in order; the first one that fails ends the run, and the
      outputs written before it stay written. */
  function Run(target: Target, jobs: seq<Job>, table: Table, files: map<string, seq<Entry>>): (r: Outcome<Output>)
    ensures |r.written| <= |jobs|
    ensures r.failure.None? ==> |r.written| == |jobs|
  {
    Collect(JobResults(target, jobs, table, files))
  }

  /** A run without failure writes one output per job, in job order; a run
      that fails wrote the outputs of the jobs before the failing one, and
      the failure is that job's error. */
  lemma RunOutcome(target: Target, jobs: seq<Job>, table: Table, files: map<string, seq<Entry>>)
    ensures var r := Run(target, jobs, table, files);
      (r.failure.None? ==> |r.written| == |jobs|)
      && (r.failure.Some? ==> (|r.written| < |jobs|
            && RunJob(target, jobs[|r.written|], table, files) == Err(r.failure.value)))
      && forall i :: 0 <= i < |r.written| ==>
           RunJob(target, jobs[i], table, files) == Ok(r.written[i])
  {
    CollectOutcome(JobResults(target, jobs, table, files));
  }

  /** Jobs after a failure are never attempted. */
  lemma RunStopsAtFailure(target: Target, jobs: seq<Job>, more: seq<Job>, table: Table,
                          files: map<string, seq<Entry>>)
    requires Run(target, jobs, table, files).failure.Some?
    requires jobs <= more
    ensures Run(target, more, table, files) == Run(target, jobs, table, files)
  {
    var rs := JobResults(target, jobs, table, files);
    var rs' := JobResults(target, more, table, files);
    assert rs <= rs';
    CollectStopsAtFailure(rs, rs');
  }

  /** A job that succeeds read an existing input file, converted it for the
      job's environment, and names the output after that environment and the
      job's logical filename. */
  lemma RunJobOk(target: Target, job: Job, table: Table, files: map<string, seq<Entry>>, o: Output)
    requires RunJob(target, job, table, files) == Ok(o)
    ensures job.path in files
    ensures ConvertValues(target, files[job.path], job.env, table) == Ok(o.content)
    ensures o.path == OutputPath(target, job.env, job.filename)
  {
  }

  /** Output k of a run without failure is job k's conversion, written to
      job k's output path. */
  lemma RunWritesEachJob(target: Target, jobs: seq<Job>, table: Table, files: map<string, seq<Entry>>, k: nat)
    requires Run(target, jobs, table, files).failure.None?
    requires k < |jobs|
    ensures var o := Run(target, jobs, table, files).written;
      k < |o|
      && jobs[k].path in files
      && o[k].path == OutputPath(target, jobs[k].env, jobs[k].filename)
      && ConvertValues(target, files[jobs[k].path], jobs[k].env, table) == Ok(o[k].content)
  {
    var o := Run(target, jobs, table, files).written;
    RunOutcome(target, jobs, table, files);
    RunJobOk(target, jobs[k], table, files, o[k]);
  }

  /** End to end: a run of a command that does not fail writes, for every
      mapping, path pair and environment, the conversion of that input file
      for that environment to the command's output path for them, as output
      number k of the run. */
  lemma EveryTripleWritten(target: Target, ms: seq<EnvMapping>, table: Table, files: map<string, seq<Entry>>,
                           i: nat, a: nat, b: nat)
    returns (k: nat)
    requires Run(target, Plan(ms), table, files).failure.None?
    requires i < |ms| && a < |ms[i].paths| && b < |ms[i].names|
    ensures k == |Plan(ms[..i])| + a * |ms[i].names| + b
    ensures var o := Run(target, Plan(ms), table, files).written;
      var p := ms[i].paths[a];
      var env := ms[i].names[b];
      k < |o|
      && p.path in files
      && o[k].path == OutputPath(target, env, p.filename)
      && ConvertValues(target, files[p.path], env, table) == Ok(o[k].content)
  {
    k := PlanAt(ms, i, a, b);
    var p := ms[i].paths[a];
    RunWritesJob(target, Plan(ms), table, files, k, Job(p.path, p.filename, ms[i].names[b]));
  }

  /** The converse of EveryTripleWritten: every output of a run with no
      failure is the conversion of one (mapping, path pair, environment)
      triple, written at that environment's path and at its loop-order position. */
  lemma EveryOutputFromTriple(target: Target, ms: seq<EnvMapping>, table: Table, files: map<string, seq<Entry>>,
                              k: nat)
    returns (i: nat, a: nat, b: nat)
    requires Run(target, Plan(ms), table, files).failure.None?
    requires k < |Run(target, Plan(ms), table, files).written|
    ensures i < |ms| && a < |ms[i].paths| && b < |ms[i].names|
    ensures k == |Plan(ms[..i])| + a * |ms[i].names| + b
    ensures var o := Run(target, Plan(ms), table, files).written;
      var p := ms[i].paths[a];
      var env := ms[i].names[b];
      p.path in files
      && o[k].path == OutputPath(target, env, p.filename)
      && ConvertValues(target, files[p.path], env, table) == Ok(o[k].content)
  {
    i, a, b := PlanOnlyTriples(ms, k);
    var p := ms[i].paths[a];
    RunWritesJob(target, Plan(ms), table, files, k, Job(p.path, p.filename, ms[i].names[b]));
  }

  lemma RunWritesJob(target: Target, jobs: seq<Job>, table: Table, files: map<string, seq<Entry>>, k: nat, job: Job)
    requires Run(target, jobs, table, files).failure.None?
    requires k < |jobs| && jobs[k] == job
    ensures var o := Run(target, jobs, table, files).written;
      k < |o|
      && job.path in files
      && o[k].path == OutputPath(target, job.env, job.filename)
      && ConvertValues(target, files[job.path], job.env, table) == Ok(o[k].content)
  {
    RunWritesEachJob(target, jobs, table, files, k);
  }

  /** One conversion, through the serialising loops. */
  method ConvertFile(target: Target, values: seq<Entry>, env: string, table: Table) returns (r: Result<Content>)
    ensures r == ConvertValues(target, values, env, table)
  {
    match target
    case ReleasePipeline =>
      var line := FormatPipelineLine(values, env, table);
      r := if line.Err? then Err(line.error) else Ok(Text(line.value));
    case FunctionApp =>
      var ss := BuildSettings(values, env, table);
      r := if ss.Err? then Err(ss.error) else Ok(Json(ss.value));
  }

  /** One job: the input file is read once per environment, as the source
      opens it inside the innermost loop. */
  method RunOneJob(target: Target, job: Job, table: Table, files: map<string, seq<Entry>>)
    returns (out: Result<Output>)
    ensures out == RunJob(target, job, table, files)
  {
    if job.path !in files {
      return Err(FileNotFound(job.path));
    }
    var content := ConvertFile(target, files[job.path], job.env, table);
    out := if content.Err? then Err(content.error)
           else Ok(Output(OutputPath(target, job.env, job.filename), content.value));
  }

  /** One more job after a run without failure so far. */
  lemma RunStep(target: Target, done: seq<Job>, job: Job, table: Table, files: map<string, seq<Entry>>,
                written: seq<Output>)
    requires Run(target, done, table, files) == Outcome(written, None)
    ensures Run(target, done + [job], table, files)
      == match RunJob(target, job, table, files)
         case Err(e) => Outcome(written, Some(e))
         case Ok(o) => Outcome(written + [o], None)
  {
    var rs := JobResults(target, done, table, files);
    assert JobResults(target, done + [job], table, files) == rs + [RunJob(target, job, table, files)];
    CollectStep(rs, RunJob(target, job, table, files), written);
  }

  lemma PairJobsSnoc(p: PathPair, names: seq<string>, k: nat)
    requires k < |names|
    ensures PairJobs(p, names[..k + 1]) == PairJobs(p, names[..k]) + [Job(p.path, p.filename, names[k])]
  {
  }

  lemma PairsJobsSnoc(paths: seq<PathPair>, names: seq<string>, j: nat)
    requires j < |paths|
    ensures PairsJobs(paths[..j + 1], names) == PairsJobs(paths[..j], names) + PairJobs(paths[j], names)
  {
    assert paths[..j + 1][..j] == paths[..j];
  }

  lemma PlanSnoc(ms: seq<EnvMapping>, i: nat)
    requires i < |ms|
    ensures Plan(ms[..i + 1]) == Plan(ms[..i]) + PairsJobs(ms[i].paths, ms[i].names)
  {
    assert ms[..i + 1][..i] == ms[..i];
  }

  lemma PairsJobsPrefix(paths: seq<PathPair>, names: seq<string>, j: nat)
    requires j < |paths|
    ensures PairsJobs(paths[..j + 1], names) <= PairsJobs(paths, names)
  {
    PairsJobsOfConcat(paths[..j + 1], paths[j + 1..], paths, names);
  }

  lemma PlanPrefix(ms: seq<EnvMapping>, i: nat)
    requires i < |ms|
    ensures Plan(ms[..i + 1]) <= Plan(ms)
  {
    PlanOfConcat(ms[..i + 1], ms[i + 1..], ms);
  }

  /** A run that has failed after `done + jobs` gives the same outcome for
      `done + more`, where `jobs` is a prefix of `more`. */
  lemma RunExtendsFailure(target: Target, done: seq<Job>, jobs: seq<Job>, more: seq<Job>, table: Table,
                          files: map<string, seq<Entry>>)
    requires Run(target, done + jobs, table, files).failure.Some?
    requires jobs <= more
    ensures Run(target, done + more, table, files) == Run(target, done + jobs, table, files)
  {
    assert done + jobs <= done + more;
    RunStopsAtFailure(target, done + jobs, done + more, table, files);
  }

  /** The innermost loop: the jobs of one path pair, one per environment,
      continuing a run that has so far written `written` without failure. */
  method RunPair(target: Target, pair: PathPair, names: seq<string>, table: Table,
                 files: map<string, seq<Entry>>, ghost done: seq<Job>, written: seq<Output>)
    returns (written': seq<Output>, failure: Option<Error>)
    requires Run(target, done, table, files) == Outcome(written, None)
    ensures Outcome(written', failure) == Run(target, done + PairJobs(pair, names), table, files)
  {
    written' := written;
    assert done + PairJobs(pair, names[..0]) == done;
    for k := 0 to |names|
      invariant Run(target, done + PairJobs(pair, names[..k]), table, files) == Outcome(written', None)
    {
      var job := Job(pair.path, pair.filename, names[k]);
      var out := RunOneJob(target, job, table, files);
      ghost var sofar := done + PairJobs(pair, names[..k]);
      RunStep(target, sofar, job, table, files, written');
      PairJobsSnoc(pair, names, k);
      assert sofar + [job] == done + PairJobs(pair, names[..k + 1]);
      if out.Err? {
        assert PairJobs(pair, names[..k + 1]) <= PairJobs(pair, names);
        RunExtendsFailure(target, done, PairJobs(pair, names[..k + 1]), PairJobs(pair, names), table, files);
        return written', Some(out.error);
      }
      written' := written' + [out.value];
    }
    assert names[..|names|] == names;
    failure := None;
  }

  /** After the jobs of path pair j, the run stands where the jobs of the
      first j + 1 path pairs leave it; if it failed there, it ends there. */
  /** Splits MappingStep for the solver: a concatenation step over plain sequences. */
  lemma ConcatAfter<T>(done: seq<T>, front: seq<T>, last: seq<T>, upto: seq<T>)
    requires upto == front + last
    ensures done + front + last == done + upto
  {
  }

  lemma MappingStep(target: Target, done: seq<Job>, paths: seq<PathPair>, names: seq<string>, j: nat,
                    table: Table, files: map<string, seq<Entry>>, r: Outcome<Output>)
    requires j < |paths|
    requires Run(target, done + PairsJobs(paths[..j], names) + PairJobs(paths[j], names), table, files) == r
    ensures Run(target, done + PairsJobs(paths[..j + 1], names), table, files) == r
    ensures r.failure.Some? ==> Run(target, done + PairsJobs(paths, names), table, files) == r
  {
    PairsJobsSnoc(paths, names, j);
    ConcatAfter(done, PairsJobs(paths[..j], names), PairJobs(paths[j], names), PairsJobs(paths[..j + 1], names));
    if r.failure.Some? {
      PairsJobsPrefix(paths, names, j);
      RunExtendsFailure(target, done, PairsJobs(paths[..j + 1], names), PairsJobs(paths, names), table, files);
    }
  }

  /** The middle loop: the jobs of one mapping, path pair by path pair. */
  method RunMapping(target: Target, mapping: EnvMapping, table: Table,
                    files: map<string, seq<Entry>>, ghost done: seq<Job>, written: seq<Output>)
    returns (written': seq<Output>, failure: Option<Error>)
    requires Run(target, done, table, files) == Outcome(written, None)
    ensures Outcome(written', failure) == Run(target, done + PairsJobs(mapping.paths, mapping.names), table, files)
  {
    written' := written;
    var paths := mapping.paths;
    assert done + PairsJobs(paths[..0], mapping.names) == done;
    for j := 0 to |paths|
      invariant Run(target, done + PairsJobs(paths[..j], mapping.names), table, files) == Outcome(written', None)
    {
      written', failure := RunPair(target, paths[j], mapping.names, table, files,
                                   done + PairsJobs(paths[..j], mapping.names), written');
      MappingStep(target, done, paths, mapping.names, j, table, files, Outcome(written', failure));
      if failure.Some? {
        return;
      }
    }
    assert paths[..|paths|] == paths;
    failure := None;
  }

  /** The three nested loops shared by both commands: mappings, then path
      pairs, then environment names; each job's output is collected in the
      order it would be written, and the first exception ends the run. */
  method RunCommand(target: Target, mappings: seq<EnvMapping>, table: Table, files: map<string, seq<Entry>>)
    returns (written: seq<Output>, failure: Option<Error>)
    ensures Outcome(written, failure) == Run(target, Plan(mappings), table, files)
  {
    written := [];
    assert Plan(mappings[..0]) == [];
    for i := 0 to |mappings|
      invariant Run(target, Plan(mappings[..i]), table, files) == Outcome(written, None)
    {
      written, failure := RunMapping(target, mappings[i], table, files, Plan(mappings[..i]), written);
      PlanSnoc(mappings, i);
      if failure.Some? {
        PlanPrefix(mappings, i);
        RunStopsAtFailure(target, Plan(mappings[..i + 1]), Plan(mappings), table, files);
        return;
      }
    }
    assert mappings[..|mappings|] == mappings;
    failure := None;
  }

  /** Converter.LocalToPipeline: an argument line per job. */
  method LocalToPipeline(mappings: seq<EnvMapping>, table: Table, files: map<string, seq<Entry>>)
    returns (written: seq<Output>, failure: Option<Error>)
    ensures Outcome(written, failure) == Run(ReleasePipeline, Plan(mappings), table, files)
  {
    written, failure := RunCommand(ReleasePipeline, mappings, table, files);
  }

  /** Converter.PipelineToAzureFAConfig: a settings array per job. */
  method PipelineToAzureFAConfig(mappings: seq<EnvMapping>, table: Table, files: map<string, seq<Entry>>)
    returns (written: seq<Output>, failure: Option<Error>)
    ensures Outcome(written, failure) == Run(FunctionApp, Plan(mappings), table, files)
  {
    written, failure := RunCommand(FunctionApp, mappings, table, files);
  }
}
