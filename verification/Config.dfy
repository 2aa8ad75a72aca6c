/** The pipeline definition: what Validate accepts, and what translate makes of it. */
module Config {
  import opened Domain
  import opened StringOrder
  import opened Runner
  import opened StepMachine
  import opened Orchestrator
  import opened Traces

  datatype StepConfig = StepConfig(name: string, run: string, timeout: int)

  datatype JobConfig = JobConfig(
    stage: string, image: string, setup: seq<string>, env: map<string, string>, steps: seq<StepConfig>)

  datatype RootConfig = RootConfig(name: string, stages: seq<string>, jobs: map<string, JobConfig>)

  datatype ConfigError =
    | NoStages
    | DuplicateStage(stage: string)
    | NoJobs
    | EmptyStage(job: string)
    | UndeclaredStage(job: string, stage: string)
    | EmptyImage(job: string)
    | NoSteps(job: string)
    | EmptyStepName(job: string, number: nat)
    | EmptyStepRun(job: string, number: nat, step: string)
    | NegativeTimeout(job: string, number: nat, step: string)
    | StageWithoutJobs(stage: string)

  // ---------- What each error means ----------

  predicate StepViolates(name: string, number: nat, step: StepConfig, e: ConfigError) {
    match e
    case EmptyStepName(j, n) => j == name && n == number && step.name == ""
    case EmptyStepRun(j, n, s) => j == name && n == number && s == step.name && step.run == ""
    case NegativeTimeout(j, n, s) => j == name && n == number && s == step.name && step.timeout < 0
    case _ => false
  }

  /** An error about the job itself. */
  predicate HeadViolates(name: string, job: JobConfig, declared: set<string>, e: ConfigError) {
    match e
    case EmptyStage(j) => j == name && job.stage == ""
    case UndeclaredStage(j, s) => j == name && s == job.stage && s != "" && s !in declared
    case EmptyImage(j) => j == name && job.image == ""
    case NoSteps(j) => j == name && job.steps == []
    case _ => false
  }

  predicate JobViolates(name: string, job: JobConfig, declared: set<string>, e: ConfigError) {
    || HeadViolates(name, job, declared, e)
    || exists i :: 0 <= i < |job.steps| && StepViolates(name, i + 1, job.steps[i], e)
  }

  function Declared(root: RootConfig): set<string> {
    set s | s in root.stages
  }

  predicate Violates(root: RootConfig, e: ConfigError) {
    match e
    case NoStages => root.stages == []
    case DuplicateStage(s) => Repeated(root.stages, s)
    case NoJobs => root.jobs == map[]
    case StageWithoutJobs(s) => s in root.stages && forall name :: name in root.jobs ==> root.jobs[name].stage != s
    case _ => exists name :: name in root.jobs && JobViolates(name, root.jobs[name], Declared(root), e)
  }

  ghost predicate Valid(root: RootConfig) {
    forall e :: !Violates(root, e)
  }

  /** What a valid configuration is, in plain words. */
  ghost predicate WellConfigured(root: RootConfig) {
    && root.stages != [] && root.jobs != map[]
    && (forall i, j :: 0 <= i < j < |root.stages| ==> root.stages[i] != root.stages[j])
    && (forall s :: 0 <= s < |root.stages| ==> exists name :: name in root.jobs && root.jobs[name].stage == root.stages[s])
    && (forall name :: name in root.jobs ==> WellConfiguredJob(root, root.jobs[name]))
  }

  ghost predicate WellConfiguredJob(root: RootConfig, job: JobConfig) {
    && job.stage != "" && job.stage in root.stages && job.image != "" && job.steps != []
    && forall k :: 0 <= k < |job.steps| ==>
         job.steps[k].name != "" && job.steps[k].run != "" && job.steps[k].timeout >= 0
  }

  lemma ValidExactly(root: RootConfig)
    ensures Valid(root) <==> WellConfigured(root)
  {
    if Valid(root) {
      ValidStages(root);
      forall name | name in root.jobs
        ensures WellConfiguredJob(root, root.jobs[name])
      {
        ValidJob(root, name);
      }
    } else {
      var e :| Violates(root, e);
      ViolationIsUnsound(root, e);
    }
  }

  lemma ValidStages(root: RootConfig)
    requires Valid(root)
    ensures root.stages != [] && root.jobs != map[]
    ensures forall i, j :: 0 <= i < j < |root.stages| ==> root.stages[i] != root.stages[j]
    ensures forall s :: 0 <= s < |root.stages| ==> exists name :: name in root.jobs && root.jobs[name].stage == root.stages[s]
  {
    hide JobViolates;
    assert !Violates(root, NoStages) && !Violates(root, NoJobs);
    forall i, j | 0 <= i < j < |root.stages|
      ensures root.stages[i] != root.stages[j]
    {
      assert !Violates(root, DuplicateStage(root.stages[i]));
    }
    forall s | 0 <= s < |root.stages|
      ensures exists name :: name in root.jobs && root.jobs[name].stage == root.stages[s]
    {
      assert !Violates(root, StageWithoutJobs(root.stages[s]));
    }
  }

  lemma ValidJob(root: RootConfig, name: string)
    requires Valid(root) && name in root.jobs
    ensures WellConfiguredJob(root, root.jobs[name])
  {
    var job := root.jobs[name];
    NoJobError(root, name, EmptyStage(name));
    NoJobError(root, name, UndeclaredStage(name, job.stage));
    NoJobError(root, name, EmptyImage(name));
    NoJobError(root, name, NoSteps(name));
    forall k | 0 <= k < |job.steps|
      ensures job.steps[k].name != "" && job.steps[k].run != "" && job.steps[k].timeout >= 0
    {
      NoJobError(root, name, EmptyStepName(name, k + 1));
      NoJobError(root, name, EmptyStepRun(name, k + 1, job.steps[k].name));
      NoJobError(root, name, NegativeTimeout(name, k + 1, job.steps[k].name));
    }
  }

  lemma NoJobError(root: RootConfig, name: string, e: ConfigError)
    requires Valid(root) && name in root.jobs
    requires !(e.NoStages? || e.DuplicateStage? || e.NoJobs? || e.StageWithoutJobs?)
    ensures !JobViolates(name, root.jobs[name], Declared(root), e)
  {
    hide JobViolates;
    assert !Violates(root, e);
  }

  lemma ViolationIsUnsound(root: RootConfig, e: ConfigError)
    requires Violates(root, e)
    ensures !WellConfigured(root)
  {
    if !(e.NoStages? || e.DuplicateStage? || e.NoJobs? || e.StageWithoutJobs?) {
      var name :| name in root.jobs && JobViolates(name, root.jobs[name], Declared(root), e);
      assert !WellConfiguredJob(root, root.jobs[name]);
    }
  }

  // ---------- Validate ----------

  method CheckStep(name: string, number: nat, step: StepConfig) returns (errs: seq<ConfigError>)
    ensures forall e :: e in errs <==> StepViolates(name, number, step, e)
  {
    errs := [];
    if step.name == "" {
      errs := errs + [EmptyStepName(name, number)];
    }
    if step.run == "" {
      errs := errs + [EmptyStepRun(name, number, step.name)];
    }
    if step.timeout < 0 {
      errs := errs + [NegativeTimeout(name, number, step.name)];
    }
  }

  method CheckJob(name: string, job: JobConfig, seen: set<string>) returns (errs: seq<ConfigError>)
    ensures forall e :: e in errs <==> JobViolates(name, job, seen, e)
  {
    errs := [];
    if job.stage == "" {
      errs := errs + [EmptyStage(name)];
    } else if job.stage !in seen {
      errs := errs + [UndeclaredStage(name, job.stage)];
    }
    if job.image == "" {
      errs := errs + [EmptyImage(name)];
    }
    if |job.steps| == 0 {
      errs := errs + [NoSteps(name)];
    }
    for i := 0 to |job.steps|
      invariant forall e :: e in errs <==>
        HeadViolates(name, job, seen, e) || exists k :: 0 <= k < i && StepViolates(name, k + 1, job.steps[k], e)
    {
      var more := CheckStep(name, i + 1, job.steps[i]);
      errs := errs + more;
    }
  }

  predicate Repeated(stages: seq<string>, name: string) {
    exists i, j :: 0 <= i < j < |stages| && stages[i] == stages[j] == name
  }

  method CheckStages(stages: seq<string>) returns (errs: seq<ConfigError>, seen: set<string>)
    ensures seen == set s | s in stages
    ensures forall e :: e in errs <==> e.DuplicateStage? && Repeated(stages, e.stage)
  {
    errs, seen := [], {};
    for n := 0 to |stages|
      invariant seen == set s | s in stages[..n]
      invariant forall e :: e in errs <==> e.DuplicateStage? && Repeated(stages[..n], e.stage)
    {
      RepeatedSnoc(stages[..n], stages[n]);
      assert stages[..n + 1] == stages[..n] + [stages[n]];
      if stages[n] in seen {
        errs := errs + [DuplicateStage(stages[n])];
      }
      seen := seen + {stages[n]};
    }
    assert stages[..|stages|] == stages;
  }

  lemma RepeatedSnoc(stages: seq<string>, next: string)
    ensures forall name :: Repeated(stages + [next], name) <==> Repeated(stages, name) || (name == next && name in stages)
  {
    var all := stages + [next];
    forall name
      ensures Repeated(all, name) <==> Repeated(stages, name) || (name == next && name in stages)
    {
      if Repeated(stages, name) {
        var i, j :| 0 <= i < j < |stages| && stages[i] == stages[j] == name;
        assert all[i] == all[j] == name;
      } else if name == next && name in stages {
        var i :| 0 <= i < |stages| && stages[i] == name;
        assert all[i] == all[|stages|] == name;
      }
    }
  }

  /** The jobs that have been visited, in whatever order the map yields them. */
  predicate AmongVisited(root: RootConfig, rest: set<string>, e: ConfigError) {
    exists name :: name in root.jobs && name !in rest && JobViolates(name, root.jobs[name], Declared(root), e)
  }

  predicate StageVisited(root: RootConfig, rest: set<string>, stage: string) {
    exists name :: name in root.jobs && name !in rest && root.jobs[name].stage == stage
  }

  method CheckJobs(root: RootConfig, seen: set<string>) returns (errs: seq<ConfigError>, jobsPerStage: map<string, int>)
    requires seen == Declared(root)
    ensures forall e :: e in errs <==> AmongVisited(root, {}, e)
    ensures forall s :: (if s in jobsPerStage then jobsPerStage[s] else 0) == 0 <==> !StageVisited(root, {}, s)
  {
    hide JobViolates;
    errs, jobsPerStage := [], map[];
    var rest := root.jobs.Keys;
    while rest != {}
      invariant rest <= root.jobs.Keys
      invariant forall e :: e in errs <==> AmongVisited(root, rest, e)
      invariant forall s :: s in jobsPerStage <==> StageVisited(root, rest, s)
      invariant forall s :: s in jobsPerStage ==> jobsPerStage[s] > 0
      decreases rest
    {
      var name :| name in rest;
      var job := root.jobs[name];
      jobsPerStage := jobsPerStage[job.stage := (if job.stage in jobsPerStage then jobsPerStage[job.stage] else 0) + 1];
      var more := CheckJob(name, job, seen);
      errs := errs + more;
      Visit(root, rest, name);
      rest := rest - {name};
    }
  }

  lemma Visit(root: RootConfig, rest: set<string>, next: string)
    requires next in rest && rest <= root.jobs.Keys
    ensures forall e :: AmongVisited(root, rest - {next}, e) <==>
      AmongVisited(root, rest, e) || JobViolates(next, root.jobs[next], Declared(root), e)
    ensures forall s :: StageVisited(root, rest - {next}, s) <==>
      StageVisited(root, rest, s) || s == root.jobs[next].stage
  {
    hide JobViolates;
  }

  method CheckEmptyStages(root: RootConfig, jobsPerStage: map<string, int>) returns (errs: seq<ConfigError>)
    requires forall s :: (if s in jobsPerStage then jobsPerStage[s] else 0) == 0 <==> !StageVisited(root, {}, s)
    ensures forall e :: e in errs <==> e.StageWithoutJobs? && Violates(root, e)
  {
    errs := [];
    for n := 0 to |root.stages|
      invariant forall e :: e in errs <==>
        e.StageWithoutJobs? && e.stage in root.stages[..n] && !StageVisited(root, {}, e.stage)
    {
      assert root.stages[..n + 1] == root.stages[..n] + [root.stages[n]];
      if (if root.stages[n] in jobsPerStage then jobsPerStage[root.stages[n]] else 0) == 0 {
        errs := errs + [StageWithoutJobs(root.stages[n])];
      }
    }
    assert root.stages[..|root.stages|] == root.stages;
  }

  /** Reports exactly the violations there are, whatever order the map yields its jobs in;
      in particular it reports nothing if and only if the configuration is valid. */
  method Validate(root: RootConfig) returns (errs: seq<ConfigError>)
    ensures forall e :: e in errs <==> Violates(root, e)
    ensures errs == [] <==> WellConfigured(root)
  {
    ValidExactly(root);
    hide WellConfigured;
    errs := [];
    if |root.stages| == 0 {
      errs := errs + [NoStages];
    }
    var dups, seen := CheckStages(root.stages);
    errs := errs + dups;
    if |root.jobs| == 0 {
      errs := errs + [NoJobs];
    }
    var bad, jobsPerStage := CheckJobs(root, seen);
    errs := errs + bad;
    var unused := CheckEmptyStages(root, jobsPerStage);
    errs := errs + unused;
    forall e
      ensures e in errs <==> Violates(root, e)
    {
      ViolationKinds(root, e);
    }
    assert errs != [] ==> errs[0] in errs;
  }

  lemma ViolationKinds(root: RootConfig, e: ConfigError)
    ensures AmongVisited(root, {}, e) ==>
      !(e.NoStages? || e.DuplicateStage? || e.NoJobs? || e.StageWithoutJobs?)
    ensures !(e.NoStages? || e.DuplicateStage? || e.NoJobs? || e.StageWithoutJobs?) ==>
      (Violates(root, e) <==> AmongVisited(root, {}, e))
  {
  }

  // ---------- translate ----------

  /** Job-level values win over global ones. */
  method MergeEnv(global: map<string, string>, jobLevel: map<string, string>) returns (merged: map<string, string>)
    ensures merged.Keys == global.Keys + jobLevel.Keys
    ensures forall key :: key in jobLevel ==> merged[key] == jobLevel[key]
    ensures forall key :: key in global && key !in jobLevel ==> merged[key] == global[key]
  {
    merged := map[];
    merged := merged + global;
    merged := merged + jobLevel;
  }

  function StepsOf(steps: seq<StepConfig>): (r: seq<Step>)
    ensures |r| == |steps|
  {
    seq(|steps|, i requires 0 <= i < |steps| => Step(steps[i].name, steps[i].run, steps[i].timeout))
  }

  function JobOf(name: string, cfg: JobConfig, global: map<string, string>): Job {
    Job(name, cfg.image, cfg.setup, StepsOf(cfg.steps), global + cfg.env)
  }

  /** The job is what is configured under its name: image, setup and steps as written there, and
      the variables of both levels, the job's own value winning. */
  ghost predicate AsConfigured(job: Job, cfg: JobConfig, global: map<string, string>) {
    && job.image == cfg.image && job.setup == cfg.setup
    && (forall key :: key in job.env <==> key in cfg.env || key in global)
    && (forall key :: key in cfg.env ==> job.env[key] == cfg.env[key])
    && (forall key :: key in global && key !in cfg.env ==> job.env[key] == global[key])
    && |job.steps| == |cfg.steps|
    && (forall k :: 0 <= k < |cfg.steps| ==>
          && job.steps[k].name == cfg.steps[k].name
          && job.steps[k].run == cfg.steps[k].run
          && job.steps[k].timeout == cfg.steps[k].timeout)
  }

  lemma JobIsAsConfigured(name: string, cfg: JobConfig, global: map<string, string>)
    ensures JobOf(name, cfg, global).name == name && AsConfigured(JobOf(name, cfg, global), cfg, global)
  {
  }

  /** One stage per declared stage, in order and by name; in each, the configured jobs that name
      it and no others, in key order and as configured. */
  ghost predicate IsTranslation(root: RootConfig, global: map<string, string>, p: Pipeline) {
    && p.name == root.name && |p.stages| == |root.stages|
    && (forall s :: 0 <= s < |p.stages| ==> p.stages[s].name == root.stages[s])
    && (forall s, i :: 0 <= s < |p.stages| && 0 <= i < |p.stages[s].jobs| ==>
          var job := p.stages[s].jobs[i];
          job.name in root.jobs && root.jobs[job.name].stage == root.stages[s]
            && AsConfigured(job, root.jobs[job.name], global))
    && (forall s, i, j :: 0 <= s < |p.stages| && 0 <= i < j < |p.stages[s].jobs| ==>
          Less(p.stages[s].jobs[i].name, p.stages[s].jobs[j].name))
    && (forall s, name :: 0 <= s < |p.stages| && name in root.jobs && root.jobs[name].stage == root.stages[s] ==>
          exists i :: 0 <= i < |p.stages[s].jobs| && p.stages[s].jobs[i].name == name)
  }

  lemma TranslatedIs(root: RootConfig, global: map<string, string>, keys: seq<string>)
    requires SortedKeys(root, keys)
    ensures IsTranslation(root, global, Translated(root, global, keys))
  {
    hide JobOf, JobsOf, Less, AsConfigured;
    var p := Translated(root, global, keys);
    forall s | 0 <= s < |p.stages|
      ensures forall i :: 0 <= i < |p.stages[s].jobs| ==>
        var job := p.stages[s].jobs[i];
        job.name in root.jobs && root.jobs[job.name].stage == root.stages[s]
          && AsConfigured(job, root.jobs[job.name], global)
      ensures forall i, j :: 0 <= i < j < |p.stages[s].jobs| ==> Less(p.stages[s].jobs[i].name, p.stages[s].jobs[j].name)
      ensures forall name :: name in root.jobs && root.jobs[name].stage == root.stages[s] ==>
        exists i :: 0 <= i < |p.stages[s].jobs| && p.stages[s].jobs[i].name == name
    {
      JobsOfStage(root, global, keys, root.stages[s]);
      assert p.stages[s].jobs == JobsOf(root, global, keys, root.stages[s]);
      forall i | 0 <= i < |p.stages[s].jobs|
        ensures var job := p.stages[s].jobs[i];
          job.name in root.jobs && AsConfigured(job, root.jobs[job.name], global)
      {
        var name := p.stages[s].jobs[i].name;
        assert name in keys && name in root.jobs;
        JobIsAsConfigured(name, root.jobs[name], global);
      }
    }
  }

  ghost predicate SortedKeys(root: RootConfig, keys: seq<string>) {
    StrictlySorted(keys) && forall key :: key in keys <==> key in root.jobs
  }

  /** The jobs of one stage among `keys`, in that order. */
  function JobsOf(root: RootConfig, global: map<string, string>, keys: seq<string>, stage: string): seq<Job>
    requires forall key :: key in keys ==> key in root.jobs
  {
    if keys == [] then []
    else
      var earlier := JobsOf(root, global, keys[..|keys| - 1], stage);
      var key := keys[|keys| - 1];
      if root.jobs[key].stage == stage then earlier + [JobOf(key, root.jobs[key], global)] else earlier
  }

  /** Stages in declared order, each with its own jobs in key order. */
  function Translated(root: RootConfig, global: map<string, string>, keys: seq<string>): (p: Pipeline)
    requires forall key :: key in keys ==> key in root.jobs
    ensures |p.stages| == |root.stages|
  {
    Pipeline(root.name, seq(|root.stages|, s requires 0 <= s < |root.stages| =>
      Stage(root.stages[s], JobsOf(root, global, keys, root.stages[s]))))
  }

  method TranslateJob(name: string, cfg: JobConfig, global: map<string, string>) returns (job: Job)
    ensures job == JobOf(name, cfg, global)
  {
    var env := MergeEnv(global, cfg.env);
    assert env == global + cfg.env;
    var steps: seq<Step> := [];
    for i := 0 to |cfg.steps|
      invariant steps == StepsOf(cfg.steps)[..i]
    {
      steps := steps + [Step(cfg.steps[i].name, cfg.steps[i].run, cfg.steps[i].timeout)];
    }
    job := Job(name, cfg.image, cfg.setup, steps, env);
  }

  method GroupJobs(root: RootConfig, global: map<string, string>, keys: seq<string>)
    returns (jobsByStage: map<string, seq<Job>>)
    requires forall key :: key in keys ==> key in root.jobs
    ensures forall s :: JobsOf(root, global, keys, s) == if s in jobsByStage then jobsByStage[s] else []
  {
    hide JobOf;
    jobsByStage := map[];
    for n := 0 to |keys|
      invariant forall s :: JobsOf(root, global, keys[..n], s) == if s in jobsByStage then jobsByStage[s] else []
    {
      assert keys[..n + 1][..n] == keys[..n];
      var cfg := root.jobs[keys[n]];
      var job := TranslateJob(keys[n], cfg, global);
      jobsByStage := jobsByStage[cfg.stage := (if cfg.stage in jobsByStage then jobsByStage[cfg.stage] else []) + [job]];
    }
    assert keys[..|keys|] == keys;
  }

  method Translate(root: RootConfig, global: map<string, string>) returns (p: Pipeline)
    ensures exists keys :: SortedKeys(root, keys) && p == Translated(root, global, keys)
    ensures IsTranslation(root, global, p)
  {
    hide JobsOf, IsTranslation;
    var keys := SortKeys(root.jobs.Keys);
    assert SortedKeys(root, keys);
    var jobsByStage := GroupJobs(root, global, keys);
    var stages: seq<Stage> := [];
    for s := 0 to |root.stages|
      invariant stages == Translated(root, global, keys).stages[..s]
    {
      var name := root.stages[s];
      stages := stages + [Stage(name, if name in jobsByStage then jobsByStage[name] else [])];
    }
    p := Pipeline(root.name, stages);
    assert p == Translated(root, global, keys);
    TranslatedIs(root, global, keys);
  }

  // ---------- What translation guarantees ----------

  /** The order in which the map yields its keys does not show. */
  lemma TranslationIsDeterministic(root: RootConfig, global: map<string, string>, a: seq<string>, b: seq<string>)
    requires SortedKeys(root, a) && SortedKeys(root, b)
    ensures Translated(root, global, a) == Translated(root, global, b)
  {
    SortedIsUnique(a, b);
  }

  /** A stage holds the configured jobs that name it, each once, sorted by key. */
  lemma {:induction false} JobsOfStage(root: RootConfig, global: map<string, string>, keys: seq<string>, stage: string)
    requires StrictlySorted(keys) && forall key :: key in keys ==> key in root.jobs
    ensures var jobs := JobsOf(root, global, keys, stage);
      && (forall i :: 0 <= i < |jobs| ==>
            && jobs[i].name in keys && root.jobs[jobs[i].name].stage == stage
            && jobs[i] == JobOf(jobs[i].name, root.jobs[jobs[i].name], global))
      && (forall i, j :: 0 <= i < j < |jobs| ==> Less(jobs[i].name, jobs[j].name))
      && (forall key :: key in keys && root.jobs[key].stage == stage ==>
            exists i :: 0 <= i < |jobs| && jobs[i].name == key)
  {
    hide JobOf;
    if keys != [] {
      var init, last := keys[..|keys| - 1], keys[|keys| - 1];
      assert keys == init + [last];
      JobsOfStage(root, global, init, stage);
      var earlier, jobs := JobsOf(root, global, init, stage), JobsOf(root, global, keys, stage);
      assert JobOf(last, root.jobs[last], global).name == last by { NameOfJob(last, root.jobs[last], global); }
      forall key | key in keys && root.jobs[key].stage == stage
        ensures exists i :: 0 <= i < |jobs| && jobs[i].name == key
      {
        if key in init {
          var i :| 0 <= i < |earlier| && earlier[i].name == key;
          assert jobs[i].name == key;
        } else {
          assert key == last && jobs[|jobs| - 1].name == key;
        }
      }
      forall i | 0 <= i < |init|
        ensures Less(init[i], last)
      {
        assert init[i] == keys[i];
      }
    }
  }

  lemma NameOfJob(name: string, cfg: JobConfig, global: map<string, string>)
    ensures JobOf(name, cfg, global).name == name
  {
  }

  lemma SameStage(root: RootConfig, s: int, t: int)
    requires WellConfigured(root) && 0 <= s < |root.stages| && 0 <= t < |root.stages| && root.stages[s] == root.stages[t]
    ensures s == t
  {
  }

  lemma PlacedOnce(root: RootConfig, global: map<string, string>, p: Pipeline)
    requires WellConfigured(root) && IsTranslation(root, global, p)
    ensures UniqueJobNames(p)
  {
    hide WellConfigured, AsConfigured, Less;
    forall s, i, t, j, name | JobIn(p, s, i, name) && JobIn(p, t, j, name)
      ensures s == t && i == j
    {
      SameStage(root, s, t);
      LessIsIrreflexive(name);
    }
  }

  lemma PlacedSomewhere(root: RootConfig, global: map<string, string>, p: Pipeline, name: string)
    requires WellConfigured(root) && IsTranslation(root, global, p) && name in root.jobs
    ensures exists s, i :: JobIn(p, s, i, name)
  {
    hide AsConfigured, Less;
    var s :| 0 <= s < |root.stages| && root.stages[s] == root.jobs[name].stage;
    var i :| 0 <= i < |p.stages[s].jobs| && p.stages[s].jobs[i].name == name;
    assert JobIn(p, s, i, name);
  }

  lemma NoStageIsEmpty(root: RootConfig, global: map<string, string>, p: Pipeline)
    requires WellConfigured(root) && IsTranslation(root, global, p)
    ensures p.stages != [] && forall s :: 0 <= s < |p.stages| ==> p.stages[s].jobs != []
  {
    hide AsConfigured, Less;
    forall s | 0 <= s < |p.stages|
      ensures p.stages[s].jobs != []
    {
      var name :| name in root.jobs && root.jobs[name].stage == root.stages[s];
    }
  }

  /** A valid configuration becomes a pipeline in which every configured job is in exactly one
      place, in its own stage and as configured, and no stage is empty. */
  lemma TranslationPlacesJobs(root: RootConfig, global: map<string, string>, keys: seq<string>)
    requires Valid(root) && SortedKeys(root, keys)
    ensures var p := Translated(root, global, keys);
      && p.stages != []
      && (forall s :: 0 <= s < |p.stages| ==> p.stages[s].name == root.stages[s] && p.stages[s].jobs != [])
      && (forall s, i, name :: JobIn(p, s, i, name) ==>
            && name in root.jobs && root.jobs[name].stage == p.stages[s].name
            && AsConfigured(p.stages[s].jobs[i], root.jobs[name], global))
      && (forall name :: name in root.jobs ==> exists s, i :: JobIn(p, s, i, name))
      && UniqueJobNames(p)
  {
    hide Translated, AsConfigured, Less, Valid, WellConfigured, UniqueJobNames;
    var p := Translated(root, global, keys);
    TranslatedIs(root, global, keys);
    ValidExactly(root);
    NoStageIsEmpty(root, global, p);
    PlacedOnce(root, global, p);
    forall name | name in root.jobs
      ensures exists s, i :: JobIn(p, s, i, name)
    {
      PlacedSomewhere(root, global, p, name);
    }
  }

  lemma JobsHaveSteps(root: RootConfig, name: string)
    requires Valid(root) && name in root.jobs
    ensures root.jobs[name].steps != []
  {
    assert !Violates(root, NoSteps(name));
    assert !JobViolates(name, root.jobs[name], Declared(root), NoSteps(name));
    assert !HeadViolates(name, root.jobs[name], Declared(root), NoSteps(name));
  }

  // ---------- No validated pipeline ends Pending ----------

  predicate Decided(s: Status) {
    s == Passed || s == Failed || s == Errored
  }

  lemma JobIsDecided(job: Job, w: JobWorld)
    requires job.steps != []
    ensures forall s :: s in JobLeaves(RunJob(job, w).result) ==> Decided(s)
  {
    hide RunStep, EventsUpTo;
    ResultsNamePrefix(job, w.steps, |job.steps|);
    var r := RunJob(job, w).result;
    if r.setupErr.None? {
      assert forall i :: 0 <= i < |r.stepResults| ==> StepStatuses(r.stepResults)[i] == r.stepResults[i].Status();
    }
  }

  lemma StageIsDecided(stage: Stage, w: StageWorld)
    requires stage.jobs != [] && forall i :: 0 <= i < |stage.jobs| ==> stage.jobs[i].steps != []
    ensures forall s :: s in StageLeaves(StageResultOf(stage, w)) ==> Decided(s)
  {
    hide RunJob, JobLeaves;
    var r := StageResultOf(stage, w);
    forall s | s in StageLeaves(r)
      ensures Decided(s)
    {
      JobsLeavesMember(r.jobResults, s);
      var i :| 0 <= i < |r.jobResults| && s in JobLeaves(r.jobResults[i]);
      JobIsDecided(stage.jobs[i], w.jobs(i));
    }
  }

  /** Whatever Docker answers, a pipeline translated from an accepted configuration ends Passed,
      Failed or Errored. */
  lemma NeverEndsPending(root: RootConfig, global: map<string, string>, keys: seq<string>, w: RunWorld, runId: string)
    requires Valid(root) && SortedKeys(root, keys)
    ensures Decided(PipelineStatus(PipelineResultOf(Translated(root, global, keys), w, runId)))
  {
    hide JobsOf, StageResultOf, StageLeaves, Valid, Worst;
    var p := Translated(root, global, keys);
    var r := PipelineResultOf(p, w, runId);
    TranslationPlacesJobs(root, global, keys);
    ExecutedIsFailFast(p, w, Executed(p, w));
    assert r.stageResults != [];
    forall s | s in PipelineLeaves(r)
      ensures Decided(s)
    {
      StagesLeavesMember(r.stageResults, s);
      var n :| 0 <= n < |r.stageResults| && s in StageLeaves(r.stageResults[n]);
      forall i | 0 <= i < |p.stages[n].jobs|
        ensures p.stages[n].jobs[i].steps != []
      {
        var name := p.stages[n].jobs[i].name;
        assert JobIn(p, n, i, name);
        JobsHaveSteps(root, name);
      }
      StageIsDecided(p.stages[n], w.stages(n));
    }
    WorstIsDecided(PipelineLeaves(r));
  }

  lemma WorstIsDecided(leaves: seq<Status>)
    requires forall s :: s in leaves ==> Decided(s)
    ensures Decided(Worst(leaves))
  {
  }
}
