/**
  The master pipeline runner (`run_pipeline` in scripts/analysis/00_run_full_pipeline.py):
  the four stages, which of them a command line selects, and the run loop that
  records missing scripts and failing exits and decides the overall result.

  Running a script, checking that its file exists and asking whether to continue
  after a failure are effects outside the model; they enter as the functions of an
  `Env`.
 */
module Pipeline {
  import opened Wrappers
  import opened Text

  /** One entry of `PIPELINE_STAGES`: `scripts` pairs a file name with its description. */
  datatype Stage = Stage(name: string, category: string, scripts: seq<(string, string)>, outputs: string)

  const Stages: seq<Stage> := [
    Stage("01 - NILEARN PANELS", "nilearn",
          [("01_generate_nilearn_panels.py", "All panel visualizations (basic, hypothesis, combined)")],
          "figures/nilearn/"),
    Stage("02 - NILEARN SUPPLEMENTARY", "nilearn",
          [("02_generate_nilearn_supplementary.py", "ROI-focused supplementary figures")],
          "figures/supplementary/"),
    Stage("03 - PEB MATRICES", "peb",
          [("03_generate_all_peb_matrices.py", "PEB matrix heatmaps")],
          "figures/peb_matrices/"),
    Stage("04 - PEB PANELS", "peb",
          [("04_generate_peb_matrix_panels.py", "2x2 combined panels")],
          "figures/paper/")
  ]

  /** The stages paper mode runs, by number. */
  const PaperStages: seq<nat> := [2, 3, 4]

  /** A selection: 1-based stage numbers, each a valid one, in increasing order. */
  predicate IsSelection(r: seq<nat>) {
    && (forall k | 0 <= k < |r| :: 1 <= r[k] <= |Stages|)
    && (forall k, l | 0 <= k < l < |r| :: r[k] < r[l])
  }

  /**
    `stages.index(stage) + 1` recovers a stage's number because no two stages are equal
    (they differ in name).
   */
  lemma {:induction false} StagesDistinct(k: nat, l: nat)
    requires k < |Stages| && l < |Stages| && k != l
    ensures Stages[k] != Stages[l]
  {
    assert Stages[k].name[1] != Stages[l].name[1];
  }

  /** Python's normalisation of a slice bound `i` on a list of length `len`. */
  function SliceBound(i: int, len: nat): (b: nat)
    ensures b <= len
    ensures 0 <= i <= len ==> b == i
    ensures i > len ==> b == len
    ensures -(len as int) <= i < 0 ==> b == i + len
    ensures i < -(len as int) ==> b == 0
  {
    if i < 0 then (if i + len < 0 then 0 else i + len)
    else if i > len then len
    else i
  }

  /** The numbers of `Stages[start - 1 : end]`. */
  function SliceSelection(start: int, end: int): (r: seq<nat>)
    ensures IsSelection(r)
  {
    var lo := SliceBound(start - 1, |Stages|);
    var hi := SliceBound(end, |Stages|);
    seq(if lo < hi then hi - lo else 0, k requires 0 <= k < hi - lo => lo + k + 1)
  }

  /** The numbers `i` among `1..n` with `start <= i <= end` whose stage has category `cat`. */
  function CategoryPick(n: nat, start: int, end: int, cat: string): (r: seq<nat>)
    requires n <= |Stages|
    ensures IsSelection(r)
    ensures forall k | 0 <= k < |r| :: r[k] <= n
  {
    if n == 0 then []
    else
      var front := CategoryPick(n - 1, start, end, cat);
      if start <= n <= end && Stages[n - 1].category == cat then front + [n] else front
  }

  /** The category filter keeps exactly the stages up to `n`, numbered in `[start, end]`, of that category. */
  lemma {:induction false} CategoryPickMembers(n: nat, start: int, end: int, cat: string)
    requires n <= |Stages|
    ensures forall i :: i in CategoryPick(n, start, end, cat) <==> 1 <= i <= n && start <= i <= end && Stages[i - 1].category == cat
  {
    if n > 0 {
      CategoryPickMembers(n - 1, start, end, cat);
    }
  }

  /** Lines 108-123: the stages to run, by number. */
  function Selected(start: int, end: Option<int>, category: Option<string>, paper: bool): (r: seq<nat>)
    ensures IsSelection(r)
  {
    var last := end.GetOr(|Stages|);
    if paper then PaperStages
    else if category.Some? && category.value != "" then CategoryPick(|Stages|, start, last, category.value)
    else SliceSelection(start, last)
  }

  /**
    The three modes of lines 108-123: paper mode ignores every other option; a category
    keeps the stages numbered in `[start, end]` of that category; otherwise, for a start of
    at least 1, the stages numbered `start` to `end` (at most the last stage). A missing
    end means the last stage, number 4.
   */
  lemma SelectionModes(start: int, end: Option<int>, category: Option<string>, paper: bool)
    ensures paper ==> Selected(start, end, category, paper) == [2, 3, 4]
    ensures !paper && category.Some? && category.value != "" ==>
      forall i :: i in Selected(start, end, category, paper) <==>
        1 <= i <= 4 && start <= i <= end.GetOr(4) && Stages[i - 1].category == category.value
    ensures !paper && (category.None? || category.value == "") && 1 <= start && 0 <= end.GetOr(4) ==>
      forall i :: i in Selected(start, end, category, paper) <==> start <= i <= end.GetOr(4) && i <= 4
  {
    if !paper && category.Some? && category.value != "" {
      CategoryPickMembers(|Stages|, start, end.GetOr(|Stages|), category.value);
    }
    if !paper && (category.None? || category.value == "") && 1 <= start && 0 <= end.GetOr(4) {
      var r := Selected(start, end, category, paper);
      var hi := SliceBound(end.GetOr(4), 4);
      assert r == SliceSelection(start, end.GetOr(4));
      assert forall k | 0 <= k < |r| :: r[k] == start + k;
      assert |r| == if start - 1 < hi then hi - start + 1 else 0;
      forall i ensures i in r <==> start <= i <= end.GetOr(4) && i <= 4 {
        if start <= i <= end.GetOr(4) && i <= 4 {
          assert r[i - start] == i;
        }
      }
    }
  }

  /** `--nilearn` and `--peb` with the default range select stages 1-2 and 3-4. */
  lemma CategoryDefaults()
    ensures Selected(1, None, Some("nilearn"), false) == [1, 2]
    ensures Selected(1, None, Some("peb"), false) == [3, 4]
  {
    assert CategoryPick(2, 1, 4, "nilearn") == [1, 2];
    assert CategoryPick(2, 1, 4, "peb") == [];
  }

  /**
    With no category, a start of 0 becomes the slice `[-1:end]`, which Python reads from
    the last stage: the selection is stage 4 alone (for an end of 4 or more), where the
    category filter would have kept everything up to `end`.
   */
  lemma ZeroStartWraps(end: int)
    requires 4 <= end
    ensures Selected(0, Some(end), None, false) == [4]
    ensures Selected(0, Some(end), Some("peb"), false) == [3, 4]
  {
    assert |Stages| == 4;
    assert SliceBound(-1, 4) == 3 && SliceBound(end, 4) == 4;
    var r := SliceSelection(0, end);
    assert |r| == 1 && r[0] == 4;
    assert CategoryPick(1, 0, end, "peb") == [];
    assert CategoryPick(2, 0, end, "peb") == [];
    assert CategoryPick(3, 0, end, "peb") == [3];
  }

  /** One script to run: the stage number reported for it, its file name and description. */
  datatype Job = Job(stage: nat, script: string, description: string)

  /** The scripts of the stage numbered `n`, in order. */
  function StageJobs(n: nat): (js: seq<Job>)
    requires 1 <= n <= |Stages|
    ensures |js| == |Stages[n - 1].scripts|
    ensures forall k | 0 <= k < |js| ::
      js[k] == Job(n, Stages[n - 1].scripts[k].0, Stages[n - 1].scripts[k].1)
  {
    seq(|Stages[n - 1].scripts|, k requires 0 <= k < |Stages[n - 1].scripts| =>
      Job(n, Stages[n - 1].scripts[k].0, Stages[n - 1].scripts[k].1))
  }

  /** Every script of the selected stages, stage by stage. */
  function Jobs(nums: seq<nat>): seq<Job>
    requires forall k | 0 <= k < |nums| :: 1 <= nums[k] <= |Stages|
  {
    if |nums| == 0 then [] else StageJobs(nums[0]) + Jobs(nums[1..])
  }

  /** Why a script counts as failed. */
  datatype FailReason = NotFound | ExitCode(code: int)

  /** One entry of `failed_stages`. */
  datatype Failure = Failure(stage: nat, script: string, reason: FailReason)

  /**
    The effects the runner depends on: whether a script file exists, the exit code of a
    command line, and the answer to the prompt after a failure (`None` where reading it
    hits end of input). `python` is the interpreter and `dir` the pipeline directory.
   */
  datatype Env = Env(scriptExists: string -> bool, exitCode: seq<string> -> int,
                     answer: string -> Option<string>, python: string, dir: string)

  /** Lines 159-161: the command line for one script. */
  function Command(env: Env, script: string, paper: bool): (cmd: seq<string>)
    ensures |cmd| >= 2 && cmd[0] == env.python && cmd[1] == env.dir + "/" + script
    ensures "--paper" in cmd[2..] <==> paper
  {
    [env.python, env.dir + "/" + script] + (if paper then ["--paper"] else [])
  }

  /** A job fails when its script is missing or its command exits with a non-zero code. */
  predicate Fails(env: Env, paper: bool, j: Job) {
    !env.scriptExists(j.script) || env.exitCode(Command(env, j.script, paper)) != 0
  }

  /** The failure a failing job records. */
  function FailureOf(env: Env, paper: bool, j: Job): (f: Failure)
    requires Fails(env, paper, j)
    ensures f.stage == j.stage && f.script == j.script
    ensures f.reason.NotFound? <==> !env.scriptExists(j.script)
  {
    if !env.scriptExists(j.script) then Failure(j.stage, j.script, NotFound)
    else Failure(j.stage, j.script, ExitCode(env.exitCode(Command(env, j.script, paper))))
  }

  /** The runner's state: the failures recorded so far, and whether the run was aborted. */
  datatype RunState = RunState(failures: seq<Failure>, aborted: bool)

  /** An answer lets the run continue only when it lower-cases to "y". */
  predicate Continues(answer: Option<string>) {
    answer.Some? && LowerStr(answer.value) == "y"
  }

  /** Lines 143-187 for one script. An aborted run does nothing more. */
  function Step(env: Env, paper: bool, st: RunState, j: Job): (t: RunState)
    ensures st.aborted ==> t == st
    ensures !st.aborted && !Fails(env, paper, j) ==> t == st
    ensures !st.aborted && Fails(env, paper, j) ==>
      t.failures == st.failures + [FailureOf(env, paper, j)]
    ensures !st.aborted && !env.scriptExists(j.script) ==> !t.aborted
  {
    if st.aborted then st
    else if !env.scriptExists(j.script) then
      RunState(st.failures + [Failure(j.stage, j.script, NotFound)], false)
    else
      var code := env.exitCode(Command(env, j.script, paper));
      if code != 0 then
        RunState(st.failures + [Failure(j.stage, j.script, ExitCode(code))], !Continues(env.answer(j.script)))
      else st
  }

  /** The state after running `jobs` in order from `st`. */
  function RunFrom(env: Env, paper: bool, st: RunState, jobs: seq<Job>): RunState
    decreases |jobs|
  {
    if |jobs| == 0 then st else RunFrom(env, paper, Step(env, paper, st, jobs[0]), jobs[1..])
  }

  /** Lines 127-129 and 201-208: `True` exactly when the run was not aborted and nothing failed. */
  predicate Succeeded(st: RunState) {
    !st.aborted && st.failures == []
  }

  /** The result of `run_pipeline` as a function of its options and the environment. */
  function PipelineResult(start: int, end: Option<int>, category: Option<string>, paper: bool, env: Env): RunState {
    RunFrom(env, paper, RunState([], false), Jobs(Selected(start, end, category, paper)))
  }

  /** Once aborted, the remaining scripts do not run. */
  lemma {:induction false} AbortedStays(env: Env, paper: bool, st: RunState, jobs: seq<Job>)
    requires st.aborted
    ensures RunFrom(env, paper, st, jobs) == st
    decreases |jobs|
  {
    if |jobs| > 0 {
      AbortedStays(env, paper, Step(env, paper, st, jobs[0]), jobs[1..]);
    }
  }

  /** An abort always follows a recorded failure. */
  lemma {:induction false} AbortRecorded(env: Env, paper: bool, st: RunState, jobs: seq<Job>)
    requires st.aborted ==> st.failures != []
    ensures RunFrom(env, paper, st, jobs).aborted ==> RunFrom(env, paper, st, jobs).failures != []
    ensures |st.failures| <= |RunFrom(env, paper, st, jobs).failures|
    decreases |jobs|
  {
    if |jobs| > 0 {
      AbortRecorded(env, paper, Step(env, paper, st, jobs[0]), jobs[1..]);
    }
  }

  /**
    The run succeeds exactly when no selected script fails: the first failing script is
    always reached, because only a failure can abort the run.
   */
  lemma {:induction false} SucceedsIff(env: Env, paper: bool, st: RunState, jobs: seq<Job>)
    requires st.aborted ==> st.failures != []
    ensures Succeeded(RunFrom(env, paper, st, jobs)) <==>
      Succeeded(st) && forall k | 0 <= k < |jobs| :: !Fails(env, paper, jobs[k])
    decreases |jobs|
  {
    if |jobs| > 0 {
      var next := Step(env, paper, st, jobs[0]);
      SucceedsIff(env, paper, next, jobs[1..]);
      if Succeeded(RunFrom(env, paper, st, jobs)) {
        AbortRecorded(env, paper, next, jobs[1..]);
        assert !Fails(env, paper, jobs[0]);
        forall k | 0 <= k < |jobs| ensures !Fails(env, paper, jobs[k]) {
          if k > 0 {
            assert jobs[k] == jobs[1..][k - 1];
          }
        }
      }
    }
  }

  /** The failures of `jobs`, in order. */
  function FailuresOf(env: Env, paper: bool, jobs: seq<Job>): (fs: seq<Failure>)
    ensures |fs| <= |jobs|
  {
    if |jobs| == 0 then []
    else (if Fails(env, paper, jobs[0]) then [FailureOf(env, paper, jobs[0])] else [])
         + FailuresOf(env, paper, jobs[1..])
  }

  /**
    A run that is not aborted records exactly the failing scripts, in order: a missing
    script is recorded and skipped, and so is a failing exit the user chooses to continue past.
   */
  lemma {:induction false} FailuresRecorded(env: Env, paper: bool, st: RunState, jobs: seq<Job>)
    requires !RunFrom(env, paper, st, jobs).aborted
    ensures !st.aborted
    ensures RunFrom(env, paper, st, jobs).failures == st.failures + FailuresOf(env, paper, jobs)
    decreases |jobs|
  {
    if st.aborted {
      AbortedStays(env, paper, st, jobs);
      assert false;
    }
    if |jobs| > 0 {
      FailuresRecorded(env, paper, Step(env, paper, st, jobs[0]), jobs[1..]);
    }
  }

  /** Lines 144-187 for one script: skip a missing one, run it, and on a failing exit ask whether to go on. */
  method RunJob(env: Env, paper: bool, st: RunState, job: Job) returns (t: RunState)
    requires !st.aborted
    ensures t == Step(env, paper, st, job)
  {
    if !env.scriptExists(job.script) {
      return RunState(st.failures + [Failure(job.stage, job.script, NotFound)], false);
    }
    var cmd := Command(env, job.script, paper);
    var code := env.exitCode(cmd);
    t := st;
    if code != 0 {
      t := RunState(st.failures + [Failure(job.stage, job.script, ExitCode(code))], false);
      if !Continues(env.answer(job.script)) {
        t := t.(aborted := true);
      }
    }
  }

  /** Running `a` and then `b` is running `a + b`. */
  lemma {:induction false} RunFromConcat(env: Env, paper: bool, st: RunState, a: seq<Job>, b: seq<Job>)
    ensures RunFrom(env, paper, st, a + b) == RunFrom(env, paper, RunFrom(env, paper, st, a), b)
    decreases |a|
  {
    if |a| > 0 {
      assert (a + b)[1..] == a[1..] + b;
      RunFromConcat(env, paper, Step(env, paper, st, a[0]), a[1..], b);
    } else {
      assert a + b == b;
    }
  }

  /** Lines 143-187 for the stage numbered `n`: its scripts in order, stopping at an abort. */
  method RunStage(n: nat, paper: bool, env: Env, st: RunState) returns (t: RunState)
    requires 1 <= n <= |Stages| && !st.aborted
    ensures t == RunFrom(env, paper, st, StageJobs(n))
  {
    var scripts := Stages[n - 1].scripts;
    ghost var jobs := StageJobs(n);
    t := st;
    for k := 0 to |scripts|
      invariant !t.aborted
      invariant RunFrom(env, paper, t, jobs[k..]) == RunFrom(env, paper, st, jobs)
    {
      var (scriptName, description) := scripts[k];
      var job := Job(n, scriptName, description);
      assert jobs[k..][0] == job;
      assert jobs[k..][1..] == jobs[k + 1..];
      assert RunFrom(env, paper, t, jobs[k..]) == RunFrom(env, paper, Step(env, paper, t, job), jobs[k + 1..]);
      t := RunJob(env, paper, t, job);
      if t.aborted {
        AbortedStays(env, paper, t, jobs[k + 1..]);
        return;
      }
    }
  }

  /** The jobs from position `i` on are those of stage `nums[i]`, then those from `i + 1` on. */
  lemma JobsStep(nums: seq<nat>, i: nat)
    requires IsSelection(nums) && i < |nums|
    ensures IsSelection(nums[i..]) && IsSelection(nums[i + 1..])
    ensures Jobs(nums[i..]) == StageJobs(nums[i]) + Jobs(nums[i + 1..])
  {
    assert nums[i..][1..] == nums[i + 1..];
  }

  /** Lines 133-187: run every script of the stages numbered `nums`, in order. */
  method RunStages(nums: seq<nat>, paper: bool, env: Env) returns (st: RunState)
    requires IsSelection(nums)
    ensures st == RunFrom(env, paper, RunState([], false), Jobs(nums))
  {
    st := RunState([], false);
    for i := 0 to |nums|
      invariant !st.aborted
      invariant RunFrom(env, paper, st, Jobs(nums[i..])) == RunFrom(env, paper, RunState([], false), Jobs(nums))
    {
      JobsStep(nums, i);
      RunFromConcat(env, paper, st, StageJobs(nums[i]), Jobs(nums[i + 1..]));
      st := RunStage(nums[i], paper, env, st);
      if st.aborted {
        AbortedStays(env, paper, st, Jobs(nums[i + 1..]));
        return;
      }
    }
    assert nums[|nums|..] == [];
  }

  /**
    Lines 79-208 without the printing: select the stages, return `True` at once when there
    are none, otherwise run them and report whether nothing failed.
   */
  method RunPipeline(start: int, end: Option<int>, category: Option<string>, paper: bool, env: Env)
    returns (success: bool, failures: seq<Failure>)
    ensures failures == PipelineResult(start, end, category, paper, env).failures
    ensures success <==> Succeeded(PipelineResult(start, end, category, paper, env))
    ensures success <==> forall j | j in Jobs(Selected(start, end, category, paper)) :: !Fails(env, paper, j)
  {
    var nums := Selected(start, end, category, paper);
    if |nums| == 0 {
      assert Jobs(nums) == [];
      return true, [];
    }
    var st := RunStages(nums, paper, env);
    SucceedsIff(env, paper, RunState([], false), Jobs(nums));
    failures := st.failures;
    success := !st.aborted && failures == [];
  }
}
