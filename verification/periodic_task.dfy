/**
  The periodic task: the scheduling gate, the handling of one job, the pass
  over all jobs and the timestamp update.

  Everything the task reads from outside is an input: the clock (`now` for
  the gate, `finishedAt` for the read after the loop), whether a Jenkins
  instance exists, the flattened job list (duplicates allowed), the regex
  matcher and the outcome of each `LogRotator.perform` call.
 */
module PeriodicTask {
  import opened Options
  import opened RotatorConfiguration
  import opened GlobalRotators
  import opened PolicyResolution

  const MillisPerHour: int := 3_600_000

  /** Hours since the last rotation, computed exactly as the task's division
      of the millisecond difference by 1000, 60 and 60, without rounding. */
  ghost function HoursSince(lastRotated: int, now: int): real
  {
    (now - lastRotated) as real / 1000.0 / 60.0 / 60.0
  }

  /** The gate as the task states it, in hours. */
  ghost predicate DueByHours(config: Option<Config>, now: int)
  {
    match config
    case None => false
    case Some(c) =>
      c.enableRotation && c.updateIntervalHours > 0 &&
      HoursSince(c.lastRotated, now) >= c.updateIntervalHours as real
  }

  /** The gate on integer milliseconds: a configuration exists, rotation is
      enabled, the interval is positive and at least that many hours have passed. */
  function Due(config: Option<Config>, now: int): (due: bool)
    ensures due <==> DueByHours(config, now)
  {
    match config
    case None => false
    case Some(c) =>
      c.enableRotation && c.updateIntervalHours > 0 &&
      now - c.lastRotated >= c.updateIntervalHours * MillisPerHour
  }

  /** With the default 24-hour interval, 23.99 hours are not enough and 24 are. */
  lemma GateBoundary(c: Config, now: int)
    requires c.enableRotation && c.updateIntervalHours == DefaultUpdateIntervalHours
    ensures !Due(Some(c), c.lastRotated + 86_364_000)
    ensures Due(Some(c), c.lastRotated + 24 * MillisPerHour)
  {
  }

  /** How a `perform` call ends: normally (`Ok`), with an Exception the per-job
      catch swallows (`Fail`), or with any throwable that catch does not
      swallow (`Interrupt`): an InterruptedException, which it rethrows, or an
      Error. Either of the latter leaves `execute` at once. */
  datatype Outcome = Ok | Fail | Interrupt

  /** Which rotator a call performs: the job's own, or that of global mapping `index`. */
  datatype Via = OwnRotator | GlobalMapping(index: nat)

  /** One `perform(job)` call; `jobIndex` is the job's position in the pass. */
  datatype PerformCall = PerformCall(jobIndex: nat, job: Job, rotator: LogRotator, via: Via)

  /** The task's environment: regex matching and the outcome of each perform call. */
  datatype Env = Env(matches: Matcher, perform: PerformCall -> Outcome)

  /** Why a job's logs were left alone. */
  datatype Reason = PolicyNone | NoGlobalMatch | UnsupportedPolicy | UnsetPolicy

  /** What happened to one job. */
  datatype JobStep = Untouched(reason: Reason) | Performed(call: PerformCall, outcome: Outcome)

  predicate Interrupts(step: JobStep)
  {
    step.Performed? && step.outcome == Interrupt
  }

  /** The body of the inner loop for the job at position `index`. */
  function ProcessJob(config: Config, job: Job, index: nat, env: Env): (step: JobStep)
    ensures step.Performed? ==>
              step.call.jobIndex == index && step.call.job == job && step.outcome == env.perform(step.call)
    ensures step.Performed? && step.call.via.OwnRotator? ==>
              job.discarder == OwnLogRotator(step.call.rotator) && config.policyWithCustom == Some(CUSTOM)
    ensures step.Performed? && step.call.via.GlobalMapping? ==>
              && PolicyFor(config, job) == Some(GLOBAL)
              && IsFirstMatch(env.matches, job.fullName, config.globalLogRotators, step.call.via.index)
              && step.call.rotator == config.globalLogRotators[step.call.via.index].logRotator
    ensures step == Untouched(PolicyNone) <==> PolicyFor(config, job) == Some(NONE)
    ensures step == Untouched(UnsetPolicy) <==> PolicyFor(config, job).None?
    ensures step == Untouched(UnsupportedPolicy) <==> !HasOwnLogRotator(job) && PolicyFor(config, job) == Some(CUSTOM)
    ensures step == Untouched(NoGlobalMatch) <==>
              PolicyFor(config, job) == Some(GLOBAL) && NoneMatches(env.matches, job.fullName, config.globalLogRotators)
  {
    match Resolve(HasOwnLogRotator(job), PolicyFor(config, job))
    case DoNothing => Untouched(PolicyNone)
    case ReportUnsupported => Untouched(UnsupportedPolicy)
    case NullPolicy => Untouched(UnsetPolicy)
    case PerformOwn =>
      var call := PerformCall(index, job, job.discarder.rotator, OwnRotator);
      Performed(call, env.perform(call))
    case ApplyGlobal =>
      match FirstMatch(env.matches, job.fullName, config.globalLogRotators)
      case None => Untouched(NoGlobalMatch)
      case Some(i) =>
        var call := PerformCall(index, job, config.globalLogRotators[i].logRotator, GlobalMapping(i));
        Performed(call, env.perform(call))
  }

  /** A job with its own LogRotator: NONE performs nothing, CUSTOM performs
      exactly the own rotator, GLOBAL never performs it. */
  lemma JobWithOwnRotator(config: Config, job: Job, index: nat, env: Env)
    requires HasOwnLogRotator(job)
    ensures config.policyWithCustom == Some(NONE) ==> !ProcessJob(config, job, index, env).Performed?
    ensures config.policyWithCustom == Some(CUSTOM) ==>
              ProcessJob(config, job, index, env).Performed? &&
              ProcessJob(config, job, index, env).call == PerformCall(index, job, job.discarder.rotator, OwnRotator)
    ensures config.policyWithCustom == Some(GLOBAL) && ProcessJob(config, job, index, env).Performed? ==>
              ProcessJob(config, job, index, env).call.via.GlobalMapping?
  {
  }

  /** A job without its own LogRotator: only GLOBAL performs anything, and then
      the rotator of the first matching mapping. */
  lemma JobWithoutOwnRotator(config: Config, job: Job, index: nat, env: Env)
    requires !HasOwnLogRotator(job)
    ensures ProcessJob(config, job, index, env).Performed? ==> config.policyWithoutCustom == Some(GLOBAL)
    ensures config.policyWithoutCustom == Some(GLOBAL) ==>
              (ProcessJob(config, job, index, env).Performed? <==>
               FirstMatch(env.matches, job.fullName, config.globalLogRotators).Some?)
  {
  }

  /** The loop over jobs from position `k`: every job is processed in order,
      and an interrupt ends the loop right after the job that raised it. */
  function RunJobs(config: Config, jobs: seq<Job>, k: nat, env: Env): (steps: seq<JobStep>)
    requires k <= |jobs|
    ensures |steps| <= |jobs| - k
    ensures forall i :: 0 <= i < |steps| ==> steps[i] == ProcessJob(config, jobs[k + i], k + i, env)
    ensures forall i :: 0 <= i < |steps| - 1 ==> !Interrupts(steps[i])
    ensures |steps| < |jobs| - k ==> |steps| > 0 && Interrupts(steps[|steps| - 1])
    decreases |jobs| - k
  {
    if k == |jobs| then []
    else
      var step := ProcessJob(config, jobs[k], k, env);
      if Interrupts(step) then [step]
      else [step] + RunJobs(config, jobs, k + 1, env)
  }

  /** The loop of `execute` written as a loop: a non-interrupt failure is
      swallowed and the next job follows; an interrupt leaves the loop at once. */
  method RunPass(config: Config, jobs: seq<Job>, env: Env) returns (steps: seq<JobStep>, interrupted: bool)
    ensures interrupted <==> exists n :: 0 <= n < |jobs| && Interrupts(ProcessJob(config, jobs[n], n, env))
    ensures interrupted ==> |steps| > 0 && Interrupts(steps[|steps| - 1])
    ensures !interrupted ==> |steps| == |jobs|
    ensures steps == RunJobs(config, jobs, 0, env)
  {
    ghost var expected := RunJobs(config, jobs, 0, env);
    steps := [];
    var k := 0;
    while k < |jobs|
      invariant 0 <= k <= |jobs| && |steps| == k
      invariant forall i :: 0 <= i < k ==> steps[i] == ProcessJob(config, jobs[i], i, env)
      invariant forall i :: 0 <= i < k ==> !Interrupts(steps[i])
      invariant k <= |expected| && steps == expected[..k]
    {
      var step := ProcessJob(config, jobs[k], k, env);
      steps := steps + [step];
      if Interrupts(step) {
        assert k > 0 ==> expected[k - 1] == steps[k - 1] && !Interrupts(expected[k - 1]);
        assert k < |expected|;
        assert expected[k] == step;
        assert |expected| == k + 1;
        assert steps == expected;
        return steps, true;
      }
      k := k + 1;
    }
    assert steps == expected;
    return steps, false;
  }

  /** The perform calls of a pass, in order. */
  function Trace(steps: seq<JobStep>): seq<PerformCall>
  {
    if steps == [] then []
    else (if steps[0].Performed? then [steps[0].call] else []) + Trace(steps[1..])
  }

  lemma {:induction false} TraceMembership(steps: seq<JobStep>)
    ensures forall c :: c in Trace(steps) <==>
              exists i :: 0 <= i < |steps| && steps[i].Performed? && steps[i].call == c
  {
    if steps != [] {
      TraceMembership(steps[1..]);
      forall c | c in Trace(steps)
        ensures exists i :: 0 <= i < |steps| && steps[i].Performed? && steps[i].call == c
      {
        if !(steps[0].Performed? && steps[0].call == c) {
          assert c in Trace(steps[1..]);
          var i :| 0 <= i < |steps[1..]| && steps[1..][i].Performed? && steps[1..][i].call == c;
          assert steps[i + 1] == steps[1..][i];
        }
      }
      forall c, i | 0 <= i < |steps| && steps[i].Performed? && steps[i].call == c
        ensures c in Trace(steps)
      {
        if i > 0 {
          assert steps[1..][i - 1] == steps[i];
        }
      }
    }
  }

  /** Steps that perform nothing leave an empty trace. */
  lemma {:induction false} TraceOfUntouched(steps: seq<JobStep>)
    requires forall i :: 0 <= i < |steps| ==> steps[i].Untouched?
    ensures Trace(steps) == []
  {
    if steps != [] {
      TraceOfUntouched(steps[1..]);
    }
  }

  /** How a run of the task ends. */
  datatype Status = NotDue | NoInstance | Completed | Aborted

  /** The steps of a run and the configuration it leaves behind. */
  datatype Execution = Execution(status: Status, steps: seq<JobStep>, config: Option<Config>)

  /** `execute`: check the gate, then process every job and record the time of
      the end of the pass; an interrupt propagates and skips the record. */
  function Execute(config: Option<Config>, now: int, instance: bool, jobs: seq<Job>, env: Env, finishedAt: int): (e: Execution)
    ensures e.status == NotDue <==> !Due(config, now)
    ensures e.status == Completed <==>
              Due(config, now) && instance &&
              forall n :: 0 <= n < |jobs| ==> !Interrupts(ProcessJob(config.value, jobs[n], n, env))
    ensures Due(config, now) && !instance ==> e.status == NoInstance
    ensures e.status == NotDue || e.status == NoInstance ==> e.steps == [] && e.config == config
    ensures e.status == Completed || e.status == Aborted ==>
              Due(config, now) && instance && e.steps == RunJobs(config.value, jobs, 0, env)
    ensures e.status == Aborted <==>
              Due(config, now) && instance &&
              exists n :: 0 <= n < |jobs| && Interrupts(ProcessJob(config.value, jobs[n], n, env))
    ensures e.status == Aborted ==> e.config == config
    ensures e.status == Completed ==>
              && e.config.Some?
              && e.config.value.lastRotated == finishedAt
              && OnlyChanged(config.value, e.config.value, LastRotated)
              && |e.steps| == |jobs|
  {
    if !Due(config, now) then Execution(NotDue, [], config)
    else if !instance then Execution(NoInstance, [], config)
    else
      var steps := RunJobs(config.value, jobs, 0, env);
      if |steps| > 0 && Interrupts(steps[|steps| - 1]) then
        assert Interrupts(ProcessJob(config.value, jobs[|steps| - 1], |steps| - 1, env));
        Execution(Aborted, steps, config)
      else
        assert forall n :: 0 <= n < |jobs| ==> steps[n] == ProcessJob(config.value, jobs[n], n, env);
        Execution(Completed, steps, Some(SetLastRotated(config.value, finishedAt)))
  }

  /** A non-interrupt failure does not stop the pass: when no job raises an
      interrupt, every job is processed in order and the timestamp is written. */
  lemma FailuresAreIsolated(config: Config, now: int, jobs: seq<Job>, env: Env, finishedAt: int)
    requires Due(Some(config), now)
    requires forall n :: 0 <= n < |jobs| ==> !Interrupts(ProcessJob(config, jobs[n], n, env))
    ensures Execute(Some(config), now, true, jobs, env, finishedAt).status == Completed
    ensures Execute(Some(config), now, true, jobs, env, finishedAt).config == Some(SetLastRotated(config, finishedAt))
    ensures forall n :: 0 <= n < |jobs| ==>
              Execute(Some(config), now, true, jobs, env, finishedAt).steps[n] == ProcessJob(config, jobs[n], n, env)
  {
  }

  /** An interrupt while processing job `n` ends the pass there: no later job
      is processed, no later perform happens and the timestamp is not written. */
  lemma InterruptAbortsPass(config: Config, now: int, jobs: seq<Job>, env: Env, finishedAt: int, n: nat)
    requires Due(Some(config), now)
    requires n < |jobs| && Interrupts(ProcessJob(config, jobs[n], n, env))
    requires forall i :: 0 <= i < n ==> !Interrupts(ProcessJob(config, jobs[i], i, env))
    ensures Execute(Some(config), now, true, jobs, env, finishedAt).status == Aborted
    ensures Execute(Some(config), now, true, jobs, env, finishedAt).config == Some(config)
    ensures |Execute(Some(config), now, true, jobs, env, finishedAt).steps| == n + 1
    ensures forall c :: c in Trace(Execute(Some(config), now, true, jobs, env, finishedAt).steps) ==> c.jobIndex <= n
  {
    var e := Execute(Some(config), now, true, jobs, env, finishedAt);
    var steps := e.steps;
    assert steps == RunJobs(config, jobs, 0, env);
    assert forall i :: 0 <= i < |steps| ==> steps[i] == ProcessJob(config, jobs[i], i, env);
    TraceMembership(steps);
  }

  /** Every perform call of a run comes from the step of its own job and
      follows that job's policy: the own rotator only under CUSTOM, a global
      mapping only under GLOBAL and only the first match. */
  lemma TraceFollowsPolicy(config: Config, now: int, instance: bool, jobs: seq<Job>, env: Env, finishedAt: int)
    ensures forall c :: c in Trace(Execute(Some(config), now, instance, jobs, env, finishedAt).steps) ==>
              && c.jobIndex < |jobs|
              && c.job == jobs[c.jobIndex]
              && (c.via.OwnRotator? ==>
                    HasOwnLogRotator(c.job) && config.policyWithCustom == Some(CUSTOM))
              && (c.via.GlobalMapping? ==>
                    PolicyFor(config, c.job) == Some(GLOBAL) &&
                    IsFirstMatch(env.matches, c.job.fullName, config.globalLogRotators, c.via.index))
  {
    var steps := Execute(Some(config), now, instance, jobs, env, finishedAt).steps;
    TraceMembership(steps);
    forall c | c in Trace(steps)
      ensures c.jobIndex < |jobs| && c.job == jobs[c.jobIndex]
    {
      var i :| 0 <= i < |steps| && steps[i].Performed? && steps[i].call == c;
      assert steps[i] == ProcessJob(config, jobs[i], i, env);
    }
  }

  /** Two runs in quick succession perform at most one pass: right after a
      completed pass the gate stays shut until a full interval has passed. */
  lemma SecondRunIsNotDue(config: Config, now: int, jobs: seq<Job>, env: Env, finishedAt: int,
                          later: int, jobs2: seq<Job>, env2: Env, finishedAt2: int)
    requires Execute(Some(config), now, true, jobs, env, finishedAt).status == Completed
    requires later - finishedAt < config.updateIntervalHours * MillisPerHour
    ensures Execute(Execute(Some(config), now, true, jobs, env, finishedAt).config, later, true, jobs2, env2, finishedAt2)
              == Execution(NotDue, [], Execute(Some(config), now, true, jobs, env, finishedAt).config)
  {
  }

  /** On a configuration nobody has edited, both policy fields are null, so
      every job fails with a NullPointerException that the loop swallows: a
      due pass performs no rotator at all, yet records its timestamp. */
  lemma FreshConfigurationPerformsNothing(now: int, jobs: seq<Job>, env: Env, finishedAt: int)
    requires now >= DefaultUpdateIntervalHours * MillisPerHour
    ensures Execute(Some(Initial()), now, true, jobs, env, finishedAt).status == Completed
    ensures Trace(Execute(Some(Initial()), now, true, jobs, env, finishedAt).steps) == []
    ensures forall step :: step in Execute(Some(Initial()), now, true, jobs, env, finishedAt).steps ==>
              step == Untouched(UnsetPolicy)
    ensures Execute(Some(Initial()), now, true, jobs, env, finishedAt).config.value.lastRotated == finishedAt
  {
    var e := Execute(Some(Initial()), now, true, jobs, env, finishedAt);
    FailuresAreIsolated(Initial(), now, jobs, env, finishedAt);
    assert forall i :: 0 <= i < |e.steps| ==> e.steps[i] == Untouched(UnsetPolicy);
    TraceOfUntouched(e.steps);
  }
}
