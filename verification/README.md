# Log-rotation policy engine

A Dafny model of the periodic log-rotation task of a Jenkins core extension
and of the global configuration it reads. Once a minute the task checks a
gate: a configuration exists, rotation is enabled, the update interval is
positive, and that many hours have passed since the last rotation. If the gate
is open, the task walks every job. For each job it picks one of four actions.
The choice depends on two things: whether the job's build discarder is a
`LogRotator` of its own, and the policy configured for that kind of job
(`NONE`, `CUSTOM` or `GLOBAL`). The four actions are:

- do nothing;
- perform the job's own rotator;
- perform the rotator of the first global mapping whose regular expression
  matches the job's full name;
- report an unsupported policy.

A failure of one job is swallowed and the walk goes on. An interrupt ends the
pass at once. After a completed walk, the task records a fresh clock reading
as the new `lastRotated`.

Files:

- `options.dfy`: `Option`, which stands for a nullable Java reference.
- `configuration.dfy` (module `RotatorConfiguration`): the policy enum, the
  configuration record, its defaults, `valueOf` parsing and the setters.
- `global_rotators.dfy` (module `GlobalRotators`): first-match selection of a
  global mapping.
- `policy.dfy` (module `PolicyResolution`): jobs, discarders and the two
  policy switches.
- `periodic_task.dfy` (module `PeriodicTask`): the gate, the handling of one
  job, the pass over all jobs, and `execute` as a whole.

Inputs that come from outside are parameters:

- the clock: `now` for the gate and `finishedAt` for the reading after the loop;
- whether a Jenkins instance exists;
- the flattened job list, which may hold duplicates;
- regular-expression matching, a caller-supplied `Matcher`;
- the outcome of each `perform` call: `Ok`, `Fail` (an `Exception` the
  per-job catch swallows) or `Interrupt` (any throwable that catch does not
  swallow: an InterruptedException, which it rethrows, or a
  `java.lang.Error`). An oracle decides it from the call, including the job's
  position in the pass.

The two policy fields are `Option<Policy>` because the bean never initialises
them. The constants `DEFAULT_POLICY_FOR_JOBS_WITH_ROTATORS` (`CUSTOM`) and
`DEFAULT_POLICY_FOR_JOBS_WITHOUT_ROTATORS` (`NONE`) are declared but never
assigned to the fields. A switch on a null policy throws a
NullPointerException, and the per-job catch swallows it. The model records
this as `Untouched(UnsetPolicy)`. `FreshConfigurationPerformsNothing` spells
out the consequence: on an unedited configuration a due pass performs no
rotator at all, yet it still records its timestamp.

Two facts about the code shape the model:

- The gate at `LogRotatorPeriodicTask.java:73-76` compares hours computed as
  a `double`. The model uses the integer test
  `now - lastRotated >= interval * 3600000`. `PeriodicTask.Due` proves this
  test equal to the same division done in exact real arithmetic. The rounding
  of the `double` is left out.
- For a job without its own rotator, `CUSTOM` reaches the `default` branch at
  `LogRotatorPeriodicTask.java:125-132`, which only logs at SEVERE. The
  `default` branch of the switch for jobs *with* their own rotator can never
  be reached (`OwnRotatorNeverUnsupported`).

## Model

| member | source | states |
|---|---|---|
| `RotatorConfiguration.InitialState` | core/src/main/java/hudson/model/LogRotatorConfiguration.java:49-63 | Rotation starts enabled with a 24-hour interval, `lastRotated` 0 and no mappings. Both policy fields start unset, so neither equals its declared DEFAULT_POLICY constant. |
| `RotatorConfiguration.PolicyHasThreeValues` | core/src/main/java/hudson/model/LogRotatorConfiguration.java:165-169 | The policy enum has exactly three distinct constants, named NONE, CUSTOM and GLOBAL. |
| `RotatorConfiguration.ParsePolicy` | core/src/main/java/hudson/model/LogRotatorConfiguration.java:123 | `valueOf` returns a constant whose name is exactly the input string. It fails exactly when no constant has that name. |
| `RotatorConfiguration.ParsePolicyName` | core/src/main/java/hudson/model/LogRotatorConfiguration.java:165-169 | Parsing a constant's name gives back that constant (round trip). |
| `RotatorConfiguration.SetEnableRotation` | core/src/main/java/hudson/model/LogRotatorConfiguration.java:74-79 | The setter stores the flag and leaves every other field unchanged. |
| `RotatorConfiguration.SetUpdateIntervalHours` | core/src/main/java/hudson/model/LogRotatorConfiguration.java:85-90 | The setter stores the interval and leaves every other field unchanged. |
| `RotatorConfiguration.SetLastRotated` | core/src/main/java/hudson/model/LogRotatorConfiguration.java:96-106 | The setter stores the timestamp and leaves every other field unchanged. |
| `RotatorConfiguration.SetPolicyWithCustom` | core/src/main/java/hudson/model/LogRotatorConfiguration.java:112-118 | The enum overload stores its argument, null included, and changes no other field. |
| `RotatorConfiguration.SetPolicyWithoutCustom` | core/src/main/java/hudson/model/LogRotatorConfiguration.java:132-138 | The enum overload stores its argument, null included, and changes no other field. |
| `RotatorConfiguration.SetPolicyWithCustomName` | core/src/main/java/hudson/model/LogRotatorConfiguration.java:120-126 | The string overload succeeds exactly for the name of a constant and then stores that constant. On any other string it throws, and the bean keeps its old value. |
| `RotatorConfiguration.SetPolicyWithoutCustomName` | core/src/main/java/hudson/model/LogRotatorConfiguration.java:140-146 | The string overload succeeds exactly for the name of a constant and then stores that constant. On any other string it throws, and the bean keeps its old value. |
| `RotatorConfiguration.SetGlobalLogRotators` | core/src/main/java/hudson/model/LogRotatorConfiguration.java:148-157 | The mapping list is stored as given, so order and duplicates are kept and the getter returns it. No other field changes. |
| `RotatorConfiguration.ApplyFormValue` | core/src/main/java/hudson/model/LogRotatorConfiguration.java:74-157 | No data-bound setter changes `lastRotated`. Each one changes at most one other field. One fails exactly when it is a string overload given an unknown name. |
| `GlobalRotators.FirstMatch` | core/src/main/java/hudson/tasks/LogRotatorPeriodicTask.java:175-182 | The chosen index matches the job's full name and no earlier mapping does. No index is chosen exactly when no mapping matches. |
| `GlobalRotators.FirstMatchUnique` | core/src/main/java/hudson/tasks/LogRotatorPeriodicTask.java:175-182 | At most one mapping is the first match for a given job name. |
| `GlobalRotators.FirstMatchComplete` | core/src/main/java/hudson/tasks/LogRotatorPeriodicTask.java:173-190 | Whenever a first match exists, it is the one chosen. The no-match outcome happens exactly when no mapping matches. |
| `GlobalRotators.FirstMatchIgnoresLater` | core/src/main/java/hudson/tasks/LogRotatorPeriodicTask.java:179-181 | Mappings after the first match are never consulted: changing them does not change the choice. |
| `GlobalRotators.ApplyGlobalLogRotators` | core/src/main/java/hudson/tasks/LogRotatorPeriodicTask.java:173-190 | The in-order loop that returns at the first match picks the first matching mapping, or none when nothing matches. |
| `PolicyResolution.Resolve` | core/src/main/java/hudson/tasks/LogRotatorPeriodicTask.java:92-134 | A null policy always fails. NONE does nothing and GLOBAL applies the global rules. CUSTOM performs the own rotator for a job that has one and is reported unsupported for a job that has none. |
| `PolicyResolution.OwnRotatorNeverUnsupported` | core/src/main/java/hudson/tasks/LogRotatorPeriodicTask.java:106-113 | The default branch of the switch for jobs with their own rotator is unreachable. |
| `PeriodicTask.Due` | core/src/main/java/hudson/tasks/LogRotatorPeriodicTask.java:66-76 | The integer-millisecond gate holds exactly when the task's hour-based test holds in exact arithmetic. |
| `PeriodicTask.GateBoundary` | core/src/main/java/hudson/tasks/LogRotatorPeriodicTask.java:73-76 | With a 24-hour interval, 23.99 elapsed hours do not open the gate and 24 hours do. |
| `PeriodicTask.ProcessJob` | core/src/main/java/hudson/tasks/LogRotatorPeriodicTask.java:88-146 | A perform call is made on the job being processed. The own rotator is performed only for a job that has one, under CUSTOM. A global rotator is performed only under GLOBAL, and only the first matching mapping's. Each reason for leaving a job alone holds exactly when its policy condition does. |
| `PeriodicTask.JobWithOwnRotator` | core/src/main/java/hudson/tasks/LogRotatorPeriodicTask.java:92-114 | For a job with its own rotator: NONE performs nothing, CUSTOM performs exactly the own rotator, and GLOBAL never performs it. |
| `PeriodicTask.JobWithoutOwnRotator` | core/src/main/java/hudson/tasks/LogRotatorPeriodicTask.java:115-133 | For a job without its own rotator, only GLOBAL performs anything. Under GLOBAL a rotator is performed exactly when some mapping matches. |
| `PeriodicTask.RunJobs` | core/src/main/java/hudson/tasks/LogRotatorPeriodicTask.java:84-147 | Jobs are processed in order. No job before the last processed one raised an interrupt. The pass stops early only right after an interrupt. |
| `PeriodicTask.RunPass` | core/src/main/java/hudson/tasks/LogRotatorPeriodicTask.java:84-147 | The imperative loop processes every job unless one raises an interrupt, and stops right after that job. It produces the same steps as `RunJobs`. |
| `PeriodicTask.TraceMembership` | core/src/main/java/hudson/tasks/LogRotatorPeriodicTask.java:100-104 | A call is in the trace exactly when some processed job made it. |
| `PeriodicTask.TraceOfUntouched` | core/src/main/java/hudson/tasks/LogRotatorPeriodicTask.java:84-147 | A pass in which no job performs anything has an empty trace. |
| `PeriodicTask.Execute` | core/src/main/java/hudson/tasks/LogRotatorPeriodicTask.java:64-154 | The run is not due exactly when the gate is closed. A closed gate or a missing instance touches no job and keeps the configuration. A run completes exactly when the gate is open, an instance exists and no job raises an interrupt. A pass aborts exactly when some job raises an interrupt, and then `lastRotated` is not written. A completed pass has processed every job and has written only `lastRotated`, with the fresh clock reading. |
| `PeriodicTask.FailuresAreIsolated` | core/src/main/java/hudson/tasks/LogRotatorPeriodicTask.java:138-150 | When no job raises an interrupt, failures do not stop the pass. Every job is processed and the timestamp is written. |
| `PeriodicTask.InterruptAbortsPass` | core/src/main/java/hudson/tasks/LogRotatorPeriodicTask.java:135-137 | An interrupt at job n ends the pass after exactly n+1 jobs. No later job is performed, and `lastRotated` stays unchanged. |
| `PeriodicTask.TraceFollowsPolicy` | core/src/main/java/hudson/tasks/LogRotatorPeriodicTask.java:92-133 | Every perform call of a run belongs to the job at its position. It respects that job's policy: the own rotator only under CUSTOM, and the first matching mapping only under GLOBAL. |
| `PeriodicTask.SecondRunIsNotDue` | core/src/main/java/hudson/tasks/LogRotatorPeriodicTask.java:70-76 | Right after a completed pass, a second run inside one interval is not due. It touches nothing and changes nothing. |
| `PeriodicTask.FreshConfigurationPerformsNothing` | core/src/main/java/hudson/model/LogRotatorConfiguration.java:57-61 | On an unedited configuration, a due pass performs no rotator. Every job fails on the null policy, yet the pass completes and records its timestamp. |

## Left out

- Persistence: `load()` and `save()`. The `GlobalConfiguration` lookup becomes an `Option<Config>` input.
- Job enumeration through `getAllItems()` and `getAllJobs()`. The flattened job sequence is an input.
- The internals of `LogRotator.perform`. Each call is an event, and an oracle decides its outcome.
- The Java regular-expression engine. `Matcher` is supplied by the caller. A malformed pattern would throw `PatternSyntaxException` and fail that one job; this is not modelled.
- An `Error` raised while matching a regular expression, such as a StackOverflowError from `String.matches`. It would leave `execute` without writing the timestamp, as an interrupt does; `Matcher` always returns a value.
- Aliasing of the mapping list. `setGlobalLogRotators` stores the caller's `List` by reference, and the getter hands back that same mutable list. Changes made through such an alias, without a setter and without `save()`, are not modelled: `Config` holds the mappings as a value.
- A null mapping list, and null fields inside a `LogRotatorMapping`. The `LogRotatorMapping` class is not part of this model.
- Logging levels and messages, `TaskListener`, and the one-minute recurrence of `AsyncPeriodicWork`.
- Concurrency: configuration edits made while a pass is running.
- PeriodicTask.Due: uses exact arithmetic rather than the rounding of the task's `double` hours. It also ignores a 64-bit overflow of `now - lastRotated`.
- RotatorConfiguration.SetUpdateIntervalHours: the interval is an unbounded integer rather than a 32-bit `int`.
- RotatorConfiguration.SetPolicyWithCustomName: a null string, which makes `valueOf` throw a NullPointerException, is not modelled.
- RotatorConfiguration.SetPolicyWithoutCustomName: a null string, which makes `valueOf` throw a NullPointerException, is not modelled.
