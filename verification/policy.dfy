/**
  Per-job policy resolution: whether a job has its own LogRotator and the
  policy configured for that kind of job decide what the periodic task does
  with it.
 */
module PolicyResolution {
  import opened Options
  import opened RotatorConfiguration

  /** A job's build discarder. Only a LogRotator counts as the job's own
      rotator; no discarder and any other BuildDiscarder count as none. */
  datatype Discarder = NoDiscarder | OwnLogRotator(rotator: LogRotator) | OtherDiscarder

  /** The part of a job the task reads: its full name and its discarder. */
  datatype Job = Job(fullName: string, discarder: Discarder)

  predicate HasOwnLogRotator(job: Job)
  {
    job.discarder.OwnLogRotator?
  }

  /** The policy field that governs `job`. */
  function PolicyFor(config: Config, job: Job): Option<Policy>
  {
    if HasOwnLogRotator(job) then config.policyWithCustom else config.policyWithoutCustom
  }

  /** What the task does with one job. `NullPolicy` is the NullPointerException
      a switch on an unset policy throws; `ReportUnsupported` is the SEVERE log
      of a switch's default branch. */
  datatype Action = DoNothing | PerformOwn | ApplyGlobal | ReportUnsupported | NullPolicy

  /** The two switch statements of the task, one per kind of job. */
  function Resolve(hasOwn: bool, policy: Option<Policy>): (a: Action)
    ensures a == NullPolicy <==> policy.None?
    ensures a == DoNothing <==> policy == Some(NONE)
    ensures a == ApplyGlobal <==> policy == Some(GLOBAL)
    ensures a == PerformOwn <==> hasOwn && policy == Some(CUSTOM)
    ensures a == ReportUnsupported <==> !hasOwn && policy == Some(CUSTOM)
  {
    match policy
    case None => NullPolicy
    case Some(p) =>
      if hasOwn then
        match p
        case NONE => DoNothing
        case CUSTOM => PerformOwn
        case GLOBAL => ApplyGlobal
      else
        match p
        case NONE => DoNothing
        case GLOBAL => ApplyGlobal
        case _ => ReportUnsupported
  }

  /** The default branch of the switch for jobs with their own rotator is dead:
      every enum value has a case, and null throws before the switch. */
  lemma OwnRotatorNeverUnsupported(policy: Option<Policy>)
    ensures Resolve(true, policy) != ReportUnsupported
  {
  }
}
