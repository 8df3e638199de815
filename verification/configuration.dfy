/**
  The global log-rotation configuration bean: the policy enum, its defaults,
  and the setters the configuration form and the periodic task use.
  Persistence (`load()`/`save()`) is not modelled; every value of `Config`
  is one state of the bean.
 */
module RotatorConfiguration {
  import opened Options

  /** How to rotate the logs of a job. The constructor names are the enum
      constant names that `valueOf` accepts. */
  datatype Policy =
    | NONE    // do nothing
    | CUSTOM  // use the job's own LogRotator
    | GLOBAL  // apply a globally-defined LogRotator

  /** An opaque LogRotator instance; `id` tells distinct instances apart. */
  datatype LogRotator = LogRotator(id: nat)

  /** A global rule: jobs whose full name matches `jobNameRegex` are rotated by `logRotator`. */
  datatype Mapping = Mapping(jobNameRegex: string, logRotator: LogRotator)

  /** The bean's fields. A policy field of `None` is a Java null. */
  datatype Config = Config(
    enableRotation: bool,
    updateIntervalHours: int,
    lastRotated: int,
    policyWithCustom: Option<Policy>,
    policyWithoutCustom: Option<Policy>,
    globalLogRotators: seq<Mapping>)

  const DefaultEnableRotation: bool := true
  const DefaultUpdateIntervalHours: int := 24
  const DefaultPolicyForJobsWithRotators: Policy := CUSTOM
  const DefaultPolicyForJobsWithoutRotators: Policy := NONE

  /** The bean as its field initialisers leave it. The two policy fields have no
      initialiser, so they start null: the DEFAULT_POLICY constants are declared
      but never assigned. */
  function Initial(): Config
  {
    Config(DefaultEnableRotation, DefaultUpdateIntervalHours, 0, None, None, [])
  }

  lemma InitialState()
    ensures Initial().enableRotation && Initial().updateIntervalHours == 24
    ensures Initial().lastRotated == 0 && Initial().globalLogRotators == []
    ensures Initial().policyWithCustom == None && Initial().policyWithoutCustom == None
    ensures Initial().policyWithCustom != Some(DefaultPolicyForJobsWithRotators)
    ensures Initial().policyWithoutCustom != Some(DefaultPolicyForJobsWithoutRotators)
  {
  }

  /** Every constant has one of three distinct names. */
  lemma PolicyHasThreeValues()
    ensures forall p: Policy :: PolicyName(p) in {"NONE", "CUSTOM", "GLOBAL"}
    ensures |{NONE, CUSTOM, GLOBAL}| == 3
  {
  }

  /** The name `valueOf` accepts for each constant. */
  function PolicyName(p: Policy): string
  {
    match p
    case NONE => "NONE"
    case CUSTOM => "CUSTOM"
    case GLOBAL => "GLOBAL"
  }

  /** `LogRotationPolicy.valueOf`: exact, case-sensitive constant names only. */
  function ParsePolicy(s: string): (r: Option<Policy>)
    ensures r.Some? ==> PolicyName(r.value) == s
    ensures r.None? ==> forall p: Policy :: PolicyName(p) != s
  {
    if s == "NONE" then Some(NONE)
    else if s == "CUSTOM" then Some(CUSTOM)
    else if s == "GLOBAL" then Some(GLOBAL)
    else None
  }

  lemma ParsePolicyName(p: Policy)
    ensures ParsePolicy(PolicyName(p)) == Some(p)
  {
  }

  /** The bean's fields, to say which one an update touches. */
  datatype Field = Enable | Interval | LastRotated | WithCustom | WithoutCustom | Mappings

  predicate SameField(c: Config, d: Config, f: Field)
  {
    match f
    case Enable => c.enableRotation == d.enableRotation
    case Interval => c.updateIntervalHours == d.updateIntervalHours
    case LastRotated => c.lastRotated == d.lastRotated
    case WithCustom => c.policyWithCustom == d.policyWithCustom
    case WithoutCustom => c.policyWithoutCustom == d.policyWithoutCustom
    case Mappings => c.globalLogRotators == d.globalLogRotators
  }

  /** `d` differs from `c` at most in field `f`. */
  predicate OnlyChanged(c: Config, d: Config, f: Field)
  {
    forall g: Field :: g != f ==> SameField(c, d, g)
  }

  function SetEnableRotation(c: Config, enable: bool): (r: Config)
    ensures r.enableRotation == enable && OnlyChanged(c, r, Enable)
  {
    c.(enableRotation := enable)
  }

  function SetUpdateIntervalHours(c: Config, hours: int): (r: Config)
    ensures r.updateIntervalHours == hours && OnlyChanged(c, r, Interval)
  {
    c.(updateIntervalHours := hours)
  }

  /** Not a form setter: only the periodic task writes the timestamp. */
  function SetLastRotated(c: Config, millis: int): (r: Config)
    ensures r.lastRotated == millis && OnlyChanged(c, r, LastRotated)
  {
    c.(lastRotated := millis)
  }

  /** The enum overload; a null argument stores null. */
  function SetPolicyWithCustom(c: Config, p: Option<Policy>): (r: Config)
    ensures r.policyWithCustom == p && OnlyChanged(c, r, WithCustom)
  {
    c.(policyWithCustom := p)
  }

  function SetPolicyWithoutCustom(c: Config, p: Option<Policy>): (r: Config)
    ensures r.policyWithoutCustom == p && OnlyChanged(c, r, WithoutCustom)
  {
    c.(policyWithoutCustom := p)
  }

  /** The list is stored as given: order and duplicates are kept. */
  function SetGlobalLogRotators(c: Config, mappings: seq<Mapping>): (r: Config)
    ensures r.globalLogRotators == mappings && OnlyChanged(c, r, Mappings)
  {
    c.(globalLogRotators := mappings)
  }

  /** What a string setter leaves behind: the updated bean, or the
      IllegalArgumentException `valueOf` throws before the field is assigned. */
  datatype SetResult = Stored(config: Config) | IllegalArgument

  /** The string overload: parse, then store. */
  function SetPolicyWithCustomName(c: Config, name: string): (r: SetResult)
    ensures r.Stored? <==> exists p: Policy :: PolicyName(p) == name
    ensures r.Stored? ==> r.config.policyWithCustom.Some? && PolicyName(r.config.policyWithCustom.value) == name
    ensures r.Stored? ==> OnlyChanged(c, r.config, WithCustom)
  {
    match ParsePolicy(name)
    case None => IllegalArgument
    case Some(p) =>
      ParsePolicyName(p);
      Stored(SetPolicyWithCustom(c, Some(p)))
  }

  function SetPolicyWithoutCustomName(c: Config, name: string): (r: SetResult)
    ensures r.Stored? <==> exists p: Policy :: PolicyName(p) == name
    ensures r.Stored? ==> r.config.policyWithoutCustom.Some? && PolicyName(r.config.policyWithoutCustom.value) == name
    ensures r.Stored? ==> OnlyChanged(c, r.config, WithoutCustom)
  {
    match ParsePolicy(name)
    case None => IllegalArgument
    case Some(p) =>
      ParsePolicyName(p);
      Stored(SetPolicyWithoutCustom(c, Some(p)))
  }

  /** One value submitted through a data-bound setter of the configuration form. */
  datatype FormValue =
    | FormEnableRotation(enable: bool)
    | FormUpdateIntervalHours(hours: int)
    | FormPolicyWithCustom(policy: Option<Policy>)
    | FormPolicyWithCustomName(name: string)
    | FormPolicyWithoutCustom(policy: Option<Policy>)
    | FormPolicyWithoutCustomName(name: string)
    | FormGlobalLogRotators(mappings: seq<Mapping>)

  /** Applies one form value through the matching setter. */
  function ApplyFormValue(c: Config, v: FormValue): (r: SetResult)
    ensures r.Stored? ==> r.config.lastRotated == c.lastRotated
    ensures r.Stored? ==> exists f: Field :: f != LastRotated && OnlyChanged(c, r.config, f)
    ensures r.IllegalArgument? <==>
              ((v.FormPolicyWithCustomName? || v.FormPolicyWithoutCustomName?) &&
               forall p: Policy :: PolicyName(p) != v.name)
  {
    match v
    case FormEnableRotation(b) => Stored(SetEnableRotation(c, b))
    case FormUpdateIntervalHours(h) => Stored(SetUpdateIntervalHours(c, h))
    case FormPolicyWithCustom(p) => Stored(SetPolicyWithCustom(c, p))
    case FormPolicyWithCustomName(s) => SetPolicyWithCustomName(c, s)
    case FormPolicyWithoutCustom(p) => Stored(SetPolicyWithoutCustom(c, p))
    case FormPolicyWithoutCustomName(s) => SetPolicyWithoutCustomName(c, s)
    case FormGlobalLogRotators(ms) => Stored(SetGlobalLogRotators(c, ms))
  }
}
