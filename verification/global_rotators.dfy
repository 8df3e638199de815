/**
  Selection of the global LogRotator for a job: the first mapping, in list
  order, whose regular expression matches the job's full name.
 */
module GlobalRotators {
  import opened Options
  import opened RotatorConfiguration

  /** Whole-string regular-expression matching (`name.matches(regex)`),
      supplied by the caller: the regex engine is not modelled. */
  type Matcher = (string, string) -> bool

  /** Mapping `i` matches `name` and no earlier mapping does. */
  ghost predicate IsFirstMatch(matches: Matcher, name: string, mappings: seq<Mapping>, i: int)
  {
    && 0 <= i < |mappings|
    && matches(name, mappings[i].jobNameRegex)
    && forall j :: 0 <= j < i ==> !matches(name, mappings[j].jobNameRegex)
  }

  ghost predicate NoneMatches(matches: Matcher, name: string, mappings: seq<Mapping>)
  {
    forall j :: 0 <= j < |mappings| ==> !matches(name, mappings[j].jobNameRegex)
  }

  /** The first matching mapping at index `k` or later. */
  function FirstMatchFrom(matches: Matcher, name: string, mappings: seq<Mapping>, k: nat): (r: Option<nat>)
    requires k <= |mappings|
    ensures r.Some? ==> k <= r.value < |mappings| && matches(name, mappings[r.value].jobNameRegex)
    ensures r.Some? ==> forall j :: k <= j < r.value ==> !matches(name, mappings[j].jobNameRegex)
    ensures r.None? ==> forall j :: k <= j < |mappings| ==> !matches(name, mappings[j].jobNameRegex)
    decreases |mappings| - k
  {
    if k == |mappings| then None
    else if matches(name, mappings[k].jobNameRegex) then Some(k)
    else FirstMatchFrom(matches, name, mappings, k + 1)
  }

  /** Index of the mapping whose rotator a global application performs, if any. */
  function FirstMatch(matches: Matcher, name: string, mappings: seq<Mapping>): (r: Option<nat>)
    ensures r.Some? ==> IsFirstMatch(matches, name, mappings, r.value)
    ensures r.None? ==> NoneMatches(matches, name, mappings)
  {
    FirstMatchFrom(matches, name, mappings, 0)
  }

  /** There is at most one first match. */
  lemma FirstMatchUnique(matches: Matcher, name: string, mappings: seq<Mapping>, i: int, j: int)
    requires IsFirstMatch(matches, name, mappings, i)
    requires IsFirstMatch(matches, name, mappings, j)
    ensures i == j
  {
  }

  /** `FirstMatch` finds the first match whenever there is one, and reports
      none exactly when no mapping matches. */
  lemma FirstMatchComplete(matches: Matcher, name: string, mappings: seq<Mapping>)
    ensures forall i :: IsFirstMatch(matches, name, mappings, i) ==> FirstMatch(matches, name, mappings) == Some(i)
    ensures NoneMatches(matches, name, mappings) <==> FirstMatch(matches, name, mappings).None?
  {
  }

  /** Mappings after the first match are never consulted: replacing them
      changes nothing. */
  lemma FirstMatchIgnoresLater(matches: Matcher, name: string, mappings: seq<Mapping>, other: seq<Mapping>, i: nat)
    requires FirstMatch(matches, name, mappings) == Some(i)
    requires i < |other| && other[..i + 1] == mappings[..i + 1]
    ensures FirstMatch(matches, name, other) == Some(i)
  {
  }

  /** `applyGlobalLogRotators`: walk the mappings in order and stop at the
      first whose regex matches; `chosen` is the index whose rotator is performed. */
  method ApplyGlobalLogRotators(matches: Matcher, name: string, mappings: seq<Mapping>) returns (chosen: Option<nat>)
    ensures chosen.Some? ==> IsFirstMatch(matches, name, mappings, chosen.value)
    ensures chosen.None? ==> NoneMatches(matches, name, mappings)
    ensures chosen == FirstMatch(matches, name, mappings)
  {
    var i := 0;
    while i < |mappings|
      invariant 0 <= i <= |mappings|
      invariant forall j :: 0 <= j < i ==> !matches(name, mappings[j].jobNameRegex)
    {
      if matches(name, mappings[i].jobNameRegex) {
        FirstMatchComplete(matches, name, mappings);
        return Some(i);
      }
      i := i + 1;
    }
    FirstMatchComplete(matches, name, mappings);
    return None;
  }
}
