/**
 * scripts/feature-flags/flags.ts: evaluation in a fixed precedence order, fallback and registry
 * validation. SHA-256 is an arbitrary function from text to its first four bytes; an effective
 * date is its parsed form.
 */
module FeatureFlags {
  import opened Wrappers
  import opened Text
  import opened Numbers

  datatype Environment = Local | Development | Testing | Staging | Uat | Production | Sandbox

  /** An absent or empty bound, one that does not parse (it compares as NaN), or an instant. */
  datatype Bound = Unset | Unparseable | At(ms: int)

  datatype FlagDefinition = FlagDefinition(
    id: string,
    owner: string,
    environments: seq<Environment>,
    killSwitch: bool,
    rolloutPercentage: Number,
    effectiveFrom: Bound,
    effectiveUntil: Bound,
    tenantAllowList: Option<seq<string>>,
    tenantDenyList: Option<seq<string>>,
    cohorts: Option<seq<string>>)

  datatype Context = Context(tenantId: string, environment: Environment, cohorts: seq<string>)

  datatype Reason =
    | KillSwitch | EnvironmentGate | EffectiveDateWindow | TenantDenyList
    | TenantAllowList | CohortMismatch | RolloutBucket | Default

  datatype EvaluationResult = EvaluationResult(enabled: bool, reason: Reason)

  type Hash = string -> nat

  function BucketFor(hash: Hash, tenantId: string, flagId: string): (bucket: nat)
    ensures bucket < 100
  {
    hash(tenantId + ":" + flagId) % 100
  }

  predicate Listed(list: Option<seq<string>>, name: string) {
    list.Some? && name in list.value
  }

  predicate CohortMatches(flag: FlagDefinition, cohorts: seq<string>) {
    flag.cohorts.None? || flag.cohorts.value == [] || exists i :: 0 <= i < |flag.cohorts.value| && flag.cohorts.value[i] in cohorts
  }

  predicate InRollout(hash: Hash, flag: FlagDefinition, context: Context) {
    Less(Finite(BucketFor(hash, context.tenantId, flag.id) as real), flag.rolloutPercentage)
  }

  function Evaluate(hash: Hash, flag: FlagDefinition, context: Context, now: int): EvaluationResult {
    if flag.killSwitch then EvaluationResult(false, KillSwitch)
    else if context.environment !in flag.environments then EvaluationResult(false, EnvironmentGate)
    else if flag.effectiveFrom.At? && now < flag.effectiveFrom.ms then EvaluationResult(false, EffectiveDateWindow)
    else if flag.effectiveUntil.At? && now > flag.effectiveUntil.ms then EvaluationResult(false, EffectiveDateWindow)
    else if Listed(flag.tenantDenyList, context.tenantId) then EvaluationResult(false, TenantDenyList)
    else if Listed(flag.tenantAllowList, context.tenantId) then EvaluationResult(true, TenantAllowList)
    else if !CohortMatches(flag, context.cohorts) then EvaluationResult(false, CohortMismatch)
    else if InRollout(hash, flag, context) then EvaluationResult(true, RolloutBucket)
    else EvaluationResult(false, Default)
  }

  // ---------- What evaluation depends on ----------

  predicate InWindow(flag: FlagDefinition, now: int) {
    && (flag.effectiveFrom.At? ==> flag.effectiveFrom.ms <= now)
    && (flag.effectiveUntil.At? ==> now <= flag.effectiveUntil.ms)
  }

  /**
   * Over time an unchanged flag changes its answer exactly when an effective-date bound that
   * matters lies between the two instants.
   */
  lemma EvaluateOverTime(hash: Hash, flag: FlagDefinition, context: Context, t: int, now: int)
    ensures Evaluate(hash, flag, context, t) == Evaluate(hash, flag, context, now)
       <==> flag.killSwitch || context.environment !in flag.environments || InWindow(flag, t) == InWindow(flag, now)
  {
    assert Evaluate(hash, flag, context, t).reason == EffectiveDateWindow
      <==> !flag.killSwitch && context.environment in flag.environments && !InWindow(flag, t);
  }

  /** now is not before the lower bound and not after the upper one; a bound that does not parse bounds nothing. */
  ghost predicate Within(flag: FlagDefinition, now: int) {
    && (forall ms :: flag.effectiveFrom == At(ms) ==> ms <= now)
    && (forall ms :: flag.effectiveUntil == At(ms) ==> now <= ms)
  }

  /** The flag has no cohort, or shares one with the context. */
  ghost predicate SharesCohort(flag: FlagDefinition, context: Context) {
    flag.cohorts.None? || flag.cohorts.value == [] || exists c :: c in flag.cohorts.value && c in context.cohorts
  }

  /** The tenant's bucket, from 0 to 99, is below the percentage. */
  ghost predicate InBucket(hash: Hash, flag: FlagDefinition, context: Context) {
    match flag.rolloutPercentage
    case NaN => false
    case Infinite(positive) => positive
    case Finite(percentage) => (hash(context.tenantId + ":" + flag.id) % 100) as real < percentage
  }

  lemma CohortsAre(flag: FlagDefinition, context: Context)
    ensures CohortMatches(flag, context.cohorts) <==> SharesCohort(flag, context)
  {
    if flag.cohorts.Some? && CohortMatches(flag, context.cohorts) && flag.cohorts.value != [] {
      var i :| 0 <= i < |flag.cohorts.value| && flag.cohorts.value[i] in context.cohorts;
      assert flag.cohorts.value[i] in flag.cohorts.value;
    }
  }

  /**
   * A flag is on exactly when nothing switches it off and either the tenant is on the allow list
   * or its cohort matches and its bucket is below the rollout percentage. The kill switch and the
   * deny list always win.
   */
  lemma EnabledIff(hash: Hash, flag: FlagDefinition, context: Context, now: int)
    ensures Evaluate(hash, flag, context, now).enabled
       <==> && !flag.killSwitch && context.environment in flag.environments && Within(flag, now)
            && !(flag.tenantDenyList.Some? && context.tenantId in flag.tenantDenyList.value)
            && ((flag.tenantAllowList.Some? && context.tenantId in flag.tenantAllowList.value)
                || (SharesCohort(flag, context) && InBucket(hash, flag, context)))
  {
    CohortsAre(flag, context);
  }

  /** The reason given is the first that applies, in the order of the standard. */
  lemma ReasonIs(hash: Hash, flag: FlagDefinition, context: Context, now: int)
    ensures Evaluate(hash, flag, context, now).reason ==
      if flag.killSwitch then KillSwitch
      else if !(context.environment in flag.environments) then EnvironmentGate
      else if !Within(flag, now) then EffectiveDateWindow
      else if flag.tenantDenyList.Some? && context.tenantId in flag.tenantDenyList.value then TenantDenyList
      else if flag.tenantAllowList.Some? && context.tenantId in flag.tenantAllowList.value then TenantAllowList
      else if !SharesCohort(flag, context) then CohortMismatch
      else if InBucket(hash, flag, context) then RolloutBucket
      else Default
  {
    CohortsAre(flag, context);
  }

  /** Only which cohorts are present matters, not their order or repetition. */
  lemma EvaluateIgnoresCohortOrder(hash: Hash, flag: FlagDefinition, context: Context, cohorts: seq<string>, now: int)
    requires forall c :: c in cohorts <==> c in context.cohorts
    ensures Evaluate(hash, flag, context.(cohorts := cohorts), now) == Evaluate(hash, flag, context, now)
  {
    assert CohortMatches(flag, cohorts) == CohortMatches(flag, context.cohorts);
  }

  /** Raising the percentage never switches a tenant off, and 100 leaves nobody out. */
  lemma RolloutIsMonotone(hash: Hash, flag: FlagDefinition, wider: Number, context: Context, now: int)
    requires AtMost(flag.rolloutPercentage, wider)
    ensures Evaluate(hash, flag, context, now).enabled ==> Evaluate(hash, flag.(rolloutPercentage := wider), context, now).enabled
    ensures AtMost(Finite(100.0), wider) ==> Evaluate(hash, flag.(rolloutPercentage := wider), context, now).reason != Default
  {
    var widened := flag.(rolloutPercentage := wider);
    assert CohortMatches(widened, context.cohorts) == CohortMatches(flag, context.cohorts);
    var bucket := Finite(BucketFor(hash, context.tenantId, flag.id) as real);
    if InRollout(hash, flag, context) {
      LessTransitive(bucket, flag.rolloutPercentage, wider);
    }
    if AtMost(Finite(100.0), wider) {
      LessTransitive(bucket, Finite(100.0), wider);
    }
  }

  /** A percentage that is not a number, which the registry check lets pass, switches nobody on. */
  lemma NaNIsNeverRolledOut(hash: Hash, flag: FlagDefinition, context: Context, now: int)
    requires flag.rolloutPercentage == NaN
    ensures !RolloutInvalid(flag) && Evaluate(hash, flag, context, now).reason != RolloutBucket
    ensures Evaluate(hash, flag, context, now).enabled ==> Listed(flag.tenantAllowList, context.tenantId)
  {
  }

  // ---------- Fallback ----------

  datatype FallbackResult = FallbackResult(enabled: bool, unknown: bool, degraded: bool, reason: Option<Reason>)

  function FindFlag(flags: seq<FlagDefinition>, id: string): Option<FlagDefinition> {
    if flags == [] then None
    else if flags[0].id == id then Some(flags[0])
    else FindFlag(flags[1..], id)
  }

  function EvaluateWithFallback(hash: Hash, id: string, flags: Option<seq<FlagDefinition>>, context: Context, now: int, safeDefault: bool): FallbackResult {
    if flags.None? then FallbackResult(safeDefault, true, true, None)
    else
      match FindFlag(flags.value, id)
      case None => FallbackResult(safeDefault, true, false, None)
      case Some(flag) =>
        var result := Evaluate(hash, flag, context, now);
        FallbackResult(result.enabled, false, false, Some(result.reason))
  }

  // ---------- Registry validation ----------

  datatype ViolationKind = DuplicateId | MissingOwner | InvalidRolloutPercentage | InvalidEffectiveWindow
  datatype Violation = Violation(id: string, kind: ViolationKind)

  predicate WindowInverted(flag: FlagDefinition) {
    flag.effectiveFrom.At? && flag.effectiveUntil.At? && flag.effectiveFrom.ms > flag.effectiveUntil.ms
  }

  predicate RolloutInvalid(flag: FlagDefinition) { Less(flag.rolloutPercentage, Finite(0.0)) || Less(Finite(100.0), flag.rolloutPercentage) }

  function When(condition: bool, id: string, kind: ViolationKind): seq<Violation> {
    if condition then [Violation(id, kind)] else []
  }

  function Ids(flags: seq<FlagDefinition>): set<string> { set i | 0 <= i < |flags| :: flags[i].id }

  function ViolationsOf(flag: FlagDefinition, seen: bool): seq<Violation> {
    When(seen, flag.id, DuplicateId)
    + When(Blank(flag.owner), flag.id, MissingOwner)
    + When(RolloutInvalid(flag), flag.id, InvalidRolloutPercentage)
    + When(WindowInverted(flag), flag.id, InvalidEffectiveWindow)
  }

  function Violations(flags: seq<FlagDefinition>): seq<Violation> {
    if flags == [] then []
    else
      var before, flag := flags[..|flags| - 1], flags[|flags| - 1];
      Violations(before) + ViolationsOf(flag, flag.id in Ids(before))
  }

  /** What the registry check holds against a flag, in the order in which it does. */
  ghost predicate Violates(flag: FlagDefinition, seen: bool, kind: ViolationKind) {
    match kind
    case DuplicateId => seen
    case MissingOwner => forall i :: 0 <= i < |flag.owner| ==> IsSpace(flag.owner[i])
    case InvalidRolloutPercentage =>
      !flag.rolloutPercentage.NaN? && !(flag.rolloutPercentage.Finite? && 0.0 <= flag.rolloutPercentage.value <= 100.0)
    case InvalidEffectiveWindow => exists from, until :: flag.effectiveFrom == At(from) && flag.effectiveUntil == At(until) && from > until
  }

  ghost function Rank(kind: ViolationKind): nat {
    match kind case DuplicateId => 0 case MissingOwner => 1 case InvalidRolloutPercentage => 2 case InvalidEffectiveWindow => 3
  }

  lemma WhensHold(id: string, duplicate: bool, owner: bool, rollout: bool, window: bool, v: Violation)
    ensures v in When(duplicate, id, DuplicateId) + When(owner, id, MissingOwner)
               + When(rollout, id, InvalidRolloutPercentage) + When(window, id, InvalidEffectiveWindow)
       <==> v.id == id && match v.kind
            case DuplicateId => duplicate case MissingOwner => owner case InvalidRolloutPercentage => rollout case InvalidEffectiveWindow => window
  {
  }

  lemma WhensInOrder(id: string, duplicate: bool, owner: bool, rollout: bool, window: bool, j: nat, k: nat)
    ensures var found := When(duplicate, id, DuplicateId) + When(owner, id, MissingOwner)
                         + When(rollout, id, InvalidRolloutPercentage) + When(window, id, InvalidEffectiveWindow);
      j < k < |found| ==> Rank(found[j].kind) < Rank(found[k].kind)
  {
  }

  /** A flag's violations are those that hold of it, once each, in that order. */
  lemma ViolationsOfAre(flag: FlagDefinition, seen: bool, v: Violation)
    ensures var found := ViolationsOf(flag, seen);
      && (v in found <==> v.id == flag.id && Violates(flag, seen, v.kind))
      && forall j, k :: 0 <= j < k < |found| ==> Rank(found[j].kind) < Rank(found[k].kind)
  {
    var found := ViolationsOf(flag, seen);
    WhensHold(flag.id, seen, Blank(flag.owner), RolloutInvalid(flag), WindowInverted(flag), v);
    forall j, k | 0 <= j < k < |found| ensures Rank(found[j].kind) < Rank(found[k].kind) {
      WhensInOrder(flag.id, seen, Blank(flag.owner), RolloutInvalid(flag), WindowInverted(flag), j, k);
    }
  }

  /** The loop's body. */
  method ValidateFlag(flag: FlagDefinition, seen: bool) returns (found: seq<Violation>)
    ensures found == ViolationsOf(flag, seen)
  {
    found := [];
    if seen {
      found := found + [Violation(flag.id, DuplicateId)];
    }
    if Blank(flag.owner) {
      found := found + [Violation(flag.id, MissingOwner)];
    }
    if RolloutInvalid(flag) {
      found := found + [Violation(flag.id, InvalidRolloutPercentage)];
    }
    if WindowInverted(flag) {
      found := found + [Violation(flag.id, InvalidEffectiveWindow)];
    }
  }

  method ValidateFlagRegistry(flags: seq<FlagDefinition>) returns (violations: seq<Violation>)
    ensures violations == Violations(flags)
  {
    violations := [];
    var seenIds: set<string> := {};
    for i := 0 to |flags|
      invariant seenIds == Ids(flags[..i])
      invariant violations == Violations(flags[..i])
    {
      var found := ValidateFlag(flags[i], flags[i].id in seenIds);
      assert flags[..i + 1][..i] == flags[..i];
      violations := violations + found;
      seenIds := seenIds + {flags[i].id};
    }
    assert flags[..|flags|] == flags;
  }

  /** Of a registry, flag by flag: an id counts as seen when an earlier flag has it. */
  lemma ViolationsAre(flags: seq<FlagDefinition>, i: nat)
    requires i < |flags|
    ensures Violations(flags[..i + 1])
         == Violations(flags[..i]) + ViolationsOf(flags[i], exists j :: 0 <= j < i && flags[j].id == flags[i].id)
  {
    assert flags[..i + 1][..i] == flags[..i];
    if flags[i].id in Ids(flags[..i]) {
      var j :| 0 <= j < i && flags[..i][j].id == flags[i].id;
      assert flags[j].id == flags[i].id;
    }
    if exists j :: 0 <= j < i && flags[j].id == flags[i].id {
      var j :| 0 <= j < i && flags[j].id == flags[i].id;
      assert flags[..i][j].id in Ids(flags[..i]);
    }
  }

  ghost predicate DistinctIds(flags: seq<FlagDefinition>) {
    forall i, j :: 0 <= i < j < |flags| ==> flags[i].id != flags[j].id
  }

  ghost predicate WellFormed(flag: FlagDefinition) {
    && (exists i :: 0 <= i < |flag.owner| && !IsSpace(flag.owner[i]))
    && (flag.rolloutPercentage.NaN? || (flag.rolloutPercentage.Finite? && 0.0 <= flag.rolloutPercentage.value <= 100.0))
    && (forall from, until :: flag.effectiveFrom == At(from) && flag.effectiveUntil == At(until) ==> from <= until)
  }

  ghost predicate AllWellFormed(flags: seq<FlagDefinition>) {
    forall i :: 0 <= i < |flags| ==> WellFormed(flags[i])
  }

  lemma DistinctIdsExtend(flags: seq<FlagDefinition>, n: nat)
    requires |flags| == n + 1
    ensures DistinctIds(flags) <==> DistinctIds(flags[..n]) && flags[n].id !in Ids(flags[..n])
  {
    var before := flags[..n];
    if DistinctIds(before) && flags[n].id !in Ids(before) {
      forall i, j | 0 <= i < j < |flags| ensures flags[i].id != flags[j].id {
        assert before[i].id in Ids(before);
      }
    }
  }

  lemma ViolationsOfIff(flag: FlagDefinition, seen: bool)
    ensures ViolationsOf(flag, seen) == [] <==> !seen && WellFormed(flag)
  {
  }

  /** Flag by flag: no id again, and a well-formed flag. */
  ghost predicate FlagsInOrder(flags: seq<FlagDefinition>) {
    flags == []
    || var before, flag := flags[..|flags| - 1], flags[|flags| - 1];
       FlagsInOrder(before) && flag.id !in Ids(before) && WellFormed(flag)
  }

  lemma {:induction false} FlagsInOrderIff(flags: seq<FlagDefinition>)
    ensures FlagsInOrder(flags) <==> DistinctIds(flags) && AllWellFormed(flags)
  {
    if flags != [] {
      var n := |flags| - 1;
      FlagsInOrderIff(flags[..n]);
      DistinctIdsExtend(flags, n);
      assert AllWellFormed(flags) <==> AllWellFormed(flags[..n]) && WellFormed(flags[n]);
    }
  }

  lemma {:induction false} NoViolationInOrder(flags: seq<FlagDefinition>)
    ensures Violations(flags) == [] <==> FlagsInOrder(flags)
  {
    if flags != [] {
      var before, flag := flags[..|flags| - 1], flags[|flags| - 1];
      NoViolationInOrder(before);
      ViolationsOfIff(flag, flag.id in Ids(before));
    }
  }

  /** No violation exactly when ids are distinct and every flag is well-formed; NaN counts as a percentage. */
  lemma NoViolationsIff(flags: seq<FlagDefinition>)
    ensures Violations(flags) == [] <==> DistinctIds(flags) && AllWellFormed(flags)
  {
    NoViolationInOrder(flags);
    FlagsInOrderIff(flags);
  }

  /** The first flag with the id, if there is one. */
  ghost predicate FirstWithId(flags: seq<FlagDefinition>, id: string, k: nat) {
    k < |flags| && flags[k].id == id && forall j :: 0 <= j < k ==> flags[j].id != id
  }

  lemma {:induction false} FindFlagIs(flags: seq<FlagDefinition>, id: string)
    ensures FindFlag(flags, id) == None <==> forall k :: 0 <= k < |flags| ==> flags[k].id != id
    ensures forall k: nat :: FirstWithId(flags, id, k) ==> FindFlag(flags, id) == Some(flags[k])
  {
    if flags != [] && flags[0].id != id {
      FindFlagIs(flags[1..], id);
      assert forall k :: 0 < k < |flags| ==> flags[k] == flags[1..][k - 1];
      forall k: nat | FirstWithId(flags, id, k) ensures FindFlag(flags, id) == Some(flags[k]) {
        assert FirstWithId(flags[1..], id, k - 1);
      }
    }
  }

  /** The default stands in when the registry cannot be read, degraded, and for an unknown id; otherwise the id's first flag is evaluated. */
  lemma FallbackIs(hash: Hash, flags: seq<FlagDefinition>, id: string, context: Context, now: int, safeDefault: bool)
    ensures EvaluateWithFallback(hash, id, None, context, now, safeDefault) == FallbackResult(safeDefault, true, true, None)
    ensures (forall k :: 0 <= k < |flags| ==> flags[k].id != id) ==>
      EvaluateWithFallback(hash, id, Some(flags), context, now, safeDefault) == FallbackResult(safeDefault, true, false, None)
    ensures forall k: nat :: FirstWithId(flags, id, k) ==>
      var e := Evaluate(hash, flags[k], context, now);
      EvaluateWithFallback(hash, id, Some(flags), context, now, safeDefault) == FallbackResult(e.enabled, false, false, Some(e.reason))
  {
    FindFlagIs(flags, id);
  }

  /** With distinct ids a lookup evaluates that very flag, wherever it stands and whatever else is wrong with it. */
  lemma FallbackFindsTheFlag(hash: Hash, flags: seq<FlagDefinition>, k: nat, context: Context, now: int, safeDefault: bool)
    requires k < |flags| && DistinctIds(flags)
    ensures var r := EvaluateWithFallback(hash, flags[k].id, Some(flags), context, now, safeDefault);
      var e := Evaluate(hash, flags[k], context, now);
      r == FallbackResult(e.enabled, false, false, Some(e.reason))
  {
    FallbackIs(hash, flags, flags[k].id, context, now, safeDefault);
    assert FirstWithId(flags, flags[k].id, k);
  }
}
