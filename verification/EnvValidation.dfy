/**
 * scripts/env/validate.ts and scripts/env/schema.ts: fail-fast validation of the environment. The
 * registry is a parameter; a schema is an arbitrary function from a raw value to its issues.
 */
module EnvValidation {
  import opened Sequences
  import opened Wrappers

  datatype EnvironmentClass = Local | Development | Testing | Staging | Uat | Production | Sandbox

  datatype Classification = Public | Server | Secret

  /** requiredIn is None for a variable that every class requires. */
  datatype EnvVar = EnvVar(
    name: string,
    classification: Classification,
    issues: string -> seq<string>,
    requiredIn: Option<set<EnvironmentClass>>,
    deprecated: bool)

  /** An unset variable is not a key. */
  type Source = map<string, string>

  datatype ValidatedEnv = ValidatedEnv(environmentClass: EnvironmentClass, values: map<string, string>)

  /** The failure messages, by what they are built from. */
  datatype Failure =
    | NotSet(name: string, environmentClass: EnvironmentClass)
    | Invalid(name: string, details: seq<string>)
    | MustBeLoopback(environmentClass: EnvironmentClass)
    | MustNotBeLoopback(environmentClass: EnvironmentClass)

  datatype EnvError = BadClass(unset: bool) | Failed(environmentClass: EnvironmentClass, failures: seq<Failure>)

  const CLASS_VARIABLE := "CARGOGRID_ENV"
  const URL_VARIABLE := "NEXT_PUBLIC_SUPABASE_URL"

  function ClassName(c: EnvironmentClass): string {
    match c
    case Local => "local"
    case Development => "development"
    case Testing => "testing"
    case Staging => "staging"
    case Uat => "uat"
    case Production => "production"
    case Sandbox => "sandbox"
  }

  function ClassNamed(raw: string): Option<EnvironmentClass> {
    if raw == "local" then Some(Local)
    else if raw == "development" then Some(Development)
    else if raw == "testing" then Some(Testing)
    else if raw == "staging" then Some(Staging)
    else if raw == "uat" then Some(Uat)
    else if raw == "production" then Some(Production)
    else if raw == "sandbox" then Some(Sandbox)
    else None
  }

  /** The class a text names. */
  ghost predicate NamesClass(raw: string, c: EnvironmentClass) {
    || (raw == "local" && c == Local) || (raw == "development" && c == Development) || (raw == "testing" && c == Testing)
    || (raw == "staging" && c == Staging) || (raw == "uat" && c == Uat) || (raw == "production" && c == Production)
    || (raw == "sandbox" && c == Sandbox)
  }

  lemma ClassNamedIff(raw: string, c: EnvironmentClass)
    ensures ClassNamed(raw) == Some(c) <==> raw == ClassName(c)
    ensures ClassNamed(raw) == Some(c) <==> NamesClass(raw, c)
  {
  }

  predicate IsLocalHost(host: string) { host == "127.0.0.1" || host == "localhost" || host == "::1" }

  /** new URL(raw).hostname, None where that throws. */
  type HostOf = string -> Option<string>

  predicate IsLoopback(hostOf: HostOf, url: string) { hostOf(url).Some? && IsLocalHost(hostOf(url).value) }

  predicate IsRequiredIn(def: EnvVar, c: EnvironmentClass) {
    !def.deprecated && (def.requiredIn.Some? ==> c in def.requiredIn.value)
  }

  // ---------- The specification ----------

  /** What can be told about a variable without its value. */
  datatype View = Unset | Valid | Bad(details: seq<string>)

  function ViewOf(def: EnvVar, source: Source): View {
    if def.name !in source || source[def.name] == "" then Unset
    else if def.issues(source[def.name]) == [] then Valid
    else Bad(def.issues(source[def.name]))
  }

  datatype ClassView = ClassUnset | ClassInvalid | ClassIs(c: EnvironmentClass)

  function ClassViewOf(source: Source): ClassView {
    if CLASS_VARIABLE !in source then ClassUnset
    else
      match ClassNamed(source[CLASS_VARIABLE])
      case None => ClassInvalid
      case Some(c) => ClassIs(c)
  }

  predicate Checked(def: EnvVar, c: EnvironmentClass) { def.name != CLASS_VARIABLE && IsRequiredIn(def, c) }

  function FailureOf(def: EnvVar, c: EnvironmentClass, view: View): seq<Failure> {
    if !Checked(def, c) then []
    else
      match view
      case Unset => [NotSet(def.name, c)]
      case Bad(details) => [Invalid(def.name, details)]
      case Valid => []
  }

  function FailuresOf(registry: seq<EnvVar>, c: EnvironmentClass, source: Source): seq<Failure> {
    if registry == [] then []
    else
      var def := registry[|registry| - 1];
      FailuresOf(registry[..|registry| - 1], c, source) + FailureOf(def, c, ViewOf(def, source))
  }

  function WithValue(values: map<string, string>, def: EnvVar, c: EnvironmentClass, source: Source): map<string, string> {
    if def.name == CLASS_VARIABLE then values[def.name := ClassName(c)]
    else if Checked(def, c) && ViewOf(def, source) == Valid && def.name in source then values[def.name := source[def.name]]
    else values
  }

  function ValuesOf(registry: seq<EnvVar>, c: EnvironmentClass, source: Source): map<string, string> {
    if registry == [] then map[]
    else WithValue(ValuesOf(registry[..|registry| - 1], c, source), registry[|registry| - 1], c, source)
  }

  /** What the next variable adds. */
  lemma OneMoreVariable(registry: seq<EnvVar>, i: nat, c: EnvironmentClass, source: Source)
    requires i < |registry|
    ensures ValuesOf(registry[..i + 1], c, source) == WithValue(ValuesOf(registry[..i], c, source), registry[i], c, source)
    ensures FailuresOf(registry[..i + 1], c, source) == FailuresOf(registry[..i], c, source) + FailureOf(registry[i], c, ViewOf(registry[i], source))
  {
    assert registry[..i + 1][..i] == registry[..i];
  }

  function LinkageOf(hostOf: HostOf, c: EnvironmentClass, values: map<string, string>): seq<Failure> {
    if URL_VARIABLE !in values || values[URL_VARIABLE] == "" then []
    else if c == Local then if IsLoopback(hostOf, values[URL_VARIABLE]) then [] else [MustBeLoopback(c)]
    else if IsLoopback(hostOf, values[URL_VARIABLE]) then [MustNotBeLoopback(c)]
    else []
  }

  function Load(registry: seq<EnvVar>, hostOf: HostOf, source: Source): Result<ValidatedEnv, EnvError> {
    match ClassViewOf(source)
    case ClassUnset => Thrown(BadClass(true))
    case ClassInvalid => Thrown(BadClass(false))
    case ClassIs(c) =>
      var values := ValuesOf(registry, c, source);
      var failures := FailuresOf(registry, c, source) + LinkageOf(hostOf, c, values);
      if failures == [] then Ok(ValidatedEnv(c, values)) else Thrown(Failed(c, failures))
  }

  // ---------- The methods ----------

  method CheckProductionLinkage(hostOf: HostOf, c: EnvironmentClass, values: map<string, string>) returns (found: seq<Failure>)
    ensures found == LinkageOf(hostOf, c, values)
  {
    found := [];
    if URL_VARIABLE !in values || values[URL_VARIABLE] == "" {
      return;
    }
    var host := hostOf(values[URL_VARIABLE]);
    var isLoopback := host.Some? && IsLocalHost(host.value);
    var mustBeLoopback := c == Local;
    if mustBeLoopback && !isLoopback {
      found := found + [MustBeLoopback(c)];
    }
    if !mustBeLoopback && isLoopback {
      found := found + [MustNotBeLoopback(c)];
    }
  }

  method CheckVariables(registry: seq<EnvVar>, c: EnvironmentClass, source: Source)
    returns (values: map<string, string>, failures: seq<Failure>)
    ensures values == ValuesOf(registry, c, source)
    ensures failures == FailuresOf(registry, c, source)
  {
    values, failures := map[], [];
    for i := 0 to |registry|
      invariant values == ValuesOf(registry[..i], c, source)
      invariant failures == FailuresOf(registry[..i], c, source)
    {
      var def := registry[i];
      OneMoreVariable(registry, i, c, source);
      if def.name == CLASS_VARIABLE {
        values := values[def.name := ClassName(c)];
        continue;
      }
      if !IsRequiredIn(def, c) {
        continue;
      }
      if def.name !in source || source[def.name] == "" {
        failures := failures + [NotSet(def.name, c)];
        continue;
      }
      var raw := source[def.name];
      if |def.issues(raw)| > 0 {
        failures := failures + [Invalid(def.name, def.issues(raw))];
        continue;
      }
      values := values[def.name := raw];
    }
    assert registry[..|registry|] == registry;
  }

  method LoadEnv(registry: seq<EnvVar>, hostOf: HostOf, source: Source) returns (r: Result<ValidatedEnv, EnvError>)
    ensures r == Load(registry, hostOf, source)
  {
    if CLASS_VARIABLE !in source {
      return Thrown(BadClass(true));
    }
    var parsed := ClassNamed(source[CLASS_VARIABLE]);
    if parsed.None? {
      return Thrown(BadClass(false));
    }
    var values, failures := CheckVariables(registry, parsed.value, source);
    if URL_VARIABLE in values && values[URL_VARIABLE] != "" {
      var found := CheckProductionLinkage(hostOf, parsed.value, values);
      failures := failures + found;
    } else {
      assert failures + [] == failures;
    }
    if |failures| > 0 {
      return Thrown(Failed(parsed.value, failures));
    }
    return Ok(ValidatedEnv(parsed.value, values));
  }

  // ---------- No value leaks into a failure ----------

  ghost predicate SameViews(registry: seq<EnvVar>, a: Source, b: Source) {
    forall i :: 0 <= i < |registry| ==> ViewOf(registry[i], a) == ViewOf(registry[i], b)
  }

  /** Two environments that look alike without their values. */
  ghost predicate LookAlike(registry: seq<EnvVar>, hostOf: HostOf, a: Source, b: Source) {
    && ClassViewOf(a) == ClassViewOf(b)
    && SameViews(registry, a, b)
    && (URL_VARIABLE in a && URL_VARIABLE in b ==> IsLoopback(hostOf, a[URL_VARIABLE]) == IsLoopback(hostOf, b[URL_VARIABLE]))
  }

  lemma {:induction false} SameFailures(registry: seq<EnvVar>, c: EnvironmentClass, a: Source, b: Source)
    requires SameViews(registry, a, b)
    ensures FailuresOf(registry, c, a) == FailuresOf(registry, c, b)
  {
    if registry != [] {
      SameFailures(registry[..|registry| - 1], c, a, b);
    }
  }

  /** A variable has a value exactly when it is the class itself or is required, set and valid. */
  ghost predicate Kept(def: EnvVar, c: EnvironmentClass, source: Source) {
    def.name == CLASS_VARIABLE || (IsRequiredIn(def, c) && ViewOf(def, source) == Valid)
  }

  ghost predicate KeptName(registry: seq<EnvVar>, c: EnvironmentClass, source: Source, name: string) {
    exists i :: 0 <= i < |registry| && registry[i].name == name && Kept(registry[i], c, source)
  }

  lemma KeptExtends(registry: seq<EnvVar>, c: EnvironmentClass, source: Source, name: string, n: nat)
    requires |registry| == n + 1
    ensures KeptName(registry, c, source, name)
       <==> KeptName(registry[..n], c, source, name) || (registry[n].name == name && Kept(registry[n], c, source))
  {
    var before := registry[..n];
    forall i | 0 <= i < n && before[i].name == name && Kept(before[i], c, source)
      ensures KeptName(registry, c, source, name)
    {
      assert registry[i].name == name && Kept(registry[i], c, source);
    }
    if KeptName(registry, c, source, name) {
      var i :| 0 <= i < |registry| && registry[i].name == name && Kept(registry[i], c, source);
      assert i < n ==> before[i].name == name && Kept(before[i], c, source);
    }
  }

  lemma {:induction false} ValueKeys(registry: seq<EnvVar>, c: EnvironmentClass, source: Source, name: string)
    ensures name in ValuesOf(registry, c, source) <==> KeptName(registry, c, source, name)
  {
    if registry != [] {
      var n := |registry| - 1;
      ValueKeys(registry[..n], c, source, name);
      KeptExtends(registry, c, source, name, n);
    }
  }

  lemma SameKeys(registry: seq<EnvVar>, c: EnvironmentClass, a: Source, b: Source)
    requires SameViews(registry, a, b)
    ensures ValuesOf(registry, c, a).Keys == ValuesOf(registry, c, b).Keys
  {
    forall name ensures name in ValuesOf(registry, c, a) <==> name in ValuesOf(registry, c, b) {
      ValueKeys(registry, c, a, name);
      ValueKeys(registry, c, b, name);
      assert forall i :: 0 <= i < |registry| ==> Kept(registry[i], c, a) == Kept(registry[i], c, b);
    }
  }

  lemma {:induction false} ValuesComeFromSource(registry: seq<EnvVar>, c: EnvironmentClass, source: Source, name: string)
    requires name in ValuesOf(registry, c, source) && name != CLASS_VARIABLE
    ensures name in source && source[name] != "" && ValuesOf(registry, c, source)[name] == source[name]
  {
    var n := |registry| - 1;
    var def := registry[n];
    if def.name != name {
      ValuesComeFromSource(registry[..n], c, source, name);
    } else {
      if !(Checked(def, c) && ViewOf(def, source) == Valid) {
        ValuesComeFromSource(registry[..n], c, source, name);
      }
    }
  }

  /** Main result: whatever the raw values, environments that look alike fail alike, with identical messages, or both succeed. */
  lemma FailuresRevealNoValue(registry: seq<EnvVar>, hostOf: HostOf, a: Source, b: Source)
    requires LookAlike(registry, hostOf, a, b)
    ensures Load(registry, hostOf, a).Ok? <==> Load(registry, hostOf, b).Ok?
    ensures Load(registry, hostOf, a).Thrown? ==> Load(registry, hostOf, b) == Load(registry, hostOf, a)
    ensures Load(registry, hostOf, a).Ok? ==>
      Load(registry, hostOf, a).value.values.Keys == Load(registry, hostOf, b).value.values.Keys
  {
    if ClassViewOf(a).ClassIs? {
      var c := ClassViewOf(a).c;
      SameFailures(registry, c, a, b);
      SameKeys(registry, c, a, b);
      var va, vb := ValuesOf(registry, c, a), ValuesOf(registry, c, b);
      assert URL_VARIABLE in va.Keys <==> URL_VARIABLE in vb.Keys;
      if URL_VARIABLE in va {
        UrlIsNotClass();
        ValuesComeFromSource(registry, c, a, URL_VARIABLE);
        ValuesComeFromSource(registry, c, b, URL_VARIABLE);
      }
      assert LinkageOf(hostOf, c, va) == LinkageOf(hostOf, c, vb);
    }
  }

  lemma UrlIsNotClass()
    ensures URL_VARIABLE != CLASS_VARIABLE
  {
    assert URL_VARIABLE[0] == 'N' && CLASS_VARIABLE[0] == 'C';
  }

  // ---------- What success means ----------

  lemma {:induction false} NoFailureAt(registry: seq<EnvVar>, c: EnvironmentClass, source: Source, i: nat)
    requires FailuresOf(registry, c, source) == [] && i < |registry| && Checked(registry[i], c)
    ensures ViewOf(registry[i], source) == Valid
  {
    var n := |registry| - 1;
    if i < n {
      NoFailureAt(registry[..n], c, source, i);
    }
  }

  lemma {:induction false} FailureAt(registry: seq<EnvVar>, c: EnvironmentClass, source: Source) returns (i: nat)
    requires FailuresOf(registry, c, source) != []
    ensures i < |registry| && Checked(registry[i], c) && ViewOf(registry[i], source) != Valid
  {
    i := |registry| - 1;
    if FailuresOf(registry[..i], c, source) != [] {
      i := FailureAt(registry[..i], c, source);
    }
  }

  lemma NoFailuresIff(registry: seq<EnvVar>, c: EnvironmentClass, source: Source)
    ensures FailuresOf(registry, c, source) == []
       <==> forall i :: 0 <= i < |registry| && Checked(registry[i], c) ==> ViewOf(registry[i], source) == Valid
  {
    if FailuresOf(registry, c, source) != [] {
      var i := FailureAt(registry, c, source);
    } else {
      forall i | 0 <= i < |registry| && Checked(registry[i], c) ensures ViewOf(registry[i], source) == Valid {
        NoFailureAt(registry, c, source, i);
      }
    }
  }

  /** The class variable is declared, and required everywhere. */
  ghost predicate DeclaresClass(registry: seq<EnvVar>) {
    && (exists i :: 0 <= i < |registry| && registry[i].name == CLASS_VARIABLE)
    && forall i :: 0 <= i < |registry| && registry[i].name == CLASS_VARIABLE ==>
         !registry[i].deprecated && registry[i].requiredIn.None?
  }

  /** A class demands a variable that is not deprecated, unless it is left out of the variable's own list. */
  ghost predicate Demanded(def: EnvVar, c: EnvironmentClass) {
    !def.deprecated && (def.requiredIn == None || exists cs: set<EnvironmentClass> :: def.requiredIn == Some(cs) && c in cs)
  }

  ghost predicate RequiredName(registry: seq<EnvVar>, c: EnvironmentClass, name: string) {
    exists i :: 0 <= i < |registry| && registry[i].name == name && Demanded(registry[i], c)
  }

  /** The variable is set, and its schema finds nothing wrong with the value. */
  ghost predicate IsValid(def: EnvVar, source: Source) {
    def.name in source && |source[def.name]| > 0 && |def.issues(source[def.name])| == 0
  }

  ghost predicate OnLoopback(hostOf: HostOf, url: string) {
    hostOf(url) == Some("127.0.0.1") || hostOf(url) == Some("localhost") || hostOf(url) == Some("::1")
  }

  lemma CheckedIs(def: EnvVar, c: EnvironmentClass, source: Source)
    ensures IsRequiredIn(def, c) <==> Demanded(def, c)
    ensures ViewOf(def, source) == Valid <==> IsValid(def, source)
  {
    assert def.requiredIn.Some? ==> def.requiredIn == Some(def.requiredIn.value);
  }

  /** Every demanded variable but the class is set and valid. */
  ghost predicate AllValid(registry: seq<EnvVar>, c: EnvironmentClass, source: Source) {
    forall i :: 0 <= i < |registry| && registry[i].name != "CARGOGRID_ENV" && Demanded(registry[i], c) ==> IsValid(registry[i], source)
  }

  lemma AllValidIff(registry: seq<EnvVar>, c: EnvironmentClass, source: Source)
    ensures FailuresOf(registry, c, source) == [] <==> AllValid(registry, c, source)
  {
    NoFailuresIff(registry, c, source);
    forall i | 0 <= i < |registry|
      ensures Checked(registry[i], c) <==> registry[i].name != "CARGOGRID_ENV" && Demanded(registry[i], c)
      ensures ViewOf(registry[i], source) == Valid <==> IsValid(registry[i], source)
    {
      CheckedIs(registry[i], c, source);
    }
  }

  lemma ValuesWhenValid(registry: seq<EnvVar>, c: EnvironmentClass, source: Source)
    requires "CARGOGRID_ENV" in source && NamesClass(source["CARGOGRID_ENV"], c) && DeclaresClass(registry) && AllValid(registry, c, source)
    ensures ValuesAre(registry, c, source, ValuesOf(registry, c, source))
  {
    var values := ValuesOf(registry, c, source);
    forall name ensures name in values <==> RequiredName(registry, c, name) {
      ValueKeys(registry, c, source, name);
      KeptWhenClean(registry, c, source, name);
    }
    ClassNamedIff(source[CLASS_VARIABLE], c);
    forall name | name in values ensures name in source && values[name] == source[name] {
      if name == CLASS_VARIABLE {
        ClassValue(registry, c, source);
      } else {
        ValuesComeFromSource(registry, c, source, name);
      }
    }
  }

  /** A demanded Supabase address is a loopback one just in the local class. */
  ghost predicate AddressFits(registry: seq<EnvVar>, hostOf: HostOf, c: EnvironmentClass, source: Source) {
    RequiredName(registry, c, "NEXT_PUBLIC_SUPABASE_URL") && "NEXT_PUBLIC_SUPABASE_URL" in source
    ==> (OnLoopback(hostOf, source["NEXT_PUBLIC_SUPABASE_URL"]) <==> c == Local)
  }

  /** The values are those of the demanded variables, as they stand in the source. */
  ghost predicate ValuesAre(registry: seq<EnvVar>, c: EnvironmentClass, source: Source, values: map<string, string>) {
    && (forall name :: name in values <==> RequiredName(registry, c, name))
    && (forall name :: name in values ==> name in source && values[name] == source[name])
  }

  lemma LinkageWhenValid(registry: seq<EnvVar>, hostOf: HostOf, c: EnvironmentClass, source: Source, values: map<string, string>)
    requires values == ValuesOf(registry, c, source) && AllValid(registry, c, source)
    requires ValuesAre(registry, c, source, values)
    ensures LinkageOf(hostOf, c, values) == [] <==> AddressFits(registry, hostOf, c, source)
  {
    UrlHasValue(registry, c, source);
  }

  /**
   * Main result: loading succeeds exactly when the class is one of the seven, every other variable
   * the class demands is set and valid, and a demanded Supabase address is a loopback one just in
   * the local class. The values are then those of the demanded variables, as they stand in the source.
   */
  lemma LoadSucceedsIff(registry: seq<EnvVar>, hostOf: HostOf, source: Source, c: EnvironmentClass)
    requires "CARGOGRID_ENV" in source && NamesClass(source["CARGOGRID_ENV"], c) && DeclaresClass(registry)
    ensures var r := Load(registry, hostOf, source);
      && (r.Ok? <==> AllValid(registry, c, source) && AddressFits(registry, hostOf, c, source))
      && (r.Ok? ==> r.value.environmentClass == c && ValuesAre(registry, c, source, r.value.values))
  {
    LoadOfClass(registry, hostOf, source, c);
    AllValidIff(registry, c, source);
    if AllValid(registry, c, source) {
      ValuesWhenValid(registry, c, source);
      LinkageWhenValid(registry, hostOf, c, source, ValuesOf(registry, c, source));
    }
  }

  lemma LoadOfClass(registry: seq<EnvVar>, hostOf: HostOf, source: Source, c: EnvironmentClass)
    requires "CARGOGRID_ENV" in source && NamesClass(source["CARGOGRID_ENV"], c)
    ensures var r, values := Load(registry, hostOf, source), ValuesOf(registry, c, source);
      && (r.Ok? <==> FailuresOf(registry, c, source) == [] && LinkageOf(hostOf, c, values) == [])
      && (r.Ok? ==> r.value == ValidatedEnv(c, values))
  {
    ClassNamedIff(source[CLASS_VARIABLE], c);
  }

  lemma UrlHasValue(registry: seq<EnvVar>, c: EnvironmentClass, source: Source)
    ensures URL_VARIABLE in ValuesOf(registry, c, source) ==> URL_VARIABLE in source && ValuesOf(registry, c, source)[URL_VARIABLE] != ""
  {
    UrlIsNotClass();
    if URL_VARIABLE in ValuesOf(registry, c, source) {
      ValuesComeFromSource(registry, c, source, URL_VARIABLE);
    }
  }

  lemma {:induction false} ClassValue(registry: seq<EnvVar>, c: EnvironmentClass, source: Source)
    requires CLASS_VARIABLE in ValuesOf(registry, c, source)
    ensures ValuesOf(registry, c, source)[CLASS_VARIABLE] == ClassName(c)
  {
    var n := |registry| - 1;
    if registry[n].name != CLASS_VARIABLE {
      ClassValue(registry[..n], c, source);
    }
  }

  lemma KeptWhenClean(registry: seq<EnvVar>, c: EnvironmentClass, source: Source, name: string)
    requires DeclaresClass(registry) && AllValid(registry, c, source)
    ensures KeptName(registry, c, source, name) <==> RequiredName(registry, c, name)
  {
    forall i | 0 <= i < |registry| ensures Kept(registry[i], c, source) <==> Demanded(registry[i], c) {
      CheckedIs(registry[i], c, source);
      assert registry[i].name != CLASS_VARIABLE && IsRequiredIn(registry[i], c) ==> Checked(registry[i], c);
    }
  }

  // ---------- What a failed load reports ----------

  /** What is reported of a demanded variable that is unset, empty or invalid. */
  ghost predicate Fails(def: EnvVar, c: EnvironmentClass, source: Source, f: Failure) {
    && def.name != "CARGOGRID_ENV" && Demanded(def, c) && !IsValid(def, source)
    && f == if def.name in source && |source[def.name]| > 0 then Invalid(def.name, def.issues(source[def.name])) else NotSet(def.name, c)
  }

  lemma FailureIs(def: EnvVar, c: EnvironmentClass, source: Source)
    ensures |FailureOf(def, c, ViewOf(def, source))| <= 1
    ensures forall f :: FailureOf(def, c, ViewOf(def, source)) == [f] <==> Fails(def, c, source, f)
  {
    CheckedIs(def, c, source);
  }

  /** The failures are those of the variables at the positions in at. */
  ghost predicate FailAt(registry: seq<EnvVar>, c: EnvironmentClass, source: Source, failures: seq<Failure>, at: seq<nat>) {
    && |at| == |failures| && Increasing(at)
    && (forall k :: 0 <= k < |at| ==> at[k] < |registry| && Fails(registry[at[k]], c, source, failures[k]))
    && (forall i, f :: 0 <= i < |registry| && Fails(registry[i], c, source, f) ==> i in at)
  }

  lemma FailNext(registry: seq<EnvVar>, c: EnvironmentClass, source: Source, failures: seq<Failure>, at: seq<nat>, n: nat)
    requires |registry| == n + 1 && FailAt(registry[..n], c, source, failures, at)
    ensures (forall f :: !Fails(registry[n], c, source, f)) ==> FailAt(registry, c, source, failures, at)
    ensures forall f :: Fails(registry[n], c, source, f) ==> FailAt(registry, c, source, failures + [f], at + [n])
  {
    assert forall i :: 0 <= i < n ==> registry[..n][i] == registry[i];
  }

  lemma {:induction false} FailuresAre(registry: seq<EnvVar>, c: EnvironmentClass, source: Source) returns (at: seq<nat>)
    ensures FailAt(registry, c, source, FailuresOf(registry, c, source), at)
  {
    if registry == [] {
      at := [];
    } else {
      var n := |registry| - 1;
      at := FailuresAre(registry[..n], c, source);
      FailureIs(registry[n], c, source);
      FailNext(registry, c, source, FailuresOf(registry[..n], c, source), at, n);
      var found := FailureOf(registry[n], c, ViewOf(registry[n], source));
      if found != [] {
        assert found == [found[0]];
        at := at + [n];
      }
    }
  }

  /** A valid Supabase address on the wrong side of the loopback rule. */
  ghost predicate WrongSide(registry: seq<EnvVar>, hostOf: HostOf, c: EnvironmentClass, source: Source) {
    exists i :: 0 <= i < |registry| && registry[i].name == "NEXT_PUBLIC_SUPABASE_URL" && Demanded(registry[i], c)
      && IsValid(registry[i], source) && (OnLoopback(hostOf, source["NEXT_PUBLIC_SUPABASE_URL"]) <==> c != Local)
  }

  lemma LinkageIs(registry: seq<EnvVar>, hostOf: HostOf, c: EnvironmentClass, source: Source)
    ensures LinkageOf(hostOf, c, ValuesOf(registry, c, source))
         == if !WrongSide(registry, hostOf, c, source) then [] else if c == Local then [MustBeLoopback(c)] else [MustNotBeLoopback(c)]
  {
    UrlIsNotClass();
    UrlHasValue(registry, c, source);
    ValueKeys(registry, c, source, URL_VARIABLE);
    forall i | 0 <= i < |registry| && registry[i].name == URL_VARIABLE
      ensures Kept(registry[i], c, source) <==> Demanded(registry[i], c) && IsValid(registry[i], source)
    {
      CheckedIs(registry[i], c, source);
    }
    if URL_VARIABLE in ValuesOf(registry, c, source) {
      ValuesComeFromSource(registry, c, source, URL_VARIABLE);
    }
  }

  /**
   * Main result: what a failed load reports. The class alone when it is missing or unknown; otherwise
   * every demanded variable that is unset, empty or invalid, in registry order, and after them the
   * Supabase address when it is on the wrong side of the loopback rule.
   */
  lemma LoadReports(registry: seq<EnvVar>, hostOf: HostOf, source: Source) returns (at: seq<nat>)
    ensures var r := Load(registry, hostOf, source);
      && (r == Thrown(BadClass(true)) <==> "CARGOGRID_ENV" !in source)
      && (r == Thrown(BadClass(false)) <==> "CARGOGRID_ENV" in source && forall c :: !NamesClass(source["CARGOGRID_ENV"], c))
    ensures forall c :: "CARGOGRID_ENV" in source && NamesClass(source["CARGOGRID_ENV"], c) && Load(registry, hostOf, source).Thrown? ==>
      exists own: seq<Failure> :: FailAt(registry, c, source, own, at)
        && Load(registry, hostOf, source).error == Failed(c, if !WrongSide(registry, hostOf, c, source) then own
                                                             else own + [if c == Local then MustBeLoopback(c) else MustNotBeLoopback(c)])
  {
    at := [];
    if CLASS_VARIABLE in source {
      forall c ensures ClassNamed(source[CLASS_VARIABLE]) == Some(c) <==> NamesClass(source[CLASS_VARIABLE], c) {
        ClassNamedIff(source[CLASS_VARIABLE], c);
      }
      if ClassNamed(source[CLASS_VARIABLE]).Some? {
        var c := ClassNamed(source[CLASS_VARIABLE]).value;
        assert NamesClass(source[CLASS_VARIABLE], c);
        at := FailuresAre(registry, c, source);
        LinkageIs(registry, hostOf, c, source);
        assert FailAt(registry, c, source, FailuresOf(registry, c, source), at);
        assert FailuresOf(registry, c, source) + [] == FailuresOf(registry, c, source);
      }
    }
  }

  // ---------- The registry ----------

  /** The variables the repository declares; the schemas of the class, the build mode, a URL and a text are arbitrary. */
  function EnvRegistry(ofClass: string -> seq<string>, mode: string -> seq<string>, url: string -> seq<string>, text: string -> seq<string>): seq<EnvVar> {
    [EnvVar(CLASS_VARIABLE, Server, ofClass, None, false),
     EnvVar("NODE_ENV", Server, mode, None, false),
     EnvVar(URL_VARIABLE, Public, url, None, false),
     EnvVar("NEXT_PUBLIC_SUPABASE_ANON_KEY", Public, text, None, false),
     EnvVar("SUPABASE_SERVICE_ROLE_KEY", Secret, text, None, false),
     EnvVar("NEXT_PUBLIC_SITE_URL", Public, url, None, false),
     EnvVar("CRON_SECRET", Secret, text, Some({Production}), false)]
  }

  predicate AlwaysRequired(name: string) {
    name == CLASS_VARIABLE || name == "NODE_ENV" || name == URL_VARIABLE || name == "NEXT_PUBLIC_SUPABASE_ANON_KEY"
    || name == "SUPABASE_SERVICE_ROLE_KEY" || name == "NEXT_PUBLIC_SITE_URL"
  }

  ghost predicate IsSecret(name: string) { name == "SUPABASE_SERVICE_ROLE_KEY" || name == "CRON_SECRET" }

  /** The secrets are these two. */
  lemma SecretsAre(
      ofClass: string -> seq<string>, mode: string -> seq<string>, url: string -> seq<string>, text: string -> seq<string>, i: nat)
    requires i < |EnvRegistry(ofClass, mode, url, text)|
    ensures var def := EnvRegistry(ofClass, mode, url, text)[i];
      def.classification == Secret <==> IsSecret(def.name)
  {
    assert "SUPABASE_SERVICE_ROLE_KEY"[0] == 'S' && "CRON_SECRET"[0] == 'C' && CLASS_VARIABLE[1] == 'A' && "CRON_SECRET"[1] == 'R';
    assert "NODE_ENV"[0] == 'N' && URL_VARIABLE[0] == 'N' && "NEXT_PUBLIC_SUPABASE_ANON_KEY"[0] == 'N' && "NEXT_PUBLIC_SITE_URL"[0] == 'N';
  }

  /** The prefix that puts a variable into the browser bundle is that of the public ones, so of no secret. */
  lemma PublicAre(
      ofClass: string -> seq<string>, mode: string -> seq<string>, url: string -> seq<string>, text: string -> seq<string>, i: nat)
    requires i < |EnvRegistry(ofClass, mode, url, text)|
    ensures var def := EnvRegistry(ofClass, mode, url, text)[i];
      def.classification == Public <==> "NEXT_PUBLIC_" <= def.name
  {
    assert "NEXT_PUBLIC_"[0] == 'N' && "NEXT_PUBLIC_"[1] == 'E';
    assert CLASS_VARIABLE[0] == 'C' && "NODE_ENV"[1] == 'O' && "SUPABASE_SERVICE_ROLE_KEY"[0] == 'S' && "CRON_SECRET"[0] == 'C';
  }

  lemma RegistryDeclares(
      ofClass: string -> seq<string>, mode: string -> seq<string>, url: string -> seq<string>, text: string -> seq<string>)
    ensures DeclaresClass(EnvRegistry(ofClass, mode, url, text))
  {
    assert EnvRegistry(ofClass, mode, url, text)[0].name == CLASS_VARIABLE;
    assert "CRON_SECRET"[1] == 'R' && CLASS_VARIABLE[1] == 'A';
  }

  /** The cron secret is required in production only, the other six variables everywhere. */
  lemma RegistryRequires(
      ofClass: string -> seq<string>, mode: string -> seq<string>, url: string -> seq<string>, text: string -> seq<string>,
      c: EnvironmentClass, name: string)
    ensures var registry := EnvRegistry(ofClass, mode, url, text);
      && DeclaresClass(registry)
      && (RequiredName(registry, c, name) <==> AlwaysRequired(name) || (c == Production && name == "CRON_SECRET"))
  {
    var registry := EnvRegistry(ofClass, mode, url, text);
    RegistryDeclares(ofClass, mode, url, text);
    if AlwaysRequired(name) {
      var i := if name == CLASS_VARIABLE then 0 else if name == "NODE_ENV" then 1 else if name == URL_VARIABLE then 2
               else if name == "NEXT_PUBLIC_SUPABASE_ANON_KEY" then 3 else if name == "SUPABASE_SERVICE_ROLE_KEY" then 4 else 5;
      assert registry[i].name == name && IsRequiredIn(registry[i], c);
    } else if name == "CRON_SECRET" && c == Production {
      assert registry[6].name == name && IsRequiredIn(registry[6], c);
    }
  }

  // ---------- The audit summary ----------

  datatype AuditLine = AuditLine(name: string, classification: Classification, isSet: bool)

  function SummarizeForAudit(registry: seq<EnvVar>, env: ValidatedEnv): seq<AuditLine> {
    if registry == [] then []
    else
      var def := registry[|registry| - 1];
      SummarizeForAudit(registry[..|registry| - 1], env)
      + if IsRequiredIn(def, env.environmentClass) then [AuditLine(def.name, def.classification, def.name in env.values)] else []
  }

  /** Line k of the audit is that of the variable at position at[k]. */
  ghost predicate AuditedAt(registry: seq<EnvVar>, env: ValidatedEnv, lines: seq<AuditLine>, at: seq<nat>) {
    && |at| == |lines| && Increasing(at)
    && (forall k :: 0 <= k < |at| ==>
          && at[k] < |registry| && Demanded(registry[at[k]], env.environmentClass)
          && lines[k] == AuditLine(registry[at[k]].name, registry[at[k]].classification, registry[at[k]].name in env.values))
    && (forall i :: 0 <= i < |registry| && Demanded(registry[i], env.environmentClass) ==> i in at)
  }

  /** One line for each demanded variable, in registry order: its name, its classification and whether it is set. */
  lemma {:induction false} AuditLinesAre(registry: seq<EnvVar>, env: ValidatedEnv) returns (at: seq<nat>)
    ensures AuditedAt(registry, env, SummarizeForAudit(registry, env), at)
  {
    if registry == [] {
      at := [];
    } else {
      var n := |registry| - 1;
      at := AuditLinesAre(registry[..n], env);
      CheckedIs(registry[n], env.environmentClass, map[]);
      assert forall i :: 0 <= i < n ==> registry[..n][i] == registry[i];
      if IsRequiredIn(registry[n], env.environmentClass) {
        at := at + [n];
      }
    }
  }

  /** After a successful load the audit has a line for every demanded variable, and marks it as set. */
  lemma AuditMarksAllSet(registry: seq<EnvVar>, hostOf: HostOf, source: Source) returns (at: seq<nat>)
    requires DeclaresClass(registry) && Load(registry, hostOf, source).Ok?
    ensures var env := Load(registry, hostOf, source).value; var lines := SummarizeForAudit(registry, env);
      AuditedAt(registry, env, lines, at) && forall k :: 0 <= k < |lines| ==> lines[k].isSet
  {
    var env := Load(registry, hostOf, source).value;
    ClassNamedIff(source[CLASS_VARIABLE], env.environmentClass);
    LoadSucceedsIff(registry, hostOf, source, env.environmentClass);
    at := AuditLinesAre(registry, env);
    forall k | 0 <= k < |at| ensures registry[at[k]].name in env.values {
      assert RequiredName(registry, env.environmentClass, registry[at[k]].name);
    }
  }
}
