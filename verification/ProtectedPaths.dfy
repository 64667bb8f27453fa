/**
 * scripts/git/check-protected-paths.ts: the ordered rules and the check over the changed paths.
 * The three lists of unlocked package paths are parameters.
 */
module ProtectedPaths {
  import opened Wrappers
  import opened Sequences
  import opened Text
  import PathPattern

  datatype Severity = Forbidden | Caution

  datatype Rule =
    | Blueprint | Step17Listed | RevisionListed | VersionLineListed | Package
    | Migrations | RealEnv | Architecture | Runtime

  datatype Lists = Lists(step17: seq<string>, revision: seq<string>, versionLine: seq<string>)

  /** status is the first letter git gives, where it is known. */
  datatype Entry = Entry(path: string, status: Option<string>)

  datatype Finding = Finding(path: string, severity: Severity, reason: Rule)

  const RULES := [Blueprint, Step17Listed, RevisionListed, VersionLineListed, Package, Migrations, RealEnv, Architecture, Runtime]

  function SeverityOf(rule: Rule): Severity {
    match rule
    case Step17Listed | RevisionListed | VersionLineListed | Architecture | Runtime => Caution
    case Blueprint | Package | Migrations | RealEnv => Forbidden
  }

  // ---------- The patterns ----------

  function PackagePrefix(): string { "docs/ai-agent-build-prompt-package/" }
  function MigrationsPrefix(): string { "supabase/migrations/" }

  predicate IsDigit(c: char) { '0' <= c <= '9' }

  /** The characters `.` does not match. */
  predicate IsLineTerminator(c: char) { c == '\n' || c == '\r' || c == '\U{2028}' || c == '\U{2029}' }

  /** The text after the last slash. */
  function BaseName(path: string): string {
    if path == "" then "" else if '/' in path then BaseName(path[1..]) else path
  }

  predicate IsSafeExample(suffix: string) { suffix == "example" || suffix == "sample" || suffix == "template" }

  /** ".env", or ".env." and anything but the three example suffixes. */
  predicate IsRealEnv(path: string) {
    var name := BaseName(path);
    name == ".env" || (".env." <= name && !IsSafeExample(name[5..]))
  }

  predicate IsMigration(path: string) {
    && MigrationsPrefix() <= path && |path| >= 25 && IsDigit(path[20]) && path[|path| - 4..] == ".sql"
    && forall i :: 21 <= i < |path| - 4 ==> !IsLineTerminator(path[i])
  }

  /** What the pattern of a list matches. */
  predicate InList(path: string, paths: seq<string>) { path in paths || (paths == [] && path == "") }

  lemma InListIsPattern(path: string, paths: seq<string>)
    ensures var parsed := PathPattern.Parse(PathPattern.ExactPathPattern(paths));
      parsed.Some? && (InList(path, paths) <==> PathPattern.Test(parsed.value, path))
  {
    PathPattern.PatternMatchesExactly(paths, path);
  }

  predicate Matches(rule: Rule, path: string, lists: Lists) {
    match rule
    case Blueprint => "docs/blueprint/" <= path
    case Step17Listed => InList(path, lists.step17)
    case RevisionListed => InList(path, lists.revision)
    case VersionLineListed => InList(path, lists.versionLine)
    case Package => PackagePrefix() <= path
    case Migrations => IsMigration(path)
    case RealEnv => IsRealEnv(path)
    case Architecture => "docs/architecture/" <= path
    case Runtime => "docs/runtime/" <= path
  }

  predicate IsAdded(entry: Entry) { entry.status == Some("A") }

  predicate Applies(rule: Rule, entry: Entry, lists: Lists) {
    Matches(rule, entry.path, lists) && !(rule == Migrations && IsAdded(entry))
  }

  // ---------- The check ----------

  /** The first rule of the table that applies. */
  function FirstOf(applies: Rule -> bool): Option<Rule> {
    if applies(Blueprint) then Some(Blueprint)
    else if applies(Step17Listed) then Some(Step17Listed)
    else if applies(RevisionListed) then Some(RevisionListed)
    else if applies(VersionLineListed) then Some(VersionLineListed)
    else if applies(Package) then Some(Package)
    else if applies(Migrations) then Some(Migrations)
    else if applies(RealEnv) then Some(RealEnv)
    else if applies(Architecture) then Some(Architecture)
    else if applies(Runtime) then Some(Runtime)
    else None
  }

  function AppliesTo(entry: Entry, lists: Lists): Rule -> bool { (rule: Rule) => Applies(rule, entry, lists) }

  function FirstRule(entry: Entry, lists: Lists): Option<Rule> { FirstOf(AppliesTo(entry, lists)) }

  function Report(entry: Entry, lists: Lists): seq<Finding> {
    match FirstRule(entry, lists)
    case Some(rule) => [Finding(entry.path, SeverityOf(rule), rule)]
    case None => []
  }

  function ReportIn(lists: Lists): Entry -> seq<Finding> { entry => Report(entry, lists) }

  function Reports(entries: seq<Entry>, lists: Lists): seq<Finding> { FlatMap(entries, ReportIn(lists)) }

  method CheckEntry(entry: Entry, lists: Lists) returns (found: seq<Finding>)
    ensures found == Report(entry, lists)
  {
    found := [];
    var j := 0;
    while j < |RULES|
      invariant j <= |RULES|
      invariant forall k :: 0 <= k < j ==> !Applies(RULES[k], entry, lists)
      invariant found == []
    {
      var rule := RULES[j];
      if !Matches(rule, entry.path, lists) {
        j := j + 1;
        continue;
      }
      if rule == Migrations && IsAdded(entry) {
        j := j + 1;
        continue;
      }
      found := found + [Finding(entry.path, SeverityOf(rule), rule)];
      FirstIs(entry, lists, j);
      return;
    }
    NoneApplies(entry, lists);
  }

  lemma FirstIs(entry: Entry, lists: Lists, j: nat)
    requires j < |RULES| && Applies(RULES[j], entry, lists)
    requires forall k :: 0 <= k < j ==> !Applies(RULES[k], entry, lists)
    ensures FirstRule(entry, lists) == Some(RULES[j])
  {
    assert j > 0 ==> !Applies(RULES[0], entry, lists);
    assert j > 1 ==> !Applies(RULES[1], entry, lists);
    assert j > 2 ==> !Applies(RULES[2], entry, lists);
    assert j > 3 ==> !Applies(RULES[3], entry, lists);
    assert j > 4 ==> !Applies(RULES[4], entry, lists);
    assert j > 5 ==> !Applies(RULES[5], entry, lists);
    assert j > 6 ==> !Applies(RULES[6], entry, lists);
    assert j > 7 ==> !Applies(RULES[7], entry, lists);
  }

  lemma NoneApplies(entry: Entry, lists: Lists)
    requires forall k :: 0 <= k < |RULES| ==> !Applies(RULES[k], entry, lists)
    ensures FirstRule(entry, lists) == None
  {
    assert !Applies(RULES[0], entry, lists) && !Applies(RULES[1], entry, lists) && !Applies(RULES[2], entry, lists);
    assert !Applies(RULES[3], entry, lists) && !Applies(RULES[4], entry, lists) && !Applies(RULES[5], entry, lists);
    assert !Applies(RULES[6], entry, lists) && !Applies(RULES[7], entry, lists) && !Applies(RULES[8], entry, lists);
  }

  method CheckProtectedPaths(changed: seq<Entry>, lists: Lists) returns (findings: seq<Finding>)
    ensures findings == Reports(changed, lists)
  {
    findings := [];
    for i := 0 to |changed|
      invariant findings == Reports(changed[..i], lists)
    {
      var found := CheckEntry(changed[i], lists);
      findings := findings + found;
      assert changed[..i + 1][..i] == changed[..i];
    }
    assert changed[..|changed|] == changed;
  }

  // ---------- What the table means ----------

  /** Every list names paths of the package only, and at least one. */
  ghost predicate InPackage(lists: Lists) {
    && lists.step17 != [] && lists.revision != [] && lists.versionLine != []
    && forall p :: p in lists.step17 + lists.revision + lists.versionLine ==> PackagePrefix() <= p
  }

  predicate Unlocked(path: string, lists: Lists) {
    path in lists.step17 || path in lists.revision || path in lists.versionLine
  }

  lemma UnlockedIsPackage(path: string, lists: Lists)
    requires InPackage(lists) && Unlocked(path, lists)
    ensures PackagePrefix() <= path && !("docs/blueprint/" <= path)
  {
    assert path in lists.step17 + lists.revision + lists.versionLine;
    assert PackagePrefix()[5] == 'a' && path[5] == PackagePrefix()[5];
    assert "docs/blueprint/"[5] == 'b';
  }

  /** Text without the characters `.` does not match. */
  ghost predicate OneLine(s: string) { '\n' !in s && '\r' !in s && '\U{2028}' !in s && '\U{2029}' !in s }

  /** What /^supabase\/migrations\/\d.*\.sql$/ matches: the folder, a digit, anything on one line, and the ending. */
  ghost predicate NamesMigration(path: string) {
    exists digit: char, rest: string :: digit in "0123456789" && OneLine(rest) && path == "supabase/migrations/" + [digit] + rest + ".sql"
  }

  /** name is what follows the last slash of path. */
  ghost predicate IsBase(path: string, name: string) { '/' !in name && (path == name || exists folder: string :: path == folder + "/" + name) }

  /** The base name is ".env", or ".env." and anything but example, sample and template. */
  ghost predicate NamesRealEnv(path: string) {
    exists name: string :: IsBase(path, name)
      && (name == ".env" || exists suffix: string :: name == ".env." + suffix && suffix != "example" && suffix != "sample" && suffix != "template")
  }

  lemma DigitsAre(c: char)
    ensures IsDigit(c) <==> c in "0123456789"
  {
    if IsDigit(c) {
      assert c == "0123456789"[c as int - '0' as int];
    }
  }

  /** Main result: the migration rule's pattern matches exactly those paths. */
  lemma MigrationPatternIs(path: string)
    ensures IsMigration(path) <==> NamesMigration(path)
  {
    assert |MigrationsPrefix()| == 20;
    if IsMigration(path) {
      var digit, rest := path[20], path[21..|path| - 4];
      DigitsAre(digit);
      forall c | c in rest ensures !IsLineTerminator(c) {
        var i :| 0 <= i < |rest| && rest[i] == c;
        assert path[21 + i] == c;
      }
      assert OneLine(rest);
      assert path == "supabase/migrations/" + [digit] + rest + ".sql";
    }
    if NamesMigration(path) {
      var digit: char, rest: string :| digit in "0123456789" && OneLine(rest) && path == MigrationsPrefix() + [digit] + rest + ".sql";
      DigitsAre(digit);
      MigrationReads(digit, rest);
    }
  }

  lemma MigrationReads(digit: char, rest: string)
    requires IsDigit(digit) && OneLine(rest)
    ensures IsMigration(MigrationsPrefix() + [digit] + rest + ".sql")
  {
    var path := MigrationsPrefix() + [digit] + rest + ".sql";
    assert |MigrationsPrefix()| == 20;
    assert path[|path| - 4..] == ".sql";
    forall i | 21 <= i < |path| - 4 ensures !IsLineTerminator(path[i]) {
      assert path[i] == rest[i - 21];
    }
  }

  lemma {:induction false} BaseNameIs(folder: string, name: string)
    requires '/' !in name
    ensures BaseName(folder + ['/'] + name) == name
    ensures BaseName(name) == name
  {
    var path := folder + ['/'] + name;
    assert path[|folder|] == '/';
    if folder == "" {
      assert path[1..] == name;
    } else {
      assert path[1..] == folder[1..] + ['/'] + name;
      BaseNameIs(folder[1..], name);
    }
  }

  lemma BaseIs(path: string, name: string)
    ensures IsBase(path, name) <==> name == BaseName(path)
  {
    if IsBase(path, name) {
      if path != name {
        var folder: string :| path == folder + "/" + name;
        BaseNameIs(folder, name);
        assert path == folder + ['/'] + name;
      } else if name != "" {
        BaseNameIs("", name);
      }
    }
    BaseNameIsBase(path);
  }

  lemma {:induction false} BaseNameIsBase(path: string)
    ensures IsBase(path, BaseName(path))
  {
    if path != "" && '/' in path {
      BaseNameIsBase(path[1..]);
      var name := BaseName(path[1..]);
      if path[1..] == name {
        assert path == "" + "/" + name;
      } else {
        var folder: string :| path[1..] == folder + "/" + name;
        assert path == ([path[0]] + folder) + "/" + name;
      }
    }
  }

  /** Main result: the environment-file rule's pattern matches exactly those paths. */
  lemma RealEnvIs(path: string)
    ensures IsRealEnv(path) <==> NamesRealEnv(path)
  {
    var base := BaseName(path);
    BaseIs(path, base);
    if IsRealEnv(path) {
      if base != ".env" {
        assert base == ".env." + base[5..];
      }
    }
    if NamesRealEnv(path) {
      var name: string :| IsBase(path, name)
        && (name == ".env" || exists suffix: string :: name == ".env." + suffix && suffix != "example" && suffix != "sample" && suffix != "template");
      BaseIs(path, name);
      if name != ".env" {
        var suffix: string :| name == ".env." + suffix && suffix != "example" && suffix != "sample" && suffix != "template";
        assert name[5..] == suffix;
      }
    }
  }

  /** The severity of a finding for the path, if any, as the protected-path table states it. */
  ghost predicate IsForbidden(entry: Entry, lists: Lists) {
    && !Unlocked(entry.path, lists)
    && ("docs/blueprint/" <= entry.path || "docs/ai-agent-build-prompt-package/" <= entry.path || NamesRealEnv(entry.path)
        || (NamesMigration(entry.path) && entry.status != Some("A")))
  }

  ghost predicate IsCaution(entry: Entry, lists: Lists) {
    || Unlocked(entry.path, lists)
    || (!IsForbidden(entry, lists) && ("docs/architecture/" <= entry.path || "docs/runtime/" <= entry.path))
  }

  predicate AnyList(applies: Rule -> bool) { applies(Step17Listed) || applies(RevisionListed) || applies(VersionLineListed) }

  lemma FirstApplies(applies: Rule -> bool)
    ensures FirstOf(applies).Some? ==> applies(FirstOf(applies).value)
  {
  }

  lemma FirstForbidden(applies: Rule -> bool)
    ensures var first := FirstOf(applies);
      first.Some? && SeverityOf(first.value) == Forbidden
      <==> applies(Blueprint) || (!AnyList(applies) && (applies(Package) || applies(Migrations) || applies(RealEnv)))
  {
  }

  lemma FirstCaution(applies: Rule -> bool)
    ensures var first := FirstOf(applies);
      first.Some? && SeverityOf(first.value) == Caution
      <==> && !applies(Blueprint)
           && (AnyList(applies) || (!applies(Package) && !applies(Migrations) && !applies(RealEnv) && (applies(Architecture) || applies(Runtime))))
  {
  }

  lemma ListsAre(entry: Entry, lists: Lists)
    requires InPackage(lists)
    ensures AnyList(AppliesTo(entry, lists)) <==> Unlocked(entry.path, lists)
  {
  }

  lemma UnlockedRules(entry: Entry, lists: Lists)
    requires InPackage(lists) && Unlocked(entry.path, lists)
    ensures AnyList(AppliesTo(entry, lists)) && !AppliesTo(entry, lists)(Blueprint)
  {
    ListsAre(entry, lists);
    UnlockedIsPackage(entry.path, lists);
  }

  lemma LockedForbidden(entry: Entry, lists: Lists)
    requires InPackage(lists) && !Unlocked(entry.path, lists)
    ensures var applies := AppliesTo(entry, lists);
      IsForbidden(entry, lists) <==> applies(Blueprint) || applies(Package) || applies(Migrations) || applies(RealEnv)
  {
    MigrationPatternIs(entry.path);
    RealEnvIs(entry.path);
  }

  lemma LockedCaution(entry: Entry, lists: Lists)
    requires InPackage(lists) && !Unlocked(entry.path, lists)
    ensures var applies := AppliesTo(entry, lists);
      IsCaution(entry, lists) <==> !IsForbidden(entry, lists) && (applies(Architecture) || applies(Runtime))
  {
  }

  lemma SeverityOfFirst(entry: Entry, lists: Lists)
    requires InPackage(lists)
    ensures var first := FirstOf(AppliesTo(entry, lists));
      && (first.Some? && SeverityOf(first.value) == Forbidden <==> IsForbidden(entry, lists))
      && (first.Some? && SeverityOf(first.value) == Caution <==> IsCaution(entry, lists))
  {
    var applies := AppliesTo(entry, lists);
    FirstForbidden(applies);
    FirstCaution(applies);
    if Unlocked(entry.path, lists) {
      UnlockedRules(entry, lists);
    } else {
      ListsAre(entry, lists);
      LockedForbidden(entry, lists);
      LockedCaution(entry, lists);
    }
  }

  /**
   * Main result: an entry yields one finding, of the severity the table gives its path, or none.
   * An unlocked package path is only a caution, whatever else it looks like.
   */
  lemma SeverityIs(entry: Entry, lists: Lists)
    requires InPackage(lists)
    ensures var found := Report(entry, lists);
      && |found| <= 1
      && (found != [] ==> found[0].path == entry.path && Applies(found[0].reason, entry, lists)
                          && found[0].severity == SeverityOf(found[0].reason))
      && (found != [] && found[0].severity == Forbidden <==> IsForbidden(entry, lists))
      && (found != [] && found[0].severity == Caution <==> IsCaution(entry, lists))
  {
    FirstApplies(AppliesTo(entry, lists));
    SeverityOfFirst(entry, lists);
  }

  /** Inside the package tree exactly the unlocked paths are let through, with a caution. */
  lemma PackageIsForbiddenUnlessUnlocked(entry: Entry, lists: Lists)
    requires InPackage(lists) && PackagePrefix() <= entry.path
    ensures |Report(entry, lists)| == 1
    ensures Report(entry, lists)[0].severity == (if Unlocked(entry.path, lists) then Caution else Forbidden)
  {
    SeverityIs(entry, lists);
  }

  // ---------- The findings of a whole change ----------

  /** The gate fails when some finding forbids. */
  ghost predicate GateFails(findings: seq<Finding>) { exists k :: 0 <= k < |findings| && findings[k].severity == Forbidden }

  lemma GateFailsAppend(a: seq<Finding>, b: seq<Finding>)
    ensures GateFails(a + b) <==> GateFails(a) || GateFails(b)
  {
    if GateFails(a) {
      var k :| 0 <= k < |a| && a[k].severity == Forbidden;
      assert (a + b)[k] == a[k];
    }
    if GateFails(b) {
      var k :| 0 <= k < |b| && b[k].severity == Forbidden;
      assert (a + b)[|a| + k] == b[k];
    }
  }

  ghost predicate SomeForbidden(entries: seq<Entry>, lists: Lists) {
    exists i :: 0 <= i < |entries| && IsForbidden(entries[i], lists)
  }

  lemma SomeForbiddenExtends(entries: seq<Entry>, lists: Lists, n: nat)
    requires |entries| == n + 1
    ensures SomeForbidden(entries, lists) <==> SomeForbidden(entries[..n], lists) || IsForbidden(entries[n], lists)
  {
    if SomeForbidden(entries[..n], lists) {
      var i :| 0 <= i < n && IsForbidden(entries[..n][i], lists);
      assert IsForbidden(entries[i], lists);
    }
    if SomeForbidden(entries, lists) && !IsForbidden(entries[n], lists) {
      var i :| 0 <= i < |entries| && IsForbidden(entries[i], lists);
      assert IsForbidden(entries[..n][i], lists);
    }
  }

  lemma ReportFails(entry: Entry, lists: Lists)
    requires InPackage(lists)
    ensures |Report(entry, lists)| <= 1 && (GateFails(Report(entry, lists)) <==> IsForbidden(entry, lists))
  {
    SeverityIs(entry, lists);
    if IsForbidden(entry, lists) {
      assert Report(entry, lists)[0].severity == Forbidden;
    }
  }

  /** At most one finding per entry, and the gate fails exactly when some entry is forbidden. */
  lemma {:induction false} FindingsAre(entries: seq<Entry>, lists: Lists)
    requires InPackage(lists)
    ensures |Reports(entries, lists)| <= |entries|
    ensures GateFails(Reports(entries, lists)) <==> SomeForbidden(entries, lists)
  {
    if entries != [] {
      var n := |entries| - 1;
      FindingsAre(entries[..n], lists);
      SomeForbiddenExtends(entries, lists, n);
      ReportFails(entries[n], lists);
      GateFailsAppend(Reports(entries[..n], lists), Report(entries[n], lists));
    }
  }

  /** Reports follow the entries in order and none depends on another entry. */
  lemma ReportsAreLocal(a: seq<Entry>, b: seq<Entry>, lists: Lists)
    ensures Reports(a + b, lists) == Reports(a, lists) + Reports(b, lists)
  {
    FlatMapAppend(a, b, ReportIn(lists));
  }

  // ---------- Added migrations ----------

  lemma OnlyRealEnv(applies: Rule -> bool)
    requires forall rule :: applies(rule) ==> rule == RealEnv
    ensures FirstOf(applies) == if applies(RealEnv) then Some(RealEnv) else None
  {
  }

  /** Its first letter keeps a migration out of every folder that has a rule of its own. */
  lemma AddedMigrationRules(entry: Entry, lists: Lists)
    requires InPackage(lists) && IsMigration(entry.path) && IsAdded(entry)
    ensures forall rule :: AppliesTo(entry, lists)(rule) ==> rule == RealEnv
  {
    assert entry.path[0] == MigrationsPrefix()[0] == 's';
    assert PackagePrefix()[0] == 'd';
    ListsAre(entry, lists);
    if Unlocked(entry.path, lists) {
      UnlockedIsPackage(entry.path, lists);
    }
  }

  /**
   * A new migration is promised never to be flagged. It is, exactly when its base name also reads
   * as a real environment file.
   */
  lemma AddedMigrationIsFlaggedIff(entry: Entry, lists: Lists)
    requires InPackage(lists) && NamesMigration(entry.path) && entry.status == Some("A")
    ensures Report(entry, lists) == if NamesRealEnv(entry.path) then [Finding(entry.path, Forbidden, RealEnv)] else []
  {
    MigrationPatternIs(entry.path);
    RealEnvIs(entry.path);
    AddedMigrationRules(entry, lists);
    OnlyRealEnv(AppliesTo(entry, lists));
  }

  /** Every other status than "added" makes a migration forbidden, whatever its name. */
  lemma EditedMigrationIsForbidden(entry: Entry, lists: Lists)
    requires InPackage(lists) && NamesMigration(entry.path) && entry.status != Some("A")
    ensures Report(entry, lists) == [Finding(entry.path, Forbidden, Migrations)]
  {
    MigrationPatternIs(entry.path);
    assert entry.path[0] == MigrationsPrefix()[0] == 's';
    assert PackagePrefix()[0] == 'd';
    ListsAre(entry, lists);
    if Unlocked(entry.path, lists) {
      UnlockedIsPackage(entry.path, lists);
    }
    FirstIsMigrations(AppliesTo(entry, lists));
  }

  lemma FirstIsMigrations(applies: Rule -> bool)
    requires applies(Migrations) && !applies(Blueprint) && !AnyList(applies) && !applies(Package)
    ensures FirstOf(applies) == Some(Migrations)
  {
  }

  function EnvLikeMigration(): string { MigrationsPrefix() + ['0', '/'] + ".env.sql" }

  lemma AddedMigrationMayBeFlagged(lists: Lists)
    requires InPackage(lists)
    ensures var entry := Entry(EnvLikeMigration(), Some("A"));
      NamesMigration(entry.path) && Report(entry, lists) == [Finding(entry.path, Forbidden, RealEnv)]
  {
    EnvLikeMigrationReads();
    MigrationPatternIs(EnvLikeMigration());
    RealEnvIs(EnvLikeMigration());
    AddedMigrationIsFlaggedIff(Entry(EnvLikeMigration(), Some("A")), lists);
  }

  lemma EnvLikeNameReads(folder: string, name: string)
    requires '/' !in name && ".env." <= name && !IsSafeExample(name[5..])
    ensures IsRealEnv(folder + ['/'] + name)
  {
    BaseNameIs(folder, name);
  }

  lemma EnvLikeName()
    ensures var name := ".env.sql"; '/' !in name && ".env." <= name && name[5..] == "sql" && name[4..] == ".sql"
  {
  }

  lemma EnvLikeMigrationReads()
    ensures IsMigration(EnvLikeMigration()) && IsRealEnv(EnvLikeMigration())
  {
    var folder, name := MigrationsPrefix() + ['0'], ".env.sql";
    assert EnvLikeMigration() == folder + ['/'] + name;
    EnvLikeName();
    EnvLikeNameReads(folder, name);
    IsSqlUnder(name);
  }

  lemma IsSqlUnder(name: string)
    requires |name| == 8 && name[4..] == ".sql" && forall i :: 0 <= i < 4 ==> !IsLineTerminator(name[i])
    ensures IsMigration(MigrationsPrefix() + ['0', '/'] + name)
  {
    var path := MigrationsPrefix() + ['0', '/'] + name;
    assert |MigrationsPrefix()| == 20;
    assert path[|path| - 4..] == name[4..];
  }

  // ---------- The environment-file pattern ----------

  /** Section 22.2.2 of ECMA-262 for /(^|\/)\.env(\.(?!example$|sample$|template$)[^/]*)?$/: a start, then the rest to the end. */
  ghost predicate EnvPatternAt(path: string, start: nat) {
    && start <= |path| && (start == 0 || path[start - 1] == '/')
    && ".env" <= path[start..]
    && (|path| == start + 4
        || (path[start + 4] == '.' && !IsSafeExample(path[start + 5..]) && '/' !in path[start + 5..]))
  }

  function BaseStart(path: string): (start: nat)
    ensures start <= |path| && path[start..] == BaseName(path)
    ensures start == 0 || path[start - 1] == '/'
    ensures '/' !in path[start..]
  {
    if path == "" || '/' !in path then 0
    else if path[0] == '/' && '/' !in path[1..] then 1
    else 1 + BaseStart(path[1..])
  }

  lemma StartIsUnique(path: string, i: nat)
    requires i <= |path| && (i == 0 || path[i - 1] == '/') && '/' !in path[i..]
    ensures i == BaseStart(path)
  {
    NoSlashFrom(path, i);
    NoSlashFrom(path, BaseStart(path));
  }

  lemma NoSlashFrom(path: string, i: nat)
    requires i <= |path| && '/' !in path[i..]
    ensures forall k :: i <= k < |path| ==> path[k] != '/'
  {
    forall k | i <= k < |path| ensures path[k] != '/' {
      assert path[i..][k - i] == path[k];
    }
  }

  lemma EnvPatternAtBase(path: string)
    ensures IsRealEnv(path) <==> EnvPatternAt(path, BaseStart(path))
  {
    var start := BaseStart(path);
    var name := path[start..];
    if |name| > 4 {
      assert ".env"[..] == ".env";
      assert ".env." <= name <==> ".env" <= name && name[4] == '.';
      assert name[5..] == path[start + 5..];
    }
  }

  lemma EnvPatternStart(path: string, i: nat)
    requires EnvPatternAt(path, i)
    ensures i == BaseStart(path)
  {
    assert '/' !in path[i..] by {
      assert path[i..] == ".env" + path[i + 4..];
      assert |path| > i + 4 ==> path[i + 4..] == ['.'] + path[i + 5..];
    }
    StartIsUnique(path, i);
  }

  /** The pattern looks at the base name only. */
  lemma EnvPatternIsBaseName(path: string)
    ensures NamesRealEnv(path) <==> exists start: nat :: EnvPatternAt(path, start)
  {
    RealEnvIs(path);
    EnvPatternAtBase(path);
    forall i: nat | EnvPatternAt(path, i) ensures i == BaseStart(path) {
      EnvPatternStart(path, i);
    }
  }
}
