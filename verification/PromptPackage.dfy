/**
 * scripts/docs/check-prompt-package.ts: the manifest, the sections of a prompt and the graph of
 * "next eligible prompt" references. A regular expression is an arbitrary reading of the text it
 * is applied to.
 */
module PromptPackage {
  import opened Wrappers
  import opened Sequences

  // ---------- The manifest ----------

  datatype RawRow = RawRow(id: string, path: string)

  /** Every matched manifest id has digits, so it is not empty. */
  type ManifestRow = row: RawRow | row.id != "" witness RawRow("M-1", "")

  datatype Finding =
    | MissingControlFile(path: string)
    | DuplicateManifestId(id: string)
    | DuplicateManifestPath(path: string, prior: string, id: string)
    | ManifestPathMissing(id: string, path: string)
    | FileNotInManifest(path: string)
    | NextTargetMissing(from: string, target: nat)
    | NextSelfLoop(from: string, target: nat)
    | NextBackwardEdge(from: string, target: nat)

  function When(condition: bool, f: Finding): seq<Finding> { if condition then [f] else [] }

  /** Path to the id of its latest row. */
  function Claims(rows: seq<ManifestRow>): map<string, string> {
    if rows == [] then map[] else Claims(rows[..|rows| - 1])[rows[|rows| - 1].path := rows[|rows| - 1].id]
  }

  function Ids(rows: seq<ManifestRow>): set<string> { set i | 0 <= i < |rows| :: rows[i].id }

  function RowErrors(row: ManifestRow, before: seq<ManifestRow>, files: set<string>): seq<Finding> {
    When(row.id in Ids(before), DuplicateManifestId(row.id))
    + (if row.path in Claims(before) then [DuplicateManifestPath(row.path, Claims(before)[row.path], row.id)] else [])
    + When(row.path !in files, ManifestPathMissing(row.id, row.path))
  }

  function RowFindings(rows: seq<ManifestRow>, files: set<string>): seq<Finding> {
    if rows == [] then []
    else
      var before, row := rows[..|rows| - 1], rows[|rows| - 1];
      RowFindings(before, files) + RowErrors(row, before, files)
  }

  function UnlistedFindings(files: seq<string>, listed: set<string>): seq<Finding> {
    if files == [] then []
    else UnlistedFindings(files[..|files| - 1], listed) + When(files[|files| - 1] !in listed, FileNotInManifest(files[|files| - 1]))
  }

  function FileSet(files: seq<string>): set<string> { set i | 0 <= i < |files| :: files[i] }

  function ManifestFindings(files: seq<string>, rows: seq<ManifestRow>): seq<Finding> {
    RowFindings(rows, FileSet(files)) + UnlistedFindings(files, Claims(rows).Keys)
  }

  method CheckRow(row: ManifestRow, files: set<string>, seenIds: set<string>, seenPaths: map<string, string>, ghost before: seq<ManifestRow>)
    returns (found: seq<Finding>)
    requires seenIds == Ids(before) && seenPaths == Claims(before)
    ensures found == RowErrors(row, before, files)
  {
    found := [];
    if row.id in seenIds {
      found := found + [DuplicateManifestId(row.id)];
    }
    if row.path in seenPaths {
      found := found + [DuplicateManifestPath(row.path, seenPaths[row.path], row.id)];
    }
    if row.path !in files {
      found := found + [ManifestPathMissing(row.id, row.path)];
    }
  }

  method CheckRows(rows: seq<ManifestRow>, fileSet: set<string>) returns (findings: seq<Finding>, seenPaths: map<string, string>)
    ensures findings == RowFindings(rows, fileSet)
    ensures seenPaths == Claims(rows)
  {
    findings := [];
    seenPaths := map[];
    var seenIds: set<string> := {};
    for i := 0 to |rows|
      invariant findings == RowFindings(rows[..i], fileSet)
      invariant seenIds == Ids(rows[..i]) && seenPaths == Claims(rows[..i])
    {
      var found := CheckRow(rows[i], fileSet, seenIds, seenPaths, rows[..i]);
      RowsStep(rows, i, fileSet);
      findings := findings + found;
      seenIds := seenIds + {rows[i].id};
      seenPaths := seenPaths[rows[i].path := rows[i].id];
    }
    assert rows[..|rows|] == rows;
  }

  lemma RowsStep(rows: seq<ManifestRow>, i: nat, fileSet: set<string>)
    requires i < |rows|
    ensures RowFindings(rows[..i + 1], fileSet) == RowFindings(rows[..i], fileSet) + RowErrors(rows[i], rows[..i], fileSet)
    ensures Ids(rows[..i + 1]) == Ids(rows[..i]) + {rows[i].id}
    ensures Claims(rows[..i + 1]) == Claims(rows[..i])[rows[i].path := rows[i].id]
  {
    assert rows[..i + 1][..i] == rows[..i];
    IdsStep(rows, i);
  }

  lemma IdsStep(rows: seq<ManifestRow>, i: nat)
    requires i < |rows|
    ensures Ids(rows[..i + 1]) == Ids(rows[..i]) + {rows[i].id}
  {
    var ids := Ids(rows[..i]) + {rows[i].id};
    forall id | id in Ids(rows[..i + 1]) ensures id in ids {
      var k :| 0 <= k < i + 1 && rows[..i + 1][k].id == id;
      assert k < i ==> rows[..i][k].id == id;
    }
    forall id | id in ids ensures id in Ids(rows[..i + 1]) {
      if id == rows[i].id {
        assert rows[..i + 1][i].id == id;
      } else {
        var k :| 0 <= k < i && rows[..i][k].id == id;
        assert rows[..i + 1][k].id == id;
      }
    }
  }

  lemma OneMoreFile(files: seq<string>, i: nat, seen: set<string>)
    requires i < |files|
    ensures UnlistedFindings(files[..i + 1], seen) == UnlistedFindings(files[..i], seen) + if files[i] !in seen then [FileNotInManifest(files[i])] else []
  {
    assert files[..i + 1][..i] == files[..i];
  }

  method CheckFiles(files: seq<string>, seenPaths: map<string, string>) returns (findings: seq<Finding>)
    ensures findings == UnlistedFindings(files, seenPaths.Keys)
  {
    findings := [];
    for i := 0 to |files|
      invariant findings == UnlistedFindings(files[..i], seenPaths.Keys)
    {
      OneMoreFile(files, i, seenPaths.Keys);
      if files[i] !in seenPaths {
        findings := findings + [FileNotInManifest(files[i])];
      }
    }
    assert files[..|files|] == files;
  }

  method CheckManifest(files: seq<string>, rows: seq<ManifestRow>) returns (findings: seq<Finding>)
    ensures findings == ManifestFindings(files, rows)
  {
    var rowFindings, seenPaths := CheckRows(rows, set i | 0 <= i < |files| :: files[i]);
    var unlisted := CheckFiles(files, seenPaths);
    return rowFindings + unlisted;
  }

  function ControlFindings(files: seq<string>, required: seq<string>): seq<Finding> {
    if required == [] then []
    else ControlFindings(files, required[..|required| - 1])
         + When(required[|required| - 1] !in files, MissingControlFile(required[|required| - 1]))
  }

  /** The manifest is read only when it is there; being a required control file, its absence is a finding. */
  function InventoryFindings(files: seq<string>, required: seq<string>, manifestPath: string, rows: seq<ManifestRow>): seq<Finding> {
    ControlFindings(files, required) + if manifestPath in files then ManifestFindings(files, rows) else []
  }

  /** The last row before row i that lists the path. */
  ghost predicate PriorRow(rows: seq<ManifestRow>, i: nat, path: string, j: nat)
    requires i <= |rows|
  {
    j < i && rows[j].path == path && forall k :: j < k < i ==> rows[k].path != path
  }

  /** What the check holds against row i. */
  ghost predicate RowViolates(rows: seq<ManifestRow>, i: nat, files: seq<string>, f: Finding)
    requires i < |rows|
  {
    match f
    case DuplicateManifestId(id) => id == rows[i].id && exists j :: 0 <= j < i && rows[j].id == id
    case DuplicateManifestPath(path, prior, id) =>
      path == rows[i].path && id == rows[i].id && exists j: nat :: PriorRow(rows, i, path, j) && rows[j].id == prior
    case ManifestPathMissing(id, path) => path == rows[i].path && id == rows[i].id && path !in files
    case _ => false
  }

  lemma {:induction false} ClaimsAre(rows: seq<ManifestRow>, i: nat, path: string, id: string)
    requires i <= |rows|
    ensures path in Claims(rows[..i]) && Claims(rows[..i])[path] == id <==> exists j: nat :: PriorRow(rows, i, path, j) && rows[j].id == id
  {
    if i > 0 {
      assert rows[..i][..i - 1] == rows[..i - 1];
      ClaimsAre(rows, i - 1, path, id);
      if rows[i - 1].path == path {
        assert PriorRow(rows, i, path, i - 1);
        assert forall j: nat :: PriorRow(rows, i, path, j) ==> j == i - 1;
      } else {
        assert forall j: nat :: PriorRow(rows, i, path, j) <==> PriorRow(rows, i - 1, path, j);
      }
    }
  }

  lemma IdsAre(rows: seq<ManifestRow>, i: nat, id: string)
    requires i <= |rows|
    ensures id in Ids(rows[..i]) <==> exists j :: 0 <= j < i && rows[j].id == id
  {
    if exists j :: 0 <= j < i && rows[j].id == id {
      var j :| 0 <= j < i && rows[j].id == id;
      assert rows[..i][j].id == id;
    }
    if id in Ids(rows[..i]) {
      var j :| 0 <= j < i && rows[..i][j].id == id;
      assert rows[j].id == id;
    }
  }

  ghost function RowRank(f: Finding): nat {
    match f case DuplicateManifestId(_) => 0 case DuplicateManifestPath(_, _, _) => 1 case _ => 2
  }

  /** A row's findings are those that hold of it, once each: its id, its path, its file. */
  lemma RowErrorsAre(rows: seq<ManifestRow>, i: nat, files: seq<string>, f: Finding)
    requires i < |rows|
    ensures var found := RowErrors(rows[i], rows[..i], FileSet(files));
      && (f in found <==> RowViolates(rows, i, files, f))
      && forall j, k :: 0 <= j < k < |found| ==> RowRank(found[j]) < RowRank(found[k])
  {
    IdsAre(rows, i, rows[i].id);
    if f.DuplicateManifestPath? {
      ClaimsAre(rows, i, rows[i].path, f.prior);
    }
    assert rows[i].path in files <==> rows[i].path in FileSet(files);
  }

  ghost predicate DistinctIds(rows: seq<ManifestRow>) { forall i, j :: 0 <= i < j < |rows| ==> rows[i].id != rows[j].id }
  ghost predicate DistinctPaths(rows: seq<ManifestRow>) { forall i, j :: 0 <= i < j < |rows| ==> rows[i].path != rows[j].path }
  ghost predicate PathsExist(rows: seq<ManifestRow>, files: set<string>) { forall i :: 0 <= i < |rows| ==> rows[i].path in files }
  ghost predicate Listed(rows: seq<ManifestRow>, path: string) { exists i :: 0 <= i < |rows| && rows[i].path == path }

  lemma {:induction false} ClaimsKeys(rows: seq<ManifestRow>, path: string)
    ensures path in Claims(rows) <==> Listed(rows, path)
  {
    if rows != [] {
      var n := |rows| - 1;
      ClaimsKeys(rows[..n], path);
      if Listed(rows[..n], path) {
        var i :| 0 <= i < n && rows[..n][i].path == path;
        assert rows[i].path == path;
      }
      if Listed(rows, path) && rows[n].path != path {
        var i :| 0 <= i < |rows| && rows[i].path == path;
        assert rows[..n][i].path == path;
      }
    }
  }

  lemma DistinctExtend(rows: seq<ManifestRow>, n: nat)
    requires |rows| == n + 1
    ensures DistinctIds(rows) <==> DistinctIds(rows[..n]) && rows[n].id !in Ids(rows[..n])
    ensures DistinctPaths(rows) <==> DistinctPaths(rows[..n]) && rows[n].path !in Claims(rows[..n])
  {
    var before := rows[..n];
    ClaimsKeys(before, rows[n].path);
    if DistinctIds(before) && rows[n].id !in Ids(before) {
      forall i, j | 0 <= i < j < |rows| ensures rows[i].id != rows[j].id {
        assert before[i].id in Ids(before);
      }
    }
    if DistinctPaths(before) && !Listed(before, rows[n].path) {
      forall i, j | 0 <= i < j < |rows| ensures rows[i].path != rows[j].path {
        assert before[i].path == rows[i].path;
      }
    }
    if Listed(before, rows[n].path) {
      var i :| 0 <= i < n && before[i].path == rows[n].path;
      assert rows[i].path == rows[n].path;
    }
  }

  lemma {:induction false} RowFindingsIff(rows: seq<ManifestRow>, files: set<string>)
    ensures RowFindings(rows, files) == [] <==> DistinctIds(rows) && DistinctPaths(rows) && PathsExist(rows, files)
  {
    if rows != [] {
      var n := |rows| - 1;
      RowFindingsIff(rows[..n], files);
      DistinctExtend(rows, n);
      assert PathsExist(rows, files) <==> PathsExist(rows[..n], files) && rows[n].path in files;
    }
  }

  lemma {:induction false} UnlistedFindingsIff(files: seq<string>, listed: set<string>)
    ensures UnlistedFindings(files, listed) == [] <==> forall i :: 0 <= i < |files| ==> files[i] in listed
  {
    if files != [] {
      var n := |files| - 1;
      UnlistedFindingsIff(files[..n], listed);
      assert forall i :: 0 <= i < n ==> files[..n][i] == files[i];
    }
  }

  lemma {:induction false} ControlFindingsIff(files: seq<string>, required: seq<string>)
    ensures ControlFindings(files, required) == [] <==> forall i :: 0 <= i < |required| ==> required[i] in files
  {
    if required != [] {
      var n := |required| - 1;
      ControlFindingsIff(files, required[..n]);
      assert forall i :: 0 <= i < n ==> required[..n][i] == required[i];
    }
  }

  ghost predicate SomeRowViolates(rows: seq<ManifestRow>, n: nat, files: seq<string>, f: Finding)
    requires n <= |rows|
  {
    exists i :: 0 <= i < n && RowViolates(rows, i, files, f)
  }

  lemma OneMoreRowViolates(rows: seq<ManifestRow>, n: nat, files: seq<string>, f: Finding)
    requires n < |rows|
    ensures SomeRowViolates(rows, n + 1, files, f) <==> SomeRowViolates(rows, n, files, f) || RowViolates(rows, n, files, f)
  {
  }

  lemma {:induction false} InRowFindings(rows: seq<ManifestRow>, n: nat, files: seq<string>, f: Finding)
    requires n <= |rows|
    ensures f in RowFindings(rows[..n], FileSet(files)) <==> SomeRowViolates(rows, n, files, f)
  {
    if n > 0 {
      var before, errors := RowFindings(rows[..n - 1], FileSet(files)), RowErrors(rows[n - 1], rows[..n - 1], FileSet(files));
      InRowFindings(rows, n - 1, files, f);
      OneMoreRowViolates(rows, n - 1, files, f);
      assert f in errors <==> RowViolates(rows, n - 1, files, f) by { RowErrorsAre(rows, n - 1, files, f); }
      assert RowFindings(rows[..n], FileSet(files)) == before + errors by { RowsStep(rows, n - 1, FileSet(files)); }
      InAppend(f, before, errors);
    }
  }

  lemma {:induction false} InUnlistedFindings(files: seq<string>, listed: set<string>, f: Finding)
    ensures f in UnlistedFindings(files, listed) <==> f.FileNotInManifest? && f.path in files && f.path !in listed
  {
    if files != [] {
      var n := |files| - 1;
      InUnlistedFindings(files[..n], listed, f);
      assert files == files[..n] + [files[n]];
    }
  }

  lemma {:induction false} InControlFindings(files: seq<string>, required: seq<string>, f: Finding)
    ensures f in ControlFindings(files, required) <==> f.MissingControlFile? && f.path in required && f.path !in files
  {
    if required != [] {
      var n := |required| - 1;
      InControlFindings(files, required[..n], f);
      assert required == required[..n] + [required[n]];
    }
  }

  /** The part of the check a finding comes from. */
  ghost function Part(f: Finding): nat {
    match f case MissingControlFile(_) => 0 case FileNotInManifest(_) => 2 case _ => 1
  }

  /** What the inventory finds: the required files that are missing and, of a manifest that is there, its rows and then the unlisted files. */
  lemma InventoryFindingsAre(files: seq<string>, required: seq<string>, manifestPath: string, rows: seq<ManifestRow>, f: Finding)
    ensures f in InventoryFindings(files, required, manifestPath, rows)
       <==> || (f.MissingControlFile? && f.path in required && f.path !in files)
            || (manifestPath in files && SomeRowViolates(rows, |rows|, files, f))
            || (manifestPath in files && f.FileNotInManifest? && f.path in files && !Listed(rows, f.path))
  {
    InControlFindings(files, required, f);
    assert rows[..|rows|] == rows;
    InRowFindings(rows, |rows|, files, f);
    InUnlistedFindings(files, Claims(rows).Keys, f);
    if f.FileNotInManifest? {
      ClaimsKeys(rows, f.path);
    }
    InAppend(f, RowFindings(rows, FileSet(files)), UnlistedFindings(files, Claims(rows).Keys));
    InAppend(f, ControlFindings(files, required), if manifestPath in files then ManifestFindings(files, rows) else []);
  }

  lemma RowPart(rows: seq<ManifestRow>, files: seq<string>, f: Finding)
    requires f in RowFindings(rows, FileSet(files))
    ensures Part(f) == 1
  {
    assert rows[..|rows|] == rows;
    InRowFindings(rows, |rows|, files, f);
  }

  lemma PartsAscend(control: seq<Finding>, ofRows: seq<Finding>, unlisted: seq<Finding>, j: nat, k: nat)
    requires forall i :: 0 <= i < |control| ==> Part(control[i]) == 0
    requires forall i :: 0 <= i < |ofRows| ==> Part(ofRows[i]) == 1
    requires forall i :: 0 <= i < |unlisted| ==> Part(unlisted[i]) == 2
    ensures j < k < |control + ofRows + unlisted| ==> Part((control + ofRows + unlisted)[j]) <= Part((control + ofRows + unlisted)[k])
    ensures j < k < |control| ==> Part(control[j]) <= Part(control[k])
  {
  }

  /** In that order. */
  lemma InventoryInOrder(files: seq<string>, required: seq<string>, manifestPath: string, rows: seq<ManifestRow>, j: nat, k: nat)
    requires j < k < |InventoryFindings(files, required, manifestPath, rows)|
    ensures var found := InventoryFindings(files, required, manifestPath, rows); Part(found[j]) <= Part(found[k])
  {
    var control, ofRows, unlisted := ControlFindings(files, required), RowFindings(rows, FileSet(files)), UnlistedFindings(files, Claims(rows).Keys);
    forall i | 0 <= i < |control| ensures Part(control[i]) == 0 {
      InControlFindings(files, required, control[i]);
    }
    forall i | 0 <= i < |ofRows| ensures Part(ofRows[i]) == 1 {
      RowPart(rows, files, ofRows[i]);
    }
    forall i | 0 <= i < |unlisted| ensures Part(unlisted[i]) == 2 {
      InUnlistedFindings(files, Claims(rows).Keys, unlisted[i]);
    }
    assert control + (ofRows + unlisted) == control + ofRows + unlisted;
    PartsAscend(control, ofRows, if manifestPath in files then unlisted else [], j, k);
  }

  /**
   * No finding exactly when every required file is there and the manifest, with distinct ids,
   * enumerates the package's files once each. A missing manifest cannot hide behind the skip.
   */
  lemma InventoryIsBijection(files: seq<string>, required: seq<string>, manifestPath: string, rows: seq<ManifestRow>)
    requires manifestPath in required
    ensures InventoryFindings(files, required, manifestPath, rows) == []
       <==> && (forall i :: 0 <= i < |required| ==> required[i] in files)
            && DistinctIds(rows) && DistinctPaths(rows)
            && (forall path :: path in files <==> Listed(rows, path))
  {
    ControlFindingsIff(files, required);
    if forall i :: 0 <= i < |required| ==> required[i] in files {
      assert manifestPath in files;
      RowFindingsIff(rows, FileSet(files));
      UnlistedFindingsIff(files, Claims(rows).Keys);
      forall path ensures path in Claims(rows) <==> Listed(rows, path) {
        ClaimsKeys(rows, path);
      }
      if ManifestFindings(files, rows) == [] {
        forall path ensures path in files <==> Listed(rows, path) {
          assert path in files <==> path in FileSet(files);
        }
      }
      if DistinctIds(rows) && DistinctPaths(rows) && (forall path :: path in files <==> Listed(rows, path)) {
        forall i | 0 <= i < |rows| ensures rows[i].path in FileSet(files) {
          assert Listed(rows, rows[i].path);
          assert rows[i].path in files;
        }
      }
    }
  }

  // ---------- Sections ----------

  datatype Section = Section(heading: string, body: seq<string>)

  /** A line as the section pattern reads it. */
  datatype Tag = Heading(text: string) | Body(line: string)

  function TagOf(line: string, headingOf: string -> Option<string>): Tag {
    match headingOf(line)
    case Some(text) => Heading(text)
    case None => Body(line)
  }

  function Tags(lines: seq<string>, headingOf: string -> Option<string>): seq<Tag> {
    seq(|lines|, i requires 0 <= i < |lines| => TagOf(lines[i], headingOf))
  }

  function SectionTags(s: Section): seq<Tag> {
    [Heading(s.heading)] + seq(|s.body|, i requires 0 <= i < |s.body| => Body(s.body[i]))
  }

  function AllTags(sections: seq<Section>): seq<Tag> {
    if sections == [] then [] else AllTags(sections[..|sections| - 1]) + SectionTags(sections[|sections| - 1])
  }

  /** The finished sections, and the one being read. */
  datatype Reading = Reading(sections: seq<Section>, current: Option<Section>)

  function Finished(r: Reading): seq<Section> {
    match r.current
    case Some(section) => r.sections + [section]
    case None => r.sections
  }

  function ReadLine(r: Reading, line: string, heading: Option<string>): Reading {
    match heading
    case Some(text) => Reading(Finished(r), Some(Section(text, [])))
    case None =>
      match r.current
      case Some(Section(text, body)) => r.(current := Some(Section(text, body + [line])))
      case None => r
  }

  function ReadLines(lines: seq<string>, headingOf: string -> Option<string>, n: nat): Reading
    requires n <= |lines|
  {
    if n == 0 then Reading([], None) else ReadLine(ReadLines(lines, headingOf, n - 1), lines[n - 1], headingOf(lines[n - 1]))
  }

  method ParseSections(lines: seq<string>, headingOf: string -> Option<string>) returns (sections: seq<Section>)
    ensures sections == Finished(ReadLines(lines, headingOf, |lines|))
  {
    sections := [];
    var current: Option<Section> := None;
    for i := 0 to |lines|
      invariant Reading(sections, current) == ReadLines(lines, headingOf, i)
    {
      var line := lines[i];
      var m := headingOf(line);
      if m.Some? {
        if current.Some? {
          sections := sections + [current.value];
        }
        current := Some(Section(m.value, []));
      } else if current.Some? {
        current := Some(Section(current.value.heading, current.value.body + [line]));
      }
    }
    if current.Some? {
      sections := sections + [current.value];
    }
  }

  /** Among the first n lines, line k is the first heading, or there is none and k is n. */
  ghost predicate FirstHeading(lines: seq<string>, headingOf: string -> Option<string>, n: nat, k: nat) {
    && k <= n <= |lines|
    && (forall i :: 0 <= i < k ==> headingOf(lines[i]).None?)
    && (k < n ==> headingOf(lines[k]).Some?)
  }

  lemma {:induction false} NothingRead(lines: seq<string>, headingOf: string -> Option<string>, n: nat)
    requires n <= |lines| && forall i :: 0 <= i < n ==> headingOf(lines[i]).None?
    ensures ReadLines(lines, headingOf, n) == Reading([], None)
  {
    if n > 0 {
      NothingRead(lines, headingOf, n - 1);
    }
  }

  lemma {:induction false} StillReading(lines: seq<string>, headingOf: string -> Option<string>, first: nat, k: nat)
    requires first < k <= |lines| && headingOf(lines[first]).Some?
    ensures ReadLines(lines, headingOf, k).current.Some?
    decreases k
  {
    if first < k - 1 {
      StillReading(lines, headingOf, first, k - 1);
    }
  }

  /** One more line adds its own tag, unless no section has begun. */
  ghost predicate AddsTags(kept: Reading -> seq<Tag>, headingOf: string -> Option<string>) {
    forall r: Reading, line: string ::
      kept(ReadLine(r, line, headingOf(line))) == kept(r) + if headingOf(line).None? && r.current.None? then [] else [TagOf(line, headingOf)]
  }

  lemma KeptStep(kept: Reading -> seq<Tag>, lines: seq<string>, headingOf: string -> Option<string>, first: nat, k: nat)
    requires AddsTags(kept, headingOf) && first <= k < |lines| && headingOf(lines[first]).Some?
    ensures kept(ReadLines(lines, headingOf, k + 1)) == kept(ReadLines(lines, headingOf, k)) + [TagOf(lines[k], headingOf)]
  {
    if first < k {
      StillReading(lines, headingOf, first, k);
    }
    var before, line := ReadLines(lines, headingOf, k), lines[k];
    assert kept(ReadLine(before, line, headingOf(line))) == kept(before) + [TagOf(line, headingOf)];
  }

  function KeptAfter(kept: Reading -> seq<Tag>, lines: seq<string>, headingOf: string -> Option<string>): nat -> seq<Tag> {
    (k: nat) => if k <= |lines| then kept(ReadLines(lines, headingOf, k)) else []
  }

  lemma KeptOneMore(kept: Reading -> seq<Tag>, lines: seq<string>, headingOf: string -> Option<string>, first: nat, k: nat)
    requires AddsTags(kept, headingOf) && first <= k < |lines| && headingOf(lines[first]).Some?
    ensures AppendsAt(KeptAfter(kept, lines, headingOf), Tags(lines, headingOf), k)
  {
    KeptStep(kept, lines, headingOf, first, k);
  }

  lemma TagsAreKept(kept: Reading -> seq<Tag>, lines: seq<string>, headingOf: string -> Option<string>, first: nat, n: nat)
    requires AddsTags(kept, headingOf) && kept(Reading([], None)) == []
    requires FirstHeading(lines, headingOf, n, first)
    ensures KeptAfter(kept, lines, headingOf)(n) == Tags(lines, headingOf)[first..n]
  {
    var acc, tags := KeptAfter(kept, lines, headingOf), Tags(lines, headingOf);
    NothingRead(lines, headingOf, first);
    forall k: nat | first <= k < n ensures AppendsAt(acc, tags, k) {
      KeptOneMore(kept, lines, headingOf, first, k);
    }
    AppendedOneByOne(acc, tags, first, n);
  }

  lemma {:induction false} FindHeading(lines: seq<string>, headingOf: string -> Option<string>, n: nat) returns (first: nat)
    requires n <= |lines|
    ensures FirstHeading(lines, headingOf, n, first)
  {
    if n == 0 {
      first := 0;
    } else {
      first := FindHeading(lines, headingOf, n - 1);
      if first == n - 1 && headingOf(lines[n - 1]).None? {
        first := n;
      }
    }
  }

  function KeptTags(): Reading -> seq<Tag> { (r: Reading) => AllTags(Finished(r)) }

  lemma KeptAddsTags(headingOf: string -> Option<string>)
    ensures AddsTags(KeptTags(), headingOf) && KeptTags()(Reading([], None)) == []
  {
    forall r: Reading, line: string
      ensures KeptTags()(ReadLine(r, line, headingOf(line)))
           == KeptTags()(r) + if headingOf(line).None? && r.current.None? then [] else [TagOf(line, headingOf)]
    {
      LineStep(r, line, headingOf);
    }
  }

  /**
   * No line from the first heading on is lost, repeated, moved or put under another heading, and
   * nothing before it is kept.
   */
  lemma SectionsKeepLines(lines: seq<string>, headingOf: string -> Option<string>, n: nat) returns (first: nat)
    requires n <= |lines|
    ensures FirstHeading(lines, headingOf, n, first)
    ensures ReadLines(lines, headingOf, n).current.None? <==> first == n
    ensures AllTags(Finished(ReadLines(lines, headingOf, n))) == Tags(lines, headingOf)[first..n]
  {
    first := FindHeading(lines, headingOf, n);
    NothingRead(lines, headingOf, first);
    if first < n {
      StillReading(lines, headingOf, first, n);
    }
    KeptAddsTags(headingOf);
    TagsAreKept(KeptTags(), lines, headingOf, first, n);
  }

  lemma LineStep(r: Reading, line: string, headingOf: string -> Option<string>)
    ensures AllTags(Finished(ReadLine(r, line, headingOf(line))))
         == AllTags(Finished(r)) + if headingOf(line).None? && r.current.None? then [] else [TagOf(line, headingOf)]
  {
    match headingOf(line)
    case Some(text) =>
      AllTagsStep(Finished(r), Section(text, []));
      assert SectionTags(Section(text, [])) == [Heading(text)];
    case None =>
      if r.current.Some? {
        AllTagsStep(r.sections, r.current.value);
        AllTagsStep(r.sections, r.current.value.(body := r.current.value.body + [line]));
        SectionTagsStep(r.current.value, line);
        AppendAssociates(AllTags(r.sections), SectionTags(r.current.value), [Body(line)]);
      }
  }

  lemma AllTagsStep(sections: seq<Section>, s: Section)
    ensures AllTags(sections + [s]) == AllTags(sections) + SectionTags(s)
  {
    assert (sections + [s])[..|sections|] == sections;
  }

  lemma SectionTagsStep(s: Section, line: string)
    ensures SectionTags(s.(body := s.body + [line])) == SectionTags(s) + [Body(line)]
  {
  }

  // ---------- Next references ----------

  datatype NextKind = Explicit | IndexDelegated | Template | Terminal

  /** What the patterns find in a section: numbers named, numbers named only as preconditions or prohibitions. */
  datatype NextText = NextText(template: bool, named: seq<nat>, excluded: set<nat>, indexDelegated: bool)

  datatype NextReference = NextReference(kind: NextKind, targets: seq<nat>)

  predicate InRange(n: nat, range: Option<(nat, nat)>) {
    10 <= n <= 430 && (range.Some? ==> range.value.0 <= n <= range.value.1 + 1)
  }

  function Successors(text: NextText, range: Option<(nat, nat)>): set<nat> {
    set i | 0 <= i < |text.named| && InRange(text.named[i], range) && text.named[i] !in text.excluded :: text.named[i]
  }

  function Largest(ns: seq<nat>): nat {
    if ns == [] then 0 else if ns[0] > Largest(ns[1..]) then ns[0] else Largest(ns[1..])
  }

  lemma {:induction false} LargestBounds(ns: seq<nat>)
    ensures forall n :: n in ns ==> n <= Largest(ns)
  {
    if ns != [] {
      LargestBounds(ns[1..]);
      assert forall n :: n in ns ==> n == ns[0] || n in ns[1..];
    }
  }

  function Classify(text: NextText, range: Option<(nat, nat)>): NextReference {
    if text.template then NextReference(Template, [])
    else if Successors(text, range) != {} then NextReference(Explicit, Ascending(Successors(text, range), 0, Largest(text.named)))
    else if text.indexDelegated then NextReference(IndexDelegated, [])
    else NextReference(Terminal, [])
  }

  method ClassifyNextSection(text: NextText, range: Option<(nat, nat)>) returns (r: NextReference)
    ensures r == Classify(text, range)
  {
    if text.template {
      return NextReference(Template, []);
    }
    var targets: set<nat> := {};
    for i := 0 to |text.named|
      invariant targets == set k | 0 <= k < i && InRange(text.named[k], range) :: text.named[k]
    {
      var n := text.named[i];
      if n < 10 || n > 430 {
        continue;
      }
      if range.Some? && (n < range.value.0 || n > range.value.1 + 1) {
        continue;
      }
      targets := targets + {n};
    }
    var nonProhibition := set t | t in targets && t !in text.excluded;
    assert nonProhibition == Successors(text, range);
    if text.indexDelegated && nonProhibition == {} {
      return NextReference(IndexDelegated, []);
    }
    if nonProhibition != {} {
      return NextReference(Explicit, Ascending(nonProhibition, 0, Largest(text.named)));
    }
    return NextReference(Terminal, []);
  }

  /**
   * A number the section names as its successor: not only as a precondition or a prohibition, a prompt
   * number, and within the step's range or the first number after it.
   */
  ghost predicate Eligible(text: NextText, range: Option<(nat, nat)>, t: nat) {
    && t in text.named && t !in text.excluded && 10 <= t <= 430
    && (range == None || exists lo: nat, hi: nat :: range == Some((lo, hi)) && lo <= t <= hi + 1)
  }

  lemma SuccessorsAre(text: NextText, range: Option<(nat, nat)>, t: nat)
    ensures t in Successors(text, range) <==> Eligible(text, range, t)
  {
    assert range.Some? ==> range == Some((range.value.0, range.value.1));
    if Eligible(text, range, t) {
      var i :| 0 <= i < |text.named| && text.named[i] == t;
    }
  }

  /** A template names nothing. Otherwise the targets are the successors, each once, ascending; delegation counts only without one. */
  lemma TargetsAre(text: NextText, range: Option<(nat, nat)>)
    ensures var r := Classify(text, range);
      && (text.template ==> r == NextReference(Template, []))
      && (!text.template ==>
            && Increasing(r.targets) && (forall t :: t in r.targets <==> Eligible(text, range, t))
            && r.kind == if r.targets != [] then Explicit else if text.indexDelegated then IndexDelegated else Terminal)
  {
    var s := Successors(text, range);
    AscendingIs(s, 0, Largest(text.named));
    LargestBounds(text.named);
    forall t ensures t in s <==> Eligible(text, range, t) {
      SuccessorsAre(text, range, t);
    }
    if s != {} {
      var x :| x in s;
      assert x in Ascending(s, 0, Largest(text.named));
    }
  }

  // ---------- Step ranges ----------

  /** The first path segment, or "(root)". */
  function DirOf(path: string): string {
    if '/' in path then Before(path, '/') else "(root)"
  }

  function Before(s: string, c: char): string {
    if s == "" || s[0] == c then "" else [s[0]] + Before(s[1..], c)
  }

  /** A path is its directory, a slash and a rest, unless it has no slash. */
  lemma DirOfIs(path: string, dir: string)
    ensures DirOf(path) == dir
       <==> if '/' in path then '/' !in dir && dir + "/" <= path else dir == "(root)"
  {
    if '/' in path {
      BeforeIs(path, '/', dir);
    }
  }

  lemma {:induction false} BeforeIs(s: string, c: char, before: string)
    requires c in s
    ensures Before(s, c) == before <==> c !in before && before + [c] <= s
  {
    if s[0] == c {
      assert before != [] && before + [c] <= s ==> before[0] == (before + [c])[0] == c;
    } else if before != [] {
      assert before + [c] <= s <==> before[0] == s[0] && before[1..] + [c] <= s[1..] by {
        assert before + [c] == [before[0]] + (before[1..] + [c]);
        assert s == [s[0]] + s[1..];
      }
      BeforeIs(s[1..], c, before[1..]);
    }
  }

  datatype File = File(path: string, number: Option<nat>, next: Option<NextText>)

  /** A later file with the same number replaces an earlier one. */
  function PromptNumbers(files: seq<File>): map<nat, string> {
    if files == [] then map[]
    else
      var before, f := PromptNumbers(files[..|files| - 1]), files[|files| - 1];
      if f.number.Some? then before[f.number.value := f.path] else before
  }

  /** range is the exact interval of the prompt numbers whose file lies in dir. */
  ghost predicate ExactRange(numbers: map<nat, string>, dir: string, range: (nat, nat)) {
    && range.0 in numbers && DirOf(numbers[range.0]) == dir
    && range.1 in numbers && DirOf(numbers[range.1]) == dir
    && forall n :: n in numbers && DirOf(numbers[n]) == dir ==> range.0 <= n <= range.1
  }

  ghost predicate Inhabited(numbers: map<nat, string>, dir: string) {
    exists n :: n in numbers && DirOf(numbers[n]) == dir
  }

  /** Every directory with a prompt, and no other, has its exact range. */
  ghost predicate RangesOf(ranges: map<string, (nat, nat)>, numbers: map<nat, string>) {
    && (forall dir :: dir in ranges <==> Inhabited(numbers, dir))
    && (forall dir :: dir in ranges ==> ExactRange(numbers, dir, ranges[dir]))
  }

  /** The fold gives every directory with a prompt its exact range, whatever order it visits them in. */
  method StepRanges(promptNumbers: map<nat, string>) returns (ranges: map<string, (nat, nat)>)
    ensures RangesOf(ranges, promptNumbers)
  {
    ranges := map[];
    var left := promptNumbers.Keys;
    ghost var done: map<nat, string> := map[];
    while left != {}
      invariant left <= promptNumbers.Keys
      invariant done == map n | n in promptNumbers && n !in left :: promptNumbers[n]
      invariant RangesOf(ranges, done)
      decreases |left|
    {
      var num :| num in left;
      var dir := DirOf(promptNumbers[num]);
      ghost var before, old_ranges := done, ranges;
      if dir in ranges {
        var cur := ranges[dir];
        ranges := ranges[dir := (if cur.0 < num then cur.0 else num, if cur.1 > num then cur.1 else num)];
      } else {
        ranges := ranges[dir := (num, num)];
      }
      left := left - {num};
      done := done[num := promptNumbers[num]];
      ExtendRanges(before, old_ranges, num, promptNumbers[num], ranges);
    }
    assert done == promptNumbers;
  }

  lemma ExtendRanges(before: map<nat, string>, ranges: map<string, (nat, nat)>, num: nat, file: string, ranges': map<string, (nat, nat)>)
    requires num !in before && RangesOf(ranges, before)
    requires ranges' == ranges[DirOf(file) := Widen(ranges, DirOf(file), num)]
    ensures RangesOf(ranges', before[num := file])
  {
    ExtendDirs(before, num, file);
    forall dir | dir in ranges' ensures ExactRange(before[num := file], dir, ranges'[dir]) {
      ExtendRange(before, ranges, num, file, dir);
    }
  }

  lemma ExtendDirs(before: map<nat, string>, num: nat, file: string)
    requires num !in before
    ensures forall dir :: Inhabited(before[num := file], dir) <==> Inhabited(before, dir) || dir == DirOf(file)
  {
    var after := before[num := file];
    forall dir ensures Inhabited(after, dir) <==> Inhabited(before, dir) || dir == DirOf(file) {
      if dir == DirOf(file) {
        assert num in after && DirOf(after[num]) == dir;
      } else if Inhabited(before, dir) {
        var n :| n in before && DirOf(before[n]) == dir;
        assert n in after && DirOf(after[n]) == dir;
      }
    }
  }

  function Widen(ranges: map<string, (nat, nat)>, dir: string, num: nat): (nat, nat) {
    if dir !in ranges then (num, num)
    else var cur := ranges[dir]; (if cur.0 < num then cur.0 else num, if cur.1 > num then cur.1 else num)
  }

  lemma ExtendRange(before: map<nat, string>, ranges: map<string, (nat, nat)>, num: nat, file: string, dir: string)
    requires num !in before && RangesOf(ranges, before)
    requires dir in ranges || dir == DirOf(file)
    ensures ExactRange(before[num := file], dir, if dir == DirOf(file) then Widen(ranges, dir, num) else ranges[dir])
  {
    var after := before[num := file];
    var range := if dir == DirOf(file) then Widen(ranges, dir, num) else ranges[dir];
    forall n | n in after && DirOf(after[n]) == dir ensures range.0 <= n <= range.1 {
      if n != num {
        assert n in before && DirOf(before[n]) == dir;
        assert Inhabited(before, dir);
      }
    }
  }

  // ---------- The graph ----------

  datatype Edge = Edge(from: string, fromNumber: nat, to: nat)

  function RangeIn(ranges: map<string, (nat, nat)>, f: File): Option<(nat, nat)> {
    if DirOf(f.path) in ranges then Some(ranges[DirOf(f.path)]) else None
  }

  function EdgesOf(f: File, ranges: map<string, (nat, nat)>): seq<Edge> {
    if f.number.None? || f.next.None? then []
    else
      var targets := Classify(f.next.value, RangeIn(ranges, f)).targets;
      seq(|targets|, i requires 0 <= i < |targets| => Edge(f.path, f.number.value, targets[i]))
  }

  function Edges(files: seq<File>, ranges: map<string, (nat, nat)>): seq<Edge> {
    if files == [] then [] else Edges(files[..|files| - 1], ranges) + EdgesOf(files[|files| - 1], ranges)
  }

  function EdgeErrors(e: Edge, numbers: map<nat, string>): seq<Finding>
  {
    When(e.to !in numbers, NextTargetMissing(e.from, e.to))
    + When(e.to == e.fromNumber, NextSelfLoop(e.from, e.to))
    + When(e.to < e.fromNumber, NextBackwardEdge(e.from, e.to))
  }

  function ErrorsAgainst(numbers: map<nat, string>): Edge -> seq<Finding> { (e: Edge) => EdgeErrors(e, numbers) }

  function EdgeFindings(edges: seq<Edge>, numbers: map<nat, string>): seq<Finding> { FlatMap(edges, ErrorsAgainst(numbers)) }

  method CheckEdge(edge: Edge, promptNumbers: map<nat, string>) returns (found: seq<Finding>)
    ensures found == EdgeErrors(edge, promptNumbers)
  {
    found := [];
    if edge.to !in promptNumbers {
      found := found + [NextTargetMissing(edge.from, edge.to)];
    }
    if edge.to == edge.fromNumber {
      found := found + [NextSelfLoop(edge.from, edge.to)];
    }
    if edge.to < edge.fromNumber {
      found := found + [NextBackwardEdge(edge.from, edge.to)];
    }
  }

  method CheckEdges(edges: seq<Edge>, promptNumbers: map<nat, string>) returns (findings: seq<Finding>)
    ensures findings == EdgeFindings(edges, promptNumbers)
  {
    findings := [];
    for i := 0 to |edges|
      invariant findings == EdgeFindings(edges[..i], promptNumbers)
    {
      assert edges[..i + 1] == edges[..i] + [edges[i]];
      FlatMapExtend(edges[..i], edges[i], ErrorsAgainst(promptNumbers));
      var found := CheckEdge(edges[i], promptNumbers);
      findings := findings + found;
    }
    assert edges[..|edges|] == edges;
  }

  /** What the check holds against an edge: a missing target, an edge to itself, or one to an earlier prompt. */
  lemma EdgeErrorsAre(e: Edge, numbers: map<nat, string>, f: Finding)
    ensures f in EdgeErrors(e, numbers)
       <==> || (e.to !in numbers && f == NextTargetMissing(e.from, e.to))
            || (e.to == e.fromNumber && f == NextSelfLoop(e.from, e.to))
            || (e.to < e.fromNumber && f == NextBackwardEdge(e.from, e.to))
    ensures |EdgeErrors(e, numbers)| == (if e.to !in numbers then 1 else 0) + (if e.to <= e.fromNumber then 1 else 0)
    ensures e.to !in numbers ==> EdgeErrors(e, numbers)[0].NextTargetMissing?
  {
  }

  lemma NoEdgeErrorsIff(e: Edge, numbers: map<nat, string>)
    ensures EdgeErrors(e, numbers) == [] <==> e.to in numbers && e.to > e.fromNumber
  {
  }

  lemma NoEdgeFindingsIff(edges: seq<Edge>, numbers: map<nat, string>)
    ensures EdgeFindings(edges, numbers) == [] <==> forall i :: 0 <= i < |edges| ==> edges[i].to in numbers && edges[i].to > edges[i].fromNumber
  {
    var findings := EdgeFindings(edges, numbers);
    if findings != [] {
      var e := FlatMapFrom(edges, ErrorsAgainst(numbers), findings[0]);
      NoEdgeErrorsIff(e, numbers);
    } else {
      forall i | 0 <= i < |edges| ensures edges[i].to in numbers && edges[i].to > edges[i].fromNumber {
        var errors := EdgeErrors(edges[i], numbers);
        if errors != [] {
          FlatMapHas(edges, ErrorsAgainst(numbers), edges[i], errors[0]);
        }
        NoEdgeErrorsIff(edges[i], numbers);
      }
    }
  }

  /** Consecutive prompts are joined by a reference. */
  ghost predicate Walk(walk: seq<nat>, edges: seq<Edge>) {
    forall i :: 0 < i < |walk| ==> Joined(edges, walk[i - 1], walk[i])
  }

  ghost predicate Joined(edges: seq<Edge>, a: nat, b: nat) {
    exists k :: 0 <= k < |edges| && edges[k].fromNumber == a && edges[k].to == b
  }

  /**
   * Main result: without a finding every walk along the references strictly increases the prompt
   * number, visits prompts of the package only, and has no more prompts than the package; so no
   * prompt is reached again.
   */
  lemma {:induction false} WalksIncrease(walk: seq<nat>, edges: seq<Edge>, numbers: map<nat, string>)
    requires EdgeFindings(edges, numbers) == []
    requires walk != [] && walk[0] in numbers && Walk(walk, edges)
    ensures forall i, j :: 0 <= i < j < |walk| ==> walk[i] < walk[j]
    ensures forall i :: 0 <= i < |walk| ==> walk[i] in numbers
  {
    if |walk| > 1 {
      var n := |walk| - 1;
      var before := walk[..n];
      assert forall i :: 0 <= i < n ==> before[i] == walk[i];
      WalksIncrease(before, edges, numbers);
      JoinedIncreases(walk[n - 1], walk[n], edges, numbers);
      forall i, j | 0 <= i < j < |walk| ensures walk[i] < walk[j] {
        if j < n {
          assert before[i] < before[j];
        } else if i < n - 1 {
          assert before[i] < before[n - 1];
        }
      }
      forall i | 0 <= i < |walk| ensures walk[i] in numbers {
        if i < n { assert before[i] in numbers; }
      }
    }
  }

  lemma JoinedIncreases(a: nat, b: nat, edges: seq<Edge>, numbers: map<nat, string>)
    requires EdgeFindings(edges, numbers) == [] && Joined(edges, a, b)
    ensures a < b && b in numbers
  {
    NoEdgeFindingsIff(edges, numbers);
  }

  lemma WalksAreBounded(walk: seq<nat>, edges: seq<Edge>, numbers: map<nat, string>)
    requires EdgeFindings(edges, numbers) == []
    requires walk != [] && walk[0] in numbers && Walk(walk, edges)
    ensures |walk| <= |numbers|
  {
    WalksIncrease(walk, edges, numbers);
    IncreasingFits(walk, numbers.Keys);
    assert |numbers.Keys| == |numbers|;
  }

  /** The gate fails on errors only. A backward edge is a warning, so a passing package may contain a cycle. */
  predicate IsError(f: Finding) { !f.NextBackwardEdge? }

  ghost predicate GatePasses(findings: seq<Finding>) { forall k :: 0 <= k < |findings| ==> !IsError(findings[k]) }

  lemma GatePassesAppend(a: seq<Finding>, b: seq<Finding>)
    ensures GatePasses(a + b) <==> GatePasses(a) && GatePasses(b)
  {
    assert forall k :: 0 <= k < |a| ==> (a + b)[k] == a[k];
    assert forall k :: 0 <= k < |b| ==> (a + b)[|a| + k] == b[k];
  }

  lemma EdgePassesIff(e: Edge, numbers: map<nat, string>)
    ensures GatePasses(EdgeErrors(e, numbers)) <==> e.to in numbers && e.to != e.fromNumber
  {
    var missing := When(e.to !in numbers, NextTargetMissing(e.from, e.to));
    var itself := When(e.to == e.fromNumber, NextSelfLoop(e.from, e.to));
    var backward := When(e.to < e.fromNumber, NextBackwardEdge(e.from, e.to));
    GatePassesAppend(missing, itself);
    GatePassesAppend(missing + itself, backward);
    assert e.to !in numbers ==> IsError(missing[0]);
    assert e.to == e.fromNumber ==> IsError(itself[0]);
  }

  lemma EdgePasses(edges: seq<Edge>, numbers: map<nat, string>, e: Edge)
    requires GatePasses(EdgeFindings(edges, numbers)) && e in edges
    ensures GatePasses(EdgeErrors(e, numbers))
  {
    var errors := EdgeErrors(e, numbers);
    forall k | 0 <= k < |errors| ensures !IsError(errors[k]) {
      FlatMapHas(edges, ErrorsAgainst(numbers), e, errors[k]);
    }
  }

  /** The gate passes exactly when every reference names another prompt of the package, in either direction. */
  lemma GatePassesIff(edges: seq<Edge>, numbers: map<nat, string>)
    ensures GatePasses(EdgeFindings(edges, numbers))
       <==> forall i :: 0 <= i < |edges| ==> edges[i].to in numbers && edges[i].to != edges[i].fromNumber
  {
    var findings := EdgeFindings(edges, numbers);
    if !GatePasses(findings) {
      var k :| 0 <= k < |findings| && IsError(findings[k]);
      var e := FlatMapFrom(edges, ErrorsAgainst(numbers), findings[k]);
      EdgePassesIff(e, numbers);
    } else {
      forall i | 0 <= i < |edges| ensures edges[i].to in numbers && edges[i].to != edges[i].fromNumber {
        EdgePasses(edges, numbers, edges[i]);
        EdgePassesIff(edges[i], numbers);
      }
    }
  }

  // ---------- Cycles ----------

  ghost predicate WalkFromTo(walk: seq<nat>, edges: seq<Edge>, a: nat, b: nat) {
    walk != [] && Walk(walk, edges) && walk[0] == a && walk[|walk| - 1] == b
  }

  /** b can be reached from a; a prompt reaches itself. */
  ghost predicate Reaches(edges: seq<Edge>, a: nat, b: nat) {
    exists walk :: WalkFromTo(walk, edges, a, b)
  }

  /** A walk of at least one step that ends where it began. */
  ghost predicate Cycle(walk: seq<nat>, edges: seq<Edge>) {
    |walk| > 1 && WalkFromTo(walk, edges, walk[0], walk[0])
  }

  ghost predicate Acyclic(edges: seq<Edge>) { forall walk :: !Cycle(walk, edges) }

  /** A self or backward edge whose end leads back to its start. */
  ghost predicate ClosesCycle(edges: seq<Edge>, k: nat)
    requires k < |edges|
  {
    edges[k].to <= edges[k].fromNumber && Reaches(edges, edges[k].to, edges[k].fromNumber)
  }

  /**
   * Main result: the references form no cycle exactly when no self or backward edge leads back to
   * its start. A backward edge alone, which the gate only warns about, need not close a cycle.
   */
  lemma AcyclicIff(edges: seq<Edge>)
    ensures Acyclic(edges) <==> forall k :: 0 <= k < |edges| ==> !ClosesCycle(edges, k)
  {
    if Acyclic(edges) {
      forall k | 0 <= k < |edges| ensures !ClosesCycle(edges, k) {
        if ClosesCycle(edges, k) {
          var walk := CloseCycle(edges, k);
          assert false;
        }
      }
    }
    if forall k :: 0 <= k < |edges| ==> !ClosesCycle(edges, k) {
      forall walk ensures !Cycle(walk, edges) {
        if Cycle(walk, edges) {
          var k := CycleHasClosingEdge(walk, edges);
          assert false;
        }
      }
    }
  }

  /** The edge, then the way back. */
  lemma CloseCycle(edges: seq<Edge>, k: nat) returns (walk: seq<nat>)
    requires k < |edges| && ClosesCycle(edges, k)
    ensures Cycle(walk, edges)
  {
    var back :| WalkFromTo(back, edges, edges[k].to, edges[k].fromNumber);
    walk := [edges[k].fromNumber] + back;
    forall i | 0 < i < |walk| ensures Joined(edges, walk[i - 1], walk[i]) {
      assert i == 1 ==> Joined(edges, edges[k].fromNumber, edges[k].to);
      assert i > 1 ==> Joined(edges, back[i - 2], back[i - 1]);
    }
  }

  /** A cycle cannot only climb; turned to start after a step that does not, it is the way back from that step. */
  lemma CycleHasClosingEdge(walk: seq<nat>, edges: seq<Edge>) returns (k: nat)
    requires Cycle(walk, edges)
    ensures k < |edges| && ClosesCycle(edges, k)
  {
    var i := FallingStep(walk, |walk| - 1);
    assert Joined(edges, walk[i], walk[i + 1]);
    k :| 0 <= k < |edges| && edges[k].fromNumber == walk[i] && edges[k].to == walk[i + 1];
    var back := walk[i + 1..] + walk[1..i + 1];
    TurnedIsWalk(walk, edges, i);
    assert back[0] == walk[i + 1] && back[|back| - 1] == walk[i] by {
      assert i == 0 ==> back == walk[1..];
      assert i > 0 ==> back[|back| - 1] == walk[1..i + 1][i - 1];
    }
    assert WalkFromTo(back, edges, edges[k].to, edges[k].fromNumber);
  }

  lemma {:induction false} FallingStep(walk: seq<nat>, n: nat) returns (i: nat)
    requires 0 < n < |walk| && walk[n] <= walk[0]
    ensures i < n && walk[i + 1] <= walk[i]
  {
    if walk[n] <= walk[n - 1] {
      i := n - 1;
    } else {
      i := FallingStep(walk, n - 1);
    }
  }

  lemma TurnedIsWalk(walk: seq<nat>, edges: seq<Edge>, i: nat)
    requires Cycle(walk, edges) && i + 1 < |walk|
    ensures Walk(walk[i + 1..] + walk[1..i + 1], edges)
  {
    var tail := walk[i + 1..];
    var back := tail + walk[1..i + 1];
    forall j | 0 < j < |back| ensures Joined(edges, back[j - 1], back[j]) {
      if j < |tail| {
        assert back[j - 1] == walk[i + j] && back[j] == walk[i + j + 1];
      } else {
        var m := j - |tail|;
        assert back[j] == walk[m + 1];
        assert back[j - 1] == walk[m] by {
          assert m == 0 ==> back[j - 1] == walk[|walk| - 1] == walk[0];
        }
        assert Joined(edges, walk[m], walk[m + 1]);
      }
    }
  }

  /** Two prompts of one step that name each other. */
  function MutualPair(a: string, b: string): seq<File> {
    [File(a, Some(10), Some(NextText(false, [11], {}, false))), File(b, Some(11), Some(NextText(false, [10], {}, false)))]
  }

  /** They pass the gate and form a cycle. */
  lemma PassingPackageMayCycle(a: string, b: string)
    requires DirOf(a) == DirOf(b)
    ensures var files := MutualPair(a, b);
      var ranges := map[DirOf(a) := (10, 11)];
      var edges := Edges(files, ranges);
      && RangesOf(ranges, PromptNumbers(files))
      && GatePasses(EdgeFindings(edges, PromptNumbers(files)))
      && Cycle([10, 11, 10], edges) && !Acyclic(edges)
  {
    var files := MutualPair(a, b);
    var ranges := map[DirOf(a) := (10, 11)];
    TwoNumbers(files[0], files[1], 10, 11);
    OneDirectory(a, b);
    TwoEdges(files[0], files[1], ranges, 11, 10);
    var edges := [Edge(a, 10, 11), Edge(b, 11, 10)];
    TwoEdgesCycle(edges[0], edges[1], PromptNumbers(files));
  }

  lemma TwoEdgesCycle(e: Edge, f: Edge, numbers: map<nat, string>)
    requires e.to == f.fromNumber != e.fromNumber == f.to && e.to in numbers && f.to in numbers
    ensures GatePasses(EdgeFindings([e, f], numbers)) && Cycle([f.to, e.to, f.to], [e, f]) && !Acyclic([e, f])
  {
    var edges := [e, f];
    GatePassesIff(edges, numbers);
    assert edges[0] == e && Joined(edges, f.to, e.to);
    assert edges[1] == f && Joined(edges, e.to, f.to);
    assert Cycle([f.to, e.to, f.to], edges);
  }

  lemma TwoNumbers(f: File, g: File, m: nat, n: nat)
    requires f.number == Some(m) && g.number == Some(n)
    ensures PromptNumbers([f, g]) == map[m := f.path][n := g.path]
  {
    assert [f, g][..1] == [f] && [f][..0] == [];
    assert PromptNumbers([f]) == map[m := f.path];
  }

  lemma OneDirectory(a: string, b: string)
    requires DirOf(a) == DirOf(b)
    ensures RangesOf(map[DirOf(a) := (10, 11)], map[10 := a, 11 := b])
  {
    var numbers: map<nat, string> := map[10 := a, 11 := b];
    assert 10 in numbers && DirOf(numbers[10]) == DirOf(a);
  }

  lemma TwoEdges(f: File, g: File, ranges: map<string, (nat, nat)>, to: nat, back: nat)
    requires f.number.Some? && g.number.Some?
    requires f.next == Some(NextText(false, [to], {}, false)) && g.next == Some(NextText(false, [back], {}, false))
    requires Eligible(f.next.value, RangeIn(ranges, f), to) && Eligible(g.next.value, RangeIn(ranges, g), back)
    ensures Edges([f, g], ranges) == [Edge(f.path, f.number.value, to), Edge(g.path, g.number.value, back)]
  {
    SingleTarget(to, RangeIn(ranges, f));
    SingleTarget(back, RangeIn(ranges, g));
    assert [f, g][..1] == [f] && [f][..0] == [];
    assert EdgesOf(f, ranges) == [Edge(f.path, f.number.value, to)];
    assert EdgesOf(g, ranges) == [Edge(g.path, g.number.value, back)];
    assert Edges([f], ranges) == [Edge(f.path, f.number.value, to)];
  }

  // ---------- References stay near their step ----------

  /** File j has a number that no later file repeats. */
  ghost predicate Survives(files: seq<File>, j: nat)
    requires j < |files|
  {
    files[j].number.Some? && forall l :: j < l < |files| ==> files[l].number != files[j].number
  }

  /** A surviving file of the directory. */
  ghost predicate SurvivesIn(files: seq<File>, j: nat, dir: string)
    requires j < |files|
  {
    Survives(files, j) && DirOf(files[j].path) == dir
  }

  /** The numbers kept are those of the surviving files, with their paths. */
  lemma {:induction false} PromptNumbersAre(files: seq<File>, n: nat, path: string)
    ensures n in PromptNumbers(files) && PromptNumbers(files)[n] == path
       <==> exists j :: 0 <= j < |files| && Survives(files, j) && files[j].number.value == n && files[j].path == path
  {
    if files != [] {
      var last, before := |files| - 1, files[..|files| - 1];
      PromptNumbersAre(before, n, path);
      if files[last].number == Some(n) {
        assert Survives(files, last);
        forall j | 0 <= j < |files| && Survives(files, j) && files[j].number.value == n ensures j == last {
        }
      } else {
        forall j | 0 <= j < last && files[j].number == Some(n) ensures Survives(before, j) <==> Survives(files, j) {
          SurvivesExtends(files, j, last);
        }
        forall j | 0 <= j < last && Survives(before, j) && before[j].number.value == n && before[j].path == path
          ensures Survives(files, j) && files[j].number.value == n && files[j].path == path
        {
        }
      }
    }
  }

  lemma SurvivesExtends(files: seq<File>, j: nat, last: nat)
    requires j < last == |files| - 1 && files[last].number != files[j].number
    ensures Survives(files[..last], j) <==> Survives(files, j)
  {
    assert forall l :: 0 <= l < last ==> files[..last][l] == files[l];
  }

  /** A directory has a range exactly when the number of one of its files survives. */
  lemma DirectoryHasRangeIff(files: seq<File>, ranges: map<string, (nat, nat)>, dir: string)
    requires RangesOf(ranges, PromptNumbers(files))
    ensures dir in ranges <==> exists j :: 0 <= j < |files| && SurvivesIn(files, j, dir)
  {
    var numbers := PromptNumbers(files);
    assert dir in ranges <==> Inhabited(numbers, dir);
    if dir in ranges {
      var n :| n in numbers && DirOf(numbers[n]) == dir;
      PromptNumbersAre(files, n, numbers[n]);
      var j :| 0 <= j < |files| && Survives(files, j) && files[j].number.value == n && files[j].path == numbers[n];
      assert SurvivesIn(files, j, dir);
    }
    forall j | 0 <= j < |files| && SurvivesIn(files, j, dir) ensures dir in ranges {
      SurvivorIsKept(files, j);
      assert Inhabited(numbers, dir);
    }
  }

  lemma SurvivorIsKept(files: seq<File>, j: nat)
    requires j < |files| && Survives(files, j)
    ensures files[j].number.value in PromptNumbers(files) && PromptNumbers(files)[files[j].number.value] == files[j].path
  {
    PromptNumbersAre(files, files[j].number.value, files[j].path);
  }

  /** Surviving files of file i's directory have numbers on both sides of its own. */
  ghost predicate Bracketed(files: seq<File>, i: nat)
    requires i < |files| && files[i].number.Some?
  {
    var dir, n := DirOf(files[i].path), files[i].number.value;
    exists j, k :: 0 <= j < |files| && 0 <= k < |files|
      && SurvivesIn(files, j, dir) && SurvivesIn(files, k, dir) && files[j].number.value <= n <= files[k].number.value
  }

  /** File i lies in the range of its own step. */
  ghost predicate InOwnRange(files: seq<File>, ranges: map<string, (nat, nat)>, i: nat)
    requires i < |files| && files[i].number.Some?
  {
    var dir := DirOf(files[i].path);
    dir in ranges && ranges[dir].0 <= files[i].number.value <= ranges[dir].1
  }

  /** Main result: exactly the bracketed files lie in the range their step is given. */
  lemma OwnRangeIff(files: seq<File>, ranges: map<string, (nat, nat)>, i: nat)
    requires i < |files| && files[i].number.Some? && RangesOf(ranges, PromptNumbers(files))
    ensures InOwnRange(files, ranges, i) <==> Bracketed(files, i)
  {
    var dir, numbers := DirOf(files[i].path), PromptNumbers(files);
    if dir in ranges {
      var j := SurvivorAt(files, ranges[dir].0);
      var k := SurvivorAt(files, ranges[dir].1);
      assert SurvivesIn(files, j, dir) && SurvivesIn(files, k, dir);
    }
    if Bracketed(files, i) {
      var j, k :| 0 <= j < |files| && 0 <= k < |files| && SurvivesIn(files, j, dir) && SurvivesIn(files, k, dir)
        && files[j].number.value <= files[i].number.value <= files[k].number.value;
      DirectoryHasRangeIff(files, ranges, dir);
      SurvivorIsKept(files, j);
      SurvivorIsKept(files, k);
    }
  }

  lemma SurvivorAt(files: seq<File>, n: nat) returns (j: nat)
    requires n in PromptNumbers(files)
    ensures j < |files| && Survives(files, j) && files[j].number.value == n && files[j].path == PromptNumbers(files)[n]
  {
    PromptNumbersAre(files, n, PromptNumbers(files)[n]);
    j :| 0 <= j < |files| && Survives(files, j) && files[j].number.value == n && files[j].path == PromptNumbers(files)[n];
  }

  /** A file with a number and a section that is no template has an edge for each successor the section names, and no other. */
  lemma EdgesAre(f: File, ranges: map<string, (nat, nat)>, e: Edge)
    ensures e in EdgesOf(f, ranges)
       <==> f.path == e.from && f.number == Some(e.fromNumber)
            && exists text: NextText :: f.next == Some(text) && !text.template && Eligible(text, RangeIn(ranges, f), e.to)
  {
    if f.number.Some? && f.next.Some? {
      TargetsAre(f.next.value, RangeIn(ranges, f));
      assert f.next == Some(f.next.value);
      var edges, targets := EdgesOf(f, ranges), Classify(f.next.value, RangeIn(ranges, f)).targets;
      if e in edges {
        var k :| 0 <= k < |edges| && edges[k] == e;
        assert e.to == targets[k] && targets[k] in targets;
      }
      if e.to in targets && f.path == e.from && f.number == Some(e.fromNumber) {
        var k :| 0 <= k < |targets| && targets[k] == e.to;
        assert edges[k] == e;
      }
    }
  }

  /** The edge starts in its own step's range and ends there or at the first number after it. */
  ghost predicate StaysInStep(e: Edge, dir: string, ranges: map<string, (nat, nat)>) {
    dir in ranges && ranges[dir].0 <= e.fromNumber <= ranges[dir].1 && ranges[dir].0 <= e.to <= ranges[dir].1 + 1
  }

  /**
   * Main result: a reference stays in its own step exactly when its file is bracketed; in every
   * case it is one of the numbers its section names as a successor.
   */
  lemma EdgesStayInStep(files: seq<File>, ranges: map<string, (nat, nat)>, i: nat, e: Edge)
    requires i < |files| && e in EdgesOf(files[i], ranges) && RangesOf(ranges, PromptNumbers(files))
    ensures files[i].number.Some? && (StaysInStep(e, DirOf(files[i].path), ranges) <==> Bracketed(files, i))
    ensures files[i].next.Some? && e.to in files[i].next.value.named && e.to !in files[i].next.value.excluded
  {
    var f := files[i];
    EdgesAre(f, ranges, e);
    OwnRangeIff(files, ranges, i);
  }

  ghost predicate DistinctNumbers(files: seq<File>) {
    forall i, j :: 0 <= i < j < |files| && files[i].number.Some? ==> files[j].number != files[i].number
  }

  /** With distinct numbers every reference does. */
  lemma DistinctNumbersSuffice(files: seq<File>, ranges: map<string, (nat, nat)>, i: nat, e: Edge)
    requires DistinctNumbers(files) && i < |files| && e in EdgesOf(files[i], ranges) && RangesOf(ranges, PromptNumbers(files))
    ensures StaysInStep(e, DirOf(files[i].path), ranges)
  {
    EdgesStayInStep(files, ranges, i, e);
    assert SurvivesIn(files, i, DirOf(files[i].path));
  }

  lemma SingleTarget(target: nat, range: Option<(nat, nat)>)
    requires Eligible(NextText(false, [target], {}, false), range, target)
    ensures Classify(NextText(false, [target], {}, false), range).targets == [target]
  {
    var text := NextText(false, [target], {}, false);
    TargetsAre(text, range);
    var targets := Classify(text, range).targets;
    assert target in text.named && target in targets;
    OneValueOnce(targets, target);
  }

  lemma OneValueOnce(xs: seq<nat>, x: nat)
    requires Increasing(xs) && x in xs && forall y :: y in xs ==> y == x
    ensures xs == [x]
  {
    var k :| 0 <= k < |xs| && xs[k] == x;
    forall i | 0 <= i < |xs| ensures xs[i] == x && i == k {
      assert xs[i] in xs;
    }
    assert xs[0] == x == xs[|xs| - 1];
  }

  // ---------- Inputs on which the ranges go wrong ----------

  /**
   * Two files with one number: the first has no step range left, and any prompt number its section
   * names is accepted as a successor.
   */
  lemma DuplicateNumberEscapesRange(a: string, b: string, number: nat, target: nat)
    requires DirOf(a) != DirOf(b) && 10 <= target <= 430
    ensures var first, second := File(a, Some(number), Some(NextText(false, [target], {}, false))), File(b, Some(number), None);
      && RangesOf(map[DirOf(b) := (number, number)], PromptNumbers([first, second]))
      && EdgesOf(first, map[DirOf(b) := (number, number)]) == [Edge(a, number, target)]
  {
    var first, second := File(a, Some(number), Some(NextText(false, [target], {}, false))), File(b, Some(number), None);
    TwoNumbers(first, second, number, number);
    var numbers: map<nat, string> := map[number := b];
    assert PromptNumbers([first, second]) == numbers;
    assert number in numbers && DirOf(numbers[number]) == DirOf(b);
    SingleTarget(target, None);
  }

  lemma NoTargetNoEdge(f: File, ranges: map<string, (nat, nat)>)
    requires f.next.Some? && !f.next.value.template
    requires forall t :: !Eligible(f.next.value, RangeIn(ranges, f), t)
    ensures EdgesOf(f, ranges) == []
  {
    var successors := Successors(f.next.value, RangeIn(ranges, f));
    forall t ensures t !in successors {
      SuccessorsAre(f.next.value, RangeIn(ranges, f), t);
    }
    assert successors == {};
  }

  lemma TwoDirectories(m: nat, n: nat, a: string, b: string)
    requires m != n && DirOf(a) != DirOf(b)
    ensures RangesOf(map[DirOf(a) := (m, m), DirOf(b) := (n, n)], map[m := a, n := b])
  {
    var numbers: map<nat, string> := map[m := a, n := b];
    assert m in numbers && n in numbers && DirOf(numbers[m]) == DirOf(a) && DirOf(numbers[n]) == DirOf(b);
  }

  /**
   * Another number of the file's directory survives: the range is there but too narrow, the file
   * lies outside it, and a successor its section names is dropped.
   */
  lemma DuplicateNumberNarrowsRange(a: string, c: string, b: string, m: nat, n: nat, target: nat)
    requires DirOf(a) == DirOf(c) != DirOf(b) && m != n && !(m <= target <= m + 1)
    ensures var files := [File(a, Some(m), None), File(c, Some(n), Some(NextText(false, [target], {}, false))), File(b, Some(n), None)];
      var ranges := map[DirOf(a) := (m, m), DirOf(b) := (n, n)];
      && RangesOf(ranges, PromptNumbers(files))
      && !InOwnRange(files, ranges, 1) && EdgesOf(files[1], ranges) == []
  {
    var f, g, h := File(a, Some(m), None), File(c, Some(n), Some(NextText(false, [target], {}, false))), File(b, Some(n), None);
    var ranges := map[DirOf(a) := (m, m), DirOf(b) := (n, n)];
    assert [f, g, h][..2] == [f, g];
    TwoNumbers(f, g, m, n);
    assert PromptNumbers([f, g, h]) == map[m := a, n := b];
    TwoDirectories(m, n, a, b);
    NoTargetNoEdge(g, ranges);
  }
}
