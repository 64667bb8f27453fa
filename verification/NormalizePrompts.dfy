/**
 * scripts/docs/normalize-template-variant-prompts.ts: strip one indent per line, rename five
 * headings, then let the tool check its own output. The main results say exactly when that check
 * accepts, and what its acceptance is worth.
 */
module NormalizePrompts {
  import opened Wrappers
  import opened Text
  import opened Sequences

  const INDENT := "    "
  const DEEP_INDENT := "        "

  /** The fields with an older wording, in the ascending order in which integer keys are enumerated. */
  const LEGACY_FIELDS: seq<nat> := [14, 16, 17, 18, 19]

  function Subject(field: nat): string
    requires field in LEGACY_FIELDS
  {
    match field
    case 14 => "API"
    case 16 => "Security"
    case 17 => "Performance"
    case 18 => "Audit"
    case _ => "Data migration"
  }

  /** What the older wording adds to the subject. */
  function Addition(field: nat): string
    requires field in LEGACY_FIELDS
  {
    match field
    case 14 => "integration"
    case 16 => "privacy"
    case 17 => "reliability"
    case 18 => "observability"
    case _ => "compatibility"
  }

  function CanonicalTitle(field: nat): string
    requires field in LEGACY_FIELDS
  {
    Subject(field) + " impact"
  }

  function LegacyTitle(field: nat): string
    requires field in LEGACY_FIELDS
  {
    Subject(field) + " and " + Addition(field) + " impact"
  }

  function OtherTitle(field: nat): string {
    match field
    case 1 => "Prompt ID"
    case 2 => "Parent phase"
    case 3 => "Workstream"
    case 4 => "Objective"
    case 5 => "Business value"
    case 6 => "Source requirement"
    case 7 => "Current repository context"
    case 8 => "Preconditions"
    case 9 => "Upstream dependencies"
    case 10 => "Downstream impact"
    case 11 => "Allowed files/folders"
    case 12 => "Forbidden files/folders"
    case 13 => "Database impact"
    case 15 => "UI/UX impact"
    case 20 => "Detailed implementation tasks"
    case 21 => "Main flow"
    case 22 => "Alternative flow"
    case 23 => "Exception flow"
    case 24 => "Business rules"
    case 25 => "Validation rules"
    case 26 => "Access rules"
    case 27 => "Test data requirement"
    case 28 => "Tests to create/update"
    case 29 => "Regression tests"
    case 30 => "Commands to run"
    case 31 => "Documentation to update"
    case 32 => "Rollback/recovery note"
    case 33 => "Acceptance criteria"
    case 34 => "Definition of Done"
    case 35 => "Completion report format"
    case _ => "Next eligible prompt"
  }

  function Numbered(field: nat, title: string): string { Decimal(field) + ". " + title }

  /** The 36 required headings, "N. Title" in field order. */
  function RequiredHeading(field: nat): string {
    Numbered(field, if field in LEGACY_FIELDS then CanonicalTitle(field) else OtherTitle(field))
  }

  function RequiredHeadings(): seq<string> {
    seq(36, i requires 0 <= i < 36 => RequiredHeading(i + 1))
  }

  function LegacyHeading(field: nat): string
    requires field in LEGACY_FIELDS
  {
    Numbered(field, LegacyTitle(field))
  }

  function FirstWithPrefix(headings: seq<string>, prefix: string): Option<string> {
    if headings == [] then None
    else if prefix <= headings[0] then Some(headings[0])
    else FirstWithPrefix(headings[1..], prefix)
  }

  /** None is the "no canonical heading" exception. */
  function CanonicalHeadingFor(field: nat): Option<string> {
    FirstWithPrefix(RequiredHeadings(), Decimal(field) + ". ")
  }

  datatype Rename = Rename(marker: string, replacement: string)

  /** The heading table as the tool uses it; LookupNeverThrows shows that no lookup behind it fails. */
  function Renames(): (renames: seq<Rename>)
    ensures |renames| == |LEGACY_FIELDS|
  {
    seq(|LEGACY_FIELDS|, i requires 0 <= i < |LEGACY_FIELDS| => RenameFor(LEGACY_FIELDS[i]))
  }

  function RenameFor(field: nat): Rename
    requires field in LEGACY_FIELDS
  {
    Rename("## " + LegacyHeading(field), "## " + RequiredHeading(field))
  }

  // ---------- The transform, as functions ----------

  function DeindentLine(line: string): string {
    if INDENT <= line then line[|INDENT|..] else line
  }

  function DeindentText(s: string): string { Unlines(Map(DeindentLine, Lines(s))) }

  function Indented(lines: seq<string>): nat {
    if lines == [] then 0 else (if INDENT <= lines[0] then 1 else 0) + Indented(lines[1..])
  }

  ghost predicate Usable(renames: seq<Rename>) {
    forall i :: 0 <= i < |renames| ==> renames[i].marker != ""
  }

  function Canonical(s: string, renames: seq<Rename>): string
    requires Usable(renames)
    decreases |renames|
  {
    if renames == [] then s
    else
      assert renames[0].marker != "";
      Canonical(Replace(s, renames[0].marker, renames[0].replacement), renames[1..])
  }

  /** How many renames found their marker when their turn came. */
  function Renamed(s: string, renames: seq<Rename>): nat
    requires Usable(renames)
    decreases |renames|
  {
    if renames == [] then 0
    else
      var r := renames[0];
      assert r.marker != "";
      (if r.marker != r.replacement && Includes(s, r.marker) then 1 else 0) + Renamed(Replace(s, r.marker, r.replacement), renames[1..])
  }

  /** How many of the markers stand in s. */
  function Occurring(s: string, renames: seq<Rename>): nat {
    if renames == [] then 0
    else (if Includes(s, renames[0].marker) then 1 else 0) + Occurring(s, renames[1..])
  }

  /** Both what the tool writes and what its self-check reduces each text to. */
  function Reduce(s: string, renames: seq<Rename>): string
    requires Usable(renames)
  {
    Canonical(DeindentText(s), renames)
  }

  // ---------- The transform, as the source runs it ----------

  method Deindent(content: string) returns (text: string, count: nat)
    ensures text == DeindentText(content) && count == Indented(Lines(content))
    ensures |Lines(text)| == |Lines(content)| && |content| == |text| + 4 * count
    ensures forall i :: 0 <= i < |Lines(content)| ==>
      var line := Lines(content)[i]; Lines(text)[i] == if "    " <= line then line[4..] else line
  {
    var lines := Lines(content);
    var out: seq<string> := [];
    count := 0;
    var i := 0;
    while i < |lines|
      invariant 0 <= i <= |lines|
      invariant out == Map(DeindentLine, lines)[..i]
      invariant count + Indented(lines[i..]) == Indented(lines)
    {
      if INDENT <= lines[i] {
        count := count + 1;
        out := out + [lines[i][|INDENT|..]];
      } else {
        out := out + [lines[i]];
      }
      i := i + 1;
    }
    assert out == Map(DeindentLine, lines);
    text := Unlines(out);
    DeindentKeepsSize(content);
    LinesOfDeindent(content);
  }

  method CanonicalizeHeadings(content: string, renames: seq<Rename>) returns (text: string, count: nat)
    requires Usable(renames)
    ensures text == Canonical(content, renames)
    ensures count == Renamed(content, renames)
  {
    text, count := content, 0;
    var i := 0;
    while i < |renames|
      invariant 0 <= i <= |renames|
      invariant Canonical(text, renames[i..]) == Canonical(content, renames)
      invariant count + Renamed(text, renames[i..]) == Renamed(content, renames)
    {
      var r := renames[i];
      assert renames[i..][1..] == renames[i + 1..];
      if r.marker == r.replacement {
        ReplaceBySelf(text, r.marker);
      } else if Includes(text, r.marker) {
        SplitJoinIsReplace(text, r.marker, r.replacement);
        text := Join(Split(text, r.marker), r.replacement);
        count := count + 1;
      } else {
        ReplaceAbsent(text, r.marker, r.replacement);
      }
      i := i + 1;
    }
  }

  datatype Problem =
    | DivergentLine(line: nat, original: Option<string>, transformed: Option<string>)
    | LengthMismatchOnly

  function LineAt(lines: seq<string>, i: nat): Option<string> {
    if i < |lines| then Some(lines[i]) else None
  }

  method ReduceText(s: string, renames: seq<Rename>) returns (reduced: string)
    requires Usable(renames)
    ensures reduced == Reduce(s, renames)
  {
    reduced := DeindentText(s);
    var i := 0;
    while i < |renames|
      invariant 0 <= i <= |renames|
      invariant Canonical(reduced, renames[i..]) == Reduce(s, renames)
    {
      assert renames[i..][1..] == renames[i + 1..];
      SplitJoinIsReplace(reduced, renames[i].marker, renames[i].replacement);
      reduced := Join(Split(reduced, renames[i].marker), renames[i].replacement);
      i := i + 1;
    }
  }

  /**
   * None exactly when the reduced texts agree; otherwise the first line on which they differ. The
   * "no divergent line" answer of the source is never given.
   */
  method VerifyOnlyPermittedDifferences(original: string, transformed: string, renames: seq<Rename>) returns (problem: Option<Problem>)
    requires Usable(renames)
    ensures problem.None? <==> Reduce(original, renames) == Reduce(transformed, renames)
    ensures problem.Some? ==>
      && problem.value.DivergentLine? && problem.value.line > 0
      && var a, b, n := Lines(Reduce(original, renames)), Lines(Reduce(transformed, renames)), problem.value.line - 1;
         && problem.value.original == LineAt(a, n) != LineAt(b, n) == problem.value.transformed
         && forall k :: 0 <= k < n ==> LineAt(a, k) == LineAt(b, k)
  {
    var a := ReduceText(original, renames);
    var b := ReduceText(transformed, renames);
    if a == b {
      return None;
    }
    var aLines, bLines := Lines(a), Lines(b);
    var limit := if |aLines| > |bLines| then |aLines| else |bLines|;
    for i := 0 to limit
      invariant forall k :: 0 <= k < i ==> LineAt(aLines, k) == LineAt(bLines, k)
    {
      if LineAt(aLines, i) != LineAt(bLines, i) {
        return Some(DivergentLine(i + 1, LineAt(aLines, i), LineAt(bLines, i)));
      }
    }
    AgreeingLinesAgree(aLines, bLines, limit);
    LinesDetermineText(a, b);
    assert false;
    problem := Some(LengthMismatchOnly);
  }

  lemma AgreeingLinesAgree(a: seq<string>, b: seq<string>, limit: nat)
    requires |a| <= limit && |b| <= limit
    requires forall k :: 0 <= k < limit ==> LineAt(a, k) == LineAt(b, k)
    ensures a == b
  {
    assert |a| < limit ==> LineAt(a, |a|) == LineAt(b, |a|);
    assert |b| < limit ==> LineAt(a, |b|) == LineAt(b, |b|);
    forall k | 0 <= k < |a| && k < |b| ensures a[k] == b[k] {
      assert LineAt(a, k) == Some(a[k]);
    }
  }

  datatype Normalized = Normalized(text: string, linesDeindented: nat, headingsRenamed: nat, changed: bool)

  /** normalizeFile without its file system: what it would write, or the exception of a failed self-check. */
  method NormalizeContent(original: string) returns (r: Result<Normalized, Problem>)
    ensures r.Ok? <==> forall i :: 0 <= i < |Lines(original)| ==> !("        " <= Lines(original)[i])
    ensures r.Ok? ==>
      && Usable(Renames())
      && r.value.text == Reduce(original, Renames())
      && r.value.linesDeindented == Indented(Lines(original))
      && r.value.headingsRenamed == Occurring(DeindentText(original), Renames())
      && r.value.changed == (r.value.text != original)
  {
    RenamesAreIndependent(Renames());
    var deindented, lines := Deindent(original);
    var transformed, headings := CanonicalizeHeadings(deindented, Renames());
    var problem := VerifyOnlyPermittedDifferences(original, transformed, Renames());
    SelfCheckAcceptsIff(original, Renames());
    RenamedCountsMarkers(deindented, Renames());
    if problem.Some? {
      return Thrown(problem.value);
    }
    return Ok(Normalized(transformed, lines, headings, transformed != original));
  }

  // ---------- What the five heading pairs have in common ----------

  /** "##" and then no further '#', on one line. */
  ghost predicate HeadingLike(s: string) {
    && |s| >= 3 && s[0] == '#' && s[1] == '#'
    && '\n' !in s
    && forall k :: 2 <= k < |s| ==> s[k] != '#'
  }

  ghost predicate Clash(a: string, b: string) {
    exists k :: 0 <= k < |a| && k < |b| && a[k] != b[k]
  }

  ghost predicate Independent(renames: seq<Rename>) {
    && (forall i :: 0 <= i < |renames| ==> HeadingLike(renames[i].marker) && HeadingLike(renames[i].replacement))
    && (forall i, j :: 0 <= i < |renames| && 0 <= j < |renames| ==> Clash(renames[i].marker, renames[j].replacement))
    && (forall i, j :: 0 <= i < j < |renames| ==> Clash(renames[i].marker, renames[j].marker))
  }

  lemma NumberedStarts(field: nat, title: string)
    requires 1 <= field < 100
    ensures var h := Numbered(field, title);
      if field < 10 then |h| >= 3 && h[1] == '.'
      else |h| >= 4 && h[0] == "0123456789"[field / 10] && h[1] == "0123456789"[field % 10] && h[2] == '.' && h[3] == ' '
  {
    if field >= 10 {
      assert Decimal(field) == ["0123456789"[field / 10], "0123456789"[field % 10]];
    }
  }

  lemma NumberedDiffer(f: nat, g: nat, prefix: string, title: string)
    requires 1 <= f < 100 && 10 <= g < 100 && f != g
    requires prefix == Decimal(g) + ". "
    ensures !(prefix <= Numbered(f, title))
  {
    NumberedStarts(g, "");
    assert Numbered(g, "") == prefix;
    NumberedStarts(f, title);
    if prefix <= Numbered(f, title) {
      assert Numbered(f, title)[0] == prefix[0] && Numbered(f, title)[1] == prefix[1];
      DigitsDiffer(f / 10, g / 10);
      DigitsDiffer(f % 10, g % 10);
    }
  }

  lemma DigitsDiffer(a: nat, b: nat)
    requires a < 10 && b < 10
    ensures "0123456789"[a] == "0123456789"[b] ==> a == b
    ensures "0123456789"[a] != '.'
  {
  }

  /** No exception: the canonical wording of every legacy field is found, and it is the field's own. */
  lemma LookupNeverThrows(field: nat)
    requires 10 <= field <= 36
    ensures CanonicalHeadingFor(field) == Some(RequiredHeading(field))
  {
    var headings, prefix := RequiredHeadings(), Decimal(field) + ". ";
    forall h | 0 <= h < field - 1 ensures !(prefix <= headings[h]) {
      NumberedDiffer(h + 1, field, prefix, if h + 1 in LEGACY_FIELDS then CanonicalTitle(h + 1) else OtherTitle(h + 1));
    }
    assert headings[field - 1] == RequiredHeading(field);
    assert prefix <= RequiredHeading(field);
    SkipTo(headings, prefix, field - 1);
  }

  lemma {:induction false} SkipTo(headings: seq<string>, prefix: string, k: nat)
    requires k < |headings| && prefix <= headings[k]
    requires forall i :: 0 <= i < k ==> !(prefix <= headings[i])
    ensures FirstWithPrefix(headings, prefix) == Some(headings[k])
  {
    if k > 0 {
      assert !(prefix <= headings[0]);
      SkipTo(headings[1..], prefix, k - 1);
    }
  }

  lemma MarkedHeading(field: nat, title: string)
    requires 10 <= field < 100 && '#' !in title && '\n' !in title
    ensures HeadingLike("## " + Numbered(field, title))
  {
    var s := "## " + Numbered(field, title);
    NumberedStarts(field, title);
    assert Decimal(field) == ["0123456789"[field / 10], "0123456789"[field % 10]];
    assert s == "## " + Decimal(field) + ". " + title;
    assert forall k :: 7 <= k < |s| ==> s[k] == title[k - 7];
    DigitsArePlain(field / 10);
    DigitsArePlain(field % 10);
    assert s[2] == ' ' && s[3] == "0123456789"[field / 10] && s[4] == "0123456789"[field % 10] && s[5] == '.' && s[6] == ' ';
  }

  lemma DigitsArePlain(a: nat)
    requires a < 10
    ensures "0123456789"[a] != '#' && "0123456789"[a] != '\n'
  {
  }

  /** Two numbered headings clash when their fields differ, or when their titles do. */
  lemma MarkedClash(f: nat, a: string, g: nat, b: string, k: nat)
    requires 10 <= f < 100 && 10 <= g < 100
    requires f != g || (k < |a| && k < |b| && a[k] != b[k])
    ensures Clash("## " + Numbered(f, a), "## " + Numbered(g, b))
  {
    var x, y := "## " + Numbered(f, a), "## " + Numbered(g, b);
    NumberedStarts(f, a);
    NumberedStarts(g, b);
    if f != g {
      DigitsDiffer(f / 10, g / 10);
      DigitsDiffer(f % 10, g % 10);
      assert x[3] != y[3] || x[4] != y[4];
    } else {
      assert Decimal(f) == ["0123456789"[f / 10], "0123456789"[f % 10]];
      assert x == "## " + Decimal(f) + ". " + a && y == "## " + Decimal(f) + ". " + b;
      assert x[k + 7] == a[k] && y[k + 7] == b[k];
    }
  }

  lemma WordingsPart(subject: string, addition: string)
    requires '#' !in subject && '\n' !in subject && '#' !in addition && '\n' !in addition
    ensures var legacy, canonical, k := subject + " and " + addition + " impact", subject + " impact", |subject| + 1;
      && '#' !in legacy && '\n' !in legacy && '#' !in canonical && '\n' !in canonical
      && k < |legacy| && k < |canonical| && legacy[k] != canonical[k]
  {
    assert '#' !in " and " && '\n' !in " and " && '#' !in " impact" && '\n' !in " impact";
  }

  lemma TitleFacts(field: nat)
    requires field in LEGACY_FIELDS
    ensures '#' !in LegacyTitle(field) && '\n' !in LegacyTitle(field)
    ensures '#' !in CanonicalTitle(field) && '\n' !in CanonicalTitle(field)
    ensures var k := |Subject(field)| + 1;
      k < |LegacyTitle(field)| && k < |CanonicalTitle(field)| && LegacyTitle(field)[k] != CanonicalTitle(field)[k]
  {
    PlainSubject(field);
    PlainAddition(field);
    WordingsPart(Subject(field), Addition(field));
  }

  lemma PlainSubject(field: nat)
    requires field in LEGACY_FIELDS
    ensures '#' !in Subject(field) && '\n' !in Subject(field)
  {
  }

  lemma PlainAddition(field: nat)
    requires field in LEGACY_FIELDS
    ensures '#' !in Addition(field) && '\n' !in Addition(field)
  {
  }

  lemma RenameIsHeadingLike(field: nat)
    requires field in LEGACY_FIELDS
    ensures HeadingLike(RenameFor(field).marker) && HeadingLike(RenameFor(field).replacement)
  {
    TitleFacts(field);
    MarkedHeading(field, LegacyTitle(field));
    MarkedHeading(field, CanonicalTitle(field));
  }

  lemma RenamesClash(f: nat, g: nat, a: Rename, b: Rename)
    requires f in LEGACY_FIELDS && g in LEGACY_FIELDS
    requires a == RenameFor(f) && b == RenameFor(g)
    ensures Clash(a.marker, b.replacement)
    ensures f != g ==> Clash(a.marker, b.marker)
  {
    TitleFacts(f);
    MarkedClash(f, LegacyTitle(f), g, CanonicalTitle(g), |Subject(f)| + 1);
    if f != g {
      MarkedClash(f, LegacyTitle(f), g, LegacyTitle(g), 0);
    }
  }

  lemma RenamesAreHeadingLike(renames: seq<Rename>)
    requires renames == Renames()
    ensures forall i :: 0 <= i < |renames| ==> HeadingLike(renames[i].marker) && HeadingLike(renames[i].replacement)
    ensures Usable(renames)
  {
    forall i | 0 <= i < |renames|
      ensures HeadingLike(renames[i].marker) && HeadingLike(renames[i].replacement)
    {
      RenameIsHeadingLike(LEGACY_FIELDS[i]);
    }
  }

  lemma RenamesClashAt(renames: seq<Rename>, i: nat, j: nat)
    requires renames == Renames() && i < |renames| && j < |renames|
    ensures Clash(renames[i].marker, renames[j].replacement)
    ensures i < j ==> Clash(renames[i].marker, renames[j].marker)
  {
    var f, g := LEGACY_FIELDS[i], LEGACY_FIELDS[j];
    RenamesClash(f, g, renames[i], renames[j]);
    FieldsDistinct(i, j);
  }

  lemma FieldsDistinct(i: nat, j: nat)
    requires i < |LEGACY_FIELDS| && j < |LEGACY_FIELDS|
    ensures i < j ==> LEGACY_FIELDS[i] != LEGACY_FIELDS[j]
  {
  }

  lemma RenamesAreIndependent(renames: seq<Rename>)
    requires renames == Renames()
    ensures Independent(renames) && Usable(renames)
  {
    RenamesAreHeadingLike(renames);
    forall i, j | 0 <= i < |renames| && 0 <= j < |renames|
      ensures Clash(renames[i].marker, renames[j].replacement)
      ensures i < j ==> Clash(renames[i].marker, renames[j].marker)
    {
      RenamesClashAt(renames, i, j);
    }
  }

  lemma Regrouped(mark: string, number: string, dot: string, subject: string, joint: string, addition: string, impact: string)
    ensures mark + (number + dot + (subject + joint + addition + impact)) == mark + number + dot + subject + joint + addition + impact
    ensures mark + (number + dot + (subject + impact)) == mark + number + dot + subject + impact
  {
  }

  /** The two wordings of a heading, piece by piece. */
  function Pair(number: string, subject: string, addition: string): Rename {
    Rename("## " + number + ". " + subject + " and " + addition + " impact", "## " + number + ". " + subject + " impact")
  }

  lemma RenameReads(field: nat, number: string)
    requires field in LEGACY_FIELDS && Decimal(field) == number
    ensures RenameFor(field) == Pair(number, Subject(field), Addition(field))
  {
    Regrouped("## ", number, ". ", Subject(field), " and ", Addition(field), " impact");
  }

  lemma Rename14()
    ensures RenameFor(14) == Pair("14", "API", "integration")
  {
    assert Decimal(14) == "14";
    RenameReads(14, "14");
  }

  lemma Rename16()
    ensures RenameFor(16) == Pair("16", "Security", "privacy")
  {
    assert Decimal(16) == "16";
    RenameReads(16, "16");
  }

  lemma Rename17()
    ensures RenameFor(17) == Pair("17", "Performance", "reliability")
  {
    assert Decimal(17) == "17";
    RenameReads(17, "17");
  }

  lemma Rename18()
    ensures RenameFor(18) == Pair("18", "Audit", "observability")
  {
    assert Decimal(18) == "18";
    RenameReads(18, "18");
  }

  lemma Rename19()
    ensures RenameFor(19) == Pair("19", "Data migration", "compatibility")
  {
    assert Decimal(19) == "19";
    RenameReads(19, "19");
  }

  function Wording(i: nat): Rename {
    match i
    case 0 => Pair("14", "API", "integration")
    case 1 => Pair("16", "Security", "privacy")
    case 2 => Pair("17", "Performance", "reliability")
    case 3 => Pair("18", "Audit", "observability")
    case _ => Pair("19", "Data migration", "compatibility")
  }

  /** The five renames: "## 14. API and integration impact" becomes "## 14. API impact", and so on. */
  lemma RenamesAre(i: nat)
    requires i < 5
    ensures |Renames()| == 5 && Renames()[i] == Wording(i)
  {
    match i
    case 0 => Rename14();
    case 1 => Rename16();
    case 2 => Rename17();
    case 3 => Rename18();
    case _ => Rename19();
  }

  // ---------- Renaming: no marker is created, lost or left ----------

  lemma {:induction false} IncludesFrom(s: string, k: nat, n: string)
    requires k <= |s| && n != ""
    requires forall p :: 0 <= p < k ==> !(n <= s[p..])
    ensures Includes(s, n) == Includes(s[k..], n)
  {
    if k == 0 {
      assert s[0..] == s;
    } else {
      assert !(n <= s) by { assert s[0..] == s; }
      forall p | 0 <= p < k - 1 ensures !(n <= s[1..][p..]) {
        assert s[1..][p..] == s[p + 1..];
      }
      IncludesFrom(s[1..], k - 1, n);
      assert s[1..][k - 1..] == s[k..];
    }
  }

  /** A heading cannot start inside a different heading. */
  lemma NoHeadingInside(h: string, rest: string, n: string, p: nat)
    requires HeadingLike(h) && HeadingLike(n) && Clash(n, h) && p < |h|
    ensures !(n <= (h + rest)[p..])
  {
    var s := h + rest;
    assert s[p..][0] == h[p];
    if p == 1 {
      assert |s[p..]| >= 2 && s[p..][1] == h[2];
    }
  }

  lemma IncludesAfterHeading(h: string, rest: string, n: string)
    requires HeadingLike(h) && HeadingLike(n) && Clash(n, h)
    ensures Includes(h + rest, n) == Includes(rest, n)
  {
    var s := h + rest;
    forall p | 0 <= p < |h| ensures !(n <= s[p..]) {
      NoHeadingInside(h, rest, n, p);
    }
    IncludesFrom(s, |h|, n);
    assert s[|h|..] == rest;
  }

  lemma HeadingPrefixReflects(n: string, s: string, m: string, q: string)
    requires HeadingLike(n) && HeadingLike(m) && HeadingLike(q)
    requires s != "" && !(m <= s) && n <= Replace(s, m, q)
    ensures n <= s
  {
    var tail := Replace(s[1..], m, q);
    assert Replace(s, m, q) == [s[0]] + tail;
    assert n[1..] <= tail;
    assert tail[1] != '#' by { assert tail[1] == n[2]; }
    var u := s[1..];
    assert u != "" && !(m <= u);
    assert tail == [u[0]] + Replace(u[1..], m, q);
    assert n[2..] <= Replace(u[1..], m, q);
    PrefixReflects(n[2..], u[1..], m, q);
    assert n == [n[0], n[1]] + n[2..] && s == [s[0], u[0]] + u[1..];
  }

  lemma {:induction false} ReplaceLeavesNoMarker(s: string, m: string, q: string)
    requires HeadingLike(m) && HeadingLike(q) && Clash(m, q)
    ensures !Includes(Replace(s, m, q), m)
  {
    if s == "" {
    } else if m <= s {
      ReplaceLeavesNoMarker(s[|m|..], m, q);
      IncludesAfterHeading(q, Replace(s[|m|..], m, q), m);
    } else {
      ReplaceLeavesNoMarker(s[1..], m, q);
      if m <= Replace(s, m, q) {
        HeadingPrefixReflects(m, s, m, q);
      }
      assert Replace(s, m, q)[1..] == Replace(s[1..], m, q);
    }
  }

  lemma {:induction false} ReplaceKeepsOtherMarkers(s: string, m: string, q: string, n: string)
    requires HeadingLike(m) && HeadingLike(q) && HeadingLike(n) && Clash(n, q) && Clash(n, m)
    ensures Includes(Replace(s, m, q), n) == Includes(s, n)
  {
    if s == "" {
    } else if m <= s {
      var rest := s[|m|..];
      ReplaceKeepsOtherMarkers(rest, m, q, n);
      IncludesAfterHeading(q, Replace(rest, m, q), n);
      assert s == m + rest;
      IncludesAfterHeading(m, rest, n);
    } else {
      ReplaceKeepsOtherMarkers(s[1..], m, q, n);
      assert Replace(s, m, q)[1..] == Replace(s[1..], m, q);
      if n <= Replace(s, m, q) {
        HeadingPrefixReflects(n, s, m, q);
      } else if n <= s {
        assert s[..|n|] == n;
        forall i | 0 <= i < |n| ensures !(m <= s[i..]) {
          assert s[0..] == s;
          assert s[i..][0] == n[i];
          if i == 1 {
            assert s[i..][1] == n[2];
          }
        }
        ReplaceSkips(s, |n|, m, q);
      }
    }
  }

  lemma {:induction false} CanonicalKeepsAbsence(s: string, renames: seq<Rename>, n: string)
    requires Usable(renames) && Independent(renames) && HeadingLike(n) && !Includes(s, n)
    requires forall i :: 0 <= i < |renames| ==> Clash(n, renames[i].marker) && Clash(n, renames[i].replacement)
    decreases |renames|
    ensures !Includes(Canonical(s, renames), n)
  {
    if renames != [] {
      ReplaceKeepsOtherMarkers(s, renames[0].marker, renames[0].replacement, n);
      CanonicalKeepsAbsence(Replace(s, renames[0].marker, renames[0].replacement), renames[1..], n);
    }
  }

  lemma ClashSymmetric(a: string, b: string)
    requires Clash(a, b)
    ensures Clash(b, a)
  {
    var k :| 0 <= k < |a| && k < |b| && a[k] != b[k];
    assert b[k] != a[k];
  }

  lemma {:induction false} CanonicalLeavesNoMarker(s: string, renames: seq<Rename>, i: nat)
    requires Usable(renames) && Independent(renames) && i < |renames|
    ensures !Includes(Canonical(s, renames), renames[i].marker)
    decreases |renames|
  {
    var m, q := renames[0].marker, renames[0].replacement;
    if i == 0 {
      ReplaceLeavesNoMarker(s, m, q);
      CanonicalKeepsAbsence(Replace(s, m, q), renames[1..], m);
    } else {
      CanonicalLeavesNoMarker(Replace(s, m, q), renames[1..], i - 1);
    }
  }

  lemma {:induction false} CanonicalOfClean(s: string, renames: seq<Rename>)
    requires Usable(renames)
    requires forall i :: 0 <= i < |renames| ==> !Includes(s, renames[i].marker)
    ensures Canonical(s, renames) == s
  {
    if renames != [] {
      ReplaceAbsent(s, renames[0].marker, renames[0].replacement);
      CanonicalOfClean(s, renames[1..]);
    }
  }

  lemma CanonicalIsIdempotent(s: string, renames: seq<Rename>)
    requires Usable(renames) && Independent(renames)
    ensures Canonical(Canonical(s, renames), renames) == Canonical(s, renames)
  {
    forall i | 0 <= i < |renames| ensures !Includes(Canonical(s, renames), renames[i].marker) {
      CanonicalLeavesNoMarker(s, renames, i);
    }
    CanonicalOfClean(Canonical(s, renames), renames);
  }

  /** A marker that does not occur in a does not start there either when a heading follows. */
  lemma NoMarkerBeforeHeading(a: string, h: string, rest: string, m: string, p: nat)
    requires HeadingLike(h) && HeadingLike(m) && !Includes(a, m) && p < |a|
    ensures !(m <= (a + h + rest)[p..])
  {
    var s := a + h + rest;
    if m <= s[p..] {
      var i := |a| - p;
      assert s[|a|] == '#' && s[|a| + 1] == '#';
      ReadsAt(s, p, m, i);
      ReadsAt(s, p, m, i + 1);
      if p + |m| <= |a| {
        assert m <= a[p..] by { assert s[p..][..|m|] == a[p..][..|m|]; }
        IncludesAt(a, m, p);
      }
    }
  }

  lemma ReadsAt(s: string, p: nat, m: string, i: nat)
    requires p <= |s| && m <= s[p..]
    ensures i < |m| ==> s[p + i] == m[i]
  {
    assert i < |m| ==> s[p..][i] == m[i];
  }

  lemma {:induction false} IncludesAt(s: string, n: string, p: nat)
    requires p < |s| && n <= s[p..]
    ensures Includes(s, n)
  {
    if p > 0 {
      assert s[1..][p - 1..] == s[p..];
      IncludesAt(s[1..], n, p - 1);
    } else {
      assert s[0..] == s;
    }
  }

  lemma ReplaceBeforeHeading(a: string, h: string, rest: string, m: string, q: string)
    requires HeadingLike(h) && HeadingLike(m) && !Includes(a, m)
    ensures Replace(a + h + rest, m, q) == a + Replace(h + rest, m, q)
  {
    var s := a + h + rest;
    forall p | 0 <= p < |a| ensures !(m <= s[p..]) {
      NoMarkerBeforeHeading(a, h, rest, m, p);
    }
    assert s[..|a|] == a && s[|a|..] == h + rest;
    ReplaceSkips(s, |a|, m, q);
  }

  lemma ReplacePastHeading(a: string, h: string, rest: string, m: string, q: string)
    requires HeadingLike(h) && HeadingLike(m) && !Includes(a, m) && Clash(m, h)
    ensures Replace(a + h + rest, m, q) == a + h + Replace(rest, m, q)
  {
    ReplaceBeforeHeading(a, h, rest, m, q);
    ReplaceAfterHeading(h, rest, m, q);
    assert a + (h + Replace(rest, m, q)) == a + h + Replace(rest, m, q);
  }

  lemma ReplaceAtMarker(a: string, m: string, rest: string, q: string)
    requires HeadingLike(m) && !Includes(a, m)
    ensures Replace(a + m + rest, m, q) == a + q + Replace(rest, m, q)
  {
    ReplaceBeforeHeading(a, m, rest, m, q);
    AtMarker(m, rest, q);
    assert a + (q + Replace(rest, m, q)) == a + q + Replace(rest, m, q);
  }

  lemma {:induction false} CanonicalPastHeading(a: string, h: string, rest: string, renames: seq<Rename>)
    requires Usable(renames) && Independent(renames) && HeadingLike(h)
    requires forall j :: 0 <= j < |renames| ==> !Includes(a, renames[j].marker) && Clash(renames[j].marker, h)
    ensures Canonical(a + h + rest, renames) == a + h + Canonical(rest, renames)
    decreases |renames|
  {
    if renames != [] {
      ReplacePastHeading(a, h, rest, renames[0].marker, renames[0].replacement);
      CanonicalPastHeading(a, h, Replace(rest, renames[0].marker, renames[0].replacement), renames[1..]);
    }
  }

  /**
   * What the renaming writes, heading by heading: a text without a marker stays as it is, and
   * otherwise everything before the first marker does, that marker becomes its canonical heading,
   * and the rest is renamed on its own.
   */
  lemma {:induction false} CanonicalReads(a: string, k: nat, rest: string, renames: seq<Rename>)
    requires Usable(renames) && Independent(renames) && k < |renames|
    requires forall j :: 0 <= j < |renames| ==> !Includes(a, renames[j].marker)
    ensures Canonical(a, renames) == a
    ensures Canonical(a + renames[k].marker + rest, renames) == a + renames[k].replacement + Canonical(rest, renames)
    decreases |renames|
  {
    CanonicalOfClean(a, renames);
    var m, q := renames[0].marker, renames[0].replacement;
    if k == 0 {
      ReplaceAtMarker(a, m, rest, q);
      CanonicalPastHeading(a, q, Replace(rest, m, q), renames[1..]);
    } else {
      assert renames[1..][k - 1] == renames[k];
      ReplacePastHeading(a, renames[k].marker, rest, m, q);
      CanonicalReads(a, k - 1, Replace(rest, m, q), renames[1..]);
    }
  }

  // ---------- The order of the renames ----------

  lemma ReplaceAfterHeading(h: string, rest: string, m: string, q: string)
    requires HeadingLike(h) && HeadingLike(m) && Clash(m, h)
    ensures Replace(h + rest, m, q) == h + Replace(rest, m, q)
  {
    var s := h + rest;
    forall p | 0 <= p < |h| ensures !(m <= s[p..]) {
      NoHeadingInside(h, rest, m, p);
    }
    ReplaceSkips(s, |h|, m, q);
    assert s[|h|..] == rest && s[..|h|] == h;
  }

  /** Neither heading of one pair can start inside a heading of the other. */
  ghost predicate Apart(a: Rename, b: Rename) {
    && HeadingLike(a.marker) && HeadingLike(a.replacement) && HeadingLike(b.marker) && HeadingLike(b.replacement)
    && Clash(a.marker, b.marker) && Clash(b.marker, a.marker)
    && Clash(a.marker, b.replacement) && Clash(b.marker, a.replacement)
  }

  lemma ApartAt(renames: seq<Rename>, i: nat, j: nat)
    requires Independent(renames) && i < |renames| && j < |renames| && i != j
    ensures Apart(renames[i], renames[j])
  {
    if i < j {
      ClashSymmetric(renames[i].marker, renames[j].marker);
    } else {
      ClashSymmetric(renames[j].marker, renames[i].marker);
    }
  }

  function Apply(s: string, r: Rename): string
    requires r.marker != ""
  {
    Replace(s, r.marker, r.replacement)
  }

  lemma AtMarker(m: string, rest: string, q: string)
    requires m != ""
    ensures Replace(m + rest, m, q) == q + Replace(rest, m, q)
  {
    assert (m + rest)[|m|..] == rest;
  }

  lemma CommuteAtMarker(rest: string, a: Rename, b: Rename)
    requires Apart(a, b) && Apply(Apply(rest, a), b) == Apply(Apply(rest, b), a)
    ensures Apply(Apply(a.marker + rest, a), b) == Apply(Apply(a.marker + rest, b), a)
  {
    AtMarker(a.marker, rest, a.replacement);
    ReplaceAfterHeading(a.replacement, Apply(rest, a), b.marker, b.replacement);
    ReplaceAfterHeading(a.marker, rest, b.marker, b.replacement);
    AtMarker(a.marker, Apply(rest, b), a.replacement);
  }

  lemma CommuteAtChar(s: string, a: Rename, b: Rename)
    requires Apart(a, b) && s != "" && !(a.marker <= s) && !(b.marker <= s)
    ensures Apply(Apply(s, a), b) == [s[0]] + Apply(Apply(s[1..], a), b)
  {
    var once := Apply(s, a);
    assert once[0] == s[0] && once[1..] == Apply(s[1..], a);
    if b.marker <= once {
      HeadingPrefixReflects(b.marker, s, a.marker, a.replacement);
    }
  }

  lemma {:induction false} ReplacesCommute(s: string, a: Rename, b: Rename)
    requires Apart(a, b)
    ensures Apply(Apply(s, a), b) == Apply(Apply(s, b), a)
  {
    if s == "" {
    } else if a.marker <= s {
      ReplacesCommute(s[|a.marker|..], a, b);
      CommuteAtMarker(s[|a.marker|..], a, b);
      assert s == a.marker + s[|a.marker|..];
    } else if b.marker <= s {
      ReplacesCommute(s[|b.marker|..], a, b);
      CommuteAtMarker(s[|b.marker|..], b, a);
      assert s == b.marker + s[|b.marker|..];
    } else {
      ReplacesCommute(s[1..], a, b);
      CommuteAtChar(s, a, b);
      CommuteAtChar(s, b, a);
    }
  }

  lemma CanonicalFirst(s: string, renames: seq<Rename>, first: Rename, rest: seq<Rename>)
    requires Usable(renames) && renames == [first] + rest
    ensures first.marker != "" && Usable(rest)
    ensures Canonical(s, renames) == Canonical(Apply(s, first), rest)
  {
    assert renames[0] == first && renames[1..] == rest;
    forall i | 0 <= i < |rest| ensures rest[i].marker != "" {
      assert renames[i + 1] == rest[i];
    }
  }

  function Without(renames: seq<Rename>, k: nat): seq<Rename>
    requires k < |renames|
  {
    renames[..k] + renames[k + 1..]
  }

  lemma WithoutIsIndependent(renames: seq<Rename>, k: nat)
    requires k < |renames| && Usable(renames) && Independent(renames)
    ensures Usable(Without(renames, k)) && Independent(Without(renames, k))
  {
    var others := Without(renames, k);
    assert forall i :: 0 <= i < |others| ==> others[i] == renames[if i < k then i else i + 1];
  }

  lemma WithoutLater(renames: seq<Rename>, k: nat)
    requires 0 < k < |renames|
    ensures Without(renames, k) == [renames[0]] + Without(renames[1..], k - 1)
  {
  }

  /** Any rename may come first. */
  lemma {:induction false} MoveToFront(s: string, renames: seq<Rename>, k: nat)
    requires k < |renames| && Usable(renames) && Independent(renames) && Usable(Without(renames, k))
    ensures Canonical(s, renames) == Canonical(Apply(s, renames[k]), Without(renames, k))
    decreases k
  {
    if k == 0 {
      assert Without(renames, k) == renames[1..];
    } else {
      var first, chosen, tail := renames[0], renames[k], renames[1..];
      assert tail[k - 1] == chosen;
      TailIsIndependent(renames);
      WithoutIsIndependent(tail, k - 1);
      MoveToFront(Apply(s, first), tail, k - 1);
      ApartAt(renames, 0, k);
      ReplacesCommute(s, first, chosen);
      WithoutLater(renames, k);
      CanonicalFirst(Apply(s, chosen), Without(renames, k), first, Without(tail, k - 1));
    }
  }

  lemma TailIsIndependent(renames: seq<Rename>)
    requires renames != [] && Usable(renames) && Independent(renames)
    ensures Usable(renames[1..]) && Independent(renames[1..])
  {
  }

  lemma IndependentIsDistinct(renames: seq<Rename>)
    requires Independent(renames)
    ensures Distinct(renames)
  {
  }

  lemma RearrangedIsIndependent(a: seq<Rename>, b: seq<Rename>)
    requires Independent(a) && Usable(a) && multiset(a) == multiset(b)
    ensures Independent(b) && Usable(b)
  {
    IndependentIsDistinct(a);
    DistinctFromRearrangement(b, a);
    forall i | 0 <= i < |b| ensures exists k :: 0 <= k < |a| && a[k] == b[i] {
      assert b[i] in multiset(a);
    }
    forall i, j | 0 <= i < |b| && 0 <= j < |b| && i != j ensures Apart(b[i], b[j]) {
      var k :| 0 <= k < |a| && a[k] == b[i];
      var l :| 0 <= l < |a| && a[l] == b[j];
      assert b[i] != b[j];
      ApartAt(a, k, l);
    }
  }

  /** The order of an independent table does not matter. */
  lemma {:induction false} OrderIsIrrelevant(s: string, a: seq<Rename>, b: seq<Rename>)
    requires Usable(a) && Independent(a) && multiset(a) == multiset(b)
    ensures Usable(b) && Canonical(s, a) == Canonical(s, b)
    decreases |a|
  {
    RearrangedIsIndependent(a, b);
    assert |a| == |multiset(a)| == |multiset(b)| == |b|;
    if a != [] {
      var k := FirstFoundAt(a, b);
      WithoutIsIndependent(b, k);
      MoveToFront(s, b, k);
      TailIsIndependent(a);
      OrderIsIrrelevant(Apply(s, a[0]), a[1..], Without(b, k));
    }
  }

  lemma FirstFoundAt(a: seq<Rename>, b: seq<Rename>) returns (k: nat)
    requires a != [] && multiset(a) == multiset(b)
    ensures k < |b| && b[k] == a[0] && multiset(a[1..]) == multiset(Without(b, k))
  {
    assert a == [a[0]] + a[1..];
    assert a[0] in multiset(b);
    k :| 0 <= k < |b| && b[k] == a[0];
    RemoveAt(b, k, (r: Rename) => true);
    assert multiset(a[1..]) == multiset(a) - multiset{a[0]};
  }

  lemma {:induction false} ReplaceKeepsOccurring(s: string, m: string, q: string, others: seq<Rename>)
    requires HeadingLike(m) && HeadingLike(q)
    requires forall i :: 0 <= i < |others| ==> HeadingLike(others[i].marker) && Clash(others[i].marker, q) && Clash(m, others[i].marker)
    ensures Occurring(Replace(s, m, q), others) == Occurring(s, others)
  {
    if others != [] {
      ClashSymmetric(m, others[0].marker);
      ReplaceKeepsOtherMarkers(s, m, q, others[0].marker);
      ReplaceKeepsOccurring(s, m, q, others[1..]);
    }
  }

  /** The reported number of renamed headings is the number of legacy headings in the text. */
  lemma {:induction false} RenamedCountsMarkers(s: string, renames: seq<Rename>)
    requires Usable(renames) && Independent(renames)
    ensures Renamed(s, renames) == Occurring(s, renames)
    decreases |renames|
  {
    if renames != [] {
      var m, q := renames[0].marker, renames[0].replacement;
      assert Clash(m, q);
      RenamedCountsMarkers(Replace(s, m, q), renames[1..]);
      ReplaceKeepsOccurring(s, m, q, renames[1..]);
    }
  }

  // ---------- Stripping the indent ----------

  lemma {:induction false} DeindentConserves(lines: seq<string>)
    requires lines != []
    ensures |Unlines(lines)| == |Unlines(Map(DeindentLine, lines))| + |INDENT| * Indented(lines)
  {
    if |lines| > 1 {
      DeindentConserves(lines[1..]);
      assert Map(DeindentLine, lines)[1..] == Map(DeindentLine, lines[1..]);
    }
  }

  lemma LinesOfDeindent(s: string)
    ensures Lines(DeindentText(s)) == Map(DeindentLine, Lines(s))
  {
    LinesHaveNoNewline(s);
    SplitJoin(Map(DeindentLine, Lines(s)), "\n");
  }

  /** Line count kept, and each stripped line gives up exactly its four spaces. */
  lemma DeindentKeepsSize(s: string)
    ensures |Lines(DeindentText(s))| == |Lines(s)|
    ensures |s| == |DeindentText(s)| + 4 * Indented(Lines(s))
  {
    LinesOfDeindent(s);
    JoinSplit(s, "\n");
    DeindentConserves(Lines(s));
  }

  // ---------- The two commute, line by line ----------

  lemma ReplaceCommutesWithDeindent(line: string, m: string, q: string)
    requires HeadingLike(m) && HeadingLike(q)
    ensures DeindentLine(Replace(line, m, q)) == Replace(DeindentLine(line), m, q)
    ensures INDENT <= Replace(line, m, q) <==> INDENT <= line
  {
    if INDENT <= line {
      forall i | 0 <= i < 4 ensures !(m <= line[i..]) {
        assert line[i..][0] == INDENT[i] == ' ';
      }
      ReplaceSkips(line, 4, m, q);
      assert line[..4] == INDENT;
    } else if INDENT <= Replace(line, m, q) {
      PrefixReflects(INDENT, line, m, q);
    }
  }

  lemma {:induction false} CanonicalCommutesWithDeindent(line: string, renames: seq<Rename>)
    requires Usable(renames) && Independent(renames)
    ensures DeindentLine(Canonical(line, renames)) == Canonical(DeindentLine(line), renames)
    ensures INDENT <= Canonical(line, renames) <==> INDENT <= line
    decreases |renames|
  {
    if renames != [] {
      ReplaceCommutesWithDeindent(line, renames[0].marker, renames[0].replacement);
      CanonicalCommutesWithDeindent(Replace(line, renames[0].marker, renames[0].replacement), renames[1..]);
    }
  }

  lemma {:induction false} CanonicalIsLinewise(s: string, renames: seq<Rename>)
    requires Usable(renames) && Independent(renames)
    ensures Lines(Canonical(s, renames)) == seq(|Lines(s)|, i requires 0 <= i < |Lines(s)| => Canonical(Lines(s)[i], renames))
    decreases |renames|
  {
    if renames != [] {
      ReplaceIsLinewise(s, renames[0].marker, renames[0].replacement);
      CanonicalIsLinewise(Replace(s, renames[0].marker, renames[0].replacement), renames[1..]);
    }
  }

  lemma ReduceIsLinewise(s: string, renames: seq<Rename>, i: nat)
    requires Usable(renames) && Independent(renames) && i < |Lines(s)|
    ensures |Lines(Reduce(s, renames))| == |Lines(s)|
    ensures Lines(Reduce(s, renames))[i] == Canonical(DeindentLine(Lines(s)[i]), renames)
  {
    LinesOfDeindent(s);
    CanonicalIsLinewise(DeindentText(s), renames);
  }

  // ---------- Main results ----------

  lemma DeepIndentTwice(line: string)
    ensures INDENT <= DeindentLine(line) <==> DEEP_INDENT <= line
  {
    var once := DeindentLine(line);
    assert DEEP_INDENT <= line ==> line[..4] == INDENT;
    if INDENT <= line {
      assert line == INDENT + once;
      if INDENT <= once {
        assert line == INDENT + (INDENT + once[4..]) == DEEP_INDENT + once[4..];
      }
      if DEEP_INDENT <= line {
        assert once[..4] == line[4..8] == INDENT;
      }
    }
  }

  /**
   * On one line: the reduced line is reduced again to itself exactly when the line did not start
   * with two indents.
   */
  lemma ReducedLineIsFixed(line: string, renames: seq<Rename>)
    requires Usable(renames) && Independent(renames)
    ensures var t := Canonical(DeindentLine(line), renames);
      Canonical(DeindentLine(t), renames) == t <==> !("        " <= line)
  {
    var once := DeindentLine(line);
    var t := Canonical(once, renames);
    CanonicalCommutesWithDeindent(once, renames);
    CanonicalIsIdempotent(DeindentLine(once), renames);
    CanonicalIsIdempotent(once, renames);
    assert Canonical(DeindentLine(t), renames) == DeindentLine(t);
    DeepIndentTwice(line);
  }

  /**
   * The self-check accepts the transformed text exactly when no line of the original starts with
   * two indents. Since the check reduces both texts by the very transform it is checking, this is
   * also exactly when a second run would change nothing.
   */
  lemma SelfCheckAcceptsIff(original: string, renames: seq<Rename>)
    requires Usable(renames) && Independent(renames)
    ensures var transformed := Reduce(original, renames);
      Reduce(original, renames) == Reduce(transformed, renames)
      <==> forall i :: 0 <= i < |Lines(original)| ==> !("        " <= Lines(original)[i])
  {
    var once := Reduce(original, renames);
    var twice := Reduce(once, renames);
    var lines := Lines(original);
    forall i | 0 <= i < |lines|
      ensures |Lines(once)| == |Lines(twice)| == |lines|
      ensures Lines(twice)[i] == Lines(once)[i] <==> !(DEEP_INDENT <= lines[i])
    {
      ReduceIsLinewise(original, renames, i);
      ReduceIsLinewise(once, renames, i);
      ReducedLineIsFixed(lines[i], renames);
    }
    LinesDetermineText(once, twice);
    if forall i :: 0 <= i < |lines| ==> !(DEEP_INDENT <= lines[i]) {
      assert forall i :: 0 <= i < |lines| ==> Lines(twice)[i] == Lines(once)[i];
      assert Lines(once) == Lines(twice) by { ReduceIsLinewise(original, renames, 0); ReduceIsLinewise(once, renames, 0); }
    }
  }

  /** What an accepted run has done: it left no legacy heading and no indented line behind. */
  lemma AcceptedOutputIsClean(original: string, i: nat, k: nat, renames: seq<Rename>)
    requires i < |Lines(original)| && k < |renames| && Usable(renames) && Independent(renames)
    requires Reduce(Reduce(original, renames), renames) == Reduce(original, renames)
    ensures |Lines(Reduce(original, renames))| == |Lines(original)|
    ensures !("    " <= Lines(Reduce(original, renames))[i])
    ensures !Includes(Reduce(original, renames), renames[k].marker)
  {
    SelfCheckAcceptsIff(original, renames);
    ReduceIsLinewise(original, renames, i);
    var once := DeindentLine(Lines(original)[i]);
    CanonicalCommutesWithDeindent(once, renames);
    DeepIndentTwice(Lines(original)[i]);
    CanonicalLeavesNoMarker(DeindentText(original), renames, k);
  }
}
