/**
 * scripts/docs/check-known-issues.ts: the issue ledger's index rows against its records. A
 * regular expression is an arbitrary classification of lines; statuses and severities outside
 * the closed vocabularies are kept apart as other text.
 */
module KnownIssues {
  import opened Wrappers
  import opened Text
  import opened Sequences
  import opened Parentheticals

  datatype Status =
    | Open | Triaged | Planned | InProgress | Monitoring
    | AcceptedRisk | AcceptedException | Resolved | Verified | Superseded

  datatype Severity = Critical | High | Medium | Low

  datatype RowStatus = Known(status: Status) | UnknownStatus(text: string)
  datatype RowSeverity = Level(severity: Severity) | OtherSeverity(text: string)

  datatype IssueRecord = IssueRecord(id: string, status: Option<Status>, severity: Option<Severity>, line: nat)

  datatype IndexRow = IndexRow(id: string, severity: RowSeverity, status: RowStatus, line: nat, cellCount: int)

  const INDEX_ROW_CELLS := 4

  predicate Closed(s: Status) { s == Resolved || s == Verified || s == Superseded }
  predicate Accepted(s: Status) { s == AcceptedRisk || s == AcceptedException }
  predicate Active(s: Status) { !Closed(s) && !Accepted(s) }

  // ---------- Parsing ----------

  /** What the patterns make of one line. */
  datatype LineKind =
    | IndexHeader
    | RecordsHeader
    | RecordLine(id: string, heading: string)
    | RowLine(id: string, severity: RowSeverity, status: RowStatus)
    | OtherLine

  /** First status and first severity word of a text. */
  datatype Patterns = Patterns(kind: string -> LineKind, status: string -> Option<Status>, severity: string -> Option<Severity>)

  function ParseHeading(p: Patterns, id: string, heading: string, line: nat): IssueRecord {
    LastSpanIs(heading);
    var tail := match LastSpan(heading) case Some((s, e)) => heading[s..e] case None => "";
    IssueRecord(id, p.status(tail), p.severity(tail), line)
  }

  /** Cells between the pipes; a blank piece before the first or after the last pipe is not a cell. */
  function CellCount(line: string): int { CellsIn(Split(line, "|")) }

  function CellsIn(parts: seq<string>): int
    requires parts != []
  {
    var shifted := if Blank(parts[0]) then parts[1..] else parts;
    if shifted != [] && Blank(shifted[|shifted| - 1]) then |shifted| - 1 else |shifted|
  }

  /** Whether line i is read as part of the index. */
  function InIndex(p: Patterns, lines: seq<string>, i: nat): bool
    requires i < |lines|
  {
    match p.kind(lines[i])
    case IndexHeader => true
    case RecordsHeader => false
    case _ => i > 0 && InIndex(p, lines, i - 1)
  }

  function Records(p: Patterns, lines: seq<string>, n: nat): seq<IssueRecord>
    requires n <= |lines|
  {
    if n == 0 then []
    else
      Records(p, lines, n - 1)
      + match p.kind(lines[n - 1])
        case RecordLine(id, heading) => [ParseHeading(p, id, heading, n)]
        case _ => []
  }

  function Rows(p: Patterns, lines: seq<string>, n: nat): seq<IndexRow>
    requires n <= |lines|
  {
    if n == 0 then []
    else
      Rows(p, lines, n - 1)
      + match p.kind(lines[n - 1])
        case RowLine(id, severity, status) =>
          if InIndex(p, lines, n - 1) then [IndexRow(id, severity, status, n, CellCount(lines[n - 1]))] else []
        case _ => []
  }

  method ParseLines(p: Patterns, lines: seq<string>) returns (records: seq<IssueRecord>, indexRows: seq<IndexRow>)
    ensures records == Records(p, lines, |lines|)
    ensures indexRows == Rows(p, lines, |lines|)
  {
    records, indexRows := [], [];
    var inIndex := false;
    for i := 0 to |lines|
      invariant records == Records(p, lines, i)
      invariant indexRows == Rows(p, lines, i)
      invariant inIndex == (i > 0 && InIndex(p, lines, i - 1))
    {
      var kind := p.kind(lines[i]);
      if kind.IndexHeader? {
        inIndex := true;
      } else if kind.RecordsHeader? {
        inIndex := false;
      }
      if kind.RecordLine? {
        var span := LastParentheticalSpan(kind.heading);
        LastSpanIs(kind.heading);
        var tail := if span.Some? then kind.heading[span.value.0..span.value.1] else "";
        records := records + [IssueRecord(kind.id, p.status(tail), p.severity(tail), i + 1)];
      } else if inIndex && kind.RowLine? {
        indexRows := indexRows + [IndexRow(kind.id, kind.severity, kind.status, i + 1, CellCount(lines[i]))];
      }
    }
  }

  /** The index runs from its header to the records header: the last header seen decides. */
  lemma {:induction false} InIndexIff(p: Patterns, lines: seq<string>, i: nat)
    requires i < |lines|
    ensures InIndex(p, lines, i)
       <==> exists j :: 0 <= j <= i && p.kind(lines[j]).IndexHeader? && forall k :: j < k <= i ==> !p.kind(lines[k]).RecordsHeader?
  {
    var kind := p.kind(lines[i]);
    if kind.IndexHeader? || kind.RecordsHeader? {
    } else if i > 0 {
      InIndexIff(p, lines, i - 1);
      if InIndex(p, lines, i - 1) {
        var j :| 0 <= j <= i - 1 && p.kind(lines[j]).IndexHeader? && forall k :: j < k <= i - 1 ==> !p.kind(lines[k]).RecordsHeader?;
        assert p.kind(lines[j]).IndexHeader? && forall k :: j < k <= i ==> !p.kind(lines[k]).RecordsHeader?;
      }
    }
  }

  // ---------- What the records and rows are read from ----------

  /** The text a record's status and severity are read from: its heading's last bracket group, or nothing. */
  ghost predicate IsTail(heading: string, tail: string) {
    || (HasNoGroup(heading) && tail == "")
    || exists s: nat, e: nat :: IsLastGroup(heading, s, e) && tail == heading[s..e]
  }

  /** Line i declares the record. */
  ghost predicate IsRecordOf(p: Patterns, lines: seq<string>, i: nat, r: IssueRecord) {
    && i < |lines| && r.line == i + 1 && p.kind(lines[i]).RecordLine? && p.kind(lines[i]).id == r.id
    && exists tail: string :: IsTail(p.kind(lines[i]).heading, tail) && r.status == p.status(tail) && r.severity == p.severity(tail)
  }

  /** The last section header at or before line i opened the index. */
  ghost predicate IndexOpen(p: Patterns, lines: seq<string>, i: nat)
    requires i < |lines|
  {
    exists j :: 0 <= j <= i && p.kind(lines[j]).IndexHeader? && forall k :: j < k <= i ==> !p.kind(lines[k]).RecordsHeader?
  }

  /** Line i of the index is the row. */
  ghost predicate IsRowOf(p: Patterns, lines: seq<string>, i: nat, row: IndexRow) {
    && i < |lines| && row.line == i + 1 && IndexOpen(p, lines, i)
    && p.kind(lines[i]) == RowLine(row.id, row.severity, row.status) && row.cellCount == CellCount(lines[i])
  }

  lemma TailIs(heading: string)
    ensures IsTail(heading, match LastSpan(heading) case Some((s, e)) => (LastSpanIs(heading); heading[s..e]) case None => "")
  {
    LastSpanIs(heading);
  }

  lemma OneTail(heading: string, a: string, b: string)
    requires IsTail(heading, a) && IsTail(heading, b)
    ensures a == b
  {
    if !HasNoGroup(heading) {
      var s: nat, e: nat :| IsLastGroup(heading, s, e) && a == heading[s..e];
      var s': nat, e': nat :| IsLastGroup(heading, s', e') && b == heading[s'..e'];
      OneLastGroup(heading, s, e, s', e');
    }
  }

  /** Whatever else two headings say: with the same last group they declare the same status and severity. */
  lemma LastGroupDecides(p: Patterns, lines: seq<string>, i: nat, j: nat, r: IssueRecord, q: IssueRecord, tail: string)
    requires IsRecordOf(p, lines, i, r) && IsRecordOf(p, lines, j, q)
    requires IsTail(p.kind(lines[i]).heading, tail) && IsTail(p.kind(lines[j]).heading, tail)
    ensures r.status == q.status == p.status(tail) && r.severity == q.severity == p.severity(tail)
  {
    var a: string :| IsTail(p.kind(lines[i]).heading, a) && r.status == p.status(a) && r.severity == p.severity(a);
    var b: string :| IsTail(p.kind(lines[j]).heading, b) && q.status == p.status(b) && q.severity == p.severity(b);
    OneTail(p.kind(lines[i]).heading, a, tail);
    OneTail(p.kind(lines[j]).heading, b, tail);
  }

  lemma HeadingReads(p: Patterns, lines: seq<string>, i: nat)
    requires i < |lines| && p.kind(lines[i]).RecordLine?
    ensures IsRecordOf(p, lines, i, ParseHeading(p, p.kind(lines[i]).id, p.kind(lines[i]).heading, i + 1))
  {
    TailIs(p.kind(lines[i]).heading);
  }

  lemma {:induction false} RecordFrom(p: Patterns, lines: seq<string>, n: nat, k: nat)
    requires n <= |lines| && k < |Records(p, lines, n)|
    ensures var r := Records(p, lines, n)[k]; 1 <= r.line <= n && IsRecordOf(p, lines, r.line - 1, r)
  {
    var before := Records(p, lines, n - 1);
    if k < |before| {
      RecordFrom(p, lines, n - 1, k);
    } else {
      HeadingReads(p, lines, n - 1);
    }
  }

  lemma {:induction false} RecordFor(p: Patterns, lines: seq<string>, n: nat, i: nat) returns (k: nat)
    requires i < n <= |lines| && p.kind(lines[i]).RecordLine?
    ensures k < |Records(p, lines, n)| && Records(p, lines, n)[k].line == i + 1
  {
    if i == n - 1 {
      k := |Records(p, lines, n - 1)|;
    } else {
      k := RecordFor(p, lines, n - 1, i);
    }
  }

  lemma {:induction false} RecordsAscend(p: Patterns, lines: seq<string>, n: nat, j: nat, k: nat)
    requires n <= |lines| && j < k < |Records(p, lines, n)|
    ensures Records(p, lines, n)[j].line < Records(p, lines, n)[k].line
  {
    if k < |Records(p, lines, n - 1)| {
      RecordsAscend(p, lines, n - 1, j, k);
    } else {
      RecordFrom(p, lines, n - 1, j);
    }
  }

  lemma {:induction false} RowFrom(p: Patterns, lines: seq<string>, n: nat, k: nat)
    requires n <= |lines| && k < |Rows(p, lines, n)|
    ensures var row := Rows(p, lines, n)[k]; 1 <= row.line <= n && IsRowOf(p, lines, row.line - 1, row)
  {
    if k < |Rows(p, lines, n - 1)| {
      RowFrom(p, lines, n - 1, k);
    } else {
      InIndexIff(p, lines, n - 1);
    }
  }

  lemma {:induction false} RowFor(p: Patterns, lines: seq<string>, n: nat, i: nat) returns (k: nat)
    requires i < n <= |lines| && p.kind(lines[i]).RowLine? && IndexOpen(p, lines, i)
    ensures k < |Rows(p, lines, n)| && Rows(p, lines, n)[k].line == i + 1
  {
    if i == n - 1 {
      InIndexIff(p, lines, i);
      k := |Rows(p, lines, n - 1)|;
    } else {
      k := RowFor(p, lines, n - 1, i);
    }
  }

  lemma {:induction false} RowsAscend(p: Patterns, lines: seq<string>, n: nat, j: nat, k: nat)
    requires n <= |lines| && j < k < |Rows(p, lines, n)|
    ensures Rows(p, lines, n)[j].line < Rows(p, lines, n)[k].line
  {
    if k < |Rows(p, lines, n - 1)| {
      RowsAscend(p, lines, n - 1, j, k);
    } else {
      RowFrom(p, lines, n - 1, j);
    }
  }

  ghost predicate RecordsRead(p: Patterns, lines: seq<string>, records: seq<IssueRecord>) {
    forall k :: 0 <= k < |records| ==> 1 <= records[k].line && IsRecordOf(p, lines, records[k].line - 1, records[k])
  }

  ghost predicate EveryRecord(p: Patterns, lines: seq<string>, records: seq<IssueRecord>) {
    forall i :: 0 <= i < |lines| && p.kind(lines[i]).RecordLine? ==> exists k :: 0 <= k < |records| && records[k].line == i + 1
  }

  ghost predicate RowsRead(p: Patterns, lines: seq<string>, rows: seq<IndexRow>) {
    forall k :: 0 <= k < |rows| ==> 1 <= rows[k].line && IsRowOf(p, lines, rows[k].line - 1, rows[k])
  }

  ghost predicate EveryRow(p: Patterns, lines: seq<string>, rows: seq<IndexRow>) {
    forall i :: 0 <= i < |lines| && p.kind(lines[i]).RowLine? && IndexOpen(p, lines, i) ==> exists k :: 0 <= k < |rows| && rows[k].line == i + 1
  }

  /** One record for each record line, in order, read from it. */
  ghost predicate RecordsOf(p: Patterns, lines: seq<string>, records: seq<IssueRecord>) {
    RecordsRead(p, lines, records) && EveryRecord(p, lines, records) && forall j, k :: 0 <= j < k < |records| ==> records[j].line < records[k].line
  }

  /** One row for each row line of the index, in order. */
  ghost predicate RowsOf(p: Patterns, lines: seq<string>, rows: seq<IndexRow>) {
    RowsRead(p, lines, rows) && EveryRow(p, lines, rows) && forall j, k :: 0 <= j < k < |rows| ==> rows[j].line < rows[k].line
  }

  lemma AllRecordsRead(p: Patterns, lines: seq<string>)
    ensures RecordsRead(p, lines, Records(p, lines, |lines|))
  {
    forall k | 0 <= k < |Records(p, lines, |lines|)|
      ensures var r := Records(p, lines, |lines|)[k]; 1 <= r.line && IsRecordOf(p, lines, r.line - 1, r)
    {
      RecordFrom(p, lines, |lines|, k);
    }
  }

  lemma AllRowsRead(p: Patterns, lines: seq<string>)
    ensures RowsRead(p, lines, Rows(p, lines, |lines|))
  {
    forall k | 0 <= k < |Rows(p, lines, |lines|)|
      ensures var row := Rows(p, lines, |lines|)[k]; 1 <= row.line && IsRowOf(p, lines, row.line - 1, row)
    {
      RowFrom(p, lines, |lines|, k);
    }
  }

  lemma RecordsAreRead(p: Patterns, lines: seq<string>)
    ensures RecordsOf(p, lines, Records(p, lines, |lines|))
  {
    var records := Records(p, lines, |lines|);
    AllRecordsRead(p, lines);
    forall i | 0 <= i < |lines| && p.kind(lines[i]).RecordLine? ensures exists k :: 0 <= k < |records| && records[k].line == i + 1 {
      var k := RecordFor(p, lines, |lines|, i);
    }
    forall j, k | 0 <= j < k < |records| ensures records[j].line < records[k].line {
      RecordsAscend(p, lines, |lines|, j, k);
    }
  }

  lemma RowsAreRead(p: Patterns, lines: seq<string>)
    ensures RowsOf(p, lines, Rows(p, lines, |lines|))
  {
    var rows := Rows(p, lines, |lines|);
    AllRowsRead(p, lines);
    forall i | 0 <= i < |lines| && p.kind(lines[i]).RowLine? && IndexOpen(p, lines, i) ensures exists k :: 0 <= k < |rows| && rows[k].line == i + 1 {
      var k := RowFor(p, lines, |lines|, i);
    }
    forall j, k | 0 <= j < k < |rows| ensures rows[j].line < rows[k].line {
      RowsAscend(p, lines, |lines|, j, k);
    }
  }

  /** The records and the index rows of a ledger, each read from its own line. */
  method ParseKnownIssues(p: Patterns, text: string) returns (records: seq<IssueRecord>, indexRows: seq<IndexRow>)
    ensures RecordsOf(p, Lines(text), records) && RowsOf(p, Lines(text), indexRows)
  {
    records, indexRows := ParseLines(p, Lines(text));
    RecordsAreRead(p, Lines(text));
    RowsAreRead(p, Lines(text));
  }

  /** A row written `|c1|...|cn|`, and one without its last pipe. */
  function ClosedRow(cells: seq<string>): string { UnclosedRow(cells) + "|" }
  function UnclosedRow(cells: seq<string>): string { "|" + Join(cells, "|") }

  /** The texts the row splits into. */
  lemma RowPieces(cells: seq<string>)
    requires cells != [] && FreeOf(cells, '|')
    ensures Split(UnclosedRow(cells), "|") == [""] + cells
    ensures Split(ClosedRow(cells), "|") == [""] + cells + [""]
  {
    JoinEmptyFirst(cells, "|");
    JoinAppendEmpty([""] + cells, "|");
    BorderedIsFree(cells);
    SplitJoin([""] + cells, "|");
    SplitJoin([""] + cells + [""], "|");
  }

  /** A closed row of n cells counts n; without its last pipe a blank last cell is not counted. */
  lemma CellsCounted(cells: seq<string>)
    requires cells != [] && FreeOf(cells, '|')
    ensures CellCount(ClosedRow(cells)) == |cells|
    ensures CellCount(UnclosedRow(cells)) == if Blank(cells[|cells| - 1]) then |cells| - 1 else |cells|
  {
    RowPieces(cells);
    CellsInBordered(cells);
  }

  lemma BorderedIsFree(cells: seq<string>)
    requires FreeOf(cells, '|')
    ensures FreeOf([""] + cells, '|') && FreeOf([""] + cells + [""], '|')
  {
  }

  lemma CellsInBordered(cells: seq<string>)
    requires cells != []
    ensures CellsIn([""] + cells + [""]) == |cells|
    ensures CellsIn([""] + cells) == if Blank(cells[|cells| - 1]) then |cells| - 1 else |cells|
  {
    var left := [""] + cells;
    assert left[1..] == cells && (left + [""])[1..] == cells + [""];
  }

  lemma {:induction false} JoinAppendEmpty(parts: seq<string>, sep: string)
    requires parts != []
    ensures Join(parts + [""], sep) == Join(parts, sep) + sep
  {
    assert (parts + [""])[1..] == parts[1..] + [""];
    if |parts| > 1 {
      JoinAppendEmpty(parts[1..], sep);
    } else {
      assert Join([""], sep) == "";
    }
  }

  // ---------- Summary ----------

  function StatusOf(r: IssueRecord): Status { if r.status.Some? then r.status.value else Open }
  function SeverityOf(r: IssueRecord): Severity { if r.severity.Some? then r.severity.value else Medium }

  predicate IsClosed(r: IssueRecord) { Closed(StatusOf(r)) }
  predicate IsAccepted(r: IssueRecord) { Accepted(StatusOf(r)) }
  predicate IsActive(r: IssueRecord) { Active(StatusOf(r)) }
  function ActiveAt(severity: Severity): IssueRecord -> bool { (r: IssueRecord) => IsActive(r) && SeverityOf(r) == severity }

  /** The classes by what a heading declares: none declared reads as open, no severity as medium. */
  ghost predicate ReadsClosed(r: IssueRecord) { r.status == Some(Resolved) || r.status == Some(Verified) || r.status == Some(Superseded) }
  ghost predicate ReadsAccepted(r: IssueRecord) { r.status == Some(AcceptedRisk) || r.status == Some(AcceptedException) }
  ghost predicate ReadsOpen(r: IssueRecord) { !ReadsClosed(r) && !ReadsAccepted(r) }
  ghost function ReadsOpenAt(severity: Severity): IssueRecord -> bool {
    (r: IssueRecord) => ReadsOpen(r) && (r.severity == Some(severity) || (r.severity == None && severity == Medium))
  }

  lemma ClassesAre(records: seq<IssueRecord>)
    ensures Count(records, IsClosed) == Count(records, ReadsClosed)
    ensures Count(records, IsAccepted) == Count(records, ReadsAccepted)
    ensures Count(records, IsActive) == Count(records, ReadsOpen)
    ensures forall s :: Count(records, ActiveAt(s)) == Count(records, ReadsOpenAt(s))
  {
    CountAlike(records, IsClosed, ReadsClosed);
    CountAlike(records, IsAccepted, ReadsAccepted);
    CountAlike(records, IsActive, ReadsOpen);
    forall s ensures Count(records, ActiveAt(s)) == Count(records, ReadsOpenAt(s)) {
      CountAlike(records, ActiveAt(s), ReadsOpenAt(s));
    }
  }

  datatype Stats = Stats(total: nat, open: nat, accepted: nat, closed: nat, openBySeverity: map<Severity, nat>)

  function At(m: map<Severity, nat>, s: Severity): nat { if s in m then m[s] else 0 }

  method SummarizeRecords(records: seq<IssueRecord>) returns (stats: Stats)
    ensures stats.total == |records|
    ensures stats.closed == Count(records, IsClosed) && stats.accepted == Count(records, IsAccepted) && stats.open == Count(records, IsActive)
    ensures forall s :: At(stats.openBySeverity, s) == Count(records, ActiveAt(s))
    ensures stats.closed == Count(records, ReadsClosed) && stats.accepted == Count(records, ReadsAccepted) && stats.open == Count(records, ReadsOpen)
    ensures forall s :: (if s in stats.openBySeverity then stats.openBySeverity[s] else 0) == Count(records, ReadsOpenAt(s))
  {
    var openBySeverity: map<Severity, nat> := map[];
    var open, accepted, closed := 0, 0, 0;
    for i := 0 to |records|
      invariant closed == Count(records[..i], IsClosed)
      invariant accepted == Count(records[..i], IsAccepted)
      invariant open == Count(records[..i], IsActive)
      invariant forall s :: At(openBySeverity, s) == Count(records[..i], ActiveAt(s))
    {
      var r := records[i];
      CountPrefix(records, i, IsClosed);
      CountPrefix(records, i, IsAccepted);
      CountPrefix(records, i, IsActive);
      forall s ensures Count(records[..i + 1], ActiveAt(s)) == Count(records[..i], ActiveAt(s)) + (if IsActive(r) && SeverityOf(r) == s then 1 else 0) {
        CountPrefix(records, i, ActiveAt(s));
      }
      if Closed(StatusOf(r)) {
        closed := closed + 1;
      } else if Accepted(StatusOf(r)) {
        accepted := accepted + 1;
      } else {
        open := open + 1;
        openBySeverity := openBySeverity[SeverityOf(r) := At(openBySeverity, SeverityOf(r)) + 1];
      }
    }
    assert records[..|records|] == records;
    ClassesAre(records);
    return Stats(|records|, open, accepted, closed, openBySeverity);
  }

  /** Every record falls in exactly one class, and every open one under exactly one severity. */
  lemma {:induction false} ClassesAddUp(records: seq<IssueRecord>)
    ensures Count(records, IsActive) + Count(records, IsAccepted) + Count(records, IsClosed) == |records|
    ensures Count(records, ActiveAt(Critical)) + Count(records, ActiveAt(High)) + Count(records, ActiveAt(Medium)) + Count(records, ActiveAt(Low))
         == Count(records, IsActive)
  {
    if records != [] {
      ClassesAddUp(records[1..]);
    }
  }

  // ---------- The check ----------

  /** The counts the summary table declares; None where it declares none. */
  datatype Declared = Declared(
    open: Option<nat>, high: Option<nat>, medium: Option<nat>, low: Option<nat>,
    accepted: Option<nat>, resolved: Option<nat>, total: Option<nat>)

  datatype Finding =
    | DuplicateRecord(id: string, line: nat)
    | RecordNoStatus(id: string, line: nat)
    | RecordNoSeverity(id: string, line: nat)
    | DuplicateIndexRow(id: string, line: nat)
    | UnknownRowStatus(id: string, line: nat)
    | MalformedIndexRow(id: string, line: nat, cells: int)
    | SummaryCountStale(counted: string, declared: nat, actual: nat)
    | IndexRowWithoutRecord(id: string, line: nat)
    | RecordWithoutIndexRow(id: string, line: nat)
    | StatusDisagreement(id: string, rowStatus: RowStatus, recordStatus: Status)
    | SeverityDisagreement(id: string, rowSeverity: RowSeverity, recordSeverity: Severity)

  function When(condition: bool, f: Finding): seq<Finding> { if condition then [f] else [] }

  function RecordIds(records: seq<IssueRecord>): set<string> { set i | 0 <= i < |records| :: records[i].id }
  function RowIds(rows: seq<IndexRow>): set<string> { set i | 0 <= i < |rows| :: rows[i].id }

  function RecordErrors(r: IssueRecord, seen: bool): seq<Finding> {
    When(seen, DuplicateRecord(r.id, r.line))
    + When(r.status.None?, RecordNoStatus(r.id, r.line))
    + When(r.severity.None?, RecordNoSeverity(r.id, r.line))
  }

  function RecordFindings(records: seq<IssueRecord>): seq<Finding> {
    if records == [] then []
    else
      var before, r := records[..|records| - 1], records[|records| - 1];
      RecordFindings(before) + RecordErrors(r, r.id in RecordIds(before))
  }

  function RowErrors(row: IndexRow, seen: bool): seq<Finding> {
    When(seen, DuplicateIndexRow(row.id, row.line))
    + When(row.status.UnknownStatus?, UnknownRowStatus(row.id, row.line))
    + When(row.cellCount != INDEX_ROW_CELLS, MalformedIndexRow(row.id, row.line, row.cellCount))
  }

  function RowFindings(rows: seq<IndexRow>): seq<Finding> {
    if rows == [] then []
    else
      var before, row := rows[..|rows| - 1], rows[|rows| - 1];
      RowFindings(before) + RowErrors(row, row.id in RowIds(before))
  }

  function Stale(counted: string, declared: Option<nat>, actual: nat): seq<Finding> {
    if declared.Some? && declared.value != actual then [SummaryCountStale(counted, declared.value, actual)] else []
  }

  function SummaryFindings(declared: Declared, records: seq<IssueRecord>): seq<Finding> {
    Stale("OPEN", declared.open, Count(records, IsActive))
    + Stale("open High", declared.high, Count(records, ActiveAt(High)))
    + Stale("open Medium", declared.medium, Count(records, ActiveAt(Medium)))
    + Stale("open Low", declared.low, Count(records, ActiveAt(Low)))
    + Stale("accepted", declared.accepted, Count(records, IsAccepted))
    + Stale("RESOLVED", declared.resolved, Count(records, IsClosed))
    + Stale("total records", declared.total, |records|)
  }

  function OrphanFindings(rows: seq<IndexRow>, records: seq<IssueRecord>): seq<Finding> {
    if rows == [] then []
    else OrphanFindings(rows[..|rows| - 1], records)
         + When(rows[|rows| - 1].id !in RecordIds(records), IndexRowWithoutRecord(rows[|rows| - 1].id, rows[|rows| - 1].line))
  }

  function FindRow(rows: seq<IndexRow>, id: string): Option<IndexRow> {
    if rows == [] then None else if rows[0].id == id then Some(rows[0]) else FindRow(rows[1..], id)
  }

  function AgreementFindings(r: IssueRecord, rows: seq<IndexRow>): seq<Finding> {
    match FindRow(rows, r.id)
    case None => [RecordWithoutIndexRow(r.id, r.line)]
    case Some(row) =>
      (if r.status.Some? && row.status != Known(r.status.value) then [StatusDisagreement(r.id, row.status, r.status.value)] else [])
      + (if r.severity.Some? && row.severity != Level(r.severity.value) then [SeverityDisagreement(r.id, row.severity, r.severity.value)] else [])
  }

  function CoverageFindings(records: seq<IssueRecord>, rows: seq<IndexRow>): seq<Finding> {
    if records == [] then []
    else CoverageFindings(records[..|records| - 1], rows) + AgreementFindings(records[|records| - 1], rows)
  }

  /** All error findings, in the order in which the source reports them. */
  function Errors(records: seq<IssueRecord>, rows: seq<IndexRow>, declared: Declared): seq<Finding> {
    RecordFindings(records) + RowFindings(rows) + SummaryFindings(declared, records) + OrphanFindings(rows, records) + CoverageFindings(records, rows)
  }

  lemma RecordFindingsStep(records: seq<IssueRecord>, i: nat)
    requires i < |records|
    ensures RecordFindings(records[..i + 1]) == RecordFindings(records[..i]) + RecordErrors(records[i], records[i].id in RecordIds(records[..i]))
    ensures RecordIds(records[..i + 1]) == RecordIds(records[..i]) + {records[i].id}
  {
    assert records[..i + 1][..i] == records[..i];
  }

  lemma RowFindingsStep(rows: seq<IndexRow>, i: nat)
    requires i < |rows|
    ensures RowFindings(rows[..i + 1]) == RowFindings(rows[..i]) + RowErrors(rows[i], rows[i].id in RowIds(rows[..i]))
    ensures RowIds(rows[..i + 1]) == RowIds(rows[..i]) + {rows[i].id}
  {
    assert rows[..i + 1][..i] == rows[..i];
  }

  method CheckRecord(r: IssueRecord, seen: bool) returns (found: seq<Finding>)
    ensures found == RecordErrors(r, seen)
  {
    found := [];
    if seen {
      found := found + [DuplicateRecord(r.id, r.line)];
    }
    if r.status.None? {
      found := found + [RecordNoStatus(r.id, r.line)];
    }
    if r.severity.None? {
      found := found + [RecordNoSeverity(r.id, r.line)];
    }
  }

  method CheckRow(row: IndexRow, seen: bool) returns (found: seq<Finding>)
    ensures found == RowErrors(row, seen)
  {
    found := [];
    if seen {
      found := found + [DuplicateIndexRow(row.id, row.line)];
    }
    if row.status.UnknownStatus? {
      found := found + [UnknownRowStatus(row.id, row.line)];
    }
    if row.cellCount != INDEX_ROW_CELLS {
      found := found + [MalformedIndexRow(row.id, row.line, row.cellCount)];
    }
  }

  method CheckRecords(records: seq<IssueRecord>) returns (findings: seq<Finding>)
    ensures findings == RecordFindings(records)
  {
    findings := [];
    var seen: set<string> := {};
    for i := 0 to |records|
      invariant findings == RecordFindings(records[..i])
      invariant seen == RecordIds(records[..i])
    {
      var r := records[i];
      var found := CheckRecord(r, r.id in seen);
      RecordFindingsStep(records, i);
      findings := findings + found;
      seen := seen + {r.id};
    }
    assert records[..|records|] == records;
  }

  method CheckRows(rows: seq<IndexRow>) returns (findings: seq<Finding>)
    ensures findings == RowFindings(rows)
  {
    findings := [];
    var rowSeen: set<string> := {};
    for i := 0 to |rows|
      invariant findings == RowFindings(rows[..i])
      invariant rowSeen == RowIds(rows[..i])
    {
      var row := rows[i];
      var found := CheckRow(row, row.id in rowSeen);
      RowFindingsStep(rows, i);
      findings := findings + found;
      rowSeen := rowSeen + {row.id};
    }
    assert rows[..|rows|] == rows;
  }

  method CheckSummaryTable(declared: Declared, records: seq<IssueRecord>) returns (findings: seq<Finding>)
    ensures findings == SummaryFindings(declared, records)
  {
    var actual := SummarizeRecords(records);
    findings := Stale("OPEN", declared.open, actual.open);
    findings := findings + Stale("open High", declared.high, At(actual.openBySeverity, High));
    findings := findings + Stale("open Medium", declared.medium, At(actual.openBySeverity, Medium));
    findings := findings + Stale("open Low", declared.low, At(actual.openBySeverity, Low));
    findings := findings + Stale("accepted", declared.accepted, actual.accepted);
    findings := findings + Stale("RESOLVED", declared.resolved, actual.closed);
    findings := findings + Stale("total records", declared.total, actual.total);
  }

  method CheckOrphans(rows: seq<IndexRow>, records: seq<IssueRecord>) returns (findings: seq<Finding>)
    ensures findings == OrphanFindings(rows, records)
  {
    findings := [];
    var ids := set i | 0 <= i < |records| :: records[i].id;
    for i := 0 to |rows|
      invariant findings == OrphanFindings(rows[..i], records)
    {
      assert rows[..i + 1][..i] == rows[..i];
      if rows[i].id !in ids {
        findings := findings + [IndexRowWithoutRecord(rows[i].id, rows[i].line)];
      }
    }
    assert rows[..|rows|] == rows;
  }

  /** The loop's body: what the index says about one record. */
  method CheckAgreement(r: IssueRecord, rows: seq<IndexRow>) returns (found: seq<Finding>)
    ensures found == AgreementFindings(r, rows)
  {
    var row := FindRow(rows, r.id);
    if row.None? {
      return [RecordWithoutIndexRow(r.id, r.line)];
    }
    found := [];
    if r.status.Some? && row.value.status != Known(r.status.value) {
      found := found + [StatusDisagreement(r.id, row.value.status, r.status.value)];
    }
    if r.severity.Some? && row.value.severity != Level(r.severity.value) {
      found := found + [SeverityDisagreement(r.id, row.value.severity, r.severity.value)];
    }
  }

  method CheckCoverage(records: seq<IssueRecord>, rows: seq<IndexRow>) returns (findings: seq<Finding>)
    ensures findings == CoverageFindings(records, rows)
  {
    findings := [];
    for i := 0 to |records|
      invariant findings == CoverageFindings(records[..i], rows)
    {
      assert records[..i + 1][..i] == records[..i];
      var found := CheckAgreement(records[i], rows);
      findings := findings + found;
    }
    assert records[..|records|] == records;
  }

  method CheckKnownIssues(records: seq<IssueRecord>, indexRows: seq<IndexRow>, declared: Declared) returns (findings: seq<Finding>)
    ensures findings == Errors(records, indexRows, declared)
  {
    findings := CheckRecords(records);
    var more := CheckRows(indexRows);
    findings := findings + more;
    more := CheckSummaryTable(declared, records);
    findings := findings + more;
    more := CheckOrphans(indexRows, records);
    findings := findings + more;
    more := CheckCoverage(records, indexRows);
    findings := findings + more;
  }

  // ---------- What the findings say ----------

  /** What the check holds against record i on its own. */
  ghost predicate RecordHolds(records: seq<IssueRecord>, i: nat, f: Finding)
    requires i < |records|
  {
    match f
    case DuplicateRecord(id, line) => id == records[i].id && line == records[i].line && exists j :: 0 <= j < i && records[j].id == id
    case RecordNoStatus(id, line) => id == records[i].id && line == records[i].line && records[i].status == None
    case RecordNoSeverity(id, line) => id == records[i].id && line == records[i].line && records[i].severity == None
    case _ => false
  }

  /** And against index row i, by itself or for want of a record. */
  ghost predicate RowHolds(rows: seq<IndexRow>, i: nat, f: Finding)
    requires i < |rows|
  {
    match f
    case DuplicateIndexRow(id, line) => id == rows[i].id && line == rows[i].line && exists j :: 0 <= j < i && rows[j].id == id
    case UnknownRowStatus(id, line) => id == rows[i].id && line == rows[i].line && !rows[i].status.Known?
    case MalformedIndexRow(id, line, cells) => id == rows[i].id && line == rows[i].line && cells == rows[i].cellCount != 4
    case _ => false
  }

  ghost predicate OrphanHolds(rows: seq<IndexRow>, records: seq<IssueRecord>, i: nat, f: Finding)
    requires i < |rows|
  {
    f == IndexRowWithoutRecord(rows[i].id, rows[i].line) && forall j :: 0 <= j < |records| ==> records[j].id != rows[i].id
  }

  /** Row k is the first with the id. */
  ghost predicate FirstRow(rows: seq<IndexRow>, id: string, k: nat) {
    k < |rows| && rows[k].id == id && forall j :: 0 <= j < k ==> rows[j].id != id
  }

  /** What the first index row with a record's id says against the record, or that there is none. */
  ghost predicate AgreementHolds(r: IssueRecord, rows: seq<IndexRow>, f: Finding) {
    match f
    case RecordWithoutIndexRow(id, line) => id == r.id && line == r.line && forall k :: 0 <= k < |rows| ==> rows[k].id != id
    case StatusDisagreement(id, rowStatus, recordStatus) =>
      id == r.id && r.status == Some(recordStatus) && rowStatus != Known(recordStatus)
      && exists k: nat :: FirstRow(rows, id, k) && rows[k].status == rowStatus
    case SeverityDisagreement(id, rowSeverity, recordSeverity) =>
      id == r.id && r.severity == Some(recordSeverity) && rowSeverity != Level(recordSeverity)
      && exists k: nat :: FirstRow(rows, id, k) && rows[k].severity == rowSeverity
    case _ => false
  }

  lemma SeenRecordIs(records: seq<IssueRecord>, i: nat, id: string)
    requires i <= |records|
    ensures id in RecordIds(records[..i]) <==> exists j :: 0 <= j < i && records[j].id == id
  {
    if j :| 0 <= j < i && records[j].id == id {
      assert records[..i][j].id == id;
    }
    if id in RecordIds(records[..i]) {
      var j :| 0 <= j < i && records[..i][j].id == id;
      assert records[j].id == id;
    }
  }

  lemma SeenRowIs(rows: seq<IndexRow>, i: nat, id: string)
    requires i <= |rows|
    ensures id in RowIds(rows[..i]) <==> exists j :: 0 <= j < i && rows[j].id == id
  {
    if j :| 0 <= j < i && rows[j].id == id {
      assert rows[..i][j].id == id;
    }
    if id in RowIds(rows[..i]) {
      var j :| 0 <= j < i && rows[..i][j].id == id;
      assert rows[j].id == id;
    }
  }

  lemma RecordErrorsAre(records: seq<IssueRecord>, i: nat, f: Finding)
    requires i < |records|
    ensures f in RecordErrors(records[i], records[i].id in RecordIds(records[..i])) <==> RecordHolds(records, i, f)
  {
    SeenRecordIs(records, i, records[i].id);
  }

  lemma RowErrorsAre(rows: seq<IndexRow>, i: nat, f: Finding)
    requires i < |rows|
    ensures f in RowErrors(rows[i], rows[i].id in RowIds(rows[..i])) <==> RowHolds(rows, i, f)
  {
    SeenRowIs(rows, i, rows[i].id);
  }

  lemma {:induction false} FindRowIs(rows: seq<IndexRow>, id: string)
    ensures FindRow(rows, id) == None <==> forall k :: 0 <= k < |rows| ==> rows[k].id != id
    ensures forall k: nat :: FirstRow(rows, id, k) ==> FindRow(rows, id) == Some(rows[k])
    ensures FindRow(rows, id).Some? ==> exists k: nat :: FirstRow(rows, id, k)
  {
    if rows != [] {
      if rows[0].id == id {
        assert FirstRow(rows, id, 0);
      } else {
        FindRowIs(rows[1..], id);
        assert forall k :: 0 < k < |rows| ==> rows[k] == rows[1..][k - 1];
        forall k: nat | FirstRow(rows, id, k) ensures FindRow(rows, id) == Some(rows[k]) {
          assert FirstRow(rows[1..], id, k - 1);
        }
        if k: nat :| FirstRow(rows[1..], id, k) {
          assert FirstRow(rows, id, k + 1);
        }
      }
    }
  }

  lemma AgreementFindingsAre(r: IssueRecord, rows: seq<IndexRow>, f: Finding)
    ensures f in AgreementFindings(r, rows) <==> AgreementHolds(r, rows, f)
  {
    FindRowIs(rows, r.id);
    if FindRow(rows, r.id).Some? {
      var k: nat :| FirstRow(rows, r.id, k);
      assert FindRow(rows, r.id) == Some(rows[k]);
    }
  }

  lemma InRecordFindings(records: seq<IssueRecord>, f: Finding)
    ensures f in RecordFindings(records) <==> exists i: nat :: i < |records| && RecordHolds(records, i, f)
  {
    var acc := (i: nat) => if i <= |records| then RecordFindings(records[..i]) else [];
    var part := (i: nat) => if i < |records| then RecordErrors(records[i], records[i].id in RecordIds(records[..i])) else [];
    forall i: nat | i < |records| ensures AccumulatesAt(acc, part, i) && (f in part(i) <==> RecordHolds(records, i, f)) {
      RecordFindingsStep(records, i);
      RecordErrorsAre(records, i, f);
    }
    assert records[..|records|] == records;
    InAccumulatedIff(acc, part, |records|, f);
  }

  lemma InRowFindings(rows: seq<IndexRow>, f: Finding)
    ensures f in RowFindings(rows) <==> exists i: nat :: i < |rows| && RowHolds(rows, i, f)
  {
    var acc := (i: nat) => if i <= |rows| then RowFindings(rows[..i]) else [];
    var part := (i: nat) => if i < |rows| then RowErrors(rows[i], rows[i].id in RowIds(rows[..i])) else [];
    forall i: nat | i < |rows| ensures AccumulatesAt(acc, part, i) && (f in part(i) <==> RowHolds(rows, i, f)) {
      RowFindingsStep(rows, i);
      RowErrorsAre(rows, i, f);
    }
    assert rows[..|rows|] == rows;
    InAccumulatedIff(acc, part, |rows|, f);
  }

  lemma InOrphanFindings(rows: seq<IndexRow>, records: seq<IssueRecord>, f: Finding)
    ensures f in OrphanFindings(rows, records) <==> exists i: nat :: i < |rows| && OrphanHolds(rows, records, i, f)
  {
    var acc := (i: nat) => if i <= |rows| then OrphanFindings(rows[..i], records) else [];
    var part := (i: nat) => if i < |rows| then When(rows[i].id !in RecordIds(records), IndexRowWithoutRecord(rows[i].id, rows[i].line)) else [];
    assert records[..|records|] == records;
    forall i: nat | i < |rows| ensures AccumulatesAt(acc, part, i) && (f in part(i) <==> OrphanHolds(rows, records, i, f)) {
      assert rows[..i + 1][..i] == rows[..i];
      SeenRecordIs(records, |records|, rows[i].id);
    }
    assert rows[..|rows|] == rows;
    InAccumulatedIff(acc, part, |rows|, f);
  }

  lemma InCoverageFindings(records: seq<IssueRecord>, rows: seq<IndexRow>, f: Finding)
    ensures f in CoverageFindings(records, rows) <==> exists i: nat :: i < |records| && AgreementHolds(records[i], rows, f)
  {
    var acc := (i: nat) => if i <= |records| then CoverageFindings(records[..i], rows) else [];
    var part := (i: nat) => if i < |records| then AgreementFindings(records[i], rows) else [];
    forall i: nat | i < |records| ensures AccumulatesAt(acc, part, i) && (f in part(i) <==> AgreementHolds(records[i], rows, f)) {
      assert records[..i + 1][..i] == records[..i];
      AgreementFindingsAre(records[i], rows, f);
    }
    assert records[..|records|] == records;
    InAccumulatedIff(acc, part, |records|, f);
  }

  /** A declared count that is not the one over the records, under the name the table gives it. */
  ghost predicate SummaryHolds(declared: Declared, records: seq<IssueRecord>, f: Finding) {
    f.SummaryCountStale? && f.declared != f.actual
    && var d, n := Some(f.declared), f.actual;
       || (f.counted == "OPEN" && declared.open == d && n == Count(records, ReadsOpen))
       || (f.counted == "open High" && declared.high == d && n == Count(records, ReadsOpenAt(High)))
       || (f.counted == "open Medium" && declared.medium == d && n == Count(records, ReadsOpenAt(Medium)))
       || (f.counted == "open Low" && declared.low == d && n == Count(records, ReadsOpenAt(Low)))
       || (f.counted == "accepted" && declared.accepted == d && n == Count(records, ReadsAccepted))
       || (f.counted == "RESOLVED" && declared.resolved == d && n == Count(records, ReadsClosed))
       || (f.counted == "total records" && declared.total == d && n == |records|)
  }

  lemma InSummaryFindings(declared: Declared, records: seq<IssueRecord>, f: Finding)
    ensures f in SummaryFindings(declared, records) <==> SummaryHolds(declared, records, f)
  {
    ClassesAre(records);
  }

  /** Main result: what each finding of the check means. */
  lemma ErrorsAre(records: seq<IssueRecord>, rows: seq<IndexRow>, declared: Declared, f: Finding)
    ensures f in Errors(records, rows, declared)
       <==> || (exists i: nat :: i < |records| && RecordHolds(records, i, f))
            || (exists i: nat :: i < |rows| && RowHolds(rows, i, f))
            || SummaryHolds(declared, records, f)
            || (exists i: nat :: i < |rows| && OrphanHolds(rows, records, i, f))
            || (exists i: nat :: i < |records| && AgreementHolds(records[i], rows, f))
  {
    InRecordFindings(records, f);
    InRowFindings(rows, f);
    InSummaryFindings(declared, records, f);
    InOrphanFindings(rows, records, f);
    InCoverageFindings(records, rows, f);
  }

  /** The part of the check a finding comes from. */
  ghost function Part(f: Finding): nat {
    match f
    case DuplicateRecord(_, _) => 0 case RecordNoStatus(_, _) => 0 case RecordNoSeverity(_, _) => 0
    case DuplicateIndexRow(_, _) => 1 case UnknownRowStatus(_, _) => 1 case MalformedIndexRow(_, _, _) => 1
    case SummaryCountStale(_, _, _) => 2
    case IndexRowWithoutRecord(_, _) => 3
    case _ => 4
  }

  ghost predicate AllOf(part: nat, findings: seq<Finding>) { forall i :: 0 <= i < |findings| ==> Part(findings[i]) == part }

  ghost predicate InOrder(findings: seq<Finding>) { forall j, k :: 0 <= j < k < |findings| ==> Part(findings[j]) <= Part(findings[k]) }

  ghost predicate UpTo(part: nat, findings: seq<Finding>) { InOrder(findings) && forall i :: 0 <= i < |findings| ==> Part(findings[i]) <= part }

  lemma NextPart(findings: seq<Finding>, more: seq<Finding>, part: nat)
    requires UpTo(part, findings) && AllOf(part + 1, more)
    ensures UpTo(part + 1, findings + more)
  {
  }

  lemma RecordPart(records: seq<IssueRecord>)
    ensures AllOf(0, RecordFindings(records))
  {
    forall i | 0 <= i < |RecordFindings(records)| ensures Part(RecordFindings(records)[i]) == 0 {
      InRecordFindings(records, RecordFindings(records)[i]);
    }
  }

  lemma RowPart(rows: seq<IndexRow>)
    ensures AllOf(1, RowFindings(rows))
  {
    forall i | 0 <= i < |RowFindings(rows)| ensures Part(RowFindings(rows)[i]) == 1 {
      InRowFindings(rows, RowFindings(rows)[i]);
    }
  }

  lemma SummaryPart(declared: Declared, records: seq<IssueRecord>)
    ensures AllOf(2, SummaryFindings(declared, records))
  {
    forall i | 0 <= i < |SummaryFindings(declared, records)| ensures Part(SummaryFindings(declared, records)[i]) == 2 {
      InSummaryFindings(declared, records, SummaryFindings(declared, records)[i]);
    }
  }

  lemma OrphanPart(rows: seq<IndexRow>, records: seq<IssueRecord>)
    ensures AllOf(3, OrphanFindings(rows, records))
  {
    forall i | 0 <= i < |OrphanFindings(rows, records)| ensures Part(OrphanFindings(rows, records)[i]) == 3 {
      InOrphanFindings(rows, records, OrphanFindings(rows, records)[i]);
    }
  }

  lemma CoveragePart(records: seq<IssueRecord>, rows: seq<IndexRow>)
    ensures AllOf(4, CoverageFindings(records, rows))
  {
    forall i | 0 <= i < |CoverageFindings(records, rows)| ensures Part(CoverageFindings(records, rows)[i]) == 4 {
      InCoverageFindings(records, rows, CoverageFindings(records, rows)[i]);
    }
  }

  /** They come in five parts: records, rows, summary table, rows without a record, records against rows. */
  lemma ErrorsInOrder(records: seq<IssueRecord>, rows: seq<IndexRow>, declared: Declared)
    ensures InOrder(Errors(records, rows, declared))
  {
    RecordPart(records);
    RowPart(rows);
    SummaryPart(declared, records);
    OrphanPart(rows, records);
    CoveragePart(records, rows);
    var a := RecordFindings(records);
    var b := a + RowFindings(rows);
    var c := b + SummaryFindings(declared, records);
    var d := c + OrphanFindings(rows, records);
    NextPart(a, RowFindings(rows), 0);
    NextPart(b, SummaryFindings(declared, records), 1);
    NextPart(c, OrphanFindings(rows, records), 2);
    NextPart(d, CoverageFindings(records, rows), 3);
  }

  // ---------- What a clean ledger means ----------

  /** What a row, or a record's own heading, says about an issue. */
  datatype Entry = Entry(id: string, status: RowStatus, severity: RowSeverity)

  function OfRecord(r: IssueRecord): Entry { Entry(r.id, Known(StatusOf(r)), Level(SeverityOf(r))) }
  function OfRow(row: IndexRow): Entry { Entry(row.id, row.status, row.severity) }

  predicate Declares(r: IssueRecord) { r.status.Some? && r.severity.Some? }

  ghost predicate DistinctRecords(records: seq<IssueRecord>) { forall i, j :: 0 <= i < j < |records| ==> records[i].id != records[j].id }
  ghost predicate DistinctRows(rows: seq<IndexRow>) { forall i, j :: 0 <= i < j < |rows| ==> rows[i].id != rows[j].id }
  ghost predicate AllDeclare(records: seq<IssueRecord>) { forall i :: 0 <= i < |records| ==> Declares(records[i]) }
  ghost predicate AllShaped(rows: seq<IndexRow>) { forall i :: 0 <= i < |rows| ==> rows[i].status.Known? && rows[i].cellCount == 4 }

  /** Every record declares itself, ids are distinct, and the rows are the records' own entries rearranged. */
  ghost predicate Clean(records: seq<IssueRecord>, rows: seq<IndexRow>) {
    && AllDeclare(records) && DistinctRecords(records)
    && (forall i :: 0 <= i < |rows| ==> rows[i].cellCount == 4)
    && multiset(Map(OfRow, rows)) == multiset(Map(OfRecord, records))
  }

  lemma DistinctRecordsExtend(records: seq<IssueRecord>, n: nat)
    requires |records| == n + 1
    ensures DistinctRecords(records) <==> DistinctRecords(records[..n]) && records[n].id !in RecordIds(records[..n])
  {
    var before := records[..n];
    if DistinctRecords(before) && records[n].id !in RecordIds(before) {
      forall i, j | 0 <= i < j < |records| ensures records[i].id != records[j].id {
        assert before[i].id in RecordIds(before);
      }
    }
  }

  lemma RecordErrorsIff(r: IssueRecord, seen: bool)
    ensures RecordErrors(r, seen) == [] <==> !seen && Declares(r)
  {
  }

  /** Record by record: no id again, and a status and a severity. */
  predicate RecordsInOrder(records: seq<IssueRecord>) {
    records == []
    || var before, r := records[..|records| - 1], records[|records| - 1];
       RecordsInOrder(before) && r.id !in RecordIds(before) && Declares(r)
  }

  lemma {:induction false} RecordsInOrderIff(records: seq<IssueRecord>)
    ensures RecordsInOrder(records) <==> DistinctRecords(records) && AllDeclare(records)
  {
    if records != [] {
      var n := |records| - 1;
      RecordsInOrderIff(records[..n]);
      DistinctRecordsExtend(records, n);
      assert AllDeclare(records) <==> AllDeclare(records[..n]) && Declares(records[n]);
    }
  }

  lemma {:induction false} NoRecordFindingsIff(records: seq<IssueRecord>)
    ensures RecordFindings(records) == [] <==> RecordsInOrder(records)
  {
    if records != [] {
      var before, r := records[..|records| - 1], records[|records| - 1];
      NoRecordFindingsIff(before);
      RecordErrorsIff(r, r.id in RecordIds(before));
    }
  }

  lemma RecordFindingsIff(records: seq<IssueRecord>)
    ensures RecordFindings(records) == [] <==> DistinctRecords(records) && AllDeclare(records)
  {
    NoRecordFindingsIff(records);
    RecordsInOrderIff(records);
  }

  lemma DistinctRowsExtend(rows: seq<IndexRow>, n: nat)
    requires |rows| == n + 1
    ensures DistinctRows(rows) <==> DistinctRows(rows[..n]) && rows[n].id !in RowIds(rows[..n])
  {
    var before := rows[..n];
    if DistinctRows(before) && rows[n].id !in RowIds(before) {
      forall i, j | 0 <= i < j < |rows| ensures rows[i].id != rows[j].id {
        assert before[i].id in RowIds(before);
      }
    }
  }

  lemma RowErrorsIff(row: IndexRow, seen: bool)
    ensures RowErrors(row, seen) == [] <==> !seen && row.status.Known? && row.cellCount == INDEX_ROW_CELLS
  {
  }

  /** Row by row: no id again, and a row of the right shape. */
  predicate RowsInOrder(rows: seq<IndexRow>) {
    rows == []
    || var before, row := rows[..|rows| - 1], rows[|rows| - 1];
       RowsInOrder(before) && row.id !in RowIds(before) && row.status.Known? && row.cellCount == INDEX_ROW_CELLS
  }

  lemma {:induction false} RowsInOrderIff(rows: seq<IndexRow>)
    ensures RowsInOrder(rows) <==> DistinctRows(rows) && AllShaped(rows)
  {
    if rows != [] {
      var n := |rows| - 1;
      RowsInOrderIff(rows[..n]);
      DistinctRowsExtend(rows, n);
      assert AllShaped(rows) <==> AllShaped(rows[..n]) && rows[n].status.Known? && rows[n].cellCount == INDEX_ROW_CELLS;
    }
  }

  lemma {:induction false} NoRowFindingsIff(rows: seq<IndexRow>)
    ensures RowFindings(rows) == [] <==> RowsInOrder(rows)
  {
    if rows != [] {
      var before, row := rows[..|rows| - 1], rows[|rows| - 1];
      NoRowFindingsIff(before);
      RowErrorsIff(row, row.id in RowIds(before));
    }
  }

  lemma RowFindingsIff(rows: seq<IndexRow>)
    ensures RowFindings(rows) == [] <==> DistinctRows(rows) && AllShaped(rows)
  {
    NoRowFindingsIff(rows);
    RowsInOrderIff(rows);
  }

  lemma {:induction false} OrphanFindingsIff(rows: seq<IndexRow>, records: seq<IssueRecord>)
    ensures OrphanFindings(rows, records) == [] <==> forall i :: 0 <= i < |rows| ==> rows[i].id in RecordIds(records)
  {
    if rows != [] {
      var n := |rows| - 1;
      OrphanFindingsIff(rows[..n], records);
      assert forall i :: 0 <= i < n ==> rows[..n][i] == rows[i];
    }
  }

  lemma {:induction false} CoverageFindingsIff(records: seq<IssueRecord>, rows: seq<IndexRow>)
    ensures CoverageFindings(records, rows) == [] <==> forall i :: 0 <= i < |records| ==> AgreementFindings(records[i], rows) == []
  {
    if records != [] {
      var n := |records| - 1;
      CoverageFindingsIff(records[..n], rows);
      assert forall i :: 0 <= i < n ==> records[..n][i] == records[i];
    }
  }

  lemma {:induction false} FindRowFinds(rows: seq<IndexRow>, id: string)
    ensures FindRow(rows, id).Some? ==> FindRow(rows, id).value in rows && FindRow(rows, id).value.id == id
    ensures FindRow(rows, id).None? ==> forall row :: row in rows ==> row.id != id
  {
    if rows != [] && rows[0].id != id {
      FindRowFinds(rows[1..], id);
      assert forall row :: row in rows <==> row == rows[0] || row in rows[1..];
    }
  }

  /** For a record that declares itself and rows with distinct ids: no finding means its entry is a row. */
  lemma AgreementIff(r: IssueRecord, rows: seq<IndexRow>)
    requires Declares(r) && DistinctRows(rows)
    ensures AgreementFindings(r, rows) == [] <==> exists k :: 0 <= k < |rows| && OfRow(rows[k]) == OfRecord(r)
  {
    FindRowFinds(rows, r.id);
    var found := FindRow(rows, r.id);
    if k :| 0 <= k < |rows| && OfRow(rows[k]) == OfRecord(r) {
      assert rows[k] in rows;
      var m :| 0 <= m < |rows| && rows[m] == found.value;
      assert m == k;
    }
    if AgreementFindings(r, rows) == [] {
      var m :| 0 <= m < |rows| && rows[m] == found.value;
      assert OfRow(rows[m]) == OfRecord(r);
    }
  }

  lemma CleanImpliesMatch(records: seq<IssueRecord>, rows: seq<IndexRow>)
    requires DistinctRecords(records) && AllDeclare(records) && DistinctRows(rows)
    requires forall i :: 0 <= i < |rows| ==> rows[i].id in RecordIds(records)
    requires forall i :: 0 <= i < |records| ==> AgreementFindings(records[i], rows) == []
    ensures multiset(Map(OfRow, rows)) == multiset(Map(OfRecord, records))
  {
    var a, b := Map(OfRow, rows), Map(OfRecord, records);
    forall e ensures e in a <==> e in b {
      if e in b {
        var i :| 0 <= i < |records| && OfRecord(records[i]) == e;
        AgreementIff(records[i], rows);
        var k :| 0 <= k < |rows| && OfRow(rows[k]) == e;
        assert a[k] == e;
      }
      if e in a {
        var k :| 0 <= k < |rows| && a[k] == e;
        var i :| 0 <= i < |records| && records[i].id == rows[k].id;
        AgreementIff(records[i], rows);
        var m :| 0 <= m < |rows| && OfRow(rows[m]) == OfRecord(records[i]);
        assert m == k && b[i] == e;
      }
    }
    assert Distinct(a) by { assert forall i, j :: 0 <= i < j < |a| ==> a[i].id != a[j].id; }
    assert Distinct(b) by { assert forall i, j :: 0 <= i < j < |b| ==> b[i].id != b[j].id; }
    DistinctSameElements(a, b);
  }

  lemma CleanRecordAgrees(records: seq<IssueRecord>, rows: seq<IndexRow>, i: nat)
    requires Clean(records, rows) && DistinctRows(rows) && i < |records|
    ensures AgreementFindings(records[i], rows) == []
  {
    var a, b := Map(OfRow, rows), Map(OfRecord, records);
    assert b[i] in multiset(a);
    var k :| 0 <= k < |a| && a[k] == b[i];
    AgreementIff(records[i], rows);
  }

  lemma MatchImpliesClean(records: seq<IssueRecord>, rows: seq<IndexRow>)
    requires Clean(records, rows)
    ensures DistinctRows(rows) && AllShaped(rows)
    ensures forall i :: 0 <= i < |rows| ==> rows[i].id in RecordIds(records)
    ensures forall i :: 0 <= i < |records| ==> AgreementFindings(records[i], rows) == []
  {
    var a, b := Map(OfRow, rows), Map(OfRecord, records);
    forall k | 0 <= k < |rows| ensures exists i :: 0 <= i < |records| && OfRow(rows[k]) == OfRecord(records[i]) {
      assert a[k] in multiset(b);
      var i :| 0 <= i < |b| && b[i] == a[k];
    }
    assert Distinct(b) by { assert forall i, j :: 0 <= i < j < |b| ==> b[i].id != b[j].id; }
    DistinctFromRearrangement(a, b);
    forall i, j | 0 <= i < j < |rows| ensures rows[i].id != rows[j].id {
      var k :| 0 <= k < |records| && OfRow(rows[i]) == OfRecord(records[k]);
      var m :| 0 <= m < |records| && OfRow(rows[j]) == OfRecord(records[m]);
      assert a[i] != a[j];
    }
    forall i | 0 <= i < |records| ensures AgreementFindings(records[i], rows) == [] {
      CleanRecordAgrees(records, rows, i);
    }
  }

  predicate Right(declared: Option<nat>, actual: nat) { declared.Some? ==> declared.value == actual }

  /** Every count the summary table declares is the one over the records. */
  ghost predicate TotalsRight(declared: Declared, records: seq<IssueRecord>) {
    && Right(declared.open, Count(records, ReadsOpen))
    && Right(declared.high, Count(records, ReadsOpenAt(High)))
    && Right(declared.medium, Count(records, ReadsOpenAt(Medium)))
    && Right(declared.low, Count(records, ReadsOpenAt(Low)))
    && Right(declared.accepted, Count(records, ReadsAccepted))
    && Right(declared.resolved, Count(records, ReadsClosed))
    && Right(declared.total, |records|)
  }

  lemma SummaryFindingsIff(declared: Declared, records: seq<IssueRecord>)
    ensures SummaryFindings(declared, records) == [] <==> TotalsRight(declared, records)
  {
    ClassesAre(records);
  }

  lemma NoneOfFive(a: seq<Finding>, b: seq<Finding>, c: seq<Finding>, d: seq<Finding>, e: seq<Finding>)
    ensures a + b + c + d + e == [] <==> a == [] && b == [] && c == [] && d == [] && e == []
  {
    assert |a + b + c + d + e| == |a| + |b| + |c| + |d| + |e|;
  }

  lemma PartsAreEmptyIff(records: seq<IssueRecord>, rows: seq<IndexRow>)
    ensures RecordFindings(records) == [] && RowFindings(rows) == [] && OrphanFindings(rows, records) == [] && CoverageFindings(records, rows) == []
       <==> Clean(records, rows)
  {
    RecordFindingsIff(records);
    RowFindingsIff(rows);
    OrphanFindingsIff(rows, records);
    CoverageFindingsIff(records, rows);
    if RecordFindings(records) == [] && RowFindings(rows) == [] && OrphanFindings(rows, records) == [] && CoverageFindings(records, rows) == [] {
      CleanImpliesMatch(records, rows);
    }
    if Clean(records, rows) {
      MatchImpliesClean(records, rows);
    }
  }

  /**
   * Main result: the ledger check reports no error exactly when the index rows are the records'
   * own declarations, one row each, and every count the summary declares is the true one.
   */
  lemma NoErrorsIff(records: seq<IssueRecord>, rows: seq<IndexRow>, declared: Declared)
    ensures Errors(records, rows, declared) == [] <==> Clean(records, rows) && TotalsRight(declared, records)
  {
    SummaryFindingsIff(declared, records);
    NoneOfFive(RecordFindings(records), RowFindings(rows), SummaryFindings(declared, records),
               OrphanFindings(rows, records), CoverageFindings(records, rows));
    PartsAreEmptyIff(records, rows);
  }

  predicate EntryActive(e: Entry) { e.status.Known? && Active(e.status.status) }
  predicate EntryAccepted(e: Entry) { e.status.Known? && Accepted(e.status.status) }
  predicate EntryClosed(e: Entry) { e.status.Known? && Closed(e.status.status) }
  function EntryActiveAt(s: Severity): Entry -> bool { (e: Entry) => EntryActive(e) && e.severity == Level(s) }

  /** So every count read off a clean index equals the count over the records. */
  lemma CleanCountsAgree(records: seq<IssueRecord>, rows: seq<IndexRow>, severity: Severity)
    requires Clean(records, rows)
    ensures |rows| == |records|
    ensures Count(Map(OfRow, rows), EntryActive) == Count(records, IsActive)
    ensures Count(Map(OfRow, rows), EntryAccepted) == Count(records, IsAccepted)
    ensures Count(Map(OfRow, rows), EntryClosed) == Count(records, IsClosed)
    ensures Count(Map(OfRow, rows), EntryActiveAt(severity)) == Count(records, ActiveAt(severity))
  {
    var a, b := Map(OfRow, rows), Map(OfRecord, records);
    assert |a| == |multiset(a)| == |multiset(b)| == |b|;
    CountOfRearrangement(a, b, EntryActive);
    CountOfRearrangement(a, b, EntryAccepted);
    CountOfRearrangement(a, b, EntryClosed);
    CountOfRearrangement(a, b, EntryActiveAt(severity));
    CountMapped(records, b, OfRecord, IsActive, EntryActive);
    CountMapped(records, b, OfRecord, IsAccepted, EntryAccepted);
    CountMapped(records, b, OfRecord, IsClosed, EntryClosed);
    CountMapped(records, b, OfRecord, ActiveAt(severity), EntryActiveAt(severity));
  }
}
