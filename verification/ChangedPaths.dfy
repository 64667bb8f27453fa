/**
 * scripts/git/check-protected-paths.ts: what the check reads of `git diff --name-status`, and which
 * forbidden paths its gate therefore misses.
 */
module ChangedPaths {
  import opened Wrappers
  import opened Text
  import opened Sequences
  import opened ProtectedPaths

  // ---------- Reading ----------

  function TrimStart(s: string): string { if s != "" && IsSpace(s[0]) then TrimStart(s[1..]) else s }
  function TrimEnd(s: string): string { if s != "" && IsSpace(s[|s| - 1]) then TrimEnd(s[..|s| - 1]) else s }
  function Trim(s: string): string { TrimEnd(TrimStart(s)) }

  /** The entry of one line, if it has a path: the first letter of its first field, and its last field. */
  function ReadLine(line: string): seq<Entry> {
    if Trim(line) == "" then []
    else
      var fields := Split(Trim(line), "\t");
      var status := if fields[0] == "" then "" else fields[0][..1];
      var path := if |fields| > 1 then fields[|fields| - 1] else "";
      if path == "" then [] else [Entry(path, Some(status))]
  }

  function ReadOutput(output: string): seq<Entry> { FlatMap(Lines(output), ReadLine) }

  lemma {:induction false} TrimStartIs(lead: string, s: string)
    requires Blank(lead) && s != "" && !IsSpace(s[0])
    ensures TrimStart(lead + s) == s
  {
    if lead == "" {
      assert lead + s == s;
    } else {
      assert (lead + s)[1..] == lead[1..] + s;
      TrimStartIs(lead[1..], s);
    }
  }

  lemma {:induction false} TrimEndIs(s: string, trail: string)
    requires Blank(trail) && s != "" && !IsSpace(s[|s| - 1])
    ensures TrimEnd(s + trail) == s
  {
    if trail == "" {
      assert s + trail == s;
    } else {
      var n := |trail| - 1;
      assert (s + trail)[..|s| + n] == s + trail[..n];
      TrimEndIs(s, trail[..n]);
    }
  }

  lemma {:induction false} TrimOfBlank(s: string)
    requires Blank(s)
    ensures TrimStart(s) == ""
  {
    if s != "" {
      TrimOfBlank(s[1..]);
    }
  }

  /** A joined text ends in its last field, after a tab if there are several. */
  lemma {:induction false} JoinedLast(fields: seq<string>)
    requires fields != []
    ensures var s, last := Join(fields, "\t"), fields[|fields| - 1];
      if |fields| == 1 then s == last else |s| > |last| && s[|s| - |last|..] == last && s[|s| - |last| - 1] == '\t'
  {
    if |fields| > 1 {
      JoinedLast(fields[1..]);
      var rest := Join(fields[1..], "\t");
      assert Join(fields, "\t") == fields[0] + "\t" + rest;
    }
  }

  lemma TrimIs(lead: string, s: string, trail: string)
    requires Blank(lead) && Blank(trail) && s != "" && !IsSpace(s[0]) && !IsSpace(s[|s| - 1])
    ensures Trim(lead + s + trail) == s
  {
    assert lead + s + trail == lead + (s + trail) && (s + trail)[0] == s[0];
    TrimStartIs(lead, s + trail);
    TrimEndIs(s, trail);
  }

  lemma EndFieldsAreThere(fields: seq<string>)
    requires |fields| > 1
    requires var s := Join(fields, "\t"); s != "" && !IsSpace(s[0]) && !IsSpace(s[|s| - 1])
    ensures fields[0] != "" && fields[|fields| - 1] != "" && Join(fields, "\t")[..1] == fields[0][..1]
  {
    JoinedLast(fields);
    assert Join(fields, "\t") == fields[0] + ("\t" + Join(fields[1..], "\t"));
  }

  /**
   * What the check makes of any line: nothing of a blank one or of one without a tab; otherwise,
   * without the space around it, its first character is the status and its last field the path.
   */
  lemma LineIs(lead: string, fields: seq<string>, trail: string)
    requires Blank(lead) && Blank(trail) && fields != [] && FreeOf(fields, '\t')
    requires var s := Join(fields, "\t"); s != "" && !IsSpace(s[0]) && !IsSpace(s[|s| - 1])
    ensures ReadLine(lead) == []
    ensures ReadLine(lead + Join(fields, "\t") + trail)
         == if |fields| == 1 then [] else [Entry(fields[|fields| - 1], Some(Join(fields, "\t")[..1]))]
  {
    TrimOfBlank(lead);
    TrimIs(lead, Join(fields, "\t"), trail);
    SplitJoin(fields, "\t");
    if |fields| > 1 {
      EndFieldsAreThere(fields);
    }
  }

  // ---------- What git prints ----------

  /** A change of one path, or a path taken (renamed) or copied to another; the score is a number. */
  datatype Change =
    | Changed(status: char, path: string)
    | Renamed(score: string, from: string, path: string)
    | Copied(score: string, from: string, path: string)

  function Fields(c: Change): seq<string> {
    match c
    case Changed(status, path) => [[status], path]
    case Renamed(score, from, path) => ["R" + score, from, path]
    case Copied(score, from, path) => ["C" + score, from, path]
  }

  function Print(c: Change): string { Join(Fields(c), "\t") }

  /** One line each. */
  function Output(changes: seq<Change>): string { Join(Map(Print, changes) + [""], "\n") }

  /** The entry the check makes of a change: a rename or copy is its new path. */
  function EntryOf(c: Change): Entry { Entry(c.path, Some(Fields(c)[0][..1])) }

  /** Text that git prints as it is and that no field or line boundary falls into. */
  ghost predicate PlainText(s: string) { s != "" && '\t' !in s && '\n' !in s && !IsSpace(s[0]) && !IsSpace(s[|s| - 1]) }

  ghost predicate PlainChange(c: Change) { forall i :: 0 <= i < |Fields(c)| ==> PlainText(Fields(c)[i]) }

  ghost predicate AllPlain(changes: seq<Change>) { forall i :: 0 <= i < |changes| ==> PlainChange(changes[i]) }

  lemma TrimKeeps(s: string)
    requires s != "" && !IsSpace(s[0]) && !IsSpace(s[|s| - 1])
    ensures Trim(s) == s
  {
  }

  lemma {:induction false} JoinedEnds(fields: seq<string>)
    requires fields != [] && forall i :: 0 <= i < |fields| ==> PlainText(fields[i])
    ensures var s := Join(fields, "\t"); s != "" && '\n' !in s && !IsSpace(s[0]) && !IsSpace(s[|s| - 1])
  {
    assert PlainText(fields[0]);
    if |fields| > 1 {
      JoinedEnds(fields[1..]);
      var rest := Join(fields[1..], "\t");
      assert Join(fields, "\t") == fields[0] + "\t" + rest;
    }
  }

  lemma LineReads(c: Change)
    requires PlainChange(c)
    ensures ReadLine(Print(c)) == [EntryOf(c)] && '\n' !in Print(c)
  {
    var fields := Fields(c);
    JoinedEnds(fields);
    TrimKeeps(Print(c));
    SplitJoin(fields, "\t");
    assert PlainText(fields[0]) && PlainText(fields[|fields| - 1]);
  }

  lemma {:induction false} OneEach<A, B, C>(xs: seq<A>, g: A -> B, f: B -> seq<C>, h: A -> C)
    requires forall i :: 0 <= i < |xs| ==> f(g(xs[i])) == [h(xs[i])]
    ensures FlatMap(Map(g, xs), f) == Map(h, xs)
  {
    if xs != [] {
      var n := |xs| - 1;
      OneEach(xs[..n], g, f, h);
      assert Map(g, xs) == Map(g, xs[..n]) + [g(xs[n])];
      FlatMapExtend(Map(g, xs[..n]), g(xs[n]), f);
      assert Map(h, xs) == Map(h, xs[..n]) + [h(xs[n])];
    }
  }

  /** The check sees the changes in order, each by the letter of its status and its last path. */
  lemma OutputReads(changes: seq<Change>)
    requires AllPlain(changes)
    ensures ReadOutput(Output(changes)) == Map(EntryOf, changes)
  {
    var lines := Map(Print, changes);
    forall i | 0 <= i < |changes| ensures ReadLine(Print(changes[i])) == [EntryOf(changes[i])] && '\n' !in lines[i] {
      LineReads(changes[i]);
    }
    OneEach(changes, Print, ReadLine, EntryOf);
    SplitJoin(lines + [""], "\n");
    FlatMapExtend(lines, "", ReadLine);
  }

  // ---------- What the gate misses ----------

  /** A rename takes a forbidden file away. */
  ghost predicate TakesForbidden(c: Change, lists: Lists) { c.Renamed? && IsForbidden(Entry(c.from, Some("D")), lists) }

  ghost predicate TouchesForbidden(changes: seq<Change>, lists: Lists) {
    exists i :: 0 <= i < |changes| && (IsForbidden(EntryOf(changes[i]), lists) || TakesForbidden(changes[i], lists))
  }

  ghost predicate Gate(changes: seq<Change>, lists: Lists) { GateFails(Reports(ReadOutput(Output(changes)), lists)) }

  lemma GateFailsIff(changes: seq<Change>, lists: Lists)
    requires AllPlain(changes) && InPackage(lists)
    ensures Gate(changes, lists) <==> exists i :: 0 <= i < |changes| && IsForbidden(EntryOf(changes[i]), lists)
  {
    OutputReads(changes);
    var entries := Map(EntryOf, changes);
    FindingsAre(entries, lists);
    if SomeForbidden(entries, lists) {
      var i :| 0 <= i < |entries| && IsForbidden(entries[i], lists);
      assert IsForbidden(EntryOf(changes[i]), lists);
    }
    if exists i :: 0 <= i < |changes| && IsForbidden(EntryOf(changes[i]), lists) {
      var i :| 0 <= i < |changes| && IsForbidden(EntryOf(changes[i]), lists);
      assert IsForbidden(entries[i], lists);
    }
  }

  /**
   * Main result: the gate lets a change of forbidden paths through exactly when it takes some of
   * them away by renaming, and every path it changes, adds, renames to or copies to is allowed.
   */
  lemma GateMissesIff(changes: seq<Change>, lists: Lists)
    requires AllPlain(changes) && InPackage(lists)
    ensures TouchesForbidden(changes, lists) && !Gate(changes, lists)
       <==> && (exists i :: 0 <= i < |changes| && TakesForbidden(changes[i], lists))
            && (forall i :: 0 <= i < |changes| ==> !IsForbidden(EntryOf(changes[i]), lists))
  {
    GateFailsIff(changes, lists);
  }

  /** A blueprint file renamed into an unprotected folder: the gate passes without a finding. */
  lemma RenameOutOfTreeIsMissed(lists: Lists, score: string, name: string, path: string)
    requires InPackage(lists) && PlainChange(Renamed(score, "docs/blueprint/" + name, path))
    requires Report(Entry(path, Some("R")), lists) == []
    ensures var changes := [Renamed(score, "docs/blueprint/" + name, path)];
      TouchesForbidden(changes, lists) && Reports(ReadOutput(Output(changes)), lists) == []
  {
    var change := Renamed(score, "docs/blueprint/" + name, path);
    var entry := Entry(path, Some("R"));
    OutputReads([change]);
    assert ("R" + score)[..1] == "R";
    assert Map(EntryOf, [change]) == [entry];
    assert Reports([entry], lists) == Reports([], lists) + Report(entry, lists) by {
      assert [entry][..0] == [];
    }
    BlueprintIsForbidden(Entry(change.from, Some("D")), lists);
    assert TakesForbidden([change][0], lists);
  }

  lemma BlueprintIsForbidden(entry: Entry, lists: Lists)
    requires InPackage(lists) && "docs/blueprint/" <= entry.path
    ensures IsForbidden(entry, lists)
  {
    if Unlocked(entry.path, lists) {
      UnlockedIsPackage(entry.path, lists);
    }
  }

  /** A path that git prints in quotes is matched by no rule but the one for environment files. */
  lemma QuotedPathIsMissed(entry: Entry, lists: Lists)
    requires InPackage(lists) && entry.path != "" && entry.path[0] == '"'
    ensures Report(entry, lists) == if NamesRealEnv(entry.path) then [Finding(entry.path, Forbidden, RealEnv)] else []
  {
    RealEnvIs(entry.path);
    assert PackagePrefix()[0] == 'd' && MigrationsPrefix()[0] == 's';
    if Unlocked(entry.path, lists) {
      UnlockedIsPackage(entry.path, lists);
    }
    ListsAre(entry, lists);
    OnlyRealEnv(AppliesTo(entry, lists));
  }
}
