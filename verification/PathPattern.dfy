/**
 * scripts/git/check-protected-paths.ts: the pattern that matches a list of literal paths. The
 * pattern text is read back by the grammar of section 22.2.1 of ECMA-262, restricted to
 * literals, escaped syntax characters, the two anchors, alternation and non-capturing groups.
 */
module PathPattern {
  import opened Wrappers
  import opened Text

  // ---------- Printing ----------

  /** SyntaxCharacter, the same fourteen characters the escaping class lists. */
  predicate IsSyntax(c: char) {
    c == '^' || c == '$' || c == '\\' || c == '.' || c == '*' || c == '+' || c == '?' || c == '('
    || c == ')' || c == '[' || c == ']' || c == '{' || c == '}' || c == '|'
  }

  lemma SyntaxIs(c: char)
    ensures IsSyntax(c) <==> c in {'^', '$', '\\', '.', '*', '+', '?', '(', ')', '[', ']', '{', '}', '|'}
  {
  }

  function EscapeChar(c: char): string { if IsSyntax(c) then ['\\', c] else [c] }

  function Escape(path: string): string {
    if path == "" then "" else EscapeChar(path[0]) + Escape(path[1..])
  }

  function Alternation(paths: seq<string>): string { Join(Map(Escape, paths), "|") }

  function ExactPathPattern(paths: seq<string>): string {
    ['^', '(', '?', ':'] + Alternation(paths) + [')', '$']
  }

  // ---------- Parsing ----------

  datatype Term = Literal(c: char) | Start | End | Group(body: seq<Alternative>)

  datatype Alternative = Alternative(terms: seq<Term>)

  type Disjunction = seq<Alternative>

  predicate EndsAlternative(s: string) { s == "" || s[0] == '|' || s[0] == ')' }

  predicate OpensGroup(s: string) { |s| >= 3 && s[0] == '(' && s[1] == '?' && s[2] == ':' }

  /** One term and what follows it; None outside the fragment. */
  function ParseTerm(s: string): (r: Option<(Term, string)>)
    ensures r.Some? ==> |r.value.1| < |s|
    decreases |s|, 0
  {
    if s == "" then None
    else if s[0] == '^' then Some((Start, s[1..]))
    else if s[0] == '$' then Some((End, s[1..]))
    else if s[0] == '\\' then
      if |s| > 1 && IsSyntax(s[1]) then Some((Literal(s[1]), s[2..])) else None
    else if OpensGroup(s) then
      match ParseDisjunction(s[3..])
      case Some((body, rest)) => if rest != "" && rest[0] == ')' then Some((Group(body), rest[1..])) else None
      case None => None
    else if IsSyntax(s[0]) then None
    else Some((Literal(s[0]), s[1..]))
  }

  function ParseAlternative(s: string): (r: Option<(seq<Term>, string)>)
    ensures r.Some? ==> |r.value.1| <= |s| && EndsAlternative(r.value.1)
    decreases |s|, 1
  {
    if EndsAlternative(s) then Some(([], s))
    else
      match ParseTerm(s)
      case Some((term, rest)) =>
        (match ParseAlternative(rest)
         case Some((terms, end)) => Some(([term] + terms, end))
         case None => None)
      case None => None
  }

  function ParseDisjunction(s: string): (r: Option<(Disjunction, string)>)
    ensures r.Some? ==> |r.value.1| <= |s|
    decreases |s|, 2
  {
    match ParseAlternative(s)
    case Some((terms, rest)) =>
      if rest != "" && rest[0] == '|' then
        (match ParseDisjunction(rest[1..])
         case Some((others, end)) => Some(([Alternative(terms)] + others, end))
         case None => None)
      else Some(([Alternative(terms)], rest))
    case None => None
  }

  function Parse(s: string): Option<Disjunction> {
    match ParseDisjunction(s)
    case Some((d, rest)) => if rest == "" then Some(d) else None
    case None => None
  }

  // ---------- The printed pattern parses back to the list ----------

  function Literals(path: string): seq<Term> {
    seq(|path|, i requires 0 <= i < |path| => Literal(path[i]))
  }

  function Exactly(path: string): Alternative { Alternative(Literals(path)) }

  lemma TermRoundTrip(c: char, after: string)
    ensures ParseTerm(EscapeChar(c) + after) == Some((Literal(c), after))
    ensures !EndsAlternative(EscapeChar(c) + after)
  {
    var s := EscapeChar(c) + after;
    if IsSyntax(c) {
      assert s[0] == '\\' && s[1] == c && s[2..] == after;
    } else {
      assert s[0] == c && s[1..] == after;
    }
  }

  lemma AlternativeStep(s: string, term: Term, rest: string, terms: seq<Term>, end: string)
    requires !EndsAlternative(s) && ParseTerm(s) == Some((term, rest))
    requires ParseAlternative(rest) == Some((terms, end))
    ensures ParseAlternative(s) == Some(([term] + terms, end))
  {
  }

  lemma EscapeFirst(path: string, rest: string)
    requires path != ""
    ensures Escape(path) + rest == EscapeChar(path[0]) + (Escape(path[1..]) + rest)
    ensures Literals(path) == [Literal(path[0])] + Literals(path[1..])
  {
  }

  lemma {:induction false} AlternativeRoundTrip(path: string, rest: string)
    requires EndsAlternative(rest)
    ensures ParseAlternative(Escape(path) + rest) == Some((Literals(path), rest))
  {
    if path == "" {
      assert Escape(path) + rest == rest && Literals(path) == [];
    } else {
      var front, after := EscapeChar(path[0]), Escape(path[1..]) + rest;
      AlternativeRoundTrip(path[1..], rest);
      TermRoundTrip(path[0], after);
      AlternativeStep(front + after, Literal(path[0]), after, Literals(path[1..]), rest);
      EscapeFirst(path, rest);
    }
  }

  lemma DisjunctionStep(s: string, terms: seq<Term>, others: string, more: Disjunction, end: string)
    requires ParseAlternative(s) == Some((terms, ['|'] + others))
    requires ParseDisjunction(others) == Some((more, end))
    ensures ParseDisjunction(s) == Some(([Alternative(terms)] + more, end))
  {
    assert (['|'] + others)[1..] == others;
  }

  lemma {:induction false} DisjunctionRoundTrip(paths: seq<string>, rest: string)
    requires paths != [] && rest != "" && rest[0] == ')'
    ensures ParseDisjunction(Alternation(paths) + rest) == Some((Map(Exactly, paths), rest))
  {
    AlternationStep(paths);
    MapFirst(Exactly, paths);
    if |paths| == 1 {
      AlternativeRoundTrip(paths[0], rest);
      LastAlternative(Escape(paths[0]) + rest, Literals(paths[0]), rest);
      assert Escape(paths[0]) + "" == Escape(paths[0]);
      assert Map(Exactly, paths[1..]) == [];
      assert [Exactly(paths[0])] + Map(Exactly, paths[1..]) == [Exactly(paths[0])];
    } else {
      var others := Alternation(paths[1..]) + rest;
      DisjunctionRoundTrip(paths[1..], rest);
      FirstOfMore(paths[0], others, Map(Exactly, paths[1..]), rest);
      Regroup(Escape(paths[0]), Alternation(paths[1..]), rest);
    }
  }

  lemma LastAlternative(s: string, terms: seq<Term>, rest: string)
    requires ParseAlternative(s) == Some((terms, rest)) && rest != "" && rest[0] != '|'
    ensures ParseDisjunction(s) == Some(([Alternative(terms)], rest))
  {
  }

  lemma FirstOfMore(path: string, others: string, more: Disjunction, rest: string)
    requires ParseDisjunction(others) == Some((more, rest))
    ensures ParseDisjunction(Escape(path) + (['|'] + others)) == Some(([Exactly(path)] + more, rest))
  {
    AlternativeRoundTrip(path, ['|'] + others);
    DisjunctionStep(Escape(path) + (['|'] + others), Literals(path), others, more, rest);
  }

  lemma Regroup(a: string, b: string, rest: string)
    ensures a + (['|'] + b) + rest == a + (['|'] + (b + rest))
  {
  }

  lemma AlternationStep(paths: seq<string>)
    requires paths != []
    ensures Alternation(paths) == Escape(paths[0]) + if |paths| == 1 then "" else ['|'] + Alternation(paths[1..])
  {
    assert Map(Escape, paths)[1..] == Map(Escape, paths[1..]);
  }

  /** What the pattern for a list says; for the empty list it is one empty alternative. */
  function Alternatives(paths: seq<string>): seq<string> { if paths == [] then [""] else paths }

  function Anchored(body: Disjunction): Disjunction { [Alternative([Start, Group(body), End])] }

  lemma PatternRoundTrip(paths: seq<string>)
    ensures Parse(ExactPathPattern(paths)) == Some(Anchored(Map(Exactly, Alternatives(paths))))
  {
    EmptyAlternation(paths);
    var close := [')', '$'];
    DisjunctionRoundTrip(Alternatives(paths), close);
    AnchoredRoundTrip(Alternation(paths) + close, Map(Exactly, Alternatives(paths)));
    PatternSplits(Alternation(paths));
  }

  lemma EmptyAlternation(paths: seq<string>)
    ensures Alternation(paths) == Alternation(Alternatives(paths))
  {
    if paths == [] {
      assert Map(Escape, [""]) == [Escape("")];
    }
  }

  lemma PatternSplits(body: string)
    ensures ['^', '(', '?', ':'] + body + [')', '$'] == ['^', '(', '?', ':'] + (body + [')', '$'])
  {
  }

  lemma AnchoredRoundTrip(inner: string, body: Disjunction)
    requires ParseDisjunction(inner) == Some((body, [')', '$']))
    ensures Parse(['^', '(', '?', ':'] + inner) == Some(Anchored(body))
  {
    var group := ['(', '?', ':'] + inner;
    var pattern := ['^', '(', '?', ':'] + inner;
    assert pattern[1..] == group && group[3..] == inner && [')', '$'][1..] == ['$'];
    assert ParseTerm(group) == Some((Group(body), ['$']));
    EndRoundTrip();
    AlternativeStep(group, Group(body), ['$'], [End], "");
    AlternativeStep(pattern, Start, group, [Group(body)] + [End], "");
    assert [Start] + ([Group(body)] + [End]) == [Start, Group(body), End];
  }

  lemma EndRoundTrip()
    ensures ParseAlternative(['$']) == Some(([End], ""))
  {
    assert ParseTerm(['$']) == Some((End, ""));
    assert [End] + [] == [End];
    AlternativeStep(['$'], End, "", [], "");
  }

  // ---------- Matching ----------

  /** The term can consume s[i..j]. */
  ghost predicate MatchTerm(t: Term, s: string, i: nat, j: nat)
    decreases t
  {
    match t
    case Literal(c) => i < |s| && s[i] == c && j == i + 1
    case Start => i == j == 0
    case End => i == j == |s|
    case Group(body) => exists k :: 0 <= k < |body| && MatchAll(body[k].terms, s, i, j)
  }

  ghost predicate MatchAll(terms: seq<Term>, s: string, i: nat, j: nat)
    decreases terms
  {
    if terms == [] then i == j
    else exists m: nat :: MatchTerm(terms[0], s, i, m) && MatchAll(terms[1..], s, m, j)
  }

  /** RegExp.prototype.test: some alternative matches somewhere. */
  ghost predicate Test(d: Disjunction, s: string) {
    exists k, i: nat, j: nat :: 0 <= k < |d| && i <= |s| && MatchAll(d[k].terms, s, i, j)
  }

  lemma {:induction false} MatchLiterals(path: string, s: string, i: nat, j: nat)
    requires i <= |s|
    ensures MatchAll(Literals(path), s, i, j) <==> j == i + |path| && j <= |s| && s[i..j] == path
  {
    if path != "" {
      var terms := Literals(path);
      assert terms[0] == Literal(path[0]) && terms[1..] == Literals(path[1..]);
      if i < |s| {
        MatchLiterals(path[1..], s, i + 1, j);
        assert MatchAll(terms, s, i, j) <==> MatchTerm(terms[0], s, i, i + 1) && MatchAll(terms[1..], s, i + 1, j);
        if j == i + |path| && j <= |s| {
          assert s[i..j] == [s[i]] + s[i + 1..j];
          assert path == [path[0]] + path[1..];
        }
      }
    }
  }

  lemma MatchGroup(paths: seq<string>, s: string, i: nat, j: nat)
    requires i == 0 && j == |s|
    ensures MatchTerm(Group(Map(Exactly, paths)), s, i, j) <==> s in paths
  {
    var body := Map(Exactly, paths);
    forall k | 0 <= k < |paths| ensures MatchAll(body[k].terms, s, i, j) <==> s == paths[k] {
      MatchLiterals(paths[k], s, i, j);
      assert s[i..j] == s;
    }
    if s in paths {
      var k :| 0 <= k < |paths| && paths[k] == s;
      assert MatchAll(body[k].terms, s, i, j);
    }
  }

  lemma MatchEnd(s: string, i: nat, j: nat)
    ensures MatchAll([End], s, i, j) <==> i == j == |s|
  {
    assert [End][1..] == [];
    if i == j == |s| {
      assert MatchTerm(End, s, i, i) && MatchAll([], s, i, j);
    }
  }

  lemma MatchTail(t: Term, s: string, i: nat, j: nat)
    ensures MatchAll([t, End], s, i, j) <==> j == |s| && MatchTerm(t, s, i, j)
  {
    assert [t, End][1..] == [End];
    forall m: nat ensures MatchAll([End], s, m, j) <==> m == j == |s| {
      MatchEnd(s, m, j);
    }
    if j == |s| && MatchTerm(t, s, i, j) {
      assert MatchAll([End], s, j, j);
    }
  }

  lemma MatchAnchored(t: Term, s: string, i: nat, j: nat)
    ensures MatchAll([Start, t, End], s, i, j) <==> i == 0 && j == |s| && MatchTerm(t, s, i, j)
  {
    assert [Start, t, End][1..] == [t, End];
    MatchTail(t, s, 0, j);
    if i == 0 && j == |s| && MatchTerm(t, s, i, j) {
      assert MatchTerm(Start, s, i, 0) && MatchAll([t, End], s, 0, j);
    }
  }

  /**
   * Main result: the pattern built from a list, read back, matches exactly the listed paths. The
   * one exception is the empty list, whose pattern matches the empty path.
   */
  lemma PatternMatchesExactly(paths: seq<string>, s: string)
    ensures var parsed := Parse(ExactPathPattern(paths));
      parsed.Some? && (Test(parsed.value, s) <==> s in paths || (paths == [] && s == ""))
  {
    PatternRoundTrip(paths);
    var body := Map(Exactly, Alternatives(paths));
    var terms := [Start, Group(body), End];
    forall i: nat, j: nat ensures MatchAll(terms, s, i, j) <==> i == 0 && j == |s| && MatchTerm(Group(body), s, i, j) {
      MatchAnchored(Group(body), s, i, j);
    }
    MatchGroup(Alternatives(paths), s, 0, |s|);
    assert Anchored(body)[0].terms == terms;
    if MatchTerm(Group(body), s, 0, |s|) {
      assert MatchAll(Anchored(body)[0].terms, s, 0, |s|);
    }
  }

  /** The list is the pattern's language if and only if it is not empty. */
  lemma LanguageIsListIff(paths: seq<string>)
    ensures var parsed := Parse(ExactPathPattern(paths));
      parsed.Some? && ((forall s :: Test(parsed.value, s) <==> s in paths) <==> paths != [])
  {
    var parsed := Parse(ExactPathPattern(paths));
    PatternMatchesExactly(paths, "");
    forall s: string ensures Test(parsed.value, s) <==> s in paths || (paths == [] && s == "") {
      PatternMatchesExactly(paths, s);
    }
    if paths == [] {
      assert Test(parsed.value, "") && "" !in paths;
    }
  }
}
