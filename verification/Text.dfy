/** `String.prototype.split`, `join`, `includes` and `split(m).join(q)`, with the laws the text tools rest on. */
module Text {

  // ---------- Definitions ----------

  /** s.split(sep): the leftmost non-overlapping occurrences of a non-empty separator. */
  function Split(s: string, sep: string): (parts: seq<string>)
    requires sep != ""
    ensures parts != []
  {
    if s == "" then [""]
    else if sep <= s then [""] + Split(s[|sep|..], sep)
    else var rest := Split(s[1..], sep); [[s[0]] + rest[0]] + rest[1..]
  }

  function Join(parts: seq<string>, sep: string): string {
    if parts == [] then ""
    else if |parts| == 1 then parts[0]
    else parts[0] + sep + Join(parts[1..], sep)
  }

  function Lines(s: string): (lines: seq<string>)
    ensures lines != []
  {
    Split(s, "\n")
  }

  function Unlines(lines: seq<string>): string { Join(lines, "\n") }

  /** Every leftmost non-overlapping occurrence of m becomes q. */
  function Replace(s: string, m: string, q: string): string
    requires m != ""
  {
    if s == "" then ""
    else if m <= s then q + Replace(s[|m|..], m, q)
    else [s[0]] + Replace(s[1..], m, q)
  }

  /** s.includes(m) */
  predicate Includes(s: string, m: string) {
    m <= s || (s != "" && Includes(s[1..], m))
  }

  function Decimal(n: nat): string {
    if n < 10 then ["0123456789"[n]] else Decimal(n / 10) + ["0123456789"[n % 10]]
  }

  predicate AllDigits(s: string) { forall i :: 0 <= i < |s| ==> '0' <= s[i] <= '9' }

  function DigitsValue(s: string): nat
    requires AllDigits(s)
  {
    if s == "" then 0 else 10 * DigitsValue(s[..|s| - 1]) + (s[|s| - 1] - '0') as nat
  }

  /** Number(s) of decimal digits, and zero for any other text, as a bit operation reads what is not a number. */
  function NumberOf(s: string): nat { if AllDigits(s) then DigitsValue(s) else 0 }

  /** String(n) of an integer. */
  function Integer(n: int): string {
    if n < 0 then "-" + Decimal(-n) else Decimal(n)
  }

  /** The characters String.prototype.trim removes. */
  predicate IsSpace(c: char) {
    c == ' ' || '\t' <= c <= '\r' || c == '\U{00A0}' || c == '\U{1680}' || '\U{2000}' <= c <= '\U{200A}'
    || c == '\U{2028}' || c == '\U{2029}' || c == '\U{202F}' || c == '\U{205F}' || c == '\U{3000}' || c == '\U{FEFF}'
  }

  /** They are these 25, by code point. */
  lemma SpacesAre(c: char)
    ensures IsSpace(c) <==> c as int in {0x9, 0xA, 0xB, 0xC, 0xD, 0x20, 0xA0, 0x1680, 0x2000, 0x2001, 0x2002, 0x2003, 0x2004, 0x2005,
                                         0x2006, 0x2007, 0x2008, 0x2009, 0x200A, 0x2028, 0x2029, 0x202F, 0x205F, 0x3000, 0xFEFF}
  {
  }

  /** s.trim() === "" */
  predicate Blank(s: string) { forall i :: 0 <= i < |s| ==> IsSpace(s[i]) }

  function Map<A, B>(f: A -> B, xs: seq<A>): (ys: seq<B>)
    ensures |ys| == |xs|
    ensures forall i :: 0 <= i < |xs| ==> ys[i] == f(xs[i])
  {
    seq(|xs|, i requires 0 <= i < |xs| => f(xs[i]))
  }

  lemma MapFirst<A, B>(f: A -> B, xs: seq<A>)
    requires xs != []
    ensures Map(f, xs) == [f(xs[0])] + Map(f, xs[1..])
  {
  }

  // ---------- Decimal numerals ----------

  /** Reading a numeral back. */
  lemma {:induction false} DecimalReads(n: nat)
    ensures Decimal(n) != "" && AllDigits(Decimal(n)) && '.' !in Decimal(n) && ':' !in Decimal(n)
    ensures NumberOf(Decimal(n)) == n
  {
    DigitReads(n % 10);
    var d := ["0123456789"[n % 10]];
    if n >= 10 {
      DecimalReads(n / 10);
      AppendDigit(Decimal(n / 10), d[0]);
    } else {
      AppendDigit("", d[0]);
      assert "" + d == d;
    }
  }

  lemma AppendDigit(s: string, d: char)
    requires AllDigits(s) && '0' <= d <= '9'
    ensures AllDigits(s + [d]) && NumberOf(s + [d]) == 10 * NumberOf(s) + (d - '0') as nat
  {
    assert (s + [d])[..|s|] == s;
  }

  lemma DigitReads(n: nat)
    requires n < 10
    ensures '0' <= "0123456789"[n] <= '9' && ("0123456789"[n] - '0') as nat == n
  {
  }

  // ---------- Splitting and joining undo each other ----------

  lemma JoinGrowFirst(c: string, parts: seq<string>, sep: string)
    requires parts != []
    ensures Join([c + parts[0]] + parts[1..], sep) == c + Join(parts, sep)
  {
    var grown := [c + parts[0]] + parts[1..];
    assert grown[1..] == parts[1..];
    if |parts| > 1 {
      assert c + parts[0] + sep + Join(parts[1..], sep) == c + (parts[0] + sep + Join(parts[1..], sep));
    }
  }

  lemma JoinEmptyFirst(parts: seq<string>, sep: string)
    requires parts != []
    ensures Join([""] + parts, sep) == sep + Join(parts, sep)
  {
    assert ([""] + parts)[1..] == parts;
    assert "" + sep == sep;
  }

  lemma {:induction false} JoinSplit(s: string, sep: string)
    requires sep != ""
    ensures Join(Split(s, sep), sep) == s
  {
    if s == "" {
    } else if sep <= s {
      JoinSplit(s[|sep|..], sep);
      JoinEmptyFirst(Split(s[|sep|..], sep), sep);
      assert s == sep + s[|sep|..];
    } else {
      JoinSplit(s[1..], sep);
      JoinGrowFirst([s[0]], Split(s[1..], sep), sep);
    }
  }

  /** A first piece without the separator's first character stays whole. */
  lemma {:induction false} SplitOfAppend(u: string, v: string, sep: string)
    requires sep != "" && sep[0] !in u
    ensures Split(u + v, sep) == [u + Split(v, sep)[0]] + Split(v, sep)[1..]
  {
    if u == "" {
      assert u + v == v;
      assert "" + Split(v, sep)[0] == Split(v, sep)[0];
    } else {
      assert (u + v)[1..] == u[1..] + v;
      SplitOfAppend(u[1..], v, sep);
      assert !(sep <= u + v) by { assert (u + v)[0] == u[0]; }
      assert [u[0]] + (u[1..] + Split(v, sep)[0]) == u + Split(v, sep)[0];
    }
  }

  ghost predicate FreeOf(parts: seq<string>, c: char) {
    forall i :: 0 <= i < |parts| ==> c !in parts[i]
  }

  lemma SplitFirst(first: string, rest: string, sep: string)
    requires sep != "" && sep[0] !in first
    ensures Split(first + sep + rest, sep) == [first] + Split(rest, sep)
  {
    SplitOfAppend(first, sep + rest, sep);
    assert first + sep + rest == first + (sep + rest);
    assert (sep + rest)[|sep|..] == rest;
    assert Split(sep + rest, sep) == [""] + Split(rest, sep);
    assert first + "" == first;
  }

  lemma {:induction false} SplitJoin(parts: seq<string>, sep: string)
    requires sep != "" && parts != [] && FreeOf(parts, sep[0])
    ensures Split(Join(parts, sep), sep) == parts
  {
    if |parts| == 1 {
      SplitOfAppend(parts[0], "", sep);
      assert parts[0] + "" == parts[0];
    } else {
      var rest := Join(parts[1..], sep);
      SplitJoin(parts[1..], sep);
      SplitFirst(parts[0], rest, sep);
      assert Join(parts, sep) == parts[0] + sep + rest;
    }
  }

  lemma {:induction false} LinesHaveNoNewline(s: string)
    ensures FreeOf(Lines(s), '\n')
  {
    if s != "" {
      LinesHaveNoNewline(s[1..]);
      var rest := Lines(s[1..]);
      if s[0] == '\n' {
        assert "\n" <= s;
      } else {
        assert !("\n" <= s);
        assert '\n' !in [s[0]] + rest[0];
      }
    }
  }

  lemma LinesDetermineText(s: string, t: string)
    ensures s == t <==> Lines(s) == Lines(t)
  {
    JoinSplit(s, "\n");
    JoinSplit(t, "\n");
  }

  /** In a + sep the first occurrence of sep is the one at the end of a. */
  ghost predicate EndsAtSeparator(a: string, sep: string) { forall i :: 0 <= i < |a| ==> !(sep <= (a + sep)[i..]) }

  lemma WithoutFirstCharacter(a: string, sep: string)
    requires sep != "" && sep[0] !in a
    ensures EndsAtSeparator(a, sep)
  {
    forall i | 0 <= i < |a| ensures !(sep <= (a + sep)[i..]) {
      assert (a + sep)[i..][0] == a[i];
    }
  }

  lemma SeparatorOccursIn(a: string, b: string, c: string, d: string, sep: string)
    requires a + sep + b == c + sep + d && |a| < |c|
    ensures sep <= (c + sep)[|a|..]
  {
    var rest := (c + sep)[|a|..];
    forall k | 0 <= k < |sep| ensures rest[k] == sep[k] {
      assert rest[k] == (c + sep + d)[|a| + k] == (a + sep + b)[|a| + k];
    }
  }

  lemma SeparatorNotBefore(a: string, b: string, c: string, d: string, sep: string)
    requires a + sep + b == c + sep + d && EndsAtSeparator(c, sep)
    ensures |a| >= |c|
  {
    if |a| < |c| {
      SeparatorOccursIn(a, b, c, d, sep);
    }
  }

  /** A part that ends at the first separator is determined by the whole text. */
  lemma SameBeforeSeparator(a: string, b: string, c: string, d: string, sep: string)
    requires sep != "" && a + sep + b == c + sep + d && EndsAtSeparator(a, sep) && EndsAtSeparator(c, sep)
    ensures a == c && b == d
  {
    SeparatorNotBefore(a, b, c, d, sep);
    SeparatorNotBefore(c, d, a, b, sep);
    assert (a + sep + b)[..|a|] == a && (c + sep + d)[..|a|] == c;
    assert (a + sep + b)[|a| + |sep|..] == b && (c + sep + d)[|a| + |sep|..] == d;
  }

  // ---------- Replacement ----------

  /** text.split(m).join(q) is the leftmost non-overlapping replacement. */
  lemma {:induction false} SplitJoinIsReplace(s: string, m: string, q: string)
    requires m != ""
    ensures Join(Split(s, m), q) == Replace(s, m, q)
  {
    if s == "" {
    } else if m <= s {
      SplitJoinIsReplace(s[|m|..], m, q);
      JoinEmptyFirst(Split(s[|m|..], m), q);
    } else {
      SplitJoinIsReplace(s[1..], m, q);
      JoinGrowFirst([s[0]], Split(s[1..], m), q);
    }
  }

  lemma {:induction false} ReplaceAbsent(s: string, m: string, q: string)
    requires m != "" && !Includes(s, m)
    ensures Replace(s, m, q) == s
  {
    if s != "" {
      ReplaceAbsent(s[1..], m, q);
    }
  }

  lemma {:induction false} ReplaceBySelf(s: string, m: string)
    requires m != ""
    ensures Replace(s, m, m) == s
  {
    if s == "" {
    } else if m <= s {
      ReplaceBySelf(s[|m|..], m);
      assert s == m + s[|m|..];
    } else {
      ReplaceBySelf(s[1..], m);
    }
  }

  lemma ReplaceSkipsChar(c: char, t: string, m: string, q: string)
    requires m != "" && !(m <= [c] + t)
    ensures Replace([c] + t, m, q) == [c] + Replace(t, m, q)
  {
    assert ([c] + t)[1..] == t;
  }


  /** A stretch in which no occurrence starts is copied. */
  lemma {:induction false} ReplaceSkips(s: string, k: nat, m: string, q: string)
    requires m != "" && k <= |s|
    requires forall i :: 0 <= i < k ==> !(m <= s[i..])
    ensures Replace(s, m, q) == s[..k] + Replace(s[k..], m, q)
  {
    if k == 0 {
      assert s[0..] == s;
    } else {
      var t := s[1..];
      assert s == [s[0]] + t;
      assert !(m <= s) by { assert s[0..] == s; }
      forall i | 0 <= i < k - 1 ensures !(m <= t[i..]) {
        assert t[i..] == s[i + 1..];
      }
      ReplaceSkips(t, k - 1, m, q);
      ReplaceSkipsChar(s[0], t, m, q);
      assert t[k - 1..] == s[k..] && [s[0]] + t[..k - 1] == s[..k];
      assert [s[0]] + (t[..k - 1] + Replace(s[k..], m, q)) == ([s[0]] + t[..k - 1]) + Replace(s[k..], m, q);
    }
  }

  /** A prefix of the result that avoids the replacement's first character was already there. */
  lemma {:induction false} PrefixReflects(w: string, u: string, m: string, q: string)
    requires m != "" && q != "" && q[0] !in w
    requires w <= Replace(u, m, q)
    ensures w <= u
  {
    if w != "" && u != "" {
      assert w[0] == Replace(u, m, q)[0] != q[0];
      if m <= u {
        assert false;
      } else {
        var tail := Replace(u[1..], m, q);
        assert w[0] == u[0];
        assert w[1..] <= tail by { assert Replace(u, m, q)[1..] == tail; }
        PrefixReflects(w[1..], u[1..], m, q);
        assert w == [w[0]] + w[1..] && u == [u[0]] + u[1..];
      }
    }
  }

  ghost predicate Linewise(s: string, m: string, q: string)
    requires m != ""
  {
    Lines(Replace(s, m, q)) == Map((l: string) => Replace(l, m, q), Lines(s))
  }

  lemma LinewiseAtMatch(t: string, m: string, q: string)
    requires m != "" && '\n' !in m && '\n' !in q && Linewise(t, m, q)
    ensures Linewise(m + t, m, q)
  {
    var head := Lines(t)[0];
    SplitOfAppend(m, t, "\n");
    SplitOfAppend(q, Replace(t, m, q), "\n");
    assert (m + t)[|m|..] == t && (m + head)[|m|..] == head;
    assert Replace(m + head, m, q) == q + Replace(head, m, q);
    MapChangedHead((l: string) => Replace(l, m, q), Lines(t), m + head);
  }

  lemma MapChangedHead<A, B>(f: A -> B, xs: seq<A>, x: A)
    requires xs != []
    ensures Map(f, [x] + xs[1..]) == [f(x)] + Map(f, xs)[1..]
  {
  }

  lemma LinewiseAtChar(c: char, t: string, m: string, q: string)
    requires m != "" && Linewise(t, m, q) && !(m <= [c] + t) && c != '\n'
    ensures Linewise([c] + t, m, q)
  {
    var head := Lines(t)[0];
    FirstLineIsPrefix(t);
    assert !(m <= [c] + head) by { assert [c] + head <= [c] + t; }
    ReplaceSkipsChar(c, t, m, q);
    ReplaceSkipsChar(c, head, m, q);
    SplitOfAppend([c], t, "\n");
    SplitOfAppend([c], Replace(t, m, q), "\n");
    MapChangedHead((l: string) => Replace(l, m, q), Lines(t), [c] + head);
  }

  /** Replacing inside a text replaces inside each of its lines. */
  lemma {:induction false} ReplaceIsLinewise(s: string, m: string, q: string)
    requires m != "" && '\n' !in m && '\n' !in q
    ensures Lines(Replace(s, m, q)) == Map((l: string) => Replace(l, m, q), Lines(s))
  {
    if s == "" {
    } else if m <= s {
      ReplaceIsLinewise(s[|m|..], m, q);
      LinewiseAtMatch(s[|m|..], m, q);
      assert s == m + s[|m|..];
    } else {
      ReplaceIsLinewise(s[1..], m, q);
      assert s == [s[0]] + s[1..];
      if s[0] != '\n' {
        LinewiseAtChar(s[0], s[1..], m, q);
      } else {
        assert Replace(s, m, q)[1..] == Replace(s[1..], m, q);
      }
    }
  }

  lemma {:induction false} FirstLineIsPrefix(s: string)
    ensures Lines(s)[0] <= s
  {
    if s != "" && s[0] != '\n' {
      FirstLineIsPrefix(s[1..]);
      assert !("\n" <= s);
    }
  }
}
