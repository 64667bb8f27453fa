/** lastParentheticalSpan of scripts/docs/check-known-issues.ts: the last top-level bracket group of a heading. */
module Parentheticals {
  import opened Wrappers
  import opened Sequences

  /** Open minus closed brackets among the first i characters; negative after a stray closing one. */
  function Depth(h: string, i: nat): int
    requires i <= |h|
  {
    if i == 0 then 0
    else Depth(h, i - 1) + (if h[i - 1] == '(' then 1 else if h[i - 1] == ')' then -1 else 0)
  }

  /** A closing bracket just before e brings the depth back to 0. */
  predicate Closes(h: string, e: nat)
    requires e <= |h|
  {
    e > 0 && h[e - 1] == ')' && Depth(h, e) == 0
  }

  /** The last index up to k at depth 0. */
  function LastGround(h: string, k: nat): (s: nat)
    requires k <= |h|
    ensures s <= k && Depth(h, s) == 0
    ensures forall j :: s < j <= k ==> Depth(h, j) != 0
  {
    if Depth(h, k) == 0 then k else LastGround(h, k - 1)
  }

  function SpanUpTo(h: string, i: nat): Option<(nat, nat)>
    requires i <= |h|
  {
    if i == 0 then None
    else if Closes(h, i) then Some((LastGround(h, i - 1), i))
    else SpanUpTo(h, i - 1)
  }

  function LastSpan(h: string): Option<(nat, nat)> { SpanUpTo(h, |h|) }

  method LastParentheticalSpan(heading: string) returns (best: Option<(nat, nat)>)
    ensures best == LastSpan(heading)
  {
    var depth: int, start: int := 0, -1;
    best := None;
    for i := 0 to |heading|
      invariant depth == Depth(heading, i)
      invariant depth > 0 ==> start >= 0
      invariant start >= 0 ==> start < i && Depth(heading, start) == 0
      invariant depth > 0 ==> start == LastGround(heading, i)
      invariant best == SpanUpTo(heading, i)
    {
      var c := heading[i];
      if c == '(' {
        if depth == 0 {
          start := i;
        }
        depth := depth + 1;
      } else if c == ')' {
        depth := depth - 1;
        if depth == 0 && start >= 0 {
          best := Some((start, i + 1));
        }
      }
    }
  }

  /** Depth changes by at most one, so between two indices it takes every value in between. */
  lemma {:induction false} PositiveInside(h: string, s: nat, e: nat, k: nat)
    requires s < k < e <= |h| && Depth(h, s) == 0 && Depth(h, e - 1) > 0
    requires forall j :: s < j < e ==> Depth(h, j) != 0
    ensures Depth(h, k) > 0
    decreases e - k
  {
    if k < e - 1 {
      PositiveInside(h, s, e, k + 1);
    }
  }

  lemma {:induction false} SpanUpToIs(h: string, i: nat)
    requires i <= |h|
    ensures var span := SpanUpTo(h, i);
      && (span.None? <==> forall e :: 0 <= e <= i ==> !Closes(h, e))
      && (span.Some? ==> span.value.1 <= i && Closes(h, span.value.1) && span.value.0 == LastGround(h, span.value.1 - 1)
                         && forall e :: span.value.1 < e <= i ==> !Closes(h, e))
  {
    if i > 0 && !Closes(h, i) {
      SpanUpToIs(h, i - 1);
    }
  }

  /** Opening less closing brackets. */
  lemma {:induction false} DepthIs(h: string, i: nat)
    requires i <= |h|
    ensures Depth(h, i) == Count(h[..i], (c: char) => c == '(') - Count(h[..i], (c: char) => c == ')')
  {
    if i > 0 {
      DepthIs(h, i - 1);
      CountPrefix(h, i - 1, (c: char) => c == '(');
      CountPrefix(h, i - 1, (c: char) => c == ')');
    } else {
      assert h[..i] == [];
    }
  }

  /** h[s..e] is the last bracket group at the top level: it ends at the last `)` that returns to depth 0 and starts at the `(` that one closes. */
  ghost predicate IsLastGroup(h: string, s: nat, e: nat) {
    && s < e <= |h| && h[s] == '(' && h[e - 1] == ')' && Depth(h, s) == 0 && Depth(h, e) == 0
    && (forall k :: s < k < e ==> Depth(h, k) > 0)
    && forall later :: e < later <= |h| && h[later - 1] == ')' ==> Depth(h, later) != 0
  }

  ghost predicate HasNoGroup(h: string) { forall e :: 0 < e <= |h| && h[e - 1] == ')' ==> Depth(h, e) != 0 }

  /**
   * For every heading, stray closing brackets included: there is a span exactly when some `)`
   * returns to depth 0; it ends after the last such bracket and starts at the bracket it closes,
   * an opening one at depth 0 with the depth positive in between.
   */
  lemma LastSpanIs(h: string)
    ensures LastSpan(h).None? <==> HasNoGroup(h)
    ensures LastSpan(h).Some? ==> LastSpan(h).value.0 < LastSpan(h).value.1 <= |h| && IsLastGroup(h, LastSpan(h).value.0, LastSpan(h).value.1)
  {
    SpanUpToIs(h, |h|);
    if LastSpan(h).Some? {
      var (s, e) := LastSpan(h).value;
      assert Closes(h, e) && Depth(h, e - 1) == 1;
      assert s != e - 1;
      forall k | s < k < e ensures Depth(h, k) > 0 {
        PositiveInside(h, s, e, k);
      }
      assert Depth(h, s + 1) > 0;
      forall later | e < later <= |h| && h[later - 1] == ')' ensures Depth(h, later) != 0 {
        assert !Closes(h, later);
      }
    } else {
      forall e | 0 < e <= |h| && h[e - 1] == ')' ensures Depth(h, e) != 0 {
        assert !Closes(h, e);
      }
    }
  }

  lemma OneLastGroup(h: string, s: nat, e: nat, s': nat, e': nat)
    requires IsLastGroup(h, s, e) && IsLastGroup(h, s', e')
    ensures s == s' && e == e'
  {
  }

  /** Nothing outside the last group, and no unmatched bracket before it, can move the result. */
  lemma PrefixKeepsSpan(h: string, k: nat)
    requires k <= |h| && forall e :: k < e <= |h| ==> !Closes(h, e)
    ensures LastSpan(h) == SpanUpTo(h, k)
    decreases |h| - k
  {
    PrefixKeepsSpanFrom(h, |h|, k);
  }

  lemma {:induction false} PrefixKeepsSpanFrom(h: string, i: nat, k: nat)
    requires k <= i <= |h| && forall e :: k < e <= i ==> !Closes(h, e)
    ensures SpanUpTo(h, i) == SpanUpTo(h, k)
  {
    if i > k {
      PrefixKeepsSpanFrom(h, i - 1, k);
    }
  }
}
