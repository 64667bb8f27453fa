/** lib/tables/pagination-range.ts: the window of page numbers a table shows. */
module Pagination {
  import opened Wrappers
  import opened Sequences
  import opened Numbers

  /** LastPage is the page numbered infinity, which an infinite row count gives. */
  datatype Item = Page(number: nat) | Ellipsis | LastPage | NotANumber

  /**
   * Endless is a range without a last page; its page is None at infinity. Undefined is what an
   * infinite count over an infinite page size gives: page and page count are NaN.
   */
  datatype PaginationRange =
    | PaginationRange(page: nat, totalPages: nat, hasPrevious: bool, hasNext: bool, items: seq<Item>)
    | Endless(endlessPage: Option<nat>, hasPrevious: bool, hasNext: bool, items: seq<Item>)
    | Undefined(items: seq<Item>)

  function Truncate(x: real): int { if x >= 0.0 then x.Floor else -(-x).Floor }

  function Max(a: int, b: int): int { if a > b then a else b }
  function Min(a: int, b: int): int { if a < b then a else b }

  /** Math.max(Math.trunc(x) || fallback, least), for a finite result. */
  function AtLeast(x: Number, fallback: int, least: int): (r: int)
    requires x != Infinite(true)
    ensures r >= least
  {
    match x
    case NaN => Max(fallback, least)
    case Infinite(_) => least
    case Finite(v) => Max(if Truncate(v) == 0 then fallback else Truncate(v), least)
  }

  function CeilingOfQuotient(a: nat, b: nat): nat
    requires b > 0
  {
    if a % b == 0 then a / b else a / b + 1
  }

  /** An infinite page size holds every row on one page. */
  function TotalPages(pageSize: Number, totalCount: Number): (n: nat)
    requires totalCount != Infinite(true)
    ensures n >= 1
  {
    if pageSize == Infinite(true) then 1
    else Max(CeilingOfQuotient(AtLeast(totalCount, 0, 0), AtLeast(pageSize, 1, 1)), 1)
  }

  function CurrentPage(page: Number, totalPages: nat): (p: nat)
    requires totalPages >= 1
    ensures 1 <= p <= totalPages
  {
    if page == Infinite(true) then totalPages else Min(AtLeast(page, 1, 1), totalPages)
  }

  // ---------- Items ----------

  function GapBefore(sorted: seq<nat>, i: nat): seq<Item>
    requires i < |sorted|
  {
    if i > 0 && sorted[i] > sorted[i - 1] + 1 then [Ellipsis] else []
  }

  /** The items for positions i and later. */
  function ItemsFrom(sorted: seq<nat>, i: nat): seq<Item>
    requires i <= |sorted|
    decreases |sorted| - i
  {
    if i == |sorted| then [] else GapBefore(sorted, i) + [Page(sorted[i])] + ItemsFrom(sorted, i + 1)
  }

  method ListItems(sorted: seq<nat>) returns (items: seq<Item>)
    requires Increasing(sorted)
    ensures items == ItemsFrom(sorted, 0)
  {
    items := [];
    for i := 0 to |sorted|
      invariant items + ItemsFrom(sorted, i) == ItemsFrom(sorted, 0)
    {
      AppendAssociates(items, GapBefore(sorted, i) + [Page(sorted[i])], ItemsFrom(sorted, i + 1));
      if i > 0 && sorted[i] - sorted[i - 1] > 1 {
        AppendAssociates(items, [Ellipsis], [Page(sorted[i])]);
        items := items + [Ellipsis];
      } else {
        assert [] + [Page(sorted[i])] == [Page(sorted[i])];
      }
      items := items + [Page(sorted[i])];
    }
  }

  // ---------- What the items stand for ----------

  function PagesBetween(a: nat, b: nat): (pages: seq<nat>)
    ensures |pages| == if a <= b then b - a + 1 else 0
    ensures forall k :: 0 <= k < |pages| ==> pages[k] == a + k
  {
    seq(if a <= b then b - a + 1 else 0, k requires 0 <= k => a + k)
  }

  /** The items read aloud after page `last`, an ellipsis standing for the pages it hides. */
  function Expand(items: seq<Item>, last: nat): seq<nat> {
    if items == [] then []
    else
      match items[0]
      case Page(n) => [n] + Expand(items[1..], n)
      case Ellipsis =>
        (if |items| > 1 && items[1].Page? && items[1].number > 0 then PagesBetween(last + 1, items[1].number - 1) else [])
        + Expand(items[1..], last)
      case _ => Expand(items[1..], last)
  }

  lemma ExpandPage(last: nat, n: nat, rest: seq<Item>, end: nat)
    requires n <= end && Expand(rest, n) == PagesBetween(n + 1, end)
    ensures Expand([Page(n)] + rest, last) == PagesBetween(n, end)
  {
    assert ([Page(n)] + rest)[1..] == rest;
  }

  lemma ExpandGap(last: nat, n: nat, rest: seq<Item>, end: nat)
    requires last < n <= end && Expand([Page(n)] + rest, last) == PagesBetween(n, end)
    ensures Expand([Ellipsis] + ([Page(n)] + rest), last) == PagesBetween(last + 1, end)
  {
    var items := [Ellipsis] + ([Page(n)] + rest);
    assert items[1..] == [Page(n)] + rest && items[1] == Page(n);
  }

  lemma {:induction false} ExpandItems(sorted: seq<nat>, i: nat)
    requires Increasing(sorted) && 0 < i <= |sorted|
    ensures Expand(ItemsFrom(sorted, i), sorted[i - 1]) == PagesBetween(sorted[i - 1] + 1, sorted[|sorted| - 1])
    decreases |sorted| - i
  {
    if i < |sorted| {
      var last, n, end, rest := sorted[i - 1], sorted[i], sorted[|sorted| - 1], ItemsFrom(sorted, i + 1);
      ExpandItems(sorted, i + 1);
      ExpandPage(last, n, rest, end);
      ExpandGap(last, n, rest, end);
      AppendAssociates(GapBefore(sorted, i), [Page(n)], rest);
      assert [] + ([Page(n)] + rest) == [Page(n)] + rest;
    }
  }

  // ---------- Spacing ----------

  /** A page after a page is the next one; an ellipsis stands between two pages more than one apart. */
  ghost predicate SpacedAt(items: seq<Item>, i: nat)
    requires i + 1 < |items|
  {
    if items[i + 1].Page? then items[i].Page? ==> items[i + 1].number == items[i].number + 1
    else items[i].Page? && i + 2 < |items| && items[i + 2].Page? && items[i + 2].number > items[i].number + 1
  }

  ghost predicate WellSpaced(items: seq<Item>) {
    && (items != [] ==> items[0].Page?)
    && forall i :: 0 <= i < |items| - 1 ==> SpacedAt(items, i)
  }

  lemma {:induction false} TailIsSpaced(sorted: seq<nat>, i: nat)
    requires Increasing(sorted) && i < |sorted|
    ensures WellSpaced([Page(sorted[i])] + ItemsFrom(sorted, i + 1))
    decreases |sorted| - i
  {
    if i + 1 < |sorted| {
      TailIsSpaced(sorted, i + 1);
      SpacedExtends(sorted[i], sorted[i + 1], ItemsFrom(sorted, i + 2));
      AppendAssociates(GapBefore(sorted, i + 1), [Page(sorted[i + 1])], ItemsFrom(sorted, i + 2));
    }
  }

  lemma SpacedExtends(a: nat, b: nat, rest: seq<Item>)
    requires a < b && WellSpaced([Page(b)] + rest)
    ensures WellSpaced([Page(a)] + ((if b > a + 1 then [Ellipsis] else []) + ([Page(b)] + rest)))
  {
    var before := [Page(b)] + rest;
    var head := [Page(a)] + if b > a + 1 then [Ellipsis] else [];
    AppendAssociates([Page(a)], if b > a + 1 then [Ellipsis] else [], before);
    SpacedShifts(head, before);
    var items := head + before;
    assert items[|head|] == Page(b);
    assert SpacedAt(items, 0);
    assert |head| == 2 ==> SpacedAt(items, 1);
  }

  lemma SpacedShifts(head: seq<Item>, tail: seq<Item>)
    requires WellSpaced(tail)
    ensures forall i :: |head| <= i < |head + tail| - 1 ==> SpacedAt(head + tail, i)
  {
    var items := head + tail;
    assert forall k :: 0 <= k < |tail| ==> items[k + |head|] == tail[k];
    forall i | |head| <= i < |items| - 1 ensures SpacedAt(items, i) {
      var k := i - |head|;
      assert SpacedAt(tail, k);
      assert items[i] == tail[k] && items[i + 1] == tail[k + 1];
      assert k + 2 < |tail| ==> items[i + 2] == tail[k + 2];
    }
  }

  lemma ItemsAreSpaced(sorted: seq<nat>, i: nat)
    requires Increasing(sorted) && i == 0
    ensures WellSpaced(ItemsFrom(sorted, i))
  {
    if sorted != [] {
      TailIsSpaced(sorted, i);
      assert [] + [Page(sorted[i])] == [Page(sorted[i])];
    }
  }

  lemma {:induction false} ShownAre(sorted: seq<nat>, i: nat, n: nat)
    requires i <= |sorted|
    ensures Page(n) in ItemsFrom(sorted, i) <==> n in sorted[i..]
    decreases |sorted| - i
  {
    if i < |sorted| {
      ShownAre(sorted, i + 1, n);
      assert sorted[i..] == [sorted[i]] + sorted[i + 1..];
    }
  }

  // ---------- The window ----------

  /** The first, the last, the current page and its neighbours within range. */
  function Window(page: nat, totalPages: nat): set<nat> {
    {1, totalPages, page} + (if page >= 2 then {page - 1} else {}) + (if page + 1 <= totalPages then {page + 1} else {})
  }

  function WindowItems(page: nat, totalPages: nat): seq<Item> {
    ItemsFrom(Ascending(Window(page, totalPages), 0, totalPages), 0)
  }

  /** Over an infinite count: the window as if the page after the current one were the last, then infinity. */
  function EndlessRange(page: Number): PaginationRange {
    if page == Infinite(true) then Endless(None, true, false, [Page(1), Ellipsis, LastPage])
    else
      var current := AtLeast(page, 1, 1);
      Endless(Some(current), current > 1, true, WindowItems(current, current + 1) + [Ellipsis, LastPage])
  }

  /** n pages of the size given hold the rows given, and the last one is needed; an infinite page size needs one. */
  ghost predicate HoldsRows(n: nat, pageSize: Number, totalCount: Number) {
    if pageSize == Infinite(true) then n == 1
    else
      var size := if pageSize.Finite? && pageSize.value >= 1.0 then pageSize.value.Floor else 1;
      var count := if totalCount.Finite? && totalCount.value >= 1.0 then totalCount.value.Floor else 0;
      count <= n * size && (if count > 0 then (n - 1) * size < count else n == 1)
  }

  lemma AtLeastOneIs(x: Number)
    requires x != Infinite(true)
    ensures AtLeast(x, 1, 1) == if x.Finite? && x.value >= 1.0 then x.value.Floor else 1
  {
  }

  lemma AtLeastNoneIs(x: Number)
    requires x != Infinite(true)
    ensures AtLeast(x, 0, 0) == if x.Finite? && x.value >= 1.0 then x.value.Floor else 0
  {
  }

  /** p is the page asked for, brought between the first and the last; what is not a number asks for the first. */
  ghost predicate IsPageOf(p: nat, page: Number, totalPages: nat) {
    && (page.NaN? || page == Infinite(false) || (page.Finite? && page.value < 1.0) ==> p == 1)
    && (page.Finite? && 1.0 <= page.value < totalPages as real ==> p == page.value.Floor)
    && (page == Infinite(true) || (page.Finite? && page.value >= totalPages as real) ==> p == totalPages)
  }

  lemma CurrentPageIs(page: Number, totalPages: nat)
    requires totalPages >= 1
    ensures IsPageOf(CurrentPage(page, totalPages), page, totalPages)
  {
    if page != Infinite(true) {
      AtLeastOneIs(page);
    }
  }

  lemma QuotientFits(count: nat, size: nat)
    requires size > 0
    ensures var n := Max(CeilingOfQuotient(count, size), 1);
      count <= n * size && (if count > 0 then (n - 1) * size < count else n == 1)
  {
    var q, rest := count / size, count % size;
    assert count == q * size + rest;
    assert (q + 1) * size == q * size + size;
    if rest == 0 && q > 0 {
      assert (q - 1) * size == q * size - size;
    }
  }

  /** Every row has a page, and no page is empty; an infinite page size needs one page. */
  lemma TotalPagesFit(pageSize: Number, totalCount: Number)
    requires totalCount != Infinite(true)
    ensures HoldsRows(TotalPages(pageSize, totalCount), pageSize, totalCount)
  {
    if pageSize != Infinite(true) {
      AtLeastOneIs(pageSize);
      AtLeastNoneIs(totalCount);
      QuotientFits(AtLeast(totalCount, 0, 0), AtLeast(pageSize, 1, 1));
    }
  }

  /** Only one page count does. */
  lemma OnePageCountFits(m: nat, n: nat, pageSize: Number, totalCount: Number)
    requires HoldsRows(m, pageSize, totalCount) && HoldsRows(n, pageSize, totalCount)
    ensures m == n
  {
    if pageSize != Infinite(true) {
      var size: nat := if pageSize.Finite? && pageSize.value >= 1.0 then pageSize.value.Floor else 1;
      NoRoomBetween(m, n, size);
      NoRoomBetween(n, m, size);
    }
  }

  lemma NoRoomBetween(m: nat, n: nat, size: nat)
    ensures m < n ==> m * size <= (n - 1) * size
  {
    if m < n {
      ProductGrows(m, n - 1, size);
    }
  }

  lemma {:induction false} ProductGrows(m: nat, n: nat, size: nat)
    requires m <= n
    ensures m * size <= n * size
  {
    if m < n {
      ProductGrows(m, n - 1, size);
      assert n * size == (n - 1) * size + size;
    }
  }

  method ComputePaginationRange(page: Number, pageSize: Number, totalCount: Number) returns (r: PaginationRange)
    ensures totalCount != Infinite(true) ==>
      && r.PaginationRange?
      && HoldsRows(r.totalPages, pageSize, totalCount) && IsPageOf(r.page, page, r.totalPages)
      && r.hasPrevious == (r.page > 1) && r.hasNext == (r.page < r.totalPages)
      && r.items == WindowItems(r.page, r.totalPages)
    ensures totalCount == Infinite(true) && pageSize != Infinite(true) ==> r == EndlessRange(page)
    ensures totalCount == pageSize == Infinite(true) ==> r == Undefined([Page(1), NotANumber])
  {
    if totalCount == Infinite(true) && pageSize == Infinite(true) {
      return Undefined([Page(1), NotANumber]);
    }
    if totalCount == Infinite(true) {
      r := ComputeEndlessRange(page);
      return;
    }
    var totalPages := TotalPages(pageSize, totalCount);
    TotalPagesFit(pageSize, totalCount);
    var current := CurrentPage(page, totalPages);
    CurrentPageIs(page, totalPages);
    var items := ComputeItems(current, totalPages);
    r := PaginationRange(current, totalPages, current > 1, current < totalPages, items);
  }

  /** The window around a page. */
  method ComputeItems(page: nat, totalPages: nat) returns (items: seq<Item>)
    requires 1 <= page <= totalPages
    ensures items == WindowItems(page, totalPages)
  {
    var pagesToShow := {1, totalPages, page};
    if page - 1 >= 1 {
      pagesToShow := pagesToShow + {page - 1};
    }
    if page + 1 <= totalPages {
      pagesToShow := pagesToShow + {page + 1};
    }
    assert pagesToShow == Window(page, totalPages);
    AscendingIs(pagesToShow, 0, totalPages);
    items := ListItems(Ascending(pagesToShow, 0, totalPages));
  }

  method ComputeEndlessRange(page: Number) returns (r: PaginationRange)
    ensures r == EndlessRange(page)
  {
    if page == Infinite(true) {
      return Endless(None, true, false, [Page(1), Ellipsis, LastPage]);
    }
    var current: nat := AtLeast(page, 1, 1);
    var pagesToShow: set<nat> := {1, current, current + 1};
    if current - 1 >= 1 {
      pagesToShow := pagesToShow + {current - 1};
    }
    assert pagesToShow == Window(current, current + 1);
    AscendingIs(pagesToShow, 0, current + 1);
    var items := ListItems(Ascending(pagesToShow, 0, current + 1));
    return Endless(Some(current), current > 1, true, items + [Ellipsis, LastPage]);
  }

  lemma EndsAre(sorted: seq<nat>, last: nat)
    requires Increasing(sorted) && 1 in sorted && last in sorted
    requires forall i :: 0 <= i < |sorted| ==> 1 <= sorted[i] <= last
    ensures sorted[0] == 1 && sorted[|sorted| - 1] == last
  {
    var first :| 0 <= first < |sorted| && sorted[first] == 1;
    var top :| 0 <= top < |sorted| && sorted[top] == last;
    assert forall i :: 0 <= i < |sorted| ==> sorted[0] <= sorted[i] <= sorted[|sorted| - 1];
  }

  predicate InWindow(n: nat, page: nat, totalPages: nat) {
    1 <= n <= totalPages && (n == 1 || n == totalPages || page - 1 <= n <= page + 1)
  }

  lemma WindowMembers(page: nat, totalPages: nat, n: nat)
    requires 1 <= page <= totalPages
    ensures n in Window(page, totalPages) <==> InWindow(n, page, totalPages)
  {
  }

  lemma WindowIs(page: nat, totalPages: nat) returns (sorted: seq<nat>)
    requires 1 <= page <= totalPages
    ensures sorted == Ascending(Window(page, totalPages), 0, totalPages) && Increasing(sorted) && sorted != []
    ensures forall n :: n in sorted <==> InWindow(n, page, totalPages)
    ensures sorted[0] == 1 && sorted[|sorted| - 1] == totalPages
  {
    AscendingIs(Window(page, totalPages), 0, totalPages);
    sorted := Ascending(Window(page, totalPages), 0, totalPages);
    forall n ensures n in sorted <==> InWindow(n, page, totalPages) {
      WindowMembers(page, totalPages, n);
    }
    assert InWindow(1, page, totalPages) && InWindow(totalPages, page, totalPages);
    assert forall i :: 0 <= i < |sorted| ==> sorted[i] in sorted;
    EndsAre(sorted, totalPages);
  }

  /** Main result: read aloud, the items are all pages from 1 to the last, each once. */
  lemma WindowCoversAllPages(page: nat, totalPages: nat)
    requires 1 <= page <= totalPages
    ensures Expand(WindowItems(page, totalPages), 0) == PagesBetween(1, totalPages)
  {
    var sorted := WindowIs(page, totalPages);
    var rest := ItemsFrom(sorted, 1);
    ExpandItems(sorted, 1);
    ExpandPage(0, 1, rest, totalPages);
    assert GapBefore(sorted, 0) + [Page(1)] + rest == [Page(1)] + rest;
  }

  /** The pages shown, and that an ellipsis stands exactly where two of them are not consecutive. */
  lemma WindowShows(page: nat, totalPages: nat, n: nat)
    requires 1 <= page <= totalPages
    ensures Page(n) in WindowItems(page, totalPages)
       <==> 1 <= n <= totalPages && (n == 1 || n == totalPages || page - 1 <= n <= page + 1)
    ensures WellSpaced(WindowItems(page, totalPages))
  {
    var sorted := WindowIs(page, totalPages);
    ShownAre(sorted, 0, n);
    assert sorted[0..] == sorted;
    ItemsAreSpaced(sorted, 0);
  }

  function Gaps(sorted: seq<nat>, i: nat): nat
    requires i <= |sorted|
    decreases |sorted| - i
  {
    if i == |sorted| then 0 else |GapBefore(sorted, i)| + Gaps(sorted, i + 1)
  }

  lemma {:induction false} ItemsCount(sorted: seq<nat>, i: nat)
    requires i <= |sorted|
    ensures |ItemsFrom(sorted, i)| == |sorted| - i + Gaps(sorted, i)
    decreases |sorted| - i
  {
    if i < |sorted| {
      ItemsCount(sorted, i + 1);
    }
  }

  ghost predicate NoInnerGap(sorted: seq<nat>) {
    forall i :: 2 <= i < |sorted| - 1 ==> GapBefore(sorted, i) == []
  }

  lemma {:induction false} LateGaps(sorted: seq<nat>, i: nat)
    requires NoInnerGap(sorted) && 2 <= i <= |sorted|
    ensures Gaps(sorted, i) <= 1
    decreases |sorted| - i
  {
    if i + 1 < |sorted| {
      LateGaps(sorted, i + 1);
    }
  }

  lemma NeighboursTouch(sorted: seq<nat>, page: nat, totalPages: nat)
    requires 1 <= page <= totalPages && Increasing(sorted) && sorted != [] && sorted[0] == 1
    requires sorted[|sorted| - 1] == totalPages
    requires forall n :: n in sorted <==> InWindow(n, page, totalPages)
    ensures NoInnerGap(sorted)
  {
    forall i | 2 <= i < |sorted| - 1 ensures GapBefore(sorted, i) == [] {
      var a, b := sorted[i - 1], sorted[i];
      assert a in sorted && b in sorted;
      assert sorted[0] < a < b < sorted[|sorted| - 1];
      assert InWindow(a + 1, page, totalPages);
      assert forall j :: 0 <= j < i ==> sorted[j] <= a;
      var k :| 0 <= k < |sorted| && sorted[k] == a + 1;
      assert k >= i;
    }
  }

  lemma FiveAtMost(a: nat, b: nat, c: nat, d: nat, e: nat)
    ensures |{a, b, c, d, e}| <= 5
  {
    assert {a, b, c, d, e} == {a, b, c, d} + {e};
    assert {a, b, c, d} == {a, b, c} + {d};
  }

  lemma WindowSize(sorted: seq<nat>, page: nat, totalPages: nat)
    requires 1 <= page <= totalPages && Increasing(sorted)
    requires forall n :: n in sorted <==> InWindow(n, page, totalPages)
    ensures |sorted| <= 5
  {
    var window: set<nat> := {1, totalPages, page - 1, page, page + 1};
    forall i | 0 <= i < |sorted| ensures sorted[i] in window {
      assert sorted[i] in sorted;
      assert InWindow(sorted[i], page, totalPages);
    }
    IncreasingFits(sorted, window);
    FiveAtMost(1, totalPages, page - 1, page, page + 1);
  }

  lemma GapsOf(sorted: seq<nat>, i: nat)
    requires NoInnerGap(sorted) && i == 0
    ensures Gaps(sorted, i) <= 2
  {
    if |sorted| >= 2 {
      LateGaps(sorted, i + 2);
      assert Gaps(sorted, i + 1) == |GapBefore(sorted, i + 1)| + Gaps(sorted, i + 2);
    }
  }

  lemma WindowIsShort(page: nat, totalPages: nat)
    requires 1 <= page <= totalPages
    ensures |WindowItems(page, totalPages)| <= 7
  {
    var sorted := WindowIs(page, totalPages);
    WindowSize(sorted, page, totalPages);
    NeighboursTouch(sorted, page, totalPages);
    ItemsCount(sorted, 0);
    GapsOf(sorted, 0);
  }

  /**
   * Without a last page the range is on the page asked for, at least the first; the window shows the
   * first page, that one and its neighbours, then a gap to infinity.
   */
  lemma EndlessShows(page: Number, n: nat)
    requires page != Infinite(true)
    ensures var r := EndlessRange(page); var current := if page.Finite? && page.value >= 1.0 then page.value.Floor else 1;
      && r.endlessPage == Some(current) && r.hasPrevious == (current > 1) && r.hasNext
      && r.items == r.items[..|r.items| - 2] + [Ellipsis, LastPage]
      && WellSpaced(r.items[..|r.items| - 2])
      && (Page(n) in r.items <==> n == 1 || (n >= 1 && current - 1 <= n <= current + 1))
    ensures EndlessRange(Infinite(true)) == Endless(None, true, false, [Page(1), Ellipsis, LastPage])
  {
    var current: nat := AtLeast(page, 1, 1);
    AtLeastOneIs(page);
    WindowShows(current, current + 1, n);
    ThenInfinity(WindowItems(current, current + 1), n);
  }

  lemma ThenInfinity(shown: seq<Item>, n: nat)
    ensures var items := shown + [Ellipsis, LastPage];
      items[..|items| - 2] == shown && (Page(n) in items <==> Page(n) in shown)
  {
  }
}
