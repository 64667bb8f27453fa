/**
 * The TTL cache of scripts/feature-flags/flags.ts. Its state is described by the history of calls
 * made on it; the main results compare what `get` returns with an ideal store that never deletes,
 * never builds a key and only remembers the latest `set`.
 */
module FlagCache {
  import opened Wrappers
  import opened Text
  import opened Numbers
  import opened FeatureFlags

  // ---------- Sorting cohort names ----------

  /** Lexicographic order on character codes, as Array.prototype.sort compares strings. */
  predicate Le(a: string, b: string) {
    a == "" || (b != "" && (a[0] < b[0] || (a[0] == b[0] && Le(a[1..], b[1..]))))
  }

  lemma {:induction false} LeTotal(a: string, b: string)
    ensures Le(a, b) || Le(b, a)
    ensures Le(a, b) && Le(b, a) ==> a == b
  {
    if a != "" && b != "" && a[0] == b[0] {
      LeTotal(a[1..], b[1..]);
      assert a == [a[0]] + a[1..] && b == [b[0]] + b[1..];
    }
  }

  lemma {:induction false} LeTransitive(a: string, b: string, c: string)
    requires Le(a, b) && Le(b, c)
    ensures Le(a, c)
  {
    if a != "" && a[0] == b[0] == c[0] {
      LeTransitive(a[1..], b[1..], c[1..]);
    }
  }

  /** The first difference is at k, where a is smaller. */
  ghost predicate SmallerAt(a: string, b: string, k: nat) {
    k < |a| && k < |b| && a[k] < b[k] && forall i :: 0 <= i < k ==> a[i] == b[i]
  }

  /** a comes first exactly when it is a prefix of b or smaller at the first difference. */
  lemma {:induction false} LeIs(a: string, b: string)
    ensures Le(a, b) <==> a <= b || exists k: nat :: SmallerAt(a, b, k)
  {
    if a != "" && b != "" && a[0] == b[0] {
      LeIs(a[1..], b[1..]);
      if k: nat :| SmallerAt(a[1..], b[1..], k) {
        SmallerTail(a, b, k);
      }
      if k: nat :| SmallerAt(a, b, k) {
        SmallerTail(a, b, k - 1);
      }
      assert a == [a[0]] + a[1..] && b == [b[0]] + b[1..];
    } else if a != "" && b != "" {
      assert a[0] < b[0] <==> SmallerAt(a, b, 0);
    }
  }

  lemma SmallerTail(a: string, b: string, k: nat)
    requires a != "" && b != "" && a[0] == b[0]
    ensures SmallerAt(a, b, k + 1) <==> SmallerAt(a[1..], b[1..], k)
  {
    assert forall i :: 0 < i < |a| ==> a[1..][i - 1] == a[i];
    assert forall i :: 0 < i < |b| ==> b[1..][i - 1] == b[i];
    if SmallerAt(a[1..], b[1..], k) {
      forall i | 0 <= i < k + 1 ensures a[i] == b[i] {
        assert i > 0 ==> a[1..][i - 1] == b[1..][i - 1];
      }
    }
  }

  function Insert(x: string, sorted: seq<string>): seq<string> {
    if sorted == [] || Le(x, sorted[0]) then [x] + sorted else [sorted[0]] + Insert(x, sorted[1..])
  }

  function Sort(names: seq<string>): seq<string> {
    if names == [] then [] else Insert(names[0], Sort(names[1..]))
  }

  ghost predicate Sorted(names: seq<string>) {
    forall i, j :: 0 <= i < j < |names| ==> Le(names[i], names[j])
  }

  lemma {:induction false} InsertElements(x: string, sorted: seq<string>)
    ensures multiset(Insert(x, sorted)) == multiset(sorted) + multiset{x}
  {
    if sorted == [] || Le(x, sorted[0]) {
    } else {
      InsertElements(x, sorted[1..]);
      assert sorted == [sorted[0]] + sorted[1..];
    }
  }

  lemma {:induction false} InsertSorts(x: string, sorted: seq<string>)
    requires Sorted(sorted)
    ensures Sorted(Insert(x, sorted))
  {
    if sorted == [] {
    } else if Le(x, sorted[0]) {
      forall j | 0 <= j < |sorted| ensures Le(x, sorted[j]) {
        if j > 0 { LeTransitive(x, sorted[0], sorted[j]); }
      }
    } else {
      LeTotal(x, sorted[0]);
      InsertSorts(x, sorted[1..]);
      InsertElements(x, sorted[1..]);
      var tail := Insert(x, sorted[1..]);
      forall j | 0 <= j < |tail| ensures Le(sorted[0], tail[j]) {
        assert tail[j] in multiset(sorted[1..]) + multiset{x};
      }
    }
  }

  lemma {:induction false} SortSorts(names: seq<string>)
    ensures multiset(Sort(names)) == multiset(names)
    ensures Sorted(Sort(names))
  {
    if names != [] {
      SortSorts(names[1..]);
      InsertElements(names[0], Sort(names[1..]));
      InsertSorts(names[0], Sort(names[1..]));
      assert names == [names[0]] + names[1..];
    }
  }

  lemma SameHead(a: seq<string>, b: seq<string>)
    requires Sorted(a) && Sorted(b) && multiset(a) == multiset(b) && a != [] && b != []
    ensures a[0] == b[0]
  {
    assert a[0] in multiset(b) && b[0] in multiset(a);
    LeTotal(a[0], b[0]);
    LeTotal(a[0], a[0]);
  }

  lemma TailElements(a: seq<string>)
    requires a != []
    ensures multiset(a[1..]) == multiset(a) - multiset{a[0]}
  {
    assert a == [a[0]] + a[1..];
  }

  lemma {:induction false} SortedIsUnique(a: seq<string>, b: seq<string>)
    requires Sorted(a) && Sorted(b) && multiset(a) == multiset(b)
    ensures a == b
  {
    assert |a| == |multiset(a)| == |multiset(b)| == |b|;
    if a != [] {
      SameHead(a, b);
      TailElements(a);
      TailElements(b);
      SortedIsUnique(a[1..], b[1..]);
      assert a == [a[0]] + a[1..] && b == [b[0]] + b[1..];
    }
  }

  /** Two cohort lists sort alike exactly when one is a rearrangement of the other. */
  lemma SortIsCanonical(a: seq<string>, b: seq<string>)
    ensures Sort(a) == Sort(b) <==> multiset(a) == multiset(b)
  {
    SortSorts(a);
    SortSorts(b);
    if multiset(a) == multiset(b) {
      SortedIsUnique(Sort(a), Sort(b));
    }
  }

  // ---------- The key ----------

  function EnvironmentName(e: Environment): (name: string)
    ensures ':' !in name
  {
    match e
    case Local => "local"
    case Development => "development"
    case Testing => "testing"
    case Staging => "staging"
    case Uat => "uat"
    case Production => "production"
    case Sandbox => "sandbox"
  }

  lemma EnvironmentNamesDiffer(a: Environment, b: Environment)
    ensures EnvironmentName(a) == EnvironmentName(b) ==> a == b
  {
    if EnvironmentName(a) == EnvironmentName(b) {
      assert EnvironmentName(a)[..2] == EnvironmentName(b)[..2];
      assert |EnvironmentName(a)| == |EnvironmentName(b)|;
    }
  }

  datatype Query = Query(flagId: string, context: Context)

  function CohortPart(cohorts: seq<string>): string { Join(Sort(cohorts), ",") }

  function KeyParts(q: Query): seq<string> {
    [q.flagId, q.context.tenantId, EnvironmentName(q.context.environment), CohortPart(q.context.cohorts)]
  }

  function CacheKey(q: Query): string { Join(KeyParts(q), "::") }

  /**
   * The first "::" from the start of a flag or a tenant is the one that ends it, and no cohort has
   * a ','. A flag or tenant may hold single colons, a cohort name any, and may be empty.
   */
  ghost predicate PlainNames(q: Query) {
    EndsAtSeparator(q.flagId, "::") && EndsAtSeparator(q.context.tenantId, "::") && FreeOf(q.context.cohorts, ',')
  }

  /** Such are the names without a double colon that do not end in one. */
  lemma SingleColonsArePlain(name: string)
    ensures EndsAtSeparator(name, "::")
       <==> (name != "" ==> name[|name| - 1] != ':') && forall i :: 0 <= i < |name| - 1 ==> !(name[i] == ':' == name[i + 1])
  {
    var text := name + "::";
    forall i | 0 <= i < |name| ensures "::" <= text[i..] <==> text[i] == ':' == text[i + 1] {
      assert text[i..][0] == text[i] && text[i..][1] == text[i + 1];
    }
    if EndsAtSeparator(name, "::") {
      if name != "" {
        assert text[|name| - 1] == name[|name| - 1] && text[|name|] == ':';
      }
      forall i | 0 <= i < |name| - 1 ensures !(name[i] == ':' == name[i + 1]) {
        assert text[i] == name[i] && text[i + 1] == name[i + 1];
      }
    } else {
      var i :| 0 <= i < |name| && "::" <= text[i..];
      assert text[i] == name[i] && (i < |name| - 1 ==> text[i + 1] == name[i + 1]);
    }
  }

  ghost predicate WellNamed(q: Query) { PlainNames(q) && "" !in q.context.cohorts }

  /** What the cache is meant to tell apart. */
  ghost predicate Same(p: Query, q: Query) {
    && p.flagId == q.flagId && p.context.tenantId == q.context.tenantId
    && p.context.environment == q.context.environment
    && multiset(p.context.cohorts) == multiset(q.context.cohorts)
  }

  lemma SortKeepsFree(names: seq<string>, c: char)
    requires FreeOf(names, c)
    ensures FreeOf(Sort(names), c)
  {
    SortSorts(names);
    forall i | 0 <= i < |Sort(names)| ensures c !in Sort(names)[i] {
      assert Sort(names)[i] in multiset(names);
    }
  }

  lemma CohortPartDecides(a: seq<string>, b: seq<string>)
    requires FreeOf(a, ',') && FreeOf(b, ',')
    ensures CohortPart(a) == CohortPart(b)
       <==> multiset(a) == multiset(b) || (a in {[], [""]} && b in {[], [""]})
  {
    SortIsCanonical(a, b);
    SortSorts(a);
    SortSorts(b);
    SortKeepsFree(a, ',');
    SortKeepsFree(b, ',');
    SortOfOne("");
    if a != [] {
      assert Sort(a) != [] by { assert |Sort(a)| == |multiset(Sort(a))| == |a|; }
      SplitJoin(Sort(a), ",");
    }
    if b != [] {
      assert Sort(b) != [] by { assert |Sort(b)| == |multiset(Sort(b))| == |b|; }
      SplitJoin(Sort(b), ",");
    }
    assert Split("", ",") == [""];
    if a != [] && Sort(a) == [""] { SingletonFromSort(a, ""); }
    if b != [] && Sort(b) == [""] { SingletonFromSort(b, ""); }
  }

  lemma SortOfOne(x: string)
    ensures Sort([x]) == [x]
  {
    assert Sort([x][1..]) == [];
  }

  lemma SingletonFromSort(a: seq<string>, x: string)
    requires Sort(a) == [x]
    ensures a == [x]
  {
    SortSorts(a);
    assert |a| == |multiset(a)| == |multiset([x])| == 1;
    assert a[0] in multiset(a);
  }

  /**
   * Among plain names two keys are equal exactly when the queries are the same one, or
   * when they differ only in that one has no cohort and the other has a single empty cohort name.
   */
  lemma KeysAliasIff(p: Query, q: Query)
    requires PlainNames(p) && PlainNames(q)
    ensures CacheKey(p) == CacheKey(q)
       <==> Same(p, q) || (Same(p, q.(context := q.context.(cohorts := p.context.cohorts)))
                           && p.context.cohorts in {[], [""]} && q.context.cohorts in {[], [""]})
  {
    KeyIs(p);
    KeyIs(q);
    CohortPartDecides(p.context.cohorts, q.context.cohorts);
    EnvironmentNamesDiffer(p.context.environment, q.context.environment);
    if CacheKey(p) == CacheKey(q) {
      KeyDetermines(p, q);
    }
  }

  /** The key without its first part, and without its first two. */
  function AfterFlag(q: Query): string { q.context.tenantId + "::" + AfterTenant(q) }
  function AfterTenant(q: Query): string { EnvironmentName(q.context.environment) + "::" + CohortPart(q.context.cohorts) }

  lemma KeyIs(q: Query)
    ensures CacheKey(q) == q.flagId + "::" + AfterFlag(q)
  {
    var parts := KeyParts(q);
    assert parts[1..][1..][1..] == [parts[3]];
    assert Join(parts[1..][1..], "::") == AfterTenant(q);
    assert Join(parts[1..], "::") == AfterFlag(q);
  }

  ghost predicate Names(name: string, e: Environment) {
    || (name == "local" && e == Local) || (name == "development" && e == Development) || (name == "testing" && e == Testing)
    || (name == "staging" && e == Staging) || (name == "uat" && e == Uat) || (name == "production" && e == Production)
    || (name == "sandbox" && e == Sandbox)
  }

  /** The key's text: flag, tenant and environment, and the cohort names sorted. */
  lemma KeyReads(q: Query, name: string, cohorts: seq<string>)
    requires Names(name, q.context.environment) && Sorted(cohorts) && multiset(cohorts) == multiset(q.context.cohorts)
    ensures CacheKey(q) == q.flagId + "::" + q.context.tenantId + "::" + name + "::" + Join(cohorts, ",")
  {
    KeyIs(q);
    SortSorts(q.context.cohorts);
    SortedIsUnique(cohorts, Sort(q.context.cohorts));
    Regrouped(q.flagId, q.context.tenantId, name, Join(cohorts, ","), "::");
  }

  lemma Regrouped(flag: string, tenant: string, name: string, cohorts: string, sep: string)
    ensures flag + sep + (tenant + sep + (name + sep + cohorts)) == flag + sep + tenant + sep + name + sep + cohorts
  {
  }

  lemma KeyDetermines(p: Query, q: Query)
    requires PlainNames(p) && PlainNames(q)
    requires p.flagId + "::" + AfterFlag(p) == q.flagId + "::" + AfterFlag(q)
    ensures p.flagId == q.flagId && p.context.tenantId == q.context.tenantId
    ensures EnvironmentName(p.context.environment) == EnvironmentName(q.context.environment)
    ensures CohortPart(p.context.cohorts) == CohortPart(q.context.cohorts)
  {
    SameBeforeSeparator(p.flagId, AfterFlag(p), q.flagId, AfterFlag(q), "::");
    SameBeforeSeparator(p.context.tenantId, AfterTenant(p), q.context.tenantId, AfterTenant(q), "::");
    WithoutFirstCharacter(EnvironmentName(p.context.environment), "::");
    WithoutFirstCharacter(EnvironmentName(q.context.environment), "::");
    SameBeforeSeparator(EnvironmentName(p.context.environment), CohortPart(p.context.cohorts),
                        EnvironmentName(q.context.environment), CohortPart(q.context.cohorts), "::");
  }

  lemma KeysNeverAlias(p: Query, q: Query)
    requires WellNamed(p) && WellNamed(q)
    ensures CacheKey(p) == CacheKey(q) <==> Same(p, q)
  {
    KeysAliasIff(p, q);
    assert "" in [""];
  }

  // ---------- The class ----------

  datatype CacheEntry = CacheEntry(value: EvaluationResult, expiresAt: int)

  datatype Call =
    | SetCall(key: string, value: EvaluationResult, at: int)
    | GetCall(key: string, at: int)
    | InvalidateCall(key: string)

  datatype Stored = Stored(value: EvaluationResult, at: int)

  /** The latest set of a key that no invalidate has followed. Reads leave no mark. */
  function Latest(history: seq<Call>, key: string): Option<Stored> {
    if history == [] then None
    else
      var last := history[|history| - 1];
      if last.SetCall? && last.key == key then Some(Stored(last.value, last.at))
      else if last.InvalidateCall? && last.key == key then None
      else Latest(history[..|history| - 1], key)
  }

  /** Some read since that set already found it expired. */
  predicate SeenExpired(history: seq<Call>, ttl: int, key: string) {
    history != []
    && var last := history[|history| - 1];
       var before := history[..|history| - 1];
       !(last.SetCall? && last.key == key)
       && (SeenExpired(before, ttl, key)
           || (last.GetCall? && last.key == key && Latest(before, key).Some? && last.at >= Latest(before, key).value.at + ttl))
  }

  function EntryFor(history: seq<Call>, ttl: int, key: string): Option<CacheEntry> {
    match Latest(history, key)
    case None => None
    case Some(s) => if SeenExpired(history, ttl, key) then None else Some(CacheEntry(s.value, s.at + ttl))
  }

  /** What get answers after a history. */
  function GetResult(history: seq<Call>, ttl: int, key: string, now: int): Option<EvaluationResult> {
    match Latest(history, key)
    case Some(s) => if now < s.at + ttl && !SeenExpired(history, ttl, key) then Some(s.value) else None
    case None => None
  }

  class Cache {
    var entries: map<string, CacheEntry>
    const ttlMs: int
    ghost var history: seq<Call>

    ghost predicate Valid()
      reads this
    {
      forall key :: EntryFor(history, ttlMs, key) == if key in entries then Some(entries[key]) else None
    }

    constructor (ttlMs: int)
      ensures Valid() && history == [] && this.ttlMs == ttlMs && entries == map[]
    {
      this.ttlMs := ttlMs;
      entries := map[];
      history := [];
    }

    /** An expired entry is deleted on the way; the call itself is what the history records. */
    method Get(q: Query, now: int) returns (result: Option<EvaluationResult>)
      requires Valid()
      modifies this
      ensures Valid()
      ensures history == old(history) + [GetCall(CacheKey(q), now)]
      ensures result == GetResult(old(history), ttlMs, CacheKey(q), now)
    {
      var key := CacheKey(q);
      ghost var before := history;
      assert EntryFor(before, ttlMs, key) == if key in entries then Some(entries[key]) else None;
      history := history + [GetCall(key, now)];
      assert history[..|history| - 1] == before;
      if key !in entries {
        return None;
      }
      var entry := entries[key];
      if now >= entry.expiresAt {
        entries := entries - {key};
        return None;
      }
      return Some(entry.value);
    }

    method Set(q: Query, value: EvaluationResult, now: int)
      requires Valid()
      modifies this
      ensures Valid()
      ensures history == old(history) + [SetCall(CacheKey(q), value, now)]
      ensures entries == old(entries)[CacheKey(q) := CacheEntry(value, now + ttlMs)]
    {
      var key := CacheKey(q);
      ghost var before := history;
      history := history + [SetCall(key, value, now)];
      assert history[..|history| - 1] == before;
      entries := entries[key := CacheEntry(value, now + ttlMs)];
    }

    method Invalidate(q: Query)
      requires Valid()
      modifies this
      ensures Valid()
      ensures history == old(history) + [InvalidateCall(CacheKey(q))]
      ensures entries == old(entries) - {CacheKey(q)}
    {
      var key := CacheKey(q);
      ghost var before := history;
      history := history + [InvalidateCall(key)];
      assert history[..|history| - 1] == before;
      entries := entries - {key};
    }

    method Size() returns (n: nat)
      ensures n == |entries|
    {
      n := |entries|;
    }
  }

  // ---------- The ideal store ----------

  function At(call: Call): Option<int> {
    match call
    case SetCall(_, _, at) => Some(at)
    case GetCall(_, at) => Some(at)
    case InvalidateCall(_) => None
  }

  /** The clock never runs back over the calls, nor up to now. */
  ghost predicate ClockAdvances(history: seq<Call>, now: int) {
    && (forall i, j :: 0 <= i < j < |history| && At(history[i]).Some? && At(history[j]).Some? ==> At(history[i]).value <= At(history[j]).value)
    && (forall i :: 0 <= i < |history| && At(history[i]).Some? ==> At(history[i]).value <= now)
  }

  /** With an advancing clock, a set that was once seen expired is expired for good. */
  lemma {:induction false} ExpiredStaysExpired(history: seq<Call>, ttl: int, key: string, now: int)
    requires ClockAdvances(history, now)
    requires SeenExpired(history, ttl, key) && Latest(history, key).Some?
    ensures now >= Latest(history, key).value.at + ttl
  {
    var last, before := history[|history| - 1], history[..|history| - 1];
    assert ClockAdvances(before, now);
    if SeenExpired(before, ttl, key) {
      ExpiredStaysExpired(before, ttl, key, now);
    }
  }

  /** What a cache that never deletes would answer. */
  function Undeleted(history: seq<Call>, ttl: int, key: string, now: int): Option<EvaluationResult> {
    match Latest(history, key)
    case Some(s) => if now - s.at < ttl then Some(s.value) else None
    case None => None
  }

  /**
   * The lazy deletion cannot be observed: with an advancing clock, get answers from the latest set
   * alone. Without that assumption it can: a read that saw the entry expired removed it.
   */
  lemma LazyDeletionIsInvisible(history: seq<Call>, ttl: int, key: string, now: int)
    requires ClockAdvances(history, now)
    ensures GetResult(history, ttl, key, now) == Undeleted(history, ttl, key, now)
  {
    if Latest(history, key).Some? && SeenExpired(history, ttl, key) {
      ExpiredStaysExpired(history, ttl, key, now);
    }
  }

  /**
   * Whatever the clock does, the deletion shows exactly when some read since the latest set
   * already found it expired and now is before its expiry again; the value is then lost.
   */
  lemma LazyDeletionShowsIff(history: seq<Call>, ttl: int, key: string, now: int)
    ensures GetResult(history, ttl, key, now) != Undeleted(history, ttl, key, now)
       <==> Latest(history, key).Some? && now < Latest(history, key).value.at + ttl && ExpiredReadSince(history, ttl, key)
    ensures GetResult(history, ttl, key, now) in {None, Undeleted(history, ttl, key, now)}
  {
    if Latest(history, key).Some? {
      SeenExpiredIff(history, ttl, key);
    }
  }

  /** Call k is the latest set of the key, with no invalidate since. */
  ghost predicate LatestSetAt(history: seq<Call>, key: string, k: nat) {
    && k < |history| && history[k].SetCall? && history[k].key == key
    && forall j :: k < j < |history| && history[j].key == key ==> history[j].GetCall?
  }

  /** A read after the latest set came when it had expired. */
  ghost predicate ExpiredReadSince(history: seq<Call>, ttl: int, key: string) {
    exists k, j :: 0 <= k < j < |history| && LatestSetAt(history, key, k)
      && history[j].GetCall? && history[j].key == key && history[j].at >= history[k].at + ttl
  }

  lemma {:induction false} LatestIsAt(history: seq<Call>, key: string, k: nat)
    requires LatestSetAt(history, key, k)
    ensures Latest(history, key) == Some(Stored(history[k].value, history[k].at))
  {
    var n := |history| - 1;
    if k < n {
      assert LatestSetAt(history[..n], key, k);
      LatestIsAt(history[..n], key, k);
    }
  }

  lemma {:induction false} LatestExists(history: seq<Call>, key: string) returns (k: nat)
    requires Latest(history, key).Some?
    ensures LatestSetAt(history, key, k)
  {
    var n := |history| - 1;
    if history[n].SetCall? && history[n].key == key {
      k := n;
    } else {
      k := LatestExists(history[..n], key);
    }
  }

  lemma {:induction false} SeenExpiredIff(history: seq<Call>, ttl: int, key: string)
    requires Latest(history, key).Some?
    ensures SeenExpired(history, ttl, key) <==> ExpiredReadSince(history, ttl, key)
  {
    var n := |history| - 1;
    var before, last := history[..n], history[n];
    var k := LatestExists(history, key);
    LatestIsAt(history, key, k);
    if k < n {
      assert LatestSetAt(before, key, k);
      LatestIsAt(before, key, k);
      SeenExpiredIff(before, ttl, key);
      forall i | LatestSetAt(history, key, i) || LatestSetAt(before, key, i) ensures i == k {
      }
      if ExpiredReadSince(before, ttl, key) {
        var i, j :| 0 <= i < j < |before| && LatestSetAt(before, key, i)
          && before[j].GetCall? && before[j].key == key && before[j].at >= before[i].at + ttl;
        assert history[j] == before[j] && history[i] == before[i];
      }
      if ExpiredReadSince(history, ttl, key) {
        var i, j :| 0 <= i < j < |history| && LatestSetAt(history, key, i)
          && history[j].GetCall? && history[j].key == key && history[j].at >= history[i].at + ttl;
        assert j < n ==> before[j] == history[j] && before[i] == history[i];
      }
    }
  }

  lemma LazyDeletionNeedsTheClock(key: string, value: EvaluationResult)
    ensures var history := [SetCall(key, value, 0), GetCall(key, 20)];
      && Latest(history, key) == Some(Stored(value, 0))
      && GetResult(history, 10, key, 5) == None
      && GetResult([SetCall(key, value, 0)], 10, key, 5) == Some(value)
  {
    var history := [SetCall(key, value, 0), GetCall(key, 20)];
    assert history[..1] == [SetCall(key, value, 0)];
    assert [SetCall(key, value, 0)][..0] == [];
    assert Latest(history[..1], key) == Some(Stored(value, 0));
  }

  /** A call by flag, tenant, environment and cohorts rather than by key. */
  datatype Request =
    | SetRequest(q: Query, value: EvaluationResult, at: int)
    | GetRequest(q: Query, at: int)
    | InvalidateRequest(q: Query)

  function AsCall(r: Request): Call {
    match r
    case SetRequest(q, value, at) => SetCall(CacheKey(q), value, at)
    case GetRequest(q, at) => GetCall(CacheKey(q), at)
    case InvalidateRequest(q) => InvalidateCall(CacheKey(q))
  }

  function AsCalls(requests: seq<Request>): seq<Call> {
    seq(|requests|, i requires 0 <= i < |requests| => AsCall(requests[i]))
  }

  ghost function LatestFor(requests: seq<Request>, q: Query): Option<Stored> {
    if requests == [] then None
    else
      var last := requests[|requests| - 1];
      if last.SetRequest? && Same(last.q, q) then Some(Stored(last.value, last.at))
      else if last.InvalidateRequest? && Same(last.q, q) then None
      else LatestFor(requests[..|requests| - 1], q)
  }

  lemma {:induction false} KeysRefineQueries(requests: seq<Request>, q: Query)
    requires WellNamed(q) && forall i :: 0 <= i < |requests| ==> WellNamed(requests[i].q)
    ensures Latest(AsCalls(requests), CacheKey(q)) == LatestFor(requests, q)
  {
    if requests != [] {
      var n := |requests| - 1;
      KeysRefineQueries(requests[..n], q);
      KeysNeverAlias(requests[n].q, q);
      assert AsCalls(requests)[..n] == AsCalls(requests[..n]);
    }
  }

  /**
   * Main result. For well-named queries and an advancing clock, get returns a value exactly when
   * the latest set for the same flag, tenant, environment and cohorts is younger than the TTL and
   * has not been invalidated since; and it returns that set's value.
   */
  lemma CacheRefinesIdealStore(requests: seq<Request>, q: Query, ttl: int, now: int)
    requires WellNamed(q) && forall i :: 0 <= i < |requests| ==> WellNamed(requests[i].q)
    requires ClockAdvances(AsCalls(requests), now)
    ensures GetResult(AsCalls(requests), ttl, CacheKey(q), now)
         == match LatestFor(requests, q)
            case Some(s) => if now - s.at < ttl then Some(s.value) else None
            case None => None
  {
    LazyDeletionIsInvisible(AsCalls(requests), ttl, CacheKey(q), now);
    KeysRefineQueries(requests, q);
  }

  // ---------- Cached and fresh evaluation ----------

  ghost predicate Fresh(hash: Hash, flag: FlagDefinition, requests: seq<Request>) {
    forall i :: 0 <= i < |requests| && requests[i].SetRequest? && requests[i].q.flagId == flag.id ==>
      requests[i].value == Evaluate(hash, flag, requests[i].q.context, requests[i].at)
  }

  lemma {:induction false} LatestWasEvaluated(hash: Hash, flag: FlagDefinition, requests: seq<Request>, q: Query)
    requires Fresh(hash, flag, requests) && q.flagId == flag.id && LatestFor(requests, q).Some?
    ensures var s := LatestFor(requests, q).value; s.value == Evaluate(hash, flag, q.context, s.at)
  {
    var n := |requests| - 1;
    var last := requests[n];
    if last.SetRequest? && Same(last.q, q) {
      forall c ensures c in last.q.context.cohorts <==> c in q.context.cohorts {
        assert c in last.q.context.cohorts <==> c in multiset(last.q.context.cohorts);
        assert c in q.context.cohorts <==> c in multiset(q.context.cohorts);
      }
      EvaluateIgnoresCohortOrder(hash, flag, q.context, last.q.context.cohorts, last.at);
      assert q.context.(cohorts := last.q.context.cohorts) == last.q.context;
    } else {
      LatestWasEvaluated(hash, flag, requests[..n], q);
    }
  }

  /**
   * A hit on an unchanged flag is stale exactly when, since the value was computed, an
   * effective-date bound was crossed that evaluation would have looked at.
   */
  lemma HitEqualsFreshEvaluation(hash: Hash, flag: FlagDefinition, requests: seq<Request>, q: Query, ttl: int, now: int)
    requires WellNamed(q) && forall i :: 0 <= i < |requests| ==> WellNamed(requests[i].q)
    requires Fresh(hash, flag, requests) && q.flagId == flag.id
    requires ClockAdvances(AsCalls(requests), now)
    requires GetResult(AsCalls(requests), ttl, CacheKey(q), now).Some?
    ensures LatestFor(requests, q).Some?
    ensures GetResult(AsCalls(requests), ttl, CacheKey(q), now) == Some(Evaluate(hash, flag, q.context, now))
       <==> flag.killSwitch || q.context.environment !in flag.environments
            || InWindow(flag, LatestFor(requests, q).value.at) == InWindow(flag, now)
  {
    CacheRefinesIdealStore(requests, q, ttl, now);
    LatestWasEvaluated(hash, flag, requests, q);
    EvaluateOverTime(hash, flag, q.context, LatestFor(requests, q).value.at, now);
  }

  /** The excluded cohort name matters: no cohort and one empty cohort share a key but not an answer. */
  lemma EmptyCohortNameAliases(hash: Hash, flag: FlagDefinition, context: Context, now: int)
    requires context.cohorts == []
    requires flag.cohorts == Some([""]) && !flag.killSwitch && context.environment in flag.environments && InWindow(flag, now)
    requires flag.tenantAllowList.None? && flag.tenantDenyList.None? && flag.rolloutPercentage == Finite(100.0)
    ensures CacheKey(Query(flag.id, context)) == CacheKey(Query(flag.id, context.(cohorts := [""])))
    ensures !Evaluate(hash, flag, context, now).enabled
    ensures Evaluate(hash, flag, context.(cohorts := [""]), now).enabled
  {
    SortOfOne("");
    assert [""][0] in context.(cohorts := [""]).cohorts;
    assert CohortMatches(flag, [""]) by { assert flag.cohorts.value[0] in [""]; }
  }

  /** Nor may a flag or a tenant hold the separator: it moves freely from one to the other. */
  lemma SeparatorInNameAliases(a: string, b: string, c: string, environment: Environment, cohorts: seq<string>)
    ensures var p := Query(a + "::" + b, Context(c, environment, cohorts));
      var q := Query(a, Context(b + "::" + c, environment, cohorts));
      !Same(p, q) && CacheKey(p) == CacheKey(q)
  {
    var p := Query(a + "::" + b, Context(c, environment, cohorts));
    var q := Query(a, Context(b + "::" + c, environment, cohorts));
    KeyIs(p);
    KeyIs(q);
    var rest := AfterTenant(p);
    assert ((a + "::" + b) + "::") + (c + "::" + rest) == (a + "::") + ((b + "::" + c) + "::" + rest);
    assert |a + "::" + b| > |a|;
  }
}
