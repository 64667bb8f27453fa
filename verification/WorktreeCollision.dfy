/**
 * scripts/git/check-worktree-collision.ts: the fork check over the tips of the agents' branches.
 * Git is a finite commit graph; merge-base may answer with any best common ancestor.
 */
module WorktreeCollision {
  import opened Wrappers
  import opened Sequences

  type Sha = string

  /** parents of every commit, and generation numbers that witness that history has no cycle. */
  datatype Repo = Repo(parents: map<Sha, set<Sha>>, generation: map<Sha, nat>) {
    ghost predicate Valid() {
      && generation.Keys == parents.Keys
      && forall c, p :: c in parents && p in parents[c] ==> p in parents && generation[p] < generation[c]
    }
  }

  /** Reachability; a commit reaches itself. */
  predicate Ancestor(repo: Repo, a: Sha, c: Sha)
    requires repo.Valid() && c in repo.parents
    decreases repo.generation[c]
  {
    a == c || exists p :: p in repo.parents[c] && Ancestor(repo, a, p)
  }

  lemma {:induction false} AncestorIsOlder(repo: Repo, a: Sha, c: Sha)
    requires repo.Valid() && c in repo.parents && Ancestor(repo, a, c)
    ensures a in repo.parents && repo.generation[a] <= repo.generation[c]
    ensures repo.generation[a] == repo.generation[c] ==> a == c
    decreases repo.generation[c]
  {
    if a != c {
      var p :| p in repo.parents[c] && Ancestor(repo, a, p);
      AncestorIsOlder(repo, a, p);
    }
  }

  lemma {:induction false} AncestorTransitive(repo: Repo, a: Sha, b: Sha, c: Sha)
    requires repo.Valid() && b in repo.parents && c in repo.parents
    requires Ancestor(repo, a, b) && Ancestor(repo, b, c)
    ensures Ancestor(repo, a, c)
    decreases repo.generation[c]
  {
    if b != c {
      var p :| p in repo.parents[c] && Ancestor(repo, b, p);
      AncestorTransitive(repo, a, b, p);
    }
  }

  lemma AncestorAntisymmetric(repo: Repo, a: Sha, b: Sha)
    requires repo.Valid() && a in repo.parents && b in repo.parents
    requires Ancestor(repo, a, b) && Ancestor(repo, b, a)
    ensures a == b
  {
    AncestorIsOlder(repo, a, b);
    AncestorIsOlder(repo, b, a);
  }

  // ---------- merge-base ----------

  predicate Common(repo: Repo, m: Sha, a: Sha, b: Sha)
    requires repo.Valid() && a in repo.parents && b in repo.parents
  {
    Ancestor(repo, m, a) && Ancestor(repo, m, b)
  }

  ghost predicate Related(repo: Repo, a: Sha, b: Sha)
    requires repo.Valid() && a in repo.parents && b in repo.parents
  {
    exists m :: Common(repo, m, a, b)
  }

  /** A common ancestor of which no other common ancestor is a descendant. */
  ghost predicate Best(repo: Repo, m: Sha, a: Sha, b: Sha)
    requires repo.Valid() && a in repo.parents && b in repo.parents
  {
    && Common(repo, m, a, b)
    && forall n {:trigger Ancestor(repo, m, n)} :: n in repo.parents && Common(repo, n, a, b) && Ancestor(repo, m, n) ==> n == m
  }

  /** merge-base prints some best common ancestor, and fails where there is no common one. */
  ghost predicate IsMergeBase(base: (Sha, Sha) -> Option<Sha>, repo: Repo)
    requires repo.Valid()
  {
    forall a, b {:trigger base(a, b)} :: a in repo.parents && b in repo.parents ==>
      match base(a, b)
      case Some(m) => Best(repo, m, a, b)
      case None => !Related(repo, a, b)
  }

  ghost predicate Comparable(repo: Repo, a: Sha, b: Sha)
    requires repo.Valid() && a in repo.parents && b in repo.parents
  {
    Ancestor(repo, a, b) || Ancestor(repo, b, a)
  }

  predicate IsGenuineFork(mergeBase: Sha, a: Sha, b: Sha) { mergeBase != a && mergeBase != b }

  /** Whichever best common ancestor git picks, each branch has commits the other lacks exactly when neither tip contains the other. */
  lemma ForkIffIncomparable(repo: Repo, m: Sha, a: Sha, b: Sha)
    requires repo.Valid() && a in repo.parents && b in repo.parents && Best(repo, m, a, b)
    ensures IsGenuineFork(m, a, b) <==> !Comparable(repo, a, b)
  {
    if Ancestor(repo, a, b) {
      assert Common(repo, a, a, b);
    }
    if Ancestor(repo, b, a) {
      assert Common(repo, b, a, b);
    }
  }

  // ---------- Branches ahead of main ----------

  /** A listed branch; head is None where rev-parse fails. */
  datatype Branch = Branch(name: string, head: Option<Sha>)

  datatype Diverged = Diverged(branch: string, ahead: int, headSha: Sha)

  datatype ForkPair = ForkPair(branchA: string, branchB: string)

  datatype Outcome = Outcome(diverged: seq<Diverged>, forked: seq<ForkPair>, collisionRisk: bool)

  datatype GitError = UnknownBranch | NoMergeBase

  ghost predicate Resolves(repo: Repo, head: Option<Sha>) { head.Some? ==> head.value in repo.parents }

  /** rev-list --count main..head, or -1 where main is not known. */
  function CommitsAhead(repo: Repo, main: Option<Sha>, head: Sha): int
    requires repo.Valid() && head in repo.parents && Resolves(repo, main)
  {
    match main
    case None => -1
    case Some(m) => |set c | c in repo.parents && Ancestor(repo, c, head) && !Ancestor(repo, c, m)|
  }

  /** A branch is kept exactly when main is known and does not contain its tip. */
  lemma AheadIff(repo: Repo, main: Option<Sha>, head: Sha)
    requires repo.Valid() && head in repo.parents && Resolves(repo, main)
    ensures CommitsAhead(repo, main, head) > 0 <==> main.Some? && !Ancestor(repo, head, main.value)
  {
    if main.Some? {
      var ahead := set c | c in repo.parents && Ancestor(repo, c, head) && !Ancestor(repo, c, main.value);
      if Ancestor(repo, head, main.value) {
        forall c | c in repo.parents && Ancestor(repo, c, head) ensures Ancestor(repo, c, main.value) {
          AncestorTransitive(repo, c, head, main.value);
        }
        assert ahead == {};
      } else {
        assert head in ahead;
      }
    }
  }

  /** What rev-list answers for a tip. */
  type Count = Sha -> int

  ghost predicate CountsAhead(count: Count, repo: Repo, main: Option<Sha>)
    requires repo.Valid() && Resolves(repo, main)
  {
    forall h {:trigger count(h)} :: h in repo.parents ==> count(h) == CommitsAhead(repo, main, h)
  }

  ghost predicate AllKnown(branches: seq<Branch>) {
    forall i :: 0 <= i < |branches| ==> branches[i].head.Some?
  }

  ghost predicate AllResolve(repo: Repo, branches: seq<Branch>) {
    forall i :: 0 <= i < |branches| ==> Resolves(repo, branches[i].head)
  }

  function DivergedOf(count: Count, branches: seq<Branch>): seq<Diverged>
    requires AllKnown(branches)
  {
    if branches == [] then []
    else
      var b := branches[|branches| - 1];
      var ahead := count(b.head.value);
      DivergedOf(count, branches[..|branches| - 1]) + if ahead > 0 then [Diverged(b.name, ahead, b.head.value)] else []
  }

  ghost predicate Known(repo: Repo, ds: seq<Diverged>) {
    forall i :: 0 <= i < |ds| ==> ds[i].headSha in repo.parents
  }

  lemma {:induction false} DivergedResolve(repo: Repo, count: Count, branches: seq<Branch>)
    requires AllKnown(branches) && AllResolve(repo, branches)
    ensures Known(repo, DivergedOf(count, branches))
  {
    if branches != [] {
      DivergedResolve(repo, count, branches[..|branches| - 1]);
    }
  }

  lemma {:induction false} InDiverged(count: Count, branches: seq<Branch>, d: Diverged)
    requires AllKnown(branches)
    ensures d in DivergedOf(count, branches)
       <==> Branch(d.branch, Some(d.headSha)) in branches && d.ahead == count(d.headSha) > 0
  {
    if branches != [] {
      var n := |branches| - 1;
      InDiverged(count, branches[..n], d);
      assert branches == branches[..n] + [branches[n]];
      assert Branch(d.branch, Some(d.headSha)) in branches
        <==> Branch(d.branch, Some(d.headSha)) in branches[..n] || branches[n] == Branch(d.branch, Some(d.headSha));
    }
  }

  /** The compared branches are exactly the listed ones whose tip main, being known, does not contain. */
  lemma DivergedAre(repo: Repo, count: Count, main: Option<Sha>, branches: seq<Branch>, name: string, head: Sha)
    requires repo.Valid() && Resolves(repo, main) && CountsAhead(count, repo, main)
    requires AllKnown(branches) && AllResolve(repo, branches)
    ensures (exists d :: d in DivergedOf(count, branches) && d.branch == name && d.headSha == head)
       <==> Branch(name, Some(head)) in branches && main.Some? && !Ancestor(repo, head, main.value)
  {
    var d := Diverged(name, count(head), head);
    InDiverged(count, branches, d);
    if Branch(name, Some(head)) in branches {
      var i :| 0 <= i < |branches| && branches[i] == Branch(name, Some(head));
      assert Resolves(repo, branches[i].head);
      AheadIff(repo, main, head);
    }
    forall other | other in DivergedOf(count, branches) && other.branch == name && other.headSha == head ensures other == d {
      InDiverged(count, branches, other);
    }
  }

  /** Entry k is the branch at position at[k], with its count and its tip. */
  ghost predicate KeptAt(count: Count, branches: seq<Branch>, ds: seq<Diverged>, at: seq<nat>) {
    && |at| == |ds| && Increasing(at)
    && (forall k :: 0 <= k < |at| ==> at[k] < |branches| && ds[k].ahead == count(ds[k].headSha) > 0
                                      && branches[at[k]] == Branch(ds[k].branch, Some(ds[k].headSha)))
    && (forall i, h :: 0 <= i < |branches| && branches[i].head == Some(h) && count(h) > 0 ==> i in at)
  }

  lemma KeptNext(count: Count, branches: seq<Branch>, ds: seq<Diverged>, at: seq<nat>, n: nat, head: Sha)
    requires |branches| == n + 1 && branches[n].head == Some(head) && KeptAt(count, branches[..n], ds, at)
    ensures count(head) <= 0 ==> KeptAt(count, branches, ds, at)
    ensures count(head) > 0 ==> KeptAt(count, branches, ds + [Diverged(branches[n].name, count(head), head)], at + [n])
  {
    assert forall i :: 0 <= i < n ==> branches[..n][i] == branches[i];
    assert branches[n] == Branch(branches[n].name, Some(head));
  }

  /** The branches that are ahead are kept once each, in the order of the list. */
  lemma {:induction false} DivergedInOrder(count: Count, branches: seq<Branch>) returns (at: seq<nat>)
    requires AllKnown(branches)
    ensures KeptAt(count, branches, DivergedOf(count, branches), at)
  {
    if branches == [] {
      at := [];
    } else {
      var n := |branches| - 1;
      at := DivergedInOrder(count, branches[..n]);
      KeptNext(count, branches, DivergedOf(count, branches[..n]), at, n, branches[n].head.value);
      if count(branches[n].head.value) > 0 {
        at := at + [n];
      }
    }
  }

  // ---------- The check ----------

  /** What merge-base answers for two tips, None where it fails. */
  type Base = (Sha, Sha) -> Option<Sha>

  predicate Forked(base: Base, a: Diverged, b: Diverged) {
    var m := base(a.headSha, b.headSha);
    m.Some? && IsGenuineFork(m.value, a.headSha, b.headSha)
  }

  /** What position i reports against the later positions below j. */
  function RowForks(base: Base, ds: seq<Diverged>, i: nat, j: nat): seq<ForkPair>
    requires i < j <= |ds|
  {
    if j == i + 1 then []
    else RowForks(base, ds, i, j - 1) + if Forked(base, ds[i], ds[j - 1]) then [ForkPair(ds[i].branch, ds[j - 1].branch)] else []
  }

  /** What the first i positions report. */
  function Forks(base: Base, ds: seq<Diverged>, i: nat): seq<ForkPair>
    requires i <= |ds|
  {
    if i == 0 then [] else Forks(base, ds, i - 1) + RowForks(base, ds, i - 1, |ds|)
  }

  /** merge-base answers for the row of position i. */
  ghost predicate RowAnswered(base: Base, ds: seq<Diverged>, i: nat)
    requires i < |ds|
  {
    forall j :: i < j < |ds| ==> base(ds[i].headSha, ds[j].headSha).Some?
  }

  ghost predicate Answered(base: Base, ds: seq<Diverged>) {
    forall i :: 0 <= i < |ds| ==> RowAnswered(base, ds, i)
  }

  method ListDiverged(count: Count, branches: seq<Branch>) returns (r: Result<seq<Diverged>, GitError>)
    ensures r.Ok? <==> AllKnown(branches)
    ensures r.Ok? ==> r.value == DivergedOf(count, branches)
    ensures r.Thrown? ==> r.error == UnknownBranch
  {
    var diverged := [];
    for i := 0 to |branches|
      invariant AllKnown(branches[..i])
      invariant diverged == DivergedOf(count, branches[..i])
    {
      var b := branches[i];
      assert branches[..i + 1][..i] == branches[..i];
      if b.head.None? {
        return Thrown(UnknownBranch);
      }
      var ahead := count(b.head.value);
      if ahead > 0 {
        diverged := diverged + [Diverged(b.name, ahead, b.head.value)];
      }
    }
    assert branches[..|branches|] == branches;
    return Ok(diverged);
  }

  /** The inner loop; a failing merge-base is an exception. */
  method CompareRow(base: Base, diverged: seq<Diverged>, i: nat) returns (r: Result<seq<ForkPair>, GitError>)
    requires i < |diverged|
    ensures r.Ok? <==> RowAnswered(base, diverged, i)
    ensures r.Ok? ==> r.value == RowForks(base, diverged, i, |diverged|)
    ensures r.Thrown? ==> r.error == NoMergeBase
  {
    var forked: seq<ForkPair> := [];
    for j := i + 1 to |diverged|
      invariant forked == RowForks(base, diverged, i, j)
      invariant forall l :: i < l < j ==> base(diverged[i].headSha, diverged[l].headSha).Some?
    {
      var a, b := diverged[i], diverged[j];
      var m := base(a.headSha, b.headSha);
      if m.None? {
        return Thrown(NoMergeBase);
      }
      if IsGenuineFork(m.value, a.headSha, b.headSha) {
        forked := forked + [ForkPair(a.branch, b.branch)];
      }
    }
    return Ok(forked);
  }

  /** The outer loop. */
  method ComparePairs(base: Base, diverged: seq<Diverged>) returns (r: Result<seq<ForkPair>, GitError>)
    ensures r.Ok? <==> Answered(base, diverged)
    ensures r.Ok? ==> r.value == Forks(base, diverged, |diverged|)
    ensures r.Thrown? ==> r.error == NoMergeBase
  {
    var forked: seq<ForkPair> := [];
    for i := 0 to |diverged|
      invariant forked == Forks(base, diverged, i)
      invariant forall k :: 0 <= k < i ==> RowAnswered(base, diverged, k)
    {
      var row := CompareRow(base, diverged, i);
      if row.Thrown? {
        assert !Answered(base, diverged);
        return Thrown(row.error);
      }
      assert Forks(base, diverged, i + 1) == Forks(base, diverged, i) + row.value;
      forked := forked + row.value;
    }
    assert Answered(base, diverged);
    return Ok(forked);
  }

  /** count stands for git rev-list --count main..tip, or -1. */
  method CheckWorktreeCollision(count: Count, base: Base, branches: seq<Branch>) returns (r: Result<Outcome, GitError>)
    ensures r.Ok? <==> AllKnown(branches) && Answered(base, DivergedOf(count, branches))
    ensures r.Ok? ==>
              && r.value.diverged == DivergedOf(count, branches)
              && r.value.forked == Forks(base, r.value.diverged, |r.value.diverged|)
              && (r.value.collisionRisk <==> r.value.forked != [])
    ensures r.Thrown? ==> r.error == if AllKnown(branches) then NoMergeBase else UnknownBranch
  {
    var listed := ListDiverged(count, branches);
    if listed.Thrown? {
      return Thrown(listed.error);
    }
    var forked := ComparePairs(base, listed.value);
    if forked.Thrown? {
      return Thrown(forked.error);
    }
    return Ok(Outcome(listed.value, forked.value, |forked.value| > 0));
  }

  // ---------- The reports ----------

  predicate ForkedAt(base: Base, ds: seq<Diverged>, a: nat, b: nat) { a < b < |ds| && Forked(base, ds[a], ds[b]) }

  function ReportAt(ds: seq<Diverged>, a: nat, b: nat): ForkPair
    requires a < |ds| && b < |ds|
  {
    ForkPair(ds[a].branch, ds[b].branch)
  }

  /** What the comparison of positions a and b adds. */
  function Cell(base: Base, ds: seq<Diverged>, a: nat): nat -> seq<ForkPair> {
    (b: nat) => if ForkedAt(base, ds, a, b) then [ReportAt(ds, a, b)] else []
  }

  /** The reports of position a against those below b, and of the positions below a against all. */
  function RowSoFar(base: Base, ds: seq<Diverged>, a: nat): nat -> seq<ForkPair> {
    (b: nat) => if a < b <= |ds| then RowForks(base, ds, a, b) else []
  }

  function WholeRow(base: Base, ds: seq<Diverged>): nat -> seq<ForkPair> {
    (a: nat) => if a < |ds| then RowForks(base, ds, a, |ds|) else []
  }

  function ForksSoFar(base: Base, ds: seq<Diverged>): nat -> seq<ForkPair> {
    (i: nat) => if i <= |ds| then Forks(base, ds, i) else []
  }

  lemma RowAccumulates(base: Base, ds: seq<Diverged>, a: nat)
    requires a < |ds|
    ensures Accumulates(RowSoFar(base, ds, a), Cell(base, ds, a), |ds|)
  {
  }

  lemma ForksAccumulate(base: Base, ds: seq<Diverged>)
    ensures Accumulates(ForksSoFar(base, ds), WholeRow(base, ds), |ds|)
  {
    var acc, part := ForksSoFar(base, ds), WholeRow(base, ds);
    forall i: nat | i < |ds| ensures AccumulatesAt(acc, part, i) {
      ForksStep(base, ds, i, acc(i), part(i));
    }
  }

  lemma ForksStep(base: Base, ds: seq<Diverged>, i: nat, before: seq<ForkPair>, row: seq<ForkPair>)
    requires i < |ds| && before == Forks(base, ds, i) && row == RowForks(base, ds, i, |ds|)
    ensures Forks(base, ds, i + 1) == before + row
  {
  }

  lemma ReportIsFork(base: Base, ds: seq<Diverged>, p: ForkPair) returns (a: nat, b: nat)
    requires p in Forks(base, ds, |ds|)
    ensures a < b < |ds| && Forked(base, ds[a], ds[b]) && p == ForkPair(ds[a].branch, ds[b].branch)
  {
    ForksAccumulate(base, ds);
    a := InAccumulated(ForksSoFar(base, ds), WholeRow(base, ds), |ds|, p);
    RowAccumulates(base, ds, a);
    b := InAccumulated(RowSoFar(base, ds, a), Cell(base, ds, a), |ds|, p);
  }

  lemma ForkIsReported(base: Base, ds: seq<Diverged>, a: nat, b: nat)
    requires ForkedAt(base, ds, a, b)
    ensures ReportAt(ds, a, b) in Forks(base, ds, |ds|)
  {
    RowAccumulates(base, ds, a);
    PartAccumulated(RowSoFar(base, ds, a), Cell(base, ds, a), |ds|, b, ReportAt(ds, a, b));
    ForksAccumulate(base, ds);
    PartAccumulated(ForksSoFar(base, ds), WholeRow(base, ds), |ds|, a, ReportAt(ds, a, b));
  }

  /** The reports name exactly the forked pairs. */
  lemma ReportsAreForkedPairs(base: Base, ds: seq<Diverged>, p: ForkPair)
    ensures p in Forks(base, ds, |ds|) <==> exists a: nat, b: nat :: ForkedAt(base, ds, a, b) && p == ReportAt(ds, a, b)
  {
    if p in Forks(base, ds, |ds|) {
      var a, b := ReportIsFork(base, ds, p);
      assert ForkedAt(base, ds, a, b);
    }
    if exists a: nat, b: nat :: ForkedAt(base, ds, a, b) && p == ReportAt(ds, a, b) {
      var a: nat, b: nat :| ForkedAt(base, ds, a, b) && p == ReportAt(ds, a, b);
      ForkIsReported(base, ds, a, b);
    }
  }

  /** The forked pairs of position a with those below b, and of the positions below a with all. */
  ghost function RowSet(base: Base, ds: seq<Diverged>, a: nat): nat -> set<(nat, nat)> {
    (b: nat) => set c: nat | c < b && ForkedAt(base, ds, a, c) :: (a, c)
  }

  ghost function ForkedBelow(base: Base, ds: seq<Diverged>): nat -> set<(nat, nat)> {
    (i: nat) => set a: nat, b: nat | a < i && b < |ds| && ForkedAt(base, ds, a, b) :: (a, b)
  }

  ghost function CellSet(base: Base, ds: seq<Diverged>, a: nat): nat -> set<(nat, nat)> {
    (b: nat) => if ForkedAt(base, ds, a, b) then {(a, b)} else {}
  }

  ghost function WholeRowSet(base: Base, ds: seq<Diverged>): nat -> set<(nat, nat)> { (a: nat) => RowSet(base, ds, a)(|ds|) }

  lemma RowSetGrows(base: Base, ds: seq<Diverged>, a: nat, b: nat)
    ensures JoinsAt(RowSet(base, ds, a), CellSet(base, ds, a), b)
  {
  }

  lemma RowSize(base: Base, ds: seq<Diverged>, a: nat)
    requires a < |ds|
    ensures |WholeRow(base, ds)(a)| == |WholeRowSet(base, ds)(a)|
  {
    RowAccumulates(base, ds, a);
    assert RowSet(base, ds, a)(0) == {};
    forall b: nat ensures JoinsAt(RowSet(base, ds, a), CellSet(base, ds, a), b) {
      RowSetGrows(base, ds, a, b);
    }
    SizeAccumulated(RowSoFar(base, ds, a), Cell(base, ds, a), RowSet(base, ds, a), CellSet(base, ds, a), |ds|);
  }

  lemma RowsPartition(base: Base, ds: seq<Diverged>, i: nat)
    requires i < |ds|
    ensures ForkedBelow(base, ds)(i + 1) == ForkedBelow(base, ds)(i) + WholeRowSet(base, ds)(i)
    ensures ForkedBelow(base, ds)(i) !! WholeRowSet(base, ds)(i)
  {
    forall p: (nat, nat)
      ensures p in ForkedBelow(base, ds)(i + 1) <==> p in ForkedBelow(base, ds)(i) || p in WholeRowSet(base, ds)(i)
      ensures !(p in ForkedBelow(base, ds)(i) && p in WholeRowSet(base, ds)(i))
    {
      ForkedBelowHas(base, ds, i, p);
      ForkedBelowHas(base, ds, i + 1, p);
      RowHas(base, ds, i, p);
    }
  }

  lemma ForkedBelowHas(base: Base, ds: seq<Diverged>, i: nat, p: (nat, nat))
    ensures p in ForkedBelow(base, ds)(i) <==> p.0 < i && ForkedAt(base, ds, p.0, p.1)
  {
  }

  lemma RowHas(base: Base, ds: seq<Diverged>, i: nat, p: (nat, nat))
    ensures p in WholeRowSet(base, ds)(i) <==> p.0 == i && ForkedAt(base, ds, i, p.1)
  {
    assert WholeRowSet(base, ds)(i) == RowSet(base, ds, i)(|ds|);
    assert p == (p.0, p.1);
  }

  /** Every unordered pair of branches is examined exactly once: the reports are as many as the forked pairs of positions. */
  lemma EveryPairOnce(base: Base, ds: seq<Diverged>)
    ensures |Forks(base, ds, |ds|)| == |ForkedBelow(base, ds)(|ds|)|
  {
    var acc, part, all, share := ForksSoFar(base, ds), WholeRow(base, ds), ForkedBelow(base, ds), WholeRowSet(base, ds);
    ForksAccumulate(base, ds);
    assert all(0) == {};
    forall i: nat | i < |ds| ensures |part(i)| == |share(i)| && JoinsAt(all, share, i) {
      RowSize(base, ds, i);
      RowsPartition(base, ds, i);
    }
    SizeAccumulated(acc, part, all, share, |ds|);
    assert acc(|ds|) == Forks(base, ds, |ds|);
  }

  lemma NoForksIff(base: Base, ds: seq<Diverged>)
    ensures Forks(base, ds, |ds|) == [] <==> forall i, j :: 0 <= i < j < |ds| ==> !Forked(base, ds[i], ds[j])
  {
    var forks := Forks(base, ds, |ds|);
    if forks != [] {
      var a, b := ReportIsFork(base, ds, forks[0]);
    } else {
      forall i, j | 0 <= i < j < |ds| ensures !Forked(base, ds[i], ds[j]) {
        if Forked(base, ds[i], ds[j]) {
          ForkIsReported(base, ds, i, j);
        }
      }
    }
  }

  // ---------- What no risk means ----------

  function Tips(ds: seq<Diverged>): (tips: seq<Sha>)
    ensures |tips| == |ds| && forall i :: 0 <= i < |ds| ==> tips[i] == ds[i].headSha
  {
    seq(|ds|, i requires 0 <= i < |ds| => ds[i].headSha)
  }

  ghost predicate AllIn(repo: Repo, tips: seq<Sha>) { forall i :: 0 <= i < |tips| ==> tips[i] in repo.parents }

  ghost predicate PairwiseComparable(repo: Repo, tips: seq<Sha>)
    requires repo.Valid() && AllIn(repo, tips)
  {
    forall i, j :: 0 <= i < j < |tips| ==> Comparable(repo, tips[i], tips[j])
  }

  ghost predicate SharedHistory(repo: Repo, tips: seq<Sha>)
    requires repo.Valid() && AllIn(repo, tips)
  {
    forall i, j :: 0 <= i < j < |tips| ==> Related(repo, tips[i], tips[j])
  }

  /** The check gets to the end exactly when every two compared branches share history. */
  lemma AnsweredIffShared(repo: Repo, base: Base, ds: seq<Diverged>)
    requires repo.Valid() && IsMergeBase(base, repo) && Known(repo, ds)
    ensures Answered(base, ds) <==> SharedHistory(repo, Tips(ds))
  {
    forall i, j | 0 <= i < j < |ds|
      ensures base(ds[i].headSha, ds[j].headSha).Some? <==> Related(repo, Tips(ds)[i], Tips(ds)[j])
    {
      var m := base(ds[i].headSha, ds[j].headSha);
      if m.Some? {
        assert Common(repo, m.value, ds[i].headSha, ds[j].headSha);
      }
    }
    if Answered(base, ds) {
      forall i, j | 0 <= i < j < |ds| ensures Related(repo, Tips(ds)[i], Tips(ds)[j]) {
        assert RowAnswered(base, ds, i);
      }
    }
    if SharedHistory(repo, Tips(ds)) {
      forall i | 0 <= i < |ds| ensures RowAnswered(base, ds, i) {
        forall j | i < j < |ds| ensures base(ds[i].headSha, ds[j].headSha).Some? {
          assert Related(repo, Tips(ds)[i], Tips(ds)[j]);
        }
      }
    }
  }

  /** Each tip contains every earlier one, so the last contains all. */
  ghost predicate Chain(repo: Repo, tips: seq<Sha>)
    requires repo.Valid() && AllIn(repo, tips)
  {
    forall i, j :: 0 <= i < j < |tips| ==> Ancestor(repo, tips[i], tips[j])
  }

  lemma ForkedIff(repo: Repo, base: Base, a: Diverged, b: Diverged)
    requires repo.Valid() && IsMergeBase(base, repo) && a.headSha in repo.parents && b.headSha in repo.parents
    requires base(a.headSha, b.headSha).Some?
    ensures Forked(base, a, b) <==> !Comparable(repo, a.headSha, b.headSha)
  {
    ForkIffIncomparable(repo, base(a.headSha, b.headSha).value, a.headSha, b.headSha);
  }

  lemma ComparableHasNoFork(repo: Repo, base: Base, ds: seq<Diverged>)
    requires repo.Valid() && IsMergeBase(base, repo) && Known(repo, ds) && Answered(base, ds)
    requires PairwiseComparable(repo, Tips(ds))
    ensures Forks(base, ds, |ds|) == []
  {
    forall i, j | 0 <= i < j < |ds| ensures !Forked(base, ds[i], ds[j]) {
      assert RowAnswered(base, ds, i) && Comparable(repo, Tips(ds)[i], Tips(ds)[j]);
      ForkedIff(repo, base, ds[i], ds[j]);
    }
    NoForksIff(base, ds);
  }

  lemma NoForkIsComparable(repo: Repo, base: Base, ds: seq<Diverged>)
    requires repo.Valid() && IsMergeBase(base, repo) && Known(repo, ds) && Answered(base, ds)
    requires Forks(base, ds, |ds|) == []
    ensures PairwiseComparable(repo, Tips(ds))
  {
    NoForksIff(base, ds);
    forall i, j | 0 <= i < j < |ds| ensures Comparable(repo, Tips(ds)[i], Tips(ds)[j]) {
      assert RowAnswered(base, ds, i);
      ForkedIff(repo, base, ds[i], ds[j]);
    }
  }

  lemma PrependToChain(repo: Repo, first: Sha, chain: seq<Sha>)
    requires repo.Valid() && AllIn(repo, chain) && Chain(repo, chain) && first in repo.parents
    requires forall k :: 0 <= k < |chain| ==> Ancestor(repo, first, chain[k])
    ensures AllIn(repo, [first] + chain) && Chain(repo, [first] + chain)
  {
  }

  lemma {:induction false} InsertIntoChain(repo: Repo, chain: seq<Sha>, x: Sha) returns (longer: seq<Sha>)
    requires repo.Valid() && AllIn(repo, chain) && Chain(repo, chain) && x in repo.parents
    requires forall i :: 0 <= i < |chain| ==> Comparable(repo, chain[i], x)
    ensures multiset(longer) == multiset(chain) + multiset{x}
    ensures AllIn(repo, longer) && Chain(repo, longer)
  {
    if chain == [] {
      longer := [x];
    } else if Ancestor(repo, x, chain[0]) {
      longer := [x] + chain;
      forall k | 0 <= k < |chain| ensures Ancestor(repo, x, chain[k]) {
        if k > 0 {
          AncestorTransitive(repo, x, chain[0], chain[k]);
        }
      }
      PrependToChain(repo, x, chain);
    } else {
      var rest := InsertIntoChain(repo, chain[1..], x);
      longer := [chain[0]] + rest;
      assert chain == [chain[0]] + chain[1..];
      forall k | 0 <= k < |rest| ensures Ancestor(repo, chain[0], rest[k]) {
        assert rest[k] in multiset(rest);
        assert rest[k] in chain[1..] || rest[k] == x;
      }
      PrependToChain(repo, chain[0], rest);
    }
  }

  lemma {:induction false} SortIntoChain(repo: Repo, tips: seq<Sha>) returns (chain: seq<Sha>)
    requires repo.Valid() && AllIn(repo, tips) && PairwiseComparable(repo, tips)
    ensures multiset(chain) == multiset(tips)
    ensures AllIn(repo, chain) && Chain(repo, chain)
  {
    if tips == [] {
      chain := [];
    } else {
      var rest := SortIntoChain(repo, tips[1..]);
      assert tips == [tips[0]] + tips[1..];
      forall k | 0 <= k < |rest| ensures Comparable(repo, rest[k], tips[0]) {
        assert rest[k] in multiset(tips[1..]);
        var l :| 0 <= l < |tips[1..]| && tips[1..][l] == rest[k];
        assert Comparable(repo, tips[0], tips[l + 1]);
      }
      chain := InsertIntoChain(repo, rest, tips[0]);
    }
  }

  lemma ChainIsComparable(repo: Repo, tips: seq<Sha>, chain: seq<Sha>)
    requires repo.Valid() && AllIn(repo, tips) && AllIn(repo, chain) && Chain(repo, chain)
    requires multiset(chain) == multiset(tips)
    ensures PairwiseComparable(repo, tips)
  {
    forall i, j | 0 <= i < j < |tips| ensures Comparable(repo, tips[i], tips[j]) {
      assert tips[i] in multiset(chain) && tips[j] in multiset(chain);
      var k :| 0 <= k < |chain| && chain[k] == tips[i];
      var l :| 0 <= l < |chain| && chain[l] == tips[j];
      if k != l {
        assert Ancestor(repo, chain[k], chain[l]) || Ancestor(repo, chain[l], chain[k]);
      }
    }
  }

  ghost predicate ChainOf(repo: Repo, chain: seq<Sha>, tips: seq<Sha>)
    requires repo.Valid()
  {
    multiset(chain) == multiset(tips) && AllIn(repo, chain) && Chain(repo, chain)
  }

  /**
   * Main result: for every commit graph and every choice merge-base may make, no risk is reported
   * exactly when the tips, reordered, form a chain under ancestry; its last tip contains all.
   */
  lemma NoRiskIffChain(repo: Repo, base: Base, ds: seq<Diverged>)
    requires repo.Valid() && IsMergeBase(base, repo) && Known(repo, ds) && Answered(base, ds)
    ensures Forks(base, ds, |ds|) == []
       <==> exists chain :: ChainOf(repo, chain, Tips(ds))
  {
    if Forks(base, ds, |ds|) == [] {
      NoForkIsComparable(repo, base, ds);
      var chain := SortIntoChain(repo, Tips(ds));
      assert ChainOf(repo, chain, Tips(ds));
    }
    if exists chain :: ChainOf(repo, chain, Tips(ds)) {
      var chain :| ChainOf(repo, chain, Tips(ds));
      ChainIsComparable(repo, Tips(ds), chain);
      ComparableHasNoFork(repo, base, ds);
    }
  }

  ghost predicate ContainsAll(repo: Repo, ds: seq<Diverged>, t: nat)
    requires repo.Valid() && Known(repo, ds) && t < |ds|
  {
    forall i :: 0 <= i < |ds| ==> Ancestor(repo, ds[i].headSha, ds[t].headSha)
  }

  /** Without risk some tip contains all others, and it is the only such commit. */
  lemma NoRiskHasTop(repo: Repo, base: Base, ds: seq<Diverged>) returns (t: nat)
    requires repo.Valid() && IsMergeBase(base, repo) && Known(repo, ds) && Answered(base, ds)
    requires ds != [] && Forks(base, ds, |ds|) == []
    ensures t < |ds| && ContainsAll(repo, ds, t)
    ensures forall u :: 0 <= u < |ds| && ContainsAll(repo, ds, u) ==> ds[u].headSha == ds[t].headSha
  {
    NoForkIsComparable(repo, base, ds);
    var chain := SortIntoChain(repo, Tips(ds));
    t := ChainTop(repo, Tips(ds), chain);
    forall i | 0 <= i < |ds| ensures Ancestor(repo, ds[i].headSha, ds[t].headSha) {
      assert Ancestor(repo, Tips(ds)[i], Tips(ds)[t]);
    }
    forall u | 0 <= u < |ds| && ContainsAll(repo, ds, u) ensures ds[u].headSha == ds[t].headSha {
      AncestorAntisymmetric(repo, ds[u].headSha, ds[t].headSha);
    }
  }

  lemma ChainTop(repo: Repo, tips: seq<Sha>, chain: seq<Sha>) returns (t: nat)
    requires repo.Valid() && AllIn(repo, tips) && AllIn(repo, chain) && Chain(repo, chain)
    requires multiset(chain) == multiset(tips) && tips != []
    ensures t < |tips| && forall i :: 0 <= i < |tips| ==> Ancestor(repo, tips[i], tips[t])
  {
    assert |chain| == |multiset(chain)| == |multiset(tips)| == |tips|;
    var top := chain[|chain| - 1];
    assert top in multiset(tips);
    t :| 0 <= t < |tips| && tips[t] == top;
    forall i | 0 <= i < |tips| ensures Ancestor(repo, tips[i], top) {
      assert tips[i] in multiset(chain);
      var k :| 0 <= k < |chain| && chain[k] == tips[i];
    }
  }

  /**
   * Main result, from the list of branches to the verdict: for every commit graph, every main and
   * every choice merge-base may make, the tips the check compares are commits of the graph, it gets
   * to the end exactly when they share history pairwise, and then it reports no risk exactly when
   * they can be ordered into a chain; without risk one of them contains all others.
   */
  lemma CheckIsExact(repo: Repo, main: Option<Sha>, count: Count, base: Base, branches: seq<Branch>)
    requires repo.Valid() && Resolves(repo, main) && CountsAhead(count, repo, main) && IsMergeBase(base, repo)
    requires AllKnown(branches) && AllResolve(repo, branches)
    ensures var ds := DivergedOf(count, branches);
      && Known(repo, ds)
      && (Answered(base, ds) <==> SharedHistory(repo, Tips(ds)))
      && (SharedHistory(repo, Tips(ds)) ==>
            && (Forks(base, ds, |ds|) == [] <==> exists chain :: ChainOf(repo, chain, Tips(ds)))
            && (ds != [] && Forks(base, ds, |ds|) == [] ==> exists t :: 0 <= t < |ds| && ContainsAll(repo, ds, t)))
  {
    var ds := DivergedOf(count, branches);
    DivergedResolve(repo, count, branches);
    AnsweredIffShared(repo, base, ds);
    if SharedHistory(repo, Tips(ds)) {
      NoRiskIffChain(repo, base, ds);
      if ds != [] && Forks(base, ds, |ds|) == [] {
        var t := NoRiskHasTop(repo, base, ds);
      }
    }
  }
}
