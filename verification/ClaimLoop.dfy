/**
 * The bounded claim loop that every queue worker runs: poll for a job, process it, and stop after
 * so many iterations or after so many consecutive empty polls.
 */
module ClaimLoop {
  import opened Wrappers
  import opened Sequences

  /** What became of one poll. */
  datatype Poll = Empty | Success | Failure | Threw

  /** polls made, whether an exception ended the loop, and the consecutive empty polls at its end. */
  datatype Ending = Ending(polls: nat, threw: bool, emptyPolls: nat)

  function Run(poll: nat -> Poll, i: nat, emptyPolls: nat, iterations: int, limit: int): Ending
    decreases iterations - i
  {
    if i >= iterations then Ending(i, false, emptyPolls)
    else
      match poll(i)
      case Empty =>
        if emptyPolls + 1 >= limit then Ending(i + 1, false, emptyPolls + 1)
        else Run(poll, i + 1, emptyPolls + 1, iterations, limit)
      case Threw => Ending(i + 1, true, 0)
      case _ => Run(poll, i + 1, 0, iterations, limit)
  }

  /** The n polls before i were empty, and the one before those was not. */
  ghost predicate TrailingEmpty(poll: nat -> Poll, i: nat, n: nat) {
    && n <= i
    && (forall k :: i - n <= k < i ==> poll(k) == Empty)
    && (n < i ==> poll(i - n - 1) != Empty)
  }

  lemma TrailingEmptyIsUnique(poll: nat -> Poll, i: nat, m: nat, n: nat)
    requires TrailingEmpty(poll, i, m) && TrailingEmpty(poll, i, n)
    ensures m == n
  {
  }

  /** How many empty polls in a row end a run. */
  function Patience(limit: int): nat { if limit < 1 then 1 else limit }

  lemma {:induction false} RunBounds(poll: nat -> Poll, i: nat, emptyPolls: nat, iterations: int, limit: int)
    requires emptyPolls < Patience(limit)
    ensures var end := Run(poll, i, emptyPolls, iterations, limit);
      && i <= end.polls && (iterations >= i ==> end.polls <= iterations) && (iterations < i ==> end.polls == i)
      && end.emptyPolls <= Patience(limit)
      && (!end.threw && end.polls < iterations ==> end.emptyPolls == Patience(limit))
      && (end.emptyPolls == Patience(limit) ==> end.polls > i && !end.threw)
    decreases iterations - i
  {
    if i < iterations && poll(i) != Threw {
      if poll(i) != Empty {
        RunBounds(poll, i + 1, 0, iterations, limit);
      } else if emptyPolls + 1 < limit {
        RunBounds(poll, i + 1, emptyPolls + 1, iterations, limit);
      }
    }
  }

  /** The polls before the n-th did not throw, except that the last of them did if `threw`. */
  ghost predicate ThrewAtEnd(poll: nat -> Poll, n: nat, threw: bool) {
    forall k :: 0 <= k < n ==> (poll(k) == Threw <==> threw && k == n - 1)
  }

  lemma {:induction false} RunThrows(poll: nat -> Poll, i: nat, emptyPolls: nat, iterations: int, limit: int)
    requires ThrewAtEnd(poll, i, false)
    ensures var end := Run(poll, i, emptyPolls, iterations, limit); ThrewAtEnd(poll, end.polls, end.threw)
    decreases iterations - i
  {
    if i < iterations && poll(i) != Threw {
      if poll(i) != Empty {
        RunThrows(poll, i + 1, 0, iterations, limit);
      } else if emptyPolls + 1 < limit {
        RunThrows(poll, i + 1, emptyPolls + 1, iterations, limit);
      }
    }
  }

  lemma {:induction false} RunTrails(poll: nat -> Poll, i: nat, emptyPolls: nat, iterations: int, limit: int)
    requires TrailingEmpty(poll, i, emptyPolls)
    ensures var end := Run(poll, i, emptyPolls, iterations, limit); TrailingEmpty(poll, end.polls, end.emptyPolls)
    decreases iterations - i
  {
    if i < iterations && poll(i) != Threw {
      if poll(i) != Empty {
        RunTrails(poll, i + 1, 0, iterations, limit);
      } else if emptyPolls + 1 < limit {
        RunTrails(poll, i + 1, emptyPolls + 1, iterations, limit);
      }
    }
  }

  /**
   * The loop makes at most `iterations` polls, goes on past an exception never, and stops early
   * exactly when its last polls were the limit's number of empty ones (one, for a limit below one);
   * before that there was no such stretch.
   */
  lemma RunEnds(poll: nat -> Poll, i: nat, emptyPolls: nat, iterations: int, limit: int)
    requires TrailingEmpty(poll, i, emptyPolls) && emptyPolls < Patience(limit)
    requires ThrewAtEnd(poll, i, false)
    ensures var end := Run(poll, i, emptyPolls, iterations, limit);
      && i <= end.polls && (iterations >= i ==> end.polls <= iterations) && (iterations < i ==> end.polls == i)
      && ThrewAtEnd(poll, end.polls, end.threw)
      && TrailingEmpty(poll, end.polls, end.emptyPolls)
      && end.emptyPolls <= Patience(limit)
      && (!end.threw && end.polls < iterations ==> end.emptyPolls == Patience(limit))
      && (end.emptyPolls == Patience(limit) ==> end.polls > i && !end.threw)
  {
    RunBounds(poll, i, emptyPolls, iterations, limit);
    RunThrows(poll, i, emptyPolls, iterations, limit);
    RunTrails(poll, i, emptyPolls, iterations, limit);
  }

  // ---------- The counters ----------

  datatype Counters = Counters(claimed: nat, succeeded: nat, failed: nat, emptyPolls: nat)

  function CountPoll(c: Counters, poll: Poll): Counters {
    match poll
    case Empty => c.(emptyPolls := c.emptyPolls + 1)
    case Success => Counters(c.claimed + 1, c.succeeded + 1, c.failed, 0)
    case Failure => Counters(c.claimed + 1, c.succeeded, c.failed + 1, 0)
    case Threw => c
  }

  function Tally(poll: nat -> Poll, n: nat): Counters {
    if n == 0 then Counters(0, 0, 0, 0) else CountPoll(Tally(poll, n - 1), poll(n - 1))
  }

  lemma {:induction false} TallyIs(poll: nat -> Poll, n: nat)
    requires forall i: nat :: i < n ==> poll(i) != Threw
    ensures TrailingEmpty(poll, n, Tally(poll, n).emptyPolls)
    ensures Tally(poll, n).claimed == Tally(poll, n).succeeded + Tally(poll, n).failed <= n
  {
    if n > 0 {
      TallyIs(poll, n - 1);
    }
  }

  // ---------- What the polls lead to ----------

  /** One poll: no job, or a job with the effects of its run and its result. */
  datatype Seen<+E, +O, +X> = NoJob | Ran(events: seq<E>, result: Result<O, X>)

  function PollOf<E, O, X>(seen: Seen<E, O, X>, success: O -> bool): Poll {
    match seen
    case NoJob => Empty
    case Ran(_, Thrown(_)) => Threw
    case Ran(_, Ok(outcome)) => if success(outcome) then Success else Failure
  }

  function Polls<E, O, X>(seen: nat -> Seen<E, O, X>, success: O -> bool): nat -> Poll { (i: nat) => PollOf(seen(i), success) }

  function EventsOf<E, O, X>(seen: Seen<E, O, X>): seq<E> { if seen.Ran? then seen.events else [] }

  /** Everything the first n polls made the worker do. */
  function Trace<E, O, X>(seen: nat -> Seen<E, O, X>, n: nat): seq<E> {
    if n == 0 then [] else Trace(seen, n - 1) + EventsOf(seen(n - 1))
  }

  /** The weights of the outcomes of the first n polls together. */
  function Total<E, O, X>(seen: nat -> Seen<E, O, X>, n: nat, weight: O -> nat): nat {
    if n == 0 then 0 else Total(seen, n - 1, weight) + WeightOf(seen(n - 1), weight)
  }

  function WeightOf<E, O, X>(seen: Seen<E, O, X>, weight: O -> nat): nat {
    if seen.Ran? && seen.result.Ok? then weight(seen.result.value) else 0
  }

  lemma {:induction false} TraceCount<E, O, X>(seen: nat -> Seen<E, O, X>, n: nat, p: E -> bool, weight: O -> nat)
    requires forall i: nat :: i < n ==> Count(EventsOf(seen(i)), p) == WeightOf(seen(i), weight)
    ensures Count(Trace(seen, n), p) == Total(seen, n, weight)
  {
    if n > 0 {
      TraceCount(seen, n - 1, p, weight);
      CountAppend(Trace(seen, n - 1), EventsOf(seen(n - 1)), p);
    }
  }

  lemma {:induction false} TallyIsTotal<E, O, X>(seen: nat -> Seen<E, O, X>, n: nat, success: O -> bool)
    ensures Tally(Polls(seen, success), n).claimed == Total(seen, n, (o: O) => 1)
    ensures Tally(Polls(seen, success), n).succeeded == Total(seen, n, (o: O) => if success(o) then 1 else 0)
  {
    if n > 0 {
      TallyIsTotal(seen, n - 1, success);
      assert Polls(seen, success)(n - 1) == PollOf(seen(n - 1), success);
    }
  }

  /** The run reports once; it reports a completion exactly when its outcome is a success. */
  ghost predicate OneReport<E(!new), O, X>(seen: Seen<E, O, X>, success: O -> bool, isReport: E -> bool, isCompletion: E -> bool) {
    && Count(EventsOf(seen), isReport) == WeightOf(seen, (o: O) => 1)
    && Count(EventsOf(seen), isCompletion) == WeightOf(seen, (o: O) => if success(o) then 1 else 0)
  }

  /** Among polls that do not throw, the counters count the reports and the completions. */
  lemma ReportsAreCounted<E(!new), O, X>(
      seen: nat -> Seen<E, O, X>, n: nat, success: O -> bool, isReport: E -> bool, isCompletion: E -> bool)
    requires forall i: nat :: i < n ==> OneReport(seen(i), success, isReport, isCompletion)
    ensures var t := Tally(Polls(seen, success), n);
      Count(Trace(seen, n), isReport) == t.claimed && Count(Trace(seen, n), isCompletion) == t.succeeded
  {
    TraceCount(seen, n, isReport, (o: O) => 1);
    TraceCount(seen, n, isCompletion, (o: O) => if success(o) then 1 else 0);
    TallyIsTotal(seen, n, success);
  }

  /** A run that did not throw, as the polls of a worker. */
  lemma ReturningRun<E, O, X>(seen: nat -> Seen<E, O, X>, success: O -> bool, iterations: int, limit: int)
    requires !Run(Polls(seen, success), 0, 0, iterations, limit).threw
    ensures var n := Run(Polls(seen, success), 0, 0, iterations, limit).polls;
      var t := Tally(Polls(seen, success), n);
      && t.claimed == t.succeeded + t.failed <= n <= (if iterations < 0 then 0 else iterations)
      && (n < iterations ==> t.emptyPolls == Patience(limit))
      && TrailingEmpty(Polls(seen, success), n, t.emptyPolls)
      && forall i: nat :: i < n ==> PollOf(seen(i), success) != Threw
  {
    var poll := Polls(seen, success);
    var end := Run(poll, 0, 0, iterations, limit);
    RunEnds(poll, 0, 0, iterations, limit);
    forall i: nat | i < end.polls ensures poll(i) != Threw && PollOf(seen(i), success) != Threw {
      assert poll(i) == PollOf(seen(i), success);
    }
    TallyIs(poll, end.polls);
    TrailingEmptyIsUnique(poll, end.polls, Tally(poll, end.polls).emptyPolls, end.emptyPolls);
  }

  /**
   * A worker run that returns counts every claimed job once, as a success or a failure, within its
   * budget, with one report for each and a completion for each success; if it stopped early it has
   * just seen the limit's number of empty polls.
   */
  lemma RunIsAccounted<E(!new), O, X>(
      seen: nat -> Seen<E, O, X>, success: O -> bool, isReport: E -> bool, isCompletion: E -> bool, iterations: int, limit: int)
    requires !Run(Polls(seen, success), 0, 0, iterations, limit).threw
    requires forall i: nat :: PollOf(seen(i), success) != Threw ==> OneReport(seen(i), success, isReport, isCompletion)
    ensures var n := Run(Polls(seen, success), 0, 0, iterations, limit).polls;
      var t := Tally(Polls(seen, success), n);
      && t.claimed == t.succeeded + t.failed <= n <= (if iterations < 0 then 0 else iterations)
      && Count(Trace(seen, n), isReport) == t.claimed && Count(Trace(seen, n), isCompletion) == t.succeeded
      && (n < iterations ==>
            && t.emptyPolls == Patience(limit) <= n
            && forall k: nat :: n - t.emptyPolls <= k < n ==> seen(k) == NoJob)
      && forall i: nat :: i < n ==> PollOf(seen(i), success) != Threw
  {
    var poll := Polls(seen, success);
    var n := Run(poll, 0, 0, iterations, limit).polls;
    ReturningRun(seen, success, iterations, limit);
    ReportsAreCounted(seen, n, success, isReport, isCompletion);
    forall k: nat | poll(k) == Empty ensures seen(k) == NoJob {
      assert poll(k) == PollOf(seen(k), success);
    }
  }

  /** What one more poll does to the counters and to the rest of the loop. */
  lemma PollStep<E, O, X>(seen: nat -> Seen<E, O, X>, success: O -> bool, i: nat, c: Counters, iterations: int, limit: int)
    requires i < iterations && Tally(Polls(seen, success), i) == c
    ensures var poll := Polls(seen, success); var run := Run(poll, i, c.emptyPolls, iterations, limit);
      && Tally(poll, i + 1) == CountPoll(c, PollOf(seen(i), success))
      && (seen(i).NoJob? ==> run == if c.emptyPolls + 1 >= limit then Ending(i + 1, false, c.emptyPolls + 1)
                                    else Run(poll, i + 1, c.emptyPolls + 1, iterations, limit))
      && (seen(i).Ran? && seen(i).result.Thrown? ==> run == Ending(i + 1, true, 0))
      && (seen(i).Ran? && seen(i).result.Ok? ==> run == Run(poll, i + 1, 0, iterations, limit))
  {
    assert Polls(seen, success)(i) == PollOf(seen(i), success);
  }
}
