/** How often a job may be resubmitted: the counts read back from its event log, the checks against
    the limits of the job and of the system, and the bound they put on every log. */
module Resubmission {
  import opened Common

  datatype Event = Deep | Shallow | Other

  /** What the job description asks for, if it does, and what the system allows. */
  datatype Limits = Limits(jobRetry: Option<int>, jobShallow: Option<int>, maxRetry: int, maxShallow: int)

  datatype Check = Allowed | HitJob(limit: int) | HitMax(limit: int)

  datatype Answer = Logged(log: seq<Event>) | Refused(why: Check)

  // ---------------------------------------------------------------------
  // Counts

  function Count(log: seq<Event>, e: Event): nat {
    if log == [] then 0 else Count(log[..|log| - 1], e) + if log[|log| - 1] == e then 1 else 0
  }

  /** find_last_deep_resubmission: the last deep one, or the end. */
  function FindLastDeep(log: seq<Event>): (k: nat)
    ensures k <= |log|
    ensures k < |log| ==> log[k] == Deep && forall i :: k < i < |log| ==> log[i] != Deep
    ensures k == |log| ==> Deep !in log
  {
    SearchBack(log, |log|)
  }

  function SearchBack(log: seq<Event>, n: nat): (k: nat)
    requires n <= |log| && forall i :: n <= i < |log| ==> log[i] != Deep
    ensures k <= |log|
    ensures k < |log| ==> log[k] == Deep && forall i :: k < i < |log| ==> log[i] != Deep
    ensures k == |log| ==> Deep !in log
  {
    if n == 0 then |log| else if log[n - 1] == Deep then n - 1 else SearchBack(log, n - 1)
  }

  /** get_retry_counts. */
  function RetryCounts(log: seq<Event>): (nat, nat) {
    var k := FindLastDeep(log);
    var from := if k == |log| then 0 else k;
    (Count(log, Deep), Count(log[from..], Shallow))
  }

  /** The shallow resubmissions since the last deep one, told event by event. */
  function Since(log: seq<Event>): nat {
    if log == [] then 0 else
    match log[|log| - 1]
    case Deep => 0
    case Shallow => Since(log[..|log| - 1]) + 1
    case Other => Since(log[..|log| - 1])
  }

  lemma {:induction false} CountSince(log: seq<Event>, from: nat)
    requires from <= |log|
    requires forall i :: from < i < |log| ==> log[i] != Deep
    requires if from < |log| && log[from] == Deep then true else from == 0 && Deep !in log
    ensures Count(log[from..], Shallow) == Since(log)
    decreases |log|
  {
    if log != [] {
      var rest := log[..|log| - 1];
      if from == |log| - 1 {
        assert log[from..] == [log[from]] && log[from..][..0] == [];
      } else {
        assert log[from..][..|log| - 1 - from] == rest[from..];
        assert log[|log| - 1] in log;
        CountSince(rest, from);
      }
    }
  }

  lemma {:induction false} CountIsMultiplicity(log: seq<Event>, e: Event)
    ensures Count(log, e) == multiset(log)[e]
  {
    if log != [] {
      CountIsMultiplicity(log[..|log| - 1], e);
      assert log == log[..|log| - 1] + [log[|log| - 1]];
    }
  }

  lemma CountsSince(log: seq<Event>)
    ensures RetryCounts(log) == (Count(log, Deep), Since(log))
  {
    var k := FindLastDeep(log);
    CountSince(log, if k == |log| then 0 else k);
  }

  lemma SinceWithoutDeep(log: seq<Event>)
    requires Deep !in log
    ensures Since(log) == multiset(log)[Shallow]
  {
    CountSince(log, 0);
    assert log[0..] == log;
    CountIsMultiplicity(log, Shallow);
  }

  lemma SinceDeep(log: seq<Event>, k: nat)
    requires k < |log| && log[k] == Deep && Deep !in log[k + 1..]
    ensures Since(log) == multiset(log[k + 1..])[Shallow]
  {
    forall i | k < i < |log|
      ensures log[i] != Deep
    {
      assert log[i] == log[k + 1..][i - k - 1];
    }
    CountSince(log, k);
    CountIsMultiplicity(log[k..], Shallow);
    HeadAside(log, k);
  }

  lemma HeadAside(log: seq<Event>, k: nat)
    requires k < |log| && log[k] == Deep
    ensures multiset(log[k..])[Shallow] == multiset(log[k + 1..])[Shallow]
  {
    assert log[k..] == [log[k]] + log[k + 1..];
  }

  /** The deep count is that of all deep events, the shallow one that of the shallow events after the
      last deep one, wherever that is. */
  lemma CountsAreRight(log: seq<Event>)
    ensures RetryCounts(log) == (multiset(log)[Deep], Since(log))
    ensures Deep !in log ==> Since(log) == multiset(log)[Shallow]
    ensures forall k {:trigger log[k]} :: 0 <= k < |log| && log[k] == Deep && Deep !in log[k + 1..] ==>
              Since(log) == multiset(log[k + 1..])[Shallow]
  {
    CountsSince(log);
    CountIsMultiplicity(log, Deep);
    if Deep !in log {
      SinceWithoutDeep(log);
    }
    forall k | 0 <= k < |log| && log[k] == Deep && Deep !in log[k + 1..]
      ensures Since(log) == multiset(log[k + 1..])[Shallow]
    {
      SinceDeep(log, k);
    }
  }

  // ---------------------------------------------------------------------
  // Checks

  /** check_shallow_count. */
  function CheckShallow(l: Limits, count: int): Check {
    var job := if l.jobShallow.None? || l.jobShallow.value < 0 then 0 else l.jobShallow.value;
    if count >= job then HitJob(job) else
    var max := if l.maxShallow < 0 then 0 else l.maxShallow;
    if count >= max then HitMax(max) else Allowed
  }

  /** check_deep_count. */
  function CheckDeep(l: Limits, count: int): Check {
    var job := if l.jobRetry.None? || l.jobRetry.value < 0 then 0 else l.jobRetry.value;
    if count >= job then HitJob(job) else
    if count >= l.maxRetry then HitMax(l.maxRetry) else Allowed
  }

  predicate ShallowEnabled(l: Limits) {
    (if l.jobShallow.None? then 0 else l.jobShallow.value) != -1
  }

  function Least(job: Option<int>, max: int): nat {
    var j := if job.None? then 0 else job.value;
    var m := if j < max then j else max;
    if m < 0 then 0 else m
  }

  /** The limits in effect: max(0, min(job, system)), as the comment over the checks says. */
  function D(l: Limits): nat { Least(l.jobRetry, l.maxRetry) }

  function S(l: Limits): nat { Least(l.jobShallow, l.maxShallow) }

  /** The job says a count and this is below it. */
  predicate Below(count: int, limit: Option<int>) {
    limit.Some? && count < limit.value
  }

  /** A count is let through exactly when the job says a higher one and the system allows a higher one;
      a job that says none is never resubmitted. */
  lemma ChecksAreLimits(l: Limits, count: nat)
    ensures CheckDeep(l, count) == Allowed <==> Below(count, l.jobRetry) && count < l.maxRetry
    ensures CheckShallow(l, count) == Allowed <==> Below(count, l.jobShallow) && count < l.maxShallow
    ensures CheckDeep(l, count) == Allowed <==> count < D(l)
    ensures CheckShallow(l, count) == Allowed <==> count < S(l)
  {
  }

  /** The limit of the job is named where it is hit, that of the system otherwise; negative ones are
      named as zero, but for that of the system on deep resubmissions. */
  lemma LimitIsNamed(l: Limits, count: nat)
    ensures CheckDeep(l, count).HitJob? <==> !Below(count, l.jobRetry)
    ensures CheckShallow(l, count).HitJob? <==> !Below(count, l.jobShallow)
    ensures var c := CheckDeep(l, count);
            && (c.HitJob? ==> c.limit <= count && (c.limit == 0 || l.jobRetry == Some(c.limit)))
            && (c.HitMax? ==> c.limit == l.maxRetry <= count)
    ensures var c := CheckShallow(l, count);
            && (c.HitJob? ==> c.limit <= count && (c.limit == 0 || l.jobShallow == Some(c.limit)))
            && (c.HitMax? ==> c.limit <= count && c.limit >= 0 && (c.limit == 0 || l.maxShallow == c.limit))
  {
  }

  /** The resubmission branch; `token` tells whether the token of the last submission was still there. */
  function Resubmit(l: Limits, log: seq<Event>, token: bool): Answer {
    var (deep, shallow) := RetryCounts(log);
    if ShallowEnabled(l) && token then
      var check := CheckShallow(l, shallow);
      if check == Allowed then Logged(log + [Shallow]) else Refused(check)
    else
      var check := CheckDeep(l, deep);
      if check == Allowed then Logged(log + [Deep]) else Refused(check)
  }

  // ---------------------------------------------------------------------
  // Whole runs

  /** Other events come in at any time, and so do resubmission requests. */
  datatype Move = Tick | Request(token: bool)

  function Moved(l: Limits, log: seq<Event>, m: Move): seq<Event> {
    match m
    case Tick => log + [Other]
    case Request(token) =>
      var a := Resubmit(l, log, token);
      if a.Logged? then a.log else log
  }

  function After(l: Limits, log: seq<Event>, moves: seq<Move>): seq<Event>
    decreases |moves|
  {
    if moves == [] then log else After(l, Moved(l, log, moves[0]), moves[1..])
  }

  predicate Bounded(l: Limits, log: seq<Event>) {
    && Count(log, Deep) <= D(l) && Since(log) <= S(l)
    && Count(log, Deep) + Count(log, Shallow) <= Count(log, Deep) * (S(l) + 1) + Since(log)
  }

  lemma Grown(log: seq<Event>, e: Event)
    ensures Count(log + [e], Deep) == Count(log, Deep) + if e == Deep then 1 else 0
    ensures Count(log + [e], Shallow) == Count(log, Shallow) + if e == Shallow then 1 else 0
    ensures Since(log + [e]) == match e case Deep => 0 case Shallow => Since(log) + 1 case Other => Since(log)
  {
    assert (log + [e])[..|log|] == log;
  }

  /**
    * What a request leads to.  With the token still there the shallow count decides, unless the job
    * says -1; a job that says nothing is refused.  Without the token, or with -1, the deep count does.
    */
  lemma RequestIs(l: Limits, log: seq<Event>, token: bool)
    ensures var a := Resubmit(l, log, token);
            if token && l.jobShallow != Some(-1)
            then if Below(Since(log), l.jobShallow) && Since(log) < l.maxShallow then a == Logged(log + [Shallow])
                 else a == Refused(CheckShallow(l, Since(log)))
            else if Below(Count(log, Deep), l.jobRetry) && Count(log, Deep) < l.maxRetry then a == Logged(log + [Deep])
                 else a == Refused(CheckDeep(l, Count(log, Deep)))
  {
    CountsSince(log);
    ChecksAreLimits(l, Count(log, Deep));
    ChecksAreLimits(l, Since(log));
  }

  /** With the token there, a job that says no shallow count is refused whatever its deep count allows. */
  lemma SilentJobIsRefused(l: Limits, log: seq<Event>)
    requires l.jobShallow == None
    ensures Resubmit(l, log, true) == Refused(HitJob(0))
  {
    RequestIs(l, log, true);
    LimitIsNamed(l, Since(log));
  }

  lemma MoveKeepsBound(l: Limits, log: seq<Event>, m: Move)
    requires Bounded(l, log)
    ensures Bounded(l, Moved(l, log, m))
  {
    match m
    case Tick => Grown(log, Other);
    case Request(token) =>
      var a := Resubmit(l, log, token);
      RequestIs(l, log, token);
      if a == Logged(log + [Shallow]) {
        ChecksAreLimits(l, Since(log));
        Grown(log, Shallow);
      } else if a == Logged(log + [Deep]) {
        ChecksAreLimits(l, Count(log, Deep));
        DeepKeepsBound(l, log);
      }
  }

  lemma DeepKeepsBound(l: Limits, log: seq<Event>)
    requires Bounded(l, log) && Count(log, Deep) < D(l)
    ensures Bounded(l, log + [Deep])
  {
    Grown(log, Deep);
    OneRoundMore(Count(log, Deep), Count(log, Shallow), Since(log), S(l));
  }

  lemma OneRoundMore(deep: nat, shallow: nat, since: nat, s: nat)
    requires since <= s && deep + shallow <= deep * (s + 1) + since
    ensures deep + 1 + shallow <= (deep + 1) * (s + 1)
  {
  }

  lemma {:induction false} RunKeepsBound(l: Limits, log: seq<Event>, moves: seq<Move>)
    requires Bounded(l, log)
    ensures Bounded(l, After(l, log, moves))
    decreases |moves|
  {
    if moves != [] {
      MoveKeepsBound(l, log, moves[0]);
      RunKeepsBound(l, Moved(l, log, moves[0]), moves[1..]);
    }
  }

  lemma BoundProduct(d: nat, dmax: nat, s: nat)
    requires d <= dmax
    ensures d * (s + 1) + s <= (dmax + 1) * (s + 1) - 1
  {
    assert (dmax + 1) * (s + 1) == dmax * (s + 1) + s + 1;
    assert (dmax - d) * (s + 1) == dmax * (s + 1) - d * (s + 1);
    assert (dmax - d) * (s + 1) >= 0;
  }

  /** Whatever is requested in whatever order, a log holds at most D deep resubmissions, and at
      most (D+1)(S+1)-1 in all. */
  lemma ResubmissionsAreBounded(l: Limits, moves: seq<Move>)
    ensures var log := After(l, [], moves);
            && multiset(log)[Deep] <= D(l)
            && multiset(log)[Deep] + multiset(log)[Shallow] <= (D(l) + 1) * (S(l) + 1) - 1
  {
    assert Bounded(l, []);
    RunKeepsBound(l, [], moves);
    var log := After(l, [], moves);
    CountIsMultiplicity(log, Deep);
    CountIsMultiplicity(log, Shallow);
    BoundProduct(Count(log, Deep), D(l), S(l));
  }

  // ---------------------------------------------------------------------
  // The bound is reached

  lemma {:induction false} AfterConcat(l: Limits, log: seq<Event>, a: seq<Move>, b: seq<Move>)
    ensures After(l, log, a + b) == After(l, After(l, log, a), b)
    decreases |a|
  {
    if a == [] {
      assert a + b == b;
    } else {
      assert (a + b)[0] == a[0] && (a + b)[1..] == a[1..] + b;
      AfterConcat(l, Moved(l, log, a[0]), a[1..], b);
    }
  }

  lemma OneMore(l: Limits, log: seq<Event>, moves: seq<Move>, token: bool, e: Event)
    requires After(l, [], moves) == log && Resubmit(l, log, token) == Logged(log + [e])
    ensures After(l, [], moves + [Request(token)]) == log + [e]
  {
    AfterConcat(l, [], moves, [Request(token)]);
    assert [Request(token)][1..] == [];
    assert After(l, log, [Request(token)]) == After(l, log + [e], []);
  }

  /** A log that some requests lead to, with that many resubmissions. */
  ghost predicate Reached(l: Limits, moves: seq<Move>, log: seq<Event>, deep: nat, shallow: nat, since: nat) {
    && After(l, [], moves) == log
    && Count(log, Deep) == deep && Count(log, Shallow) == shallow && Since(log) == since
  }

  lemma ShallowOnce(l: Limits, moves: seq<Move>, log: seq<Event>, deep: nat, shallow: nat, since: nat)
    requires Reached(l, moves, log, deep, shallow, since) && since < S(l)
    ensures Reached(l, moves + [Request(true)], log + [Shallow], deep, shallow + 1, since + 1)
  {
    RequestIs(l, log, true);
    ChecksAreLimits(l, since);
    OneMore(l, log, moves, true, Shallow);
    Grown(log, Shallow);
  }

  lemma DeepOnce(l: Limits, moves: seq<Move>, log: seq<Event>, deep: nat, shallow: nat, since: nat)
    requires Reached(l, moves, log, deep, shallow, since) && deep < D(l)
    ensures Reached(l, moves + [Request(false)], log + [Deep], deep + 1, shallow, 0)
  {
    RequestIs(l, log, false);
    ChecksAreLimits(l, deep);
    OneMore(l, log, moves, false, Deep);
    Grown(log, Deep);
  }

  /** From `since` shallow resubmissions on, up to the limit. */
  lemma {:induction false} UseShallow(l: Limits, moves: seq<Move>, log: seq<Event>, deep: nat, shallow: nat, since: nat)
    returns (all: seq<Move>, full: seq<Event>)
    requires Reached(l, moves, log, deep, shallow, since) && since <= S(l)
    ensures Reached(l, all, full, deep, shallow + S(l) - since, S(l))
    decreases S(l) - since
  {
    all, full := moves, log;
    if since < S(l) {
      ShallowOnce(l, moves, log, deep, shallow, since);
      all, full := UseShallow(l, moves + [Request(true)], log + [Shallow], deep, shallow + 1, since + 1);
    }
  }

  lemma {:induction false} UseAll(l: Limits, deep: nat) returns (all: seq<Move>, full: seq<Event>)
    requires deep <= D(l)
    ensures Reached(l, all, full, deep, (deep + 1) * S(l), S(l))
  {
    if deep == 0 {
      all, full := UseShallow(l, [], [], 0, 0, 0);
    } else {
      var before, log := UseAll(l, deep - 1);
      DeepOnce(l, before, log, deep - 1, deep * S(l), S(l));
      all, full := UseShallow(l, before + [Request(false)], log + [Deep], deep, deep * S(l), 0);
      assert (deep + 1) * S(l) == deep * S(l) + S(l);
    }
  }

  /** No smaller bound would do, and at the bound every further request is refused. */
  lemma BoundIsReached(l: Limits) returns (moves: seq<Move>)
    ensures var log := After(l, [], moves);
            && multiset(log)[Deep] == D(l)
            && multiset(log)[Deep] + multiset(log)[Shallow] == (D(l) + 1) * (S(l) + 1) - 1
            && forall token :: Resubmit(l, log, token).Refused?
  {
    var log: seq<Event>;
    moves, log := UseAll(l, D(l));
    RequestIs(l, log, true);
    RequestIs(l, log, false);
    ChecksAreLimits(l, D(l));
    ChecksAreLimits(l, S(l));
    CountIsMultiplicity(log, Deep);
    CountIsMultiplicity(log, Shallow);
    assert (D(l) + 1) * (S(l) + 1) == (D(l) + 1) * S(l) + D(l) + 1;
  }
}
