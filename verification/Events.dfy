/** The event scheduler: events wait until their time, become ready, and are taken by priority and
    then by time. */
module Events {

  datatype Event = Event(time: int, priority: int, id: nat)

  // ---------------------------------------------------------------------
  // The two queues

  /** priority_first. */
  predicate Before(a: Event, b: Event) {
    a.priority < b.priority || (a.priority == b.priority && a.time < b.time)
  }

  predicate ReadyOrder(q: seq<Event>) {
    forall i, j :: 0 <= i < j < |q| ==> !Before(q[j], q[i])
  }

  predicate WaitingOrder(q: seq<Event>) {
    forall i, j :: 0 <= i < j < |q| ==> q[i].time <= q[j].time
  }

  /** Where a new ready event goes: behind every event that is not after it. */
  function ReadyPlace(q: seq<Event>, e: Event): (k: nat)
    ensures k <= |q| && (forall i :: 0 <= i < k ==> !Before(e, q[i])) && (k < |q| ==> Before(e, q[k]))
  {
    if q == [] || Before(e, q[0]) then 0 else 1 + ReadyPlace(q[1..], e)
  }

  /** The first event of that time or later; the ordering, being `<=`, puts a new event before its equals. */
  function WaitingPlace(q: seq<Event>, e: Event): (k: nat)
    ensures k <= |q| && (forall i :: 0 <= i < k ==> q[i].time < e.time) && (k < |q| ==> e.time <= q[k].time)
  {
    if q == [] || e.time <= q[0].time then 0 else 1 + WaitingPlace(q[1..], e)
  }

  function Inserted(q: seq<Event>, k: nat, e: Event): seq<Event>
    requires k <= |q|
  {
    q[..k] + [e] + q[k..]
  }

  function InsertReady(q: seq<Event>, e: Event): seq<Event> {
    Inserted(q, ReadyPlace(q, e), e)
  }

  function InsertWaiting(q: seq<Event>, e: Event): seq<Event> {
    Inserted(q, WaitingPlace(q, e), e)
  }

  lemma InsertedElements(q: seq<Event>, k: nat, e: Event)
    requires k <= |q|
    ensures multiset(Inserted(q, k, e)) == multiset(q) + multiset{e}
  {
    assert q == q[..k] + q[k..];
  }

  lemma InsertReadyKeeps(q: seq<Event>, e: Event)
    requires ReadyOrder(q)
    ensures ReadyOrder(InsertReady(q, e)) && multiset(InsertReady(q, e)) == multiset(q) + multiset{e}
  {
    var k := ReadyPlace(q, e);
    InsertedElements(q, k, e);
    forall j | k <= j < |q|
      ensures !Before(q[j], e)
    {
      assert Before(e, q[k]) && (k < j ==> !Before(q[j], q[k]));
    }
  }

  lemma InsertWaitingKeeps(q: seq<Event>, e: Event)
    requires WaitingOrder(q)
    ensures WaitingOrder(InsertWaiting(q, e)) && multiset(InsertWaiting(q, e)) == multiset(q) + multiset{e}
  {
    InsertedElements(q, WaitingPlace(q, e), e);
  }

  /** lower_bound with an ordering that holds of equals stops at the first event after `now`. */
  function Expired(q: seq<Event>, now: int): (k: nat)
    ensures k <= |q| && (forall i :: 0 <= i < k ==> q[i].time <= now) && (k < |q| ==> q[k].time > now)
  {
    if q == [] || q[0].time > now then 0 else 1 + Expired(q[1..], now)
  }

  function InsertAll(q: seq<Event>, es: seq<Event>): seq<Event> {
    if es == [] then q else InsertReady(InsertAll(q, es[..|es| - 1]), es[|es| - 1])
  }

  lemma {:induction false} InsertAllKeeps(q: seq<Event>, es: seq<Event>)
    requires ReadyOrder(q)
    ensures ReadyOrder(InsertAll(q, es)) && multiset(InsertAll(q, es)) == multiset(q) + multiset(es)
  {
    if es != [] {
      var last := |es| - 1;
      InsertAllKeeps(q, es[..last]);
      InsertReadyKeeps(InsertAll(q, es[..last]), es[last]);
      SplitsOff(es);
    }
  }

  lemma SplitsOff(es: seq<Event>)
    requires es != []
    ensures multiset(es) == multiset(es[..|es| - 1]) + multiset{es[|es| - 1]}
  {
    assert es == es[..|es| - 1] + [es[|es| - 1]];
  }

  datatype Queues = Queues(waiting: seq<Event>, ready: seq<Event>)

  function ExpiredToReady(q: Queues, now: int): Queues {
    var k := Expired(q.waiting, now);
    Queues(q.waiting[k..], InsertAll(q.ready, q.waiting[..k]))
  }

  predicate Ordered(q: Queues) {
    WaitingOrder(q.waiting) && ReadyOrder(q.ready)
  }

  function All(q: Queues): multiset<Event> {
    multiset(q.waiting) + multiset(q.ready)
  }

  lemma WaitingSplits(w: seq<Event>, k: nat, now: int)
    requires WaitingOrder(w) && k <= |w|
    requires (forall i :: 0 <= i < k ==> w[i].time <= now) && (k < |w| ==> w[k].time > now)
    ensures w == w[..k] + w[k..] && WaitingOrder(w[k..])
    ensures forall e :: e in w[..k] <==> e in w && e.time <= now
    ensures forall e :: e in w[k..] <==> e in w && e.time > now
  {
    var gone, kept := w[..k], w[k..];
    forall e | e in gone
      ensures e in w && e.time <= now
    {
      var i :| 0 <= i < k && gone[i] == e;
      assert w[i] == e;
    }
    forall e | e in kept
      ensures e in w && e.time > now
    {
      var i :| 0 <= i < |kept| && kept[i] == e;
      assert w[k + i] == e && w[k].time <= w[k + i].time;
    }
    assert w == gone + kept;
  }

  lemma SameElements(r: seq<Event>, q: seq<Event>, es: seq<Event>)
    requires multiset(r) == multiset(q) + multiset(es)
    ensures forall e :: e in r <==> e in q || e in es
  {
    forall e
      ensures e in r <==> e in q || e in es
    {
      assert e in r <==> e in multiset(r);
      assert e in q <==> e in multiset(q);
      assert e in es <==> e in multiset(es);
    }
  }

  /** Exactly the events whose time has come leave the waiting queue, and nothing is lost. */
  lemma ExpiredToReadyMoves(q: Queues, now: int)
    requires Ordered(q)
    ensures var r := ExpiredToReady(q, now);
            && Ordered(r) && All(r) == All(q)
            && (forall e :: e in r.waiting <==> e in q.waiting && e.time > now)
            && (forall e :: e in r.ready <==> e in q.ready || (e in q.waiting && e.time <= now))
  {
    var k := Expired(q.waiting, now);
    WaitingSplits(q.waiting, k, now);
    InsertAllKeeps(q.ready, q.waiting[..k]);
    SameElements(InsertAll(q.ready, q.waiting[..k]), q.ready, q.waiting[..k]);
  }

  // ---------------------------------------------------------------------
  // Events of one time and priority

  /** The events of the queue with that time and priority, in order. */
  function Ties(q: seq<Event>, time: int, priority: int): seq<Event> {
    if q == [] then [] else
    var e := q[|q| - 1];
    Ties(q[..|q| - 1], time, priority) + if e.time == time && e.priority == priority then [e] else []
  }

  lemma {:induction false} TiesConcat(a: seq<Event>, b: seq<Event>, time: int, priority: int)
    ensures Ties(a + b, time, priority) == Ties(a, time, priority) + Ties(b, time, priority)
    decreases |b|
  {
    if b == [] {
      assert a + b == a;
    } else {
      var n := |b| - 1;
      TiesConcat(a, b[..n], time, priority);
      assert (a + b)[..|a + b| - 1] == a + b[..n] && (a + b)[|a + b| - 1] == b[n];
    }
  }

  lemma {:induction false} NoTies(q: seq<Event>, time: int, priority: int)
    requires forall i :: 0 <= i < |q| ==> q[i].time != time || q[i].priority != priority
    ensures Ties(q, time, priority) == []
  {
    if q != [] {
      NoTies(q[..|q| - 1], time, priority);
    }
  }

  lemma OneTie(e: Event, time: int, priority: int)
    ensures Ties([e], time, priority) == if e.time == time && e.priority == priority then [e] else []
  {
    assert [e][..0] == [];
  }

  lemma AroundTies(a: seq<Event>, e: Event, b: seq<Event>, time: int, priority: int)
    ensures Ties(a + [e] + b, time, priority)
            == Ties(a, time, priority) + (if e.time == time && e.priority == priority then [e] else []) + Ties(b, time, priority)
  {
    TiesConcat(a + [e], b, time, priority);
    TiesConcat(a, [e], time, priority);
    OneTie(e, time, priority);
  }

  lemma BehindTies(a: seq<Event>, e: Event, b: seq<Event>, time: int, priority: int)
    requires e.time == time && e.priority == priority ==> Ties(b, time, priority) == []
    ensures Ties(a + [e] + b, time, priority) ==
            Ties(a + b, time, priority) + if e.time == time && e.priority == priority then [e] else []
  {
    AroundTies(a, e, b, time, priority);
    TiesConcat(a, b, time, priority);
  }

  lemma FrontTies(a: seq<Event>, e: Event, b: seq<Event>, time: int, priority: int)
    requires e.time == time && e.priority == priority ==> Ties(a, time, priority) == []
    ensures Ties(a + [e] + b, time, priority) ==
            (if e.time == time && e.priority == priority then [e] else []) + Ties(a + b, time, priority)
  {
    AroundTies(a, e, b, time, priority);
    TiesConcat(a, b, time, priority);
  }

  /** All from the place of a new ready event on come after it. */
  lemma AfterPlace(q: seq<Event>, e: Event, i: nat)
    requires ReadyOrder(q) && ReadyPlace(q, e) <= i < |q|
    ensures Before(e, q[i])
  {
    var k := ReadyPlace(q, e);
    assert Before(e, q[k]) && (k < i ==> !Before(q[i], q[k]));
  }

  /** A ready event goes behind those of its time and priority. */
  lemma ReadyTies(q: seq<Event>, e: Event, time: int, priority: int)
    requires ReadyOrder(q)
    ensures Ties(InsertReady(q, e), time, priority) ==
            Ties(q, time, priority) + if e.time == time && e.priority == priority then [e] else []
  {
    var k := ReadyPlace(q, e);
    var a, b := q[..k], q[k..];
    assert q == a + b;
    if e.time == time && e.priority == priority {
      NoTiesBehind(q, e);
    }
    BehindTies(a, e, b, time, priority);
  }

  lemma NoTiesBehind(q: seq<Event>, e: Event)
    requires ReadyOrder(q)
    ensures Ties(q[ReadyPlace(q, e)..], e.time, e.priority) == []
  {
    var k := ReadyPlace(q, e);
    var b := q[k..];
    forall i | 0 <= i < |b|
      ensures b[i].time != e.time || b[i].priority != e.priority
    {
      AfterPlace(q, e, k + i);
    }
    NoTies(b, e.time, e.priority);
  }

  /** A waiting event goes before those of its time and priority. */
  lemma WaitingTies(q: seq<Event>, e: Event, time: int, priority: int)
    ensures Ties(InsertWaiting(q, e), time, priority) ==
            (if e.time == time && e.priority == priority then [e] else []) + Ties(q, time, priority)
  {
    var k := WaitingPlace(q, e);
    var a, b := q[..k], q[k..];
    assert q == a + b;
    if e.time == time && e.priority == priority {
      NoTies(a, time, priority);
    }
    FrontTies(a, e, b, time, priority);
  }

  lemma {:induction false} InsertAllTies(q: seq<Event>, es: seq<Event>, time: int, priority: int)
    requires ReadyOrder(q)
    ensures Ties(InsertAll(q, es), time, priority) == Ties(q, time, priority) + Ties(es, time, priority)
  {
    if es != [] {
      var n := |es| - 1;
      InsertAllTies(q, es[..n], time, priority);
      InsertAllKeeps(q, es[..n]);
      ReadyTies(InsertAll(q, es[..n]), es[n], time, priority);
    }
  }

  /** Expired events go behind the ready ones of their time and priority, in the order they waited in:
      of those scheduled for one time, the last scheduled comes first. */
  lemma ExpiredTies(q: Queues, now: int, time: int, priority: int)
    requires Ordered(q)
    ensures var r := ExpiredToReady(q, now);
            && Ties(r.ready, time, priority)
               == Ties(q.ready, time, priority) + (if time <= now then Ties(q.waiting, time, priority) else [])
            && Ties(r.waiting, time, priority) == if time <= now then [] else Ties(q.waiting, time, priority)
  {
    var k := Expired(q.waiting, now);
    var gone, kept := q.waiting[..k], q.waiting[k..];
    WaitingSplits(q.waiting, k, now);
    InsertAllTies(q.ready, gone, time, priority);
    SplitTies(gone, kept, now, time, priority);
  }

  lemma SplitTies(gone: seq<Event>, kept: seq<Event>, now: int, time: int, priority: int)
    requires (forall e :: e in gone ==> e.time <= now) && (forall e :: e in kept ==> e.time > now)
    ensures Ties(gone, time, priority) == if time <= now then Ties(gone + kept, time, priority) else []
    ensures Ties(kept, time, priority) == if time <= now then [] else Ties(gone + kept, time, priority)
  {
    TiesConcat(gone, kept, time, priority);
    if time <= now {
      NoTies(kept, time, priority);
    } else {
      NoTies(gone, time, priority);
    }
  }

  // ---------------------------------------------------------------------
  // Workers and schedulers

  /** Where a worker is: out of the monitor, in the first wait, in the timed wait, or done. */
  datatype Phase = Free | Blocked | Timed | Gone

  datatype Taking = Taking(event: Event, clock: int)

  /** `broken` once the first waiting event was looked up in an empty queue. */
  datatype State = State(
    queues: Queues, shutdown: bool, clock: int, workers: seq<Phase>,
    scheduled: multiset<Event>, taken: seq<Taking>, broken: bool)

  datatype Action =
    | Schedule(event: Event)
    | ScheduleAt(event: Event)
    | Work(worker: nat, now: int)
    | Tick(clock: int)
    | Stop

  function Init(workers: nat, clock: int): State {
    State(Queues([], []), false, clock, seq(workers, _ => Free), multiset{}, [], false)
  }

  /** Clocks do not run backwards, and nobody reads one that is ahead. */
  predicate Enabled(s: State, a: Action) {
    !s.broken &&
    match a
    case Schedule(e) => e.time <= s.clock
    case ScheduleAt(_) => true
    case Work(w, now) => w < |s.workers| && s.workers[w] != Gone && now <= s.clock
    case Tick(clock) => s.clock <= clock
    case Stop => true
  }

  function Moved(s: State, now: int): State {
    s.(queues := ExpiredToReady(s.queues, now))
  }

  function Take(s: State, w: nat): State
    requires w < |s.workers| && s.queues.ready != []
  {
    s.(queues := s.queues.(ready := s.queues.ready[1..]), workers := s.workers[w := Free],
       taken := s.taken + [Taking(s.queues.ready[0], s.clock)])
  }

  /** The worker loop from a call of expired_to_ready to its next wait or to the end of the section. */
  function Collect(s: State, w: nat, now: int): State
    requires w < |s.workers|
  {
    var m := Moved(s, now);
    if m.shutdown then m.(workers := m.workers[w := Gone])
    else if m.queues.ready != [] then Take(m, w)
    else if m.queues.waiting == [] then m.(broken := true)
    else m.(workers := m.workers[w := Timed])
  }

  function Added(s: State, e: Event): State {
    s.(queues := s.queues.(ready := InsertReady(s.queues.ready, e)), scheduled := s.scheduled + multiset{e})
  }

  function AddedAt(s: State, e: Event): State {
    s.(queues := s.queues.(waiting := InsertWaiting(s.queues.waiting, e)), scheduled := s.scheduled + multiset{e})
  }

  function Worked(s: State, w: nat, now: int): State
    requires w < |s.workers|
  {
    if s.workers[w] == Timed then Collect(s, w, now)
    else if s.shutdown then s.(workers := s.workers[w := Gone])
    else if s.queues.ready == [] && s.queues.waiting == [] then s.(workers := s.workers[w := Blocked])
    else Collect(s, w, now)
  }

  function Step(s: State, a: Action): State
    requires Enabled(s, a)
  {
    match a
    case Schedule(e) => Added(s, e)
    case ScheduleAt(e) => AddedAt(s, e)
    case Work(w, now) => Worked(s, w, now)
    case Tick(clock) => s.(clock := clock)
    case Stop => s.(shutdown := true)
  }

  predicate CanRun(s: State, run: seq<Action>)
    decreases |run|
  {
    run == [] || (Enabled(s, run[0]) && CanRun(Step(s, run[0]), run[1..]))
  }

  function After(s: State, run: seq<Action>): State
    requires CanRun(s, run)
    decreases |run|
  {
    if run == [] then s else After(Step(s, run[0]), run[1..])
  }

  function Taken(taken: seq<Taking>): multiset<Event> {
    if taken == [] then multiset{}
    else Taken(taken[..|taken| - 1]) + multiset{taken[|taken| - 1].event}
  }

  // ---------------------------------------------------------------------
  // What every run keeps

  predicate Inv(s: State) {
    && Ordered(s.queues)
    && s.scheduled == All(s.queues) + Taken(s.taken)
    && (forall e :: e in s.queues.ready ==> e.time <= s.clock)
    && (forall i :: 0 <= i < |s.taken| ==> s.taken[i].event.time <= s.taken[i].clock)
  }

  /** Among all that is ready or has expired, the event taken has the least priority number and, of
      those with it, the least time. */
  ghost predicate FirstOf(q: Queues, now: int, e: Event) {
    && (e in q.ready || (e in q.waiting && e.time <= now))
    && (forall x :: x in q.ready || (x in q.waiting && x.time <= now) ==>
          e.priority < x.priority || (e.priority == x.priority && e.time <= x.time))
  }

  lemma TakenGrows(taken: seq<Taking>, t: Taking)
    ensures Taken(taken + [t]) == Taken(taken) + multiset{t.event}
  {
    assert (taken + [t])[..|taken|] == taken;
  }

  lemma HeadIsFirst(q: seq<Event>)
    requires ReadyOrder(q) && q != []
    ensures forall x :: x in q ==> !Before(x, q[0])
    ensures ReadyOrder(q[1..]) && multiset(q) == multiset{q[0]} + multiset(q[1..])
    ensures forall e :: e in q[1..] ==> e in q
  {
    assert q == [q[0]] + q[1..];
  }

  lemma MovedKeeps(s: State, now: int)
    requires Inv(s) && now <= s.clock
    ensures Inv(Moved(s, now))
  {
    ExpiredToReadyMoves(s.queues, now);
  }

  lemma TakeKeeps(s: State, w: nat)
    requires Inv(s) && w < |s.workers| && s.queues.ready != []
    ensures Inv(Take(s, w))
  {
    var q := s.queues.ready;
    HeadIsFirst(q);
    TakenGrows(s.taken, Taking(q[0], s.clock));
    assert q[0] in q;
  }

  lemma CollectKeeps(s: State, w: nat, now: int)
    requires Inv(s) && w < |s.workers| && now <= s.clock
    ensures Inv(Collect(s, w, now))
  {
    var m := Moved(s, now);
    MovedKeeps(s, now);
    if !m.shutdown && m.queues.ready != [] {
      TakeKeeps(m, w);
    } else {
      OnlyWorkersChange(m, Collect(s, w, now));
    }
  }

  /** Who waits and whether the scheduler broke is no part of what is kept. */
  lemma OnlyWorkersChange(s: State, t: State)
    requires Inv(s) && t == s.(workers := t.workers, broken := t.broken)
    ensures Inv(t)
  {
  }

  lemma TakesFirst(s: State, w: nat, now: int)
    requires Inv(s) && w < |s.workers|
    ensures var t := Collect(s, w, now);
            t.taken != s.taken ==>
              |t.taken| == |s.taken| + 1 && FirstOf(s.queues, now, t.taken[|s.taken|].event)
  {
    ExpiredToReadyMoves(s.queues, now);
    var q := ExpiredToReady(s.queues, now).ready;
    if q != [] {
      HeadIsFirst(q);
      assert q[0] in q;
    }
  }

  lemma AddedKeeps(s: State, e: Event)
    requires Inv(s) && e.time <= s.clock
    ensures Inv(Added(s, e))
  {
    InsertReadyKeeps(s.queues.ready, e);
    SameElements(InsertReady(s.queues.ready, e), s.queues.ready, [e]);
  }

  lemma AddedAtKeeps(s: State, e: Event)
    requires Inv(s)
    ensures Inv(AddedAt(s, e))
  {
    InsertWaitingKeeps(s.queues.waiting, e);
  }

  lemma WorkedKeeps(s: State, w: nat, now: int)
    requires Inv(s) && w < |s.workers| && now <= s.clock
    ensures Inv(Worked(s, w, now))
  {
    if Worked(s, w, now) == Collect(s, w, now) {
      CollectKeeps(s, w, now);
    } else {
      OnlyWorkersChange(s, Worked(s, w, now));
    }
  }

  lemma StepKeeps(s: State, a: Action)
    requires Inv(s) && Enabled(s, a)
    ensures Inv(Step(s, a))
  {
    match a
    case Schedule(e) => AddedKeeps(s, e);
    case ScheduleAt(e) => AddedAtKeeps(s, e);
    case Work(w, now) => WorkedKeeps(s, w, now);
    case _ =>
  }

  /**
    * Over any run of any number of workers and schedulers: what was scheduled is waiting, ready or
    * taken, each as often as it was scheduled, and no event was taken before its time.
    */
  lemma {:induction false} RunKeeps(s: State, run: seq<Action>)
    requires Inv(s) && CanRun(s, run)
    ensures Inv(After(s, run))
    decreases |run|
  {
    if run != [] {
      StepKeeps(s, run[0]);
      RunKeeps(Step(s, run[0]), run[1..]);
    }
  }

  /** Whenever in a run an event is taken, none that was ready or had expired comes before it. */
  lemma RunTakesFirst(workers: nat, clock: int, run: seq<Action>, a: Action)
    requires CanRun(Init(workers, clock), run) && Enabled(After(Init(workers, clock), run), a)
    ensures var s := After(Init(workers, clock), run);
            var t := Step(s, a);
            t.taken != s.taken ==>
              && a.Work? && |t.taken| == |s.taken| + 1
              && FirstOf(s.queues, a.now, t.taken[|s.taken|].event)
  {
    RunKeeps(Init(workers, clock), run);
    StepTakesFirst(After(Init(workers, clock), run), a);
  }

  lemma StepTakesFirst(s: State, a: Action)
    requires Inv(s) && Enabled(s, a)
    ensures var t := Step(s, a);
            t.taken != s.taken ==>
              && a.Work? && |t.taken| == |s.taken| + 1
              && FirstOf(s.queues, a.now, t.taken[|s.taken|].event)
  {
    if a.Work? {
      TakesFirst(s, a.worker, a.now);
    }
  }

  /** Once stopped, a scheduler hands out nothing: the queues stay as full as they are, and every worker
      that looks leaves for good. */
  lemma {:induction false} StoppedTakesNothing(s: State, run: seq<Action>)
    requires CanRun(s, run) && s.shutdown
    ensures var t := After(s, run);
            && t.shutdown && t.taken == s.taken && |t.workers| == |s.workers|
            && (forall w :: 0 <= w < |s.workers| && s.workers[w] == Gone ==> t.workers[w] == Gone)
            && (forall a :: a in run && a.Work? ==> a.worker < |s.workers| && t.workers[a.worker] == Gone)
    decreases |run|
  {
    if run != [] {
      StoppedTakesNothing(Step(s, run[0]), run[1..]);
    }
  }

  lemma {:induction false} RunSplits(s: State, a: seq<Action>, b: seq<Action>)
    ensures CanRun(s, a + b) <==> CanRun(s, a) && CanRun(After(s, a), b)
    ensures CanRun(s, a + b) ==> After(s, a + b) == After(After(s, a), b)
    decreases |a|
  {
    if a == [] {
      assert a + b == b;
    } else {
      assert (a + b)[0] == a[0] && (a + b)[1..] == a[1..] + b;
      if Enabled(s, a[0]) {
        RunSplits(Step(s, a[0]), a[1..], b);
      }
    }
  }

  /** In every run nothing is taken after a Stop. */
  lemma NothingAfterStop(workers: nat, clock: int, past: seq<Action>, rest: seq<Action>)
    requires CanRun(Init(workers, clock), past + ([Stop] + rest))
    ensures CanRun(Init(workers, clock), past)
    ensures After(Init(workers, clock), past + ([Stop] + rest)).taken == After(Init(workers, clock), past).taken
  {
    RunSplits(Init(workers, clock), past, [Stop] + rest);
    var s := After(Init(workers, clock), past);
    assert ([Stop] + rest)[1..] == rest;
    StoppedTakesNothing(Step(s, Stop), rest);
  }

  // ---------------------------------------------------------------------
  // One worker

  /** A lone worker in its timed wait has something to wait for. */
  predicate Awaits(s: State) {
    && |s.workers| <= 1 && !s.broken
    && (|s.workers| == 1 && s.workers[0] == Timed ==> s.queues.waiting != [] || s.queues.ready != [])
  }

  lemma MovedEmpties(q: Queues, now: int)
    requires Ordered(q)
    ensures var r := ExpiredToReady(q, now);
            r.waiting == [] && r.ready == [] ==> q.waiting == [] && q.ready == []
  {
    ExpiredToReadyMoves(q, now);
    var r := ExpiredToReady(q, now);
    assert q.ready != [] ==> q.ready[0] in r.ready;
    assert q.waiting != [] ==> q.waiting[0] in q.waiting;
  }

  lemma WorkedAwaits(s: State, w: nat, now: int)
    requires Ordered(s.queues) && w < |s.workers| && Awaits(s)
    ensures Awaits(Worked(s, w, now))
  {
    MovedEmpties(s.queues, now);
  }

  lemma StepAwaits(s: State, a: Action)
    requires Ordered(s.queues) && Enabled(s, a) && Awaits(s)
    ensures Awaits(Step(s, a))
  {
    if a.Work? {
      WorkedAwaits(s, a.worker, a.now);
    }
  }

  lemma {:induction false} RunAwaits(s: State, run: seq<Action>)
    requires Inv(s) && CanRun(s, run) && Awaits(s)
    ensures Awaits(After(s, run))
    decreases |run|
  {
    if run != [] {
      StepKeeps(s, run[0]);
      StepAwaits(s, run[0]);
      RunAwaits(Step(s, run[0]), run[1..]);
    }
  }

  ghost predicate Breaks(workers: nat, clock: int, run: seq<Action>) {
    CanRun(Init(workers, clock), run) && After(Init(workers, clock), run).broken
  }

  lemma {:induction false} RunOn(s: State, run: seq<Action>, a: Action)
    requires CanRun(s, run) && Enabled(After(s, run), a)
    ensures CanRun(s, run + [a]) && After(s, run + [a]) == Step(After(s, run), a)
    decreases |run|
  {
    if run == [] {
      assert [a][1..] == [];
    } else {
      assert (run + [a])[0] == run[0] && (run + [a])[1..] == run[1..] + [a];
      RunOn(Step(s, run[0]), run[1..], a);
    }
  }

  /** The one timed event of the run below waits for its time. */
  lemma OneTimedEvent(e: Event)
    ensures InsertWaiting([], e) == [e]
    ensures ExpiredToReady(Queues([e], []), e.time - 1) == Queues([e], [])
    ensures ExpiredToReady(Queues([e], []), e.time) == Queues([], [e])
    ensures ExpiredToReady(Queues([], []), e.time) == Queues([], [])
  {
    assert Expired([e], e.time) == 1;
    assert [e][..0] == [] && InsertAll([], [e]) == InsertReady([], e);
  }

  /** The event waits, and so do the first two workers. */
  predicate BothWait(s: State, e: Event) {
    && s.queues == Queues([e], []) && |s.workers| >= 2 && s.workers[0] == s.workers[1] == Timed
    && !s.shutdown && !s.broken
  }

  lemma BothCanWait(workers: nat, clock: int, e: Event) returns (run: seq<Action>)
    requires workers >= 2 && e.time == clock + 1
    ensures CanRun(Init(workers, clock), run)
    ensures BothWait(After(Init(workers, clock), run), e) && After(Init(workers, clock), run).clock == clock
  {
    var s := Init(workers, clock);
    OneTimedEvent(e);
    run := [];
    RunOn(s, run, ScheduleAt(e));
    run := run + [ScheduleAt(e)];
    assert After(s, run) == s.(queues := Queues([e], []), scheduled := multiset{e});
    RunOn(s, run, Work(0, clock));
    run := run + [Work(0, clock)];
    assert After(s, run).queues == Queues([e], []) && After(s, run).workers == s.workers[0 := Timed];
    RunOn(s, run, Work(1, clock));
    run := run + [Work(1, clock)];
  }

  /** Its time come, the one takes it and the other finds nothing to wait for. */
  lemma SecondBreaks(s: State, e: Event)
    requires BothWait(s, e) && s.clock == e.time - 1
    ensures var run := [Tick(e.time), Work(0, e.time), Work(1, e.time)];
            CanRun(s, run) && After(s, run).broken
  {
    OneTimedEvent(e);
    var t := Step(s, Tick(e.time));
    var u := Step(t, Work(0, e.time));
    assert u.queues == Queues([], []) && u.workers[1] == Timed && !u.broken && !u.shutdown && u.clock == e.time;
    var v := Step(u, Work(1, e.time));
    assert v.broken && CanRun(v, []) && After(v, []) == v;
    var x, y := Work(0, e.time), Work(1, e.time);
    assert [y][1..] == [] && [x, y][1..] == [y] && [Tick(e.time), x, y][1..] == [x, y];
    assert CanRun(u, [y]) && After(u, [y]) == v;
    assert CanRun(t, [x, y]) && After(t, [x, y]) == v;
  }

  /** Two workers in the timed wait for one event: one takes it, the other finds nothing to wait for. */
  lemma TwoWorkersBreak(workers: nat, clock: int) returns (run: seq<Action>)
    requires workers >= 2
    ensures Breaks(workers, clock, run)
  {
    var e := Event(clock + 1, 0, 0);
    run := BothCanWait(workers, clock, e);
    var s := After(Init(workers, clock), run);
    SecondBreaks(s, e);
    var rest := [Tick(e.time), Work(0, e.time), Work(1, e.time)];
    RunSplits(Init(workers, clock), run, rest);
    run := run + rest;
  }

  /** The timed wait looks at the first event of an empty queue in some run exactly when there are two workers or more. */
  lemma SafeWithOneWorker(workers: nat, clock: int)
    ensures (exists run :: Breaks(workers, clock, run)) <==> workers >= 2
  {
    if workers >= 2 {
      var run := TwoWorkersBreak(workers, clock);
    } else {
      forall run | CanRun(Init(workers, clock), run)
        ensures !Breaks(workers, clock, run)
      {
        RunAwaits(Init(workers, clock), run);
      }
    }
  }

  // ---------------------------------------------------------------------
  // The scheduler itself

  lemma IsReadyPlace(q: seq<Event>, e: Event, k: nat)
    requires k <= |q| && (forall i :: 0 <= i < k ==> !Before(e, q[i])) && (k < |q| ==> Before(e, q[k]))
    ensures k == ReadyPlace(q, e)
  {
  }

  lemma IsWaitingPlace(q: seq<Event>, e: Event, k: nat)
    requires k <= |q| && (forall i :: 0 <= i < k ==> q[i].time < e.time) && (k < |q| ==> e.time <= q[k].time)
    ensures k == WaitingPlace(q, e)
  {
  }

  lemma IsExpired(q: seq<Event>, now: int, k: nat)
    requires k <= |q| && (forall i :: 0 <= i < k ==> q[i].time <= now) && (k < |q| ==> q[k].time > now)
    ensures k == Expired(q, now)
  {
  }

  class Scheduler {
    var ready: seq<Event>
    var waiting: seq<Event>
    var shutdown: bool
    var workers: seq<Phase>
    ghost var clock: int
    ghost var scheduled: multiset<Event>
    ghost var taken: seq<Taking>
    ghost var broken: bool

    ghost predicate Valid()
      reads this
    {
      Ordered(Queues(waiting, ready))
    }

    ghost function Now(): State
      reads this
    {
      State(Queues(waiting, ready), shutdown, clock, workers, scheduled, taken, broken)
    }

    constructor (n: nat, ghost now: int)
      ensures Valid() && Now() == Init(n, now)
    {
      ready, waiting, shutdown, workers := [], [], false, seq(n, _ => Free);
      clock, scheduled, taken, broken := now, multiset{}, [], false;
    }

    method AddReady(e: Event)
      requires Valid()
      modifies `ready
      ensures Valid() && ready == InsertReady(old(ready), e)
    {
      InsertReadyKeeps(ready, e);
      var k := 0;
      while k < |ready| && !Before(e, ready[k])
        invariant k <= |ready| && forall i :: 0 <= i < k ==> !Before(e, ready[i])
      {
        k := k + 1;
      }
      IsReadyPlace(ready, e, k);
      ready := ready[..k] + [e] + ready[k..];
    }

    /** schedule, with the time just read. */
    method Schedule(e: Event)
      requires Valid() && Enabled(Now(), Action.Schedule(e))
      modifies `ready, `scheduled
      ensures Valid() && Now() == Step(old(Now()), Action.Schedule(e))
      ensures multiset(ready) == multiset(old(ready)) + multiset{e}
    {
      InsertReadyKeeps(ready, e);
      AddReady(e);
      scheduled := scheduled + multiset{e};
    }

    /** schedule_at. */
    method ScheduleAt(e: Event)
      requires Valid() && !broken
      modifies `waiting, `scheduled
      ensures Valid() && Now() == Step(old(Now()), Action.ScheduleAt(e))
      ensures multiset(waiting) == multiset(old(waiting)) + multiset{e}
    {
      InsertWaitingKeeps(waiting, e);
      var k := 0;
      while k < |waiting| && waiting[k].time < e.time
        invariant k <= |waiting| && forall i :: 0 <= i < k ==> waiting[i].time < e.time
      {
        k := k + 1;
      }
      IsWaitingPlace(waiting, e, k);
      waiting := waiting[..k] + [e] + waiting[k..];
      scheduled := scheduled + multiset{e};
    }

    method Stop()
      requires !broken
      modifies `shutdown
      ensures shutdown && Now() == Step(old(Now()), Action.Stop)
    {
      shutdown := true;
    }

    /** Makes the events whose time has come ready, one by one. */
    method InsertExpired(now: int) returns (k: nat)
      requires Valid()
      modifies `ready
      ensures Valid() && k == Expired(waiting, now) && ready == InsertAll(old(ready), waiting[..k])
    {
      k := 0;
      while k < |waiting| && waiting[k].time <= now
        invariant k <= |waiting| && Valid()
        invariant ready == InsertAll(old(ready), waiting[..k])
        invariant forall i :: 0 <= i < k ==> waiting[i].time <= now
      {
        assert waiting[..k + 1][..k] == waiting[..k];
        AddReady(waiting[k]);
        k := k + 1;
      }
      IsExpired(waiting, now, k);
    }

    method ExpireWaiting(now: int)
      requires Valid()
      modifies `ready, `waiting
      ensures Valid() && Queues(waiting, ready) == ExpiredToReady(old(Queues(waiting, ready)), now)
    {
      ExpiredToReadyMoves(Queues(waiting, ready), now);
      var k := InsertExpired(now);
      waiting := waiting[k..];
    }

    /** The section of a worker from a call of expired_to_ready to its next wait or to its end. */
    method CollectNext(w: nat, now: int) returns (e: seq<Event>)
      requires Valid() && w < |workers|
      modifies `ready, `waiting, `workers, `taken, `broken
      ensures Valid() && Now() == Collect(old(Now()), w, now)
      ensures |e| <= 1 && (e == [] <==> taken == old(taken))
      ensures e != [] ==> !shutdown && FirstOf(old(Queues(waiting, ready)), now, e[0])
      ensures e != [] ==> taken == old(taken) + [Taking(e[0], clock)]
    {
      ExpiredToReadyMoves(Queues(waiting, ready), now);
      ExpireWaiting(now);
      e := [];
      if shutdown {
        workers := workers[w := Gone];
      } else if ready != [] {
        HeadIsFirst(ready);
        assert ready[0] in ready;
        e := [ready[0]];
        taken := taken + [Taking(ready[0], clock)];
        ready, workers := ready[1..], workers[w := Free];
      } else if waiting == [] {
        broken := true;
      } else {
        workers := workers[w := Timed];
      }
    }

    /** A worker's pass through run: from the lock, or out of a wait, to its next wait or to the event it
        is to carry out. */
    method Work(w: nat, now: int) returns (e: seq<Event>)
      requires Valid() && Enabled(Now(), Action.Work(w, now))
      modifies this
      ensures Valid() && Now() == Step(old(Now()), Action.Work(w, now))
      ensures |e| <= 1 && (e == [] <==> taken == old(taken))
      ensures e != [] ==> !shutdown && FirstOf(old(Queues(waiting, ready)), now, e[0])
    {
      e := [];
      if workers[w] != Timed && shutdown {
        workers := workers[w := Gone];
      } else if workers[w] != Timed && ready == [] && waiting == [] {
        workers := workers[w := Blocked];
      } else {
        e := CollectNext(w, now);
      }
    }
  }
}
