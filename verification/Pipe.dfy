/** The bounded pipe between tasks: a monitor with two condition variables, any number of reader
    and writer threads, and ends that close for good. */
module Pipe {
  import opened Common

  /** What the outside sees of a call, in the order of the critical sections. */
  datatype Event<T> =
    | Put(item: T) | Took(item: T) | SawEof | SawEmpty | SawSigPipe | SawFull
    | ReadEndClosed | WriteEndClosed

  /**
    * The fields of the pipe, the threads waiting on each condition variable, those notified but
    * not yet back in the monitor, and what each waiting writer is about to push.
    */
  datatype State<T> = State(
    max: nat, queue: seq<T>, readers: int, writers: int, readClosed: bool, writeClosed: bool,
    sleepingReaders: set<nat>, wokenReaders: set<nat>,
    sleepingWriters: set<nat>, wokenWriters: set<nat>, items: map<nat, T>,
    log: seq<Event<T>>)

  /**
    * One stretch of execution under the mutex. `wake` is the thread a notify_one picks. A wait
    * ends one stretch; the notified thread comes back with a Resume.
    */
  datatype Action<T> =
    | Read(thread: nat, wake: Option<nat>)
    | ResumeRead(thread: nat, wake: Option<nat>)
    | TryRead(wake: Option<nat>)
    | Write(thread: nat, item: T, wake: Option<nat>)
    | ResumeWrite(thread: nat, wake: Option<nat>)
    | TryWrite(item: T, wake: Option<nat>)
    | OpenRead(num: int)
    | OpenWrite(num: int)
    | CloseRead
    | CloseWrite
    | SpuriousReader(thread: nat)
    | SpuriousWriter(thread: nat)

  function Init<T>(max: nat): State<T> {
    State(max, [], 0, 0, false, false, {}, {}, {}, {}, map[], [])
  }

  // ---------------------------------------------------------------------
  // Steps

  /** notify_one wakes one of the sleepers if there is any. */
  predicate Picks(sleepers: set<nat>, wake: Option<nat>) {
    if sleepers == {} then wake.None? else wake.Some? && wake.value in sleepers
  }

  function Chosen(wake: Option<nat>): set<nat> {
    if wake.Some? then {wake.value} else {}
  }

  function Log<T>(s: State<T>, e: Event<T>): State<T> {
    s.(log := s.log + [e])
  }

  function Push<T>(s: State<T>, x: T, wake: Option<nat>): State<T> {
    Log(s.(queue := s.queue + [x],
           sleepingReaders := s.sleepingReaders - Chosen(wake),
           wokenReaders := s.wokenReaders + Chosen(wake)), Put(x))
  }

  function Pop<T>(s: State<T>, wake: Option<nat>): State<T>
    requires s.queue != []
  {
    Log(s.(queue := s.queue[1..],
           sleepingWriters := s.sleepingWriters - Chosen(wake),
           wokenWriters := s.wokenWriters + Chosen(wake)), Took(s.queue[0]))
  }

  /** The loop of read from a look at the queue to the next wait. */
  function ReadSection<T>(s: State<T>, t: nat, wake: Option<nat>): State<T> {
    if s.queue != [] then Pop(s, wake)
    else if s.writeClosed then Log(s, SawEof)
    else s.(sleepingReaders := s.sleepingReaders + {t})
  }

  /** The loop of write from a look at the read end to the next wait. */
  function WriteSection<T>(s: State<T>, t: nat, x: T, wake: Option<nat>): State<T> {
    if s.readClosed then Log(s, SawSigPipe)
    else if |s.queue| == s.max then s.(sleepingWriters := s.sleepingWriters + {t}, items := s.items[t := x])
    else Push(s, x, wake)
  }

  /** The last reader to leave closes the read end for good and wakes up all writers. */
  function CloseReadEnd<T>(s: State<T>): State<T> {
    var c := s.(readers := s.readers - 1);
    if c.readers != 0 then c else
    Log(c.(readClosed := true, sleepingWriters := {},
           wokenWriters := s.wokenWriters + s.sleepingWriters), ReadEndClosed)
  }

  /** The last writer to leave closes the write end for good and wakes up all readers. */
  function CloseWriteEnd<T>(s: State<T>): State<T> {
    var c := s.(writers := s.writers - 1);
    if c.writers != 0 then c else
    Log(c.(writeClosed := true, sleepingReaders := {},
           wokenReaders := s.wokenReaders + s.sleepingReaders), WriteEndClosed)
  }

  predicate Idle<T>(s: State<T>, t: nat) {
    && t !in s.sleepingReaders && t !in s.wokenReaders
    && t !in s.sleepingWriters && t !in s.wokenWriters
  }

  predicate Enabled<T>(s: State<T>, a: Action<T>) {
    match a
    case Read(t, wake) => Idle(s, t) && Picks(s.sleepingWriters, wake)
    case ResumeRead(t, wake) => t in s.wokenReaders && Picks(s.sleepingWriters, wake)
    case TryRead(wake) => Picks(s.sleepingWriters, wake)
    case Write(t, _, wake) => Idle(s, t) && Picks(s.sleepingReaders, wake)
    case ResumeWrite(t, wake) => t in s.wokenWriters && t in s.items && Picks(s.sleepingReaders, wake)
    case TryWrite(_, wake) => Picks(s.sleepingReaders, wake)
    case SpuriousReader(t) => t in s.sleepingReaders
    case SpuriousWriter(t) => t in s.sleepingWriters
    case _ => true
  }

  function Step<T>(s: State<T>, a: Action<T>): State<T>
    requires Enabled(s, a)
  {
    match a
    case Read(t, wake) => ReadSection(s, t, wake)
    case ResumeRead(t, wake) => ReadSection(s.(wokenReaders := s.wokenReaders - {t}), t, wake)
    case TryRead(wake) =>
      if s.queue != [] then Pop(s, wake) else Log(s, if s.writeClosed then SawEof else SawEmpty)
    case Write(t, x, wake) => WriteSection(s, t, x, wake)
    case ResumeWrite(t, wake) =>
      WriteSection(s.(wokenWriters := s.wokenWriters - {t}), t, s.items[t], wake)
    case TryWrite(x, wake) =>
      if s.readClosed then Log(s, SawSigPipe)
      else if |s.queue| == s.max then Log(s, SawFull)
      else Push(s, x, wake)
    case OpenRead(num) => s.(readers := s.readers + num)
    case OpenWrite(num) => s.(writers := s.writers + num)
    case CloseRead => CloseReadEnd(s)
    case CloseWrite => CloseWriteEnd(s)
    case SpuriousReader(t) =>
      s.(sleepingReaders := s.sleepingReaders - {t}, wokenReaders := s.wokenReaders + {t})
    case SpuriousWriter(t) =>
      s.(sleepingWriters := s.sleepingWriters - {t}, wokenWriters := s.wokenWriters + {t})
  }

  /** A run: any interleaving of such stretches by any threads. */
  predicate CanRun<T>(s: State<T>, run: seq<Action<T>>)
    decreases |run|
  {
    run == [] || (Enabled(s, run[0]) && CanRun(Step(s, run[0]), run[1..]))
  }

  function After<T>(s: State<T>, run: seq<Action<T>>): State<T>
    requires CanRun(s, run)
    decreases |run|
  {
    if run == [] then s else After(Step(s, run[0]), run[1..])
  }

  // ---------------------------------------------------------------------
  // No lost wakeup

  predicate NoLostWakeup<T>(s: State<T>) {
    && (s.sleepingReaders != {} ==> |s.queue| <= |s.wokenReaders|)
    && (s.sleepingWriters != {} ==> s.max - |s.queue| <= |s.wokenWriters|)
    && (s.writeClosed ==> s.sleepingReaders == {})
    && (s.readClosed ==> s.sleepingWriters == {})
  }

  /** A thread waits in one place only, and a waiting writer has something to push. */
  predicate Parted<T>(s: State<T>) {
    && s.sleepingReaders !! s.wokenReaders && s.sleepingReaders !! s.sleepingWriters
    && s.sleepingReaders !! s.wokenWriters && s.wokenReaders !! s.sleepingWriters
    && s.wokenReaders !! s.wokenWriters && s.sleepingWriters !! s.wokenWriters
    && s.sleepingWriters <= s.items.Keys && s.wokenWriters <= s.items.Keys
  }

  lemma Joins(s: set<nat>, t: nat)
    requires t !in s
    ensures |s + {t}| == |s| + 1
  {
  }

  lemma Leaves(s: set<nat>, t: nat)
    requires t in s
    ensures |s - {t}| == |s| - 1
  {
  }

  /** Pushing hands one more woken reader to one more item. */
  lemma PushKeeps<T>(s: State<T>, x: T, wake: Option<nat>)
    requires Parted(s) && Picks(s.sleepingReaders, wake)
    requires s.sleepingReaders != {} ==> |s.queue| <= |s.wokenReaders|
    requires s.sleepingWriters != {} ==> s.max - |s.queue| <= |s.wokenWriters| + 1
    requires (s.writeClosed ==> s.sleepingReaders == {}) && (s.readClosed ==> s.sleepingWriters == {})
    ensures Parted(Push(s, x, wake)) && NoLostWakeup(Push(s, x, wake))
  {
    if wake.Some? {
      Joins(s.wokenReaders, wake.value);
    }
  }

  /** Popping hands one more woken writer to one more free place. */
  lemma PopKeeps<T>(s: State<T>, wake: Option<nat>)
    requires Parted(s) && Picks(s.sleepingWriters, wake) && s.queue != []
    requires s.sleepingReaders != {} ==> |s.queue| <= |s.wokenReaders| + 1
    requires s.sleepingWriters != {} ==> s.max - |s.queue| <= |s.wokenWriters|
    requires (s.writeClosed ==> s.sleepingReaders == {}) && (s.readClosed ==> s.sleepingWriters == {})
    ensures Parted(Pop(s, wake)) && NoLostWakeup(Pop(s, wake))
  {
    if wake.Some? {
      Joins(s.wokenWriters, wake.value);
    }
  }

  lemma ReadSectionKeeps<T>(s: State<T>, t: nat, wake: Option<nat>)
    requires Parted(s) && Idle(s, t) && Picks(s.sleepingWriters, wake)
    requires s.sleepingReaders != {} ==> |s.queue| <= |s.wokenReaders| + 1
    requires s.sleepingWriters != {} ==> s.max - |s.queue| <= |s.wokenWriters|
    requires (s.writeClosed ==> s.sleepingReaders == {}) && (s.readClosed ==> s.sleepingWriters == {})
    ensures Parted(ReadSection(s, t, wake)) && NoLostWakeup(ReadSection(s, t, wake))
  {
    if s.queue != [] {
      PopKeeps(s, wake);
    }
  }

  lemma WriteSectionKeeps<T>(s: State<T>, t: nat, x: T, wake: Option<nat>)
    requires Parted(s) && Idle(s, t) && Picks(s.sleepingReaders, wake)
    requires s.sleepingReaders != {} ==> |s.queue| <= |s.wokenReaders|
    requires s.sleepingWriters != {} ==> s.max - |s.queue| <= |s.wokenWriters| + 1
    requires (s.writeClosed ==> s.sleepingReaders == {}) && (s.readClosed ==> s.sleepingWriters == {})
    ensures Parted(WriteSection(s, t, x, wake)) && NoLostWakeup(WriteSection(s, t, x, wake))
  {
    if !s.readClosed && |s.queue| != s.max {
      PushKeeps(s, x, wake);
    }
  }

  lemma ResumeReadKeeps<T>(s: State<T>, t: nat, wake: Option<nat>)
    requires Parted(s) && NoLostWakeup(s) && t in s.wokenReaders && Picks(s.sleepingWriters, wake)
    ensures var r := ReadSection(s.(wokenReaders := s.wokenReaders - {t}), t, wake);
            Parted(r) && NoLostWakeup(r)
  {
    Leaves(s.wokenReaders, t);
    ReadSectionKeeps(s.(wokenReaders := s.wokenReaders - {t}), t, wake);
  }

  lemma ResumeWriteKeeps<T>(s: State<T>, t: nat, wake: Option<nat>)
    requires Parted(s) && NoLostWakeup(s) && t in s.wokenWriters && Picks(s.sleepingReaders, wake)
    ensures var r := WriteSection(s.(wokenWriters := s.wokenWriters - {t}), t, s.items[t], wake);
            Parted(r) && NoLostWakeup(r)
  {
    Leaves(s.wokenWriters, t);
    WriteSectionKeeps(s.(wokenWriters := s.wokenWriters - {t}), t, s.items[t], wake);
  }

  lemma CloseReadKeepsWakeups<T>(s: State<T>)
    requires Parted(s) && NoLostWakeup(s)
    ensures Parted(CloseReadEnd(s)) && NoLostWakeup(CloseReadEnd(s))
  {
  }

  lemma CloseWriteKeepsWakeups<T>(s: State<T>)
    requires Parted(s) && NoLostWakeup(s)
    ensures Parted(CloseWriteEnd(s)) && NoLostWakeup(CloseWriteEnd(s))
  {
  }

  lemma StepKeepsWakeups<T>(s: State<T>, a: Action<T>)
    requires Enabled(s, a) && Parted(s) && NoLostWakeup(s)
    ensures Parted(Step(s, a)) && NoLostWakeup(Step(s, a))
  {
    match a
    case Read(t, wake) => ReadSectionKeeps(s, t, wake);
    case ResumeRead(t, wake) => ResumeReadKeeps(s, t, wake);
    case TryRead(wake) =>
      if s.queue != [] {
        PopKeeps(s, wake);
      }
    case Write(t, x, wake) => WriteSectionKeeps(s, t, x, wake);
    case ResumeWrite(t, wake) => ResumeWriteKeeps(s, t, wake);
    case TryWrite(x, wake) =>
      if !s.readClosed && |s.queue| != s.max {
        PushKeeps(s, x, wake);
      }
    case CloseRead => CloseReadKeepsWakeups(s);
    case CloseWrite => CloseWriteKeepsWakeups(s);
    case SpuriousReader(t) => Joins(s.wokenReaders, t);
    case SpuriousWriter(t) => Joins(s.wokenWriters, t);
    case _ =>
  }

  /**
    * For any number of threads and any interleaving, spurious wakeups included: a reader sleeps
    * only while the woken readers are enough for the queue, a writer only while the woken writers
    * are enough for the free places, and nobody sleeps on an end that is closed.
    */
  lemma {:induction false} NoWakeupIsLost<T>(s: State<T>, run: seq<Action<T>>)
    requires CanRun(s, run) && Parted(s) && NoLostWakeup(s)
    ensures Parted(After(s, run)) && NoLostWakeup(After(s, run))
    decreases |run|
  {
    if run != [] {
      StepKeepsWakeups(s, run[0]);
      NoWakeupIsLost(Step(s, run[0]), run[1..]);
    }
  }

  /** Nobody is on the way back into the monitor. */
  predicate Quiet<T>(s: State<T>) {
    s.wokenReaders == {} && s.wokenWriters == {}
  }

  /**
    * Once everybody notified has run, readers sleep only on an empty pipe that may still be
    * written to, and writers only on a full one that may still be read.
    */
  lemma SleepersAreRight<T>(max: nat, run: seq<Action<T>>)
    requires CanRun(Init(max), run) && Quiet(After(Init(max), run))
    ensures var s := After(Init(max), run);
            && (s.sleepingReaders != {} ==> s.queue == [] && !s.writeClosed)
            && (s.sleepingWriters != {} ==> |s.queue| == max && !s.readClosed)
  {
    MaxIsFixed(Init(max), run);
    RunIsBoundedFifo(Init(max), run);
    NoWakeupIsLost(Init(max), run);
  }

  lemma {:induction false} MaxIsFixed<T>(s: State<T>, run: seq<Action<T>>)
    requires CanRun(s, run)
    ensures After(s, run).max == s.max
    decreases |run|
  {
    if run != [] {
      MaxIsFixed(Step(s, run[0]), run[1..]);
    }
  }

  ghost predicate Deadlocks<T>(max: nat, run: seq<Action<T>>) {
    CanRun(Init(max), run) &&
    var s := After(Init(max), run);
    Quiet(s) && s.sleepingReaders != {} && s.sleepingWriters != {}
  }

  /** Readers and writers wait for each other exactly on a pipe that has room for nothing. */
  lemma DeadlockNeedsNoRoom<T(!new)>(max: nat, x: T)
    ensures (exists run: seq<Action<T>> :: Deadlocks(max, run)) <==> max == 0
  {
    forall run: seq<Action<T>> | Deadlocks(max, run)
      ensures max == 0
    {
      SleepersAreRight(max, run);
    }
    if max == 0 {
      var a: Action<T>, b := Read(0, None), Write(1, x, Some(0));
      var s := Step(Init(0), a);
      assert [a, b][1..] == [b] && [b][1..] == [];
      assert CanRun(Step(s, b), []) && CanRun(s, [b]) && CanRun(Init(0), [a, b]);
      assert After(Init(0), [a, b]) == After(s, [b]) == Step(s, b);
      assert Deadlocks(max, [a, b]);
    }
  }

  /** A notified thread can always come back: the wait it is in ends. */
  lemma WokenCanResume<T>(s: State<T>, t: nat) returns (a: Action<T>)
    requires Parted(s) && (t in s.wokenReaders || t in s.wokenWriters)
    ensures Enabled(s, a) && (a.ResumeRead? || a.ResumeWrite?) && a.thread == t
    ensures t !in Step(s, a).wokenReaders && t !in Step(s, a).wokenWriters
  {
    if t in s.wokenReaders {
      var wake := Pick(s.sleepingWriters);
      a := ResumeRead(t, wake);
    } else {
      var wake := Pick(s.sleepingReaders);
      a := ResumeWrite(t, wake);
    }
  }

  lemma Pick(sleepers: set<nat>) returns (wake: Option<nat>)
    ensures Picks(sleepers, wake)
  {
    wake := None;
    if sleepers != {} {
      var t :| t in sleepers;
      wake := Some(t);
    }
  }

  // ---------------------------------------------------------------------
  // A bounded FIFO, told from the log alone

  function Puts<T>(log: seq<Event<T>>): seq<T> {
    if log == [] then [] else
    var e := log[|log| - 1];
    Puts(log[..|log| - 1]) + if e.Put? then [e.item] else []
  }

  function Takes<T>(log: seq<Event<T>>): seq<T> {
    if log == [] then [] else
    var e := log[|log| - 1];
    Takes(log[..|log| - 1]) + if e.Took? then [e.item] else []
  }

  /** What may happen after the given past. */
  ghost predicate MayFollow<T>(max: nat, past: seq<Event<T>>, e: Event<T>) {
    var puts, takes := Puts(past), Takes(past);
    match e
    case Put(_) => ReadEndClosed !in past && |puts| < |takes| + max
    case Took(x) => |takes| < |puts| && x == puts[|takes|]
    case SawEof => takes == puts && WriteEndClosed in past
    case SawEmpty => takes == puts && WriteEndClosed !in past
    case SawSigPipe => ReadEndClosed in past
    case SawFull => ReadEndClosed !in past && |puts| == |takes| + max
    case _ => true
  }

  ghost predicate BoundedFifo<T>(max: nat, log: seq<Event<T>>) {
    log == [] || (BoundedFifo(max, log[..|log| - 1]) && MayFollow(max, log[..|log| - 1], log[|log| - 1]))
  }

  /** The fields hold what the log says. */
  ghost predicate Tells<T>(log: seq<Event<T>>, max: nat, queue: seq<T>, readClosed: bool, writeClosed: bool) {
    && Puts(log) == Takes(log) + queue
    && |queue| <= max
    && (readClosed <==> ReadEndClosed in log)
    && (writeClosed <==> WriteEndClosed in log)
    && BoundedFifo(max, log)
  }

  ghost predicate LogIsRight<T>(s: State<T>) {
    Tells(s.log, s.max, s.queue, s.readClosed, s.writeClosed)
  }

  lemma LogGrows<T>(max: nat, log: seq<Event<T>>, e: Event<T>)
    requires BoundedFifo(max, log) && MayFollow(max, log, e)
    ensures BoundedFifo(max, log + [e])
    ensures Puts(log + [e]) == Puts(log) + if e.Put? then [e.item] else []
    ensures Takes(log + [e]) == Takes(log) + if e.Took? then [e.item] else []
  {
    assert (log + [e])[..|log|] == log;
  }

  lemma PutIsLogged<T>(s: State<T>, x: T, wake: Option<nat>)
    requires LogIsRight(s) && !s.readClosed && |s.queue| != s.max
    ensures LogIsRight(Push(s, x, wake))
  {
    LogGrows(s.max, s.log, Put(x));
  }

  lemma TookIsLogged<T>(s: State<T>, wake: Option<nat>)
    requires LogIsRight(s) && s.queue != []
    ensures LogIsRight(Pop(s, wake))
  {
    var x := s.queue[0];
    LogGrows(s.max, s.log, Took(x));
    assert Takes(s.log) + s.queue == (Takes(s.log) + [x]) + s.queue[1..];
  }

  lemma SawIsLogged<T>(s: State<T>, e: Event<T>)
    requires LogIsRight(s) && MayFollow(s.max, s.log, e)
    requires !e.Put? && !e.Took? && !e.ReadEndClosed? && !e.WriteEndClosed?
    ensures LogIsRight(Log(s, e))
  {
    LogGrows(s.max, s.log, e);
  }

  lemma ReadSectionIsLogged<T>(s: State<T>, t: nat, wake: Option<nat>)
    requires LogIsRight(s)
    ensures LogIsRight(ReadSection(s, t, wake))
  {
    if s.queue != [] {
      TookIsLogged(s, wake);
    } else if s.writeClosed {
      SawIsLogged(s, SawEof);
    }
  }

  lemma WriteSectionIsLogged<T>(s: State<T>, t: nat, x: T, wake: Option<nat>)
    requires LogIsRight(s)
    ensures LogIsRight(WriteSection(s, t, x, wake))
  {
    if s.readClosed {
      SawIsLogged(s, SawSigPipe);
    } else if |s.queue| != s.max {
      PutIsLogged(s, x, wake);
    }
  }

  lemma CloseIsLogged<T>(log: seq<Event<T>>, max: nat, queue: seq<T>, readClosed: bool, writeClosed: bool)
    requires Tells(log, max, queue, readClosed, writeClosed)
    ensures Tells(log + [ReadEndClosed], max, queue, true, writeClosed)
    ensures Tells(log + [WriteEndClosed], max, queue, readClosed, true)
  {
    LogGrows(max, log, ReadEndClosed);
    LogGrows(max, log, WriteEndClosed);
  }

  lemma CloseReadIsLogged<T>(s: State<T>)
    requires LogIsRight(s)
    ensures LogIsRight(CloseReadEnd(s))
  {
    CloseIsLogged(s.log, s.max, s.queue, s.readClosed, s.writeClosed);
  }

  lemma CloseWriteIsLogged<T>(s: State<T>)
    requires LogIsRight(s)
    ensures LogIsRight(CloseWriteEnd(s))
  {
    CloseIsLogged(s.log, s.max, s.queue, s.readClosed, s.writeClosed);
  }

  lemma StepIsLogged<T>(s: State<T>, a: Action<T>)
    requires Enabled(s, a) && LogIsRight(s)
    ensures LogIsRight(Step(s, a))
  {
    match a
    case Read(t, wake) => ReadSectionIsLogged(s, t, wake);
    case ResumeRead(t, wake) =>
      ReadSectionIsLogged(s.(wokenReaders := s.wokenReaders - {t}), t, wake);
    case TryRead(wake) =>
      if s.queue != [] {
        TookIsLogged(s, wake);
      } else {
        SawIsLogged(s, if s.writeClosed then SawEof else SawEmpty);
      }
    case Write(t, x, wake) => WriteSectionIsLogged(s, t, x, wake);
    case ResumeWrite(t, wake) =>
      WriteSectionIsLogged(s.(wokenWriters := s.wokenWriters - {t}), t, s.items[t], wake);
    case TryWrite(x, wake) =>
      if s.readClosed || |s.queue| == s.max {
        SawIsLogged(s, if s.readClosed then SawSigPipe else SawFull);
      } else {
        PutIsLogged(s, x, wake);
      }
    case CloseRead => CloseReadIsLogged(s);
    case CloseWrite => CloseWriteIsLogged(s);
    case _ =>
  }

  /** On every run the pipe is a bounded FIFO whose ends close for good. */
  lemma {:induction false} RunIsBoundedFifo<T>(s: State<T>, run: seq<Action<T>>)
    requires CanRun(s, run) && LogIsRight(s)
    ensures LogIsRight(After(s, run))
    decreases |run|
  {
    if run != [] {
      StepIsLogged(s, run[0]);
      RunIsBoundedFifo(Step(s, run[0]), run[1..]);
    }
  }

  /** A bounded FIFO log is one at every moment: what was taken is a prefix of what was put. */
  lemma {:induction false} FifoSoFar<T>(max: nat, log: seq<Event<T>>, i: nat)
    requires BoundedFifo(max, log) && i <= |log|
    ensures Takes(log[..i]) <= Puts(log[..i]) && |Puts(log[..i])| <= |Takes(log[..i])| + max
    ensures i < |log| ==> MayFollow(max, log[..i], log[i])
    decreases |log|, i
  {
    if i < |log| {
      var shorter := log[..|log| - 1];
      assert log[..i] == shorter[..i];
      FifoSoFar(max, shorter, i);
    } else if i > 0 {
      FifoSoFar(max, log[..i - 1], i - 1);
      assert log[..i] == log && log[..i - 1][..i - 1] == log[..i - 1];
    }
  }

  /**
    * What every run shows: readers get exactly what was written, in order; whoever is told the end
    * has come, or finds the pipe empty, had nothing left to read; nothing is added once the read
    * end is closed.
    */
  lemma PipeIsFifo<T>(max: nat, run: seq<Action<T>>, i: nat, j: nat)
    requires CanRun(Init(max), run) && i < j <= |After(Init(max), run).log|
    ensures var log := After(Init(max), run).log;
            && Takes(log[..j]) <= Puts(log[..j]) && |Puts(log[..j])| <= |Takes(log[..j])| + max
            && (log[i] == SawEof ==> Takes(log[..i]) == Puts(log[..i]) && WriteEndClosed in log[..i])
            && (log[i] == SawEmpty ==> Takes(log[..i]) == Puts(log[..i]))
            && (log[i] == ReadEndClosed && j < |log| ==> !log[j].Put?)
  {
    RunIsBoundedFifo(Init(max), run);
    MaxIsFixed(Init(max), run);
    var log := After(Init(max), run).log;
    FifoSoFar(max, log, i);
    FifoSoFar(max, log, j);
    assert log[i] == log[..j][i];
  }

  // ---------------------------------------------------------------------
  // What a run does, told from its actions alone

  lemma {:induction false} RunSplits<T>(s: State<T>, a: seq<Action<T>>, b: seq<Action<T>>)
    ensures CanRun(s, a + b) <==> CanRun(s, a) && CanRun(After(s, a), b)
    ensures CanRun(s, a + b) ==> After(s, a + b) == After(After(s, a), b)
    decreases |a|
  {
    if a == [] {
      assert a + b == b;
    } else {
      assert (a + b)[0] == a[0] && (a + b)[1..] == a[1..] + b;
      if Enabled(s, a[0]) {
        RunSplits(Step(s, a[0]), a[1..], b);
      }
    }
  }

  /** The last action of a run is enabled where the others lead, and is the last step. */
  lemma LastStep<T>(s: State<T>, run: seq<Action<T>>)
    requires CanRun(s, run) && run != []
    ensures var past, a := run[..|run| - 1], run[|run| - 1];
            CanRun(s, past) && Enabled(After(s, past), a) && After(s, run) == Step(After(s, past), a)
  {
    var past, a := run[..|run| - 1], run[|run| - 1];
    assert run == past + [a] && [a][1..] == [];
    RunSplits(s, past, [a]);
  }

  /** What the thread gave to its last write. */
  function LastGiven<T>(run: seq<Action<T>>, t: nat): Option<T> {
    if run == [] then None else
    var a := run[|run| - 1];
    if a.Write? && a.thread == t then Some(a.item) else LastGiven(run[..|run| - 1], t)
  }

  /** What the caller of an action wants written: a thread back from a wait, what it once gave. */
  function Given<T>(past: seq<Action<T>>, a: Action<T>): Option<T> {
    match a
    case Write(_, x, _) => Some(x)
    case TryWrite(x, _) => Some(x)
    case ResumeWrite(t, _) => LastGiven(past, t)
    case _ => None
  }

  predicate Writes<T>(a: Action<T>) {
    a.Write? || a.TryWrite? || a.ResumeWrite?
  }

  predicate Reads<T>(a: Action<T>) {
    a.Read? || a.TryRead? || a.ResumeRead?
  }

  /** A waiting writer is about to push what it gave to its last write. */
  ghost predicate ItemsAreGiven<T>(run: seq<Action<T>>, s: State<T>) {
    forall t :: t in s.sleepingWriters || t in s.wokenWriters ==> t in s.items && LastGiven(run, t) == Some(s.items[t])
  }

  lemma LastGivenGrows<T>(run: seq<Action<T>>, a: Action<T>, t: nat)
    ensures LastGiven(run + [a], t) == if a.Write? && a.thread == t then Some(a.item) else LastGiven(run, t)
  {
    assert (run + [a])[..|run|] == run;
  }

  /** A writer that waits after a step waited before it, for the same item, or has just called. */
  lemma WaitersItem<T>(s: State<T>, a: Action<T>, t: nat)
    requires Enabled(s, a) && Parted(s) && (t in Step(s, a).sleepingWriters || t in Step(s, a).wokenWriters)
    ensures var u := Step(s, a);
            && t in u.items
            && (if a.Write? && a.thread == t then u.items[t] == a.item
                else (t in s.sleepingWriters || t in s.wokenWriters) && t in s.items && u.items[t] == s.items[t])
  {
  }

  lemma StepKeepsItems<T>(past: seq<Action<T>>, s: State<T>, a: Action<T>)
    requires Enabled(s, a) && Parted(s) && ItemsAreGiven(past, s)
    ensures ItemsAreGiven(past + [a], Step(s, a))
  {
    var u := Step(s, a);
    forall t | t in u.sleepingWriters || t in u.wokenWriters
      ensures t in u.items && LastGiven(past + [a], t) == Some(u.items[t])
    {
      LastGivenGrows(past, a, t);
      WaitersItem(s, a, t);
    }
  }

  lemma {:induction false} RunKeepsItems<T>(max: nat, run: seq<Action<T>>)
    requires CanRun(Init(max), run)
    ensures ItemsAreGiven(run, After(Init(max), run))
    decreases |run|
  {
    if run != [] {
      var past, a := run[..|run| - 1], run[|run| - 1];
      LastStep(Init(max), run);
      RunKeepsItems(max, past);
      NoWakeupIsLost(Init(max), past);
      StepKeepsItems(past, After(Init(max), past), a);
      assert run == past + [a];
    }
  }

  predicate GoesThrough<T>(s: State<T>, a: Action<T>) {
    Writes(a) && !s.readClosed && |s.queue| != s.max
  }

  /** The only items put or taken: those of calls that go through. */
  lemma CallsGoThrough<T>(s: State<T>, a: Action<T>, x: T)
    requires Enabled(s, a) && Writes(a)
    requires x == if a.ResumeWrite? then s.items[a.thread] else a.item
    ensures var t := Step(s, a);
            if GoesThrough(s, a) then t.queue == s.queue + [x] && t.log == s.log + [Put(x)]
            else t.queue == s.queue && (t.log == s.log || t.log == s.log + [SawSigPipe] || t.log == s.log + [SawFull])
  {
  }

  lemma ReadsGoThrough<T>(s: State<T>, a: Action<T>)
    requires Enabled(s, a) && Reads(a)
    ensures var t := Step(s, a);
            if s.queue != [] then t.queue == s.queue[1..] && t.log == s.log + [Took(s.queue[0])]
            else t.queue == s.queue && (t.log == s.log || t.log == s.log + [SawEof] || t.log == s.log + [SawEmpty])
  {
  }

  lemma OthersLeaveIt<T>(s: State<T>, a: Action<T>)
    requires Enabled(s, a) && !Reads(a) && !Writes(a)
    ensures var t := Step(s, a);
            && t.queue == s.queue
            && (t.log == s.log || t.log == s.log + [ReadEndClosed] || t.log == s.log + [WriteEndClosed])
  {
  }

  lemma OneLogged<T>(log: seq<Event<T>>, e: Event<T>)
    ensures Puts(log + [e]) == Puts(log) + if e.Put? then [e.item] else []
    ensures Takes(log + [e]) == Takes(log) + if e.Took? then [e.item] else []
  {
    assert (log + [e])[..|log|] == log;
  }

  /** A step that logs at most one event, and no put or take, leaves what was put and taken. */
  lemma NothingLogged<T>(log: seq<Event<T>>, more: seq<Event<T>>)
    requires |more| <= 1 && (more != [] ==> !more[0].Put? && !more[0].Took?)
    ensures Puts(log + more) == Puts(log) && Takes(log + more) == Takes(log)
  {
    if more == [] {
      assert log + more == log;
    } else {
      OneLogged(log, more[0]);
    }
  }

  /** What a call does to the queue and to the log, given what it wants written. */
  ghost predicate Follows<T>(s: State<T>, a: Action<T>, given: Option<T>, t: State<T>) {
    if GoesThrough(s, a) then
      given.Some? && t.queue == s.queue + [given.value] && t.log == s.log + [Put(given.value)]
    else if Reads(a) && s.queue != [] then
      t.queue == s.queue[1..] && t.log == s.log + [Took(s.queue[0])]
    else
      t.queue == s.queue && Puts(t.log) == Puts(s.log) && Takes(t.log) == Takes(s.log)
  }

  lemma StepFollows<T>(s: State<T>, a: Action<T>, given: Option<T>)
    requires Enabled(s, a)
    requires Writes(a) ==> given == Some(if a.ResumeWrite? then s.items[a.thread] else a.item)
    ensures Follows(s, a, given, Step(s, a))
  {
    if Writes(a) {
      CallsGoThrough(s, a, given.value);
    } else if Reads(a) {
      ReadsGoThrough(s, a);
    } else {
      OthersLeaveIt(s, a);
    }
    var t := Step(s, a);
    if !GoesThrough(s, a) && !(Reads(a) && s.queue != []) {
      var more := t.log[|s.log|..];
      assert t.log == s.log + more;
      NothingLogged(s.log, more);
    }
  }

  /**
    * At every moment of every run: a write that finds the read end open and a place free appends the
    * very item it was given, even if that was long before and however often it waited; a read that
    * finds something takes the oldest item; nothing else touches the queue or logs a put or a take.
    */
  lemma QueueFollowsCalls<T>(max: nat, run: seq<Action<T>>, a: Action<T>)
    requires CanRun(Init(max), run) && Enabled(After(Init(max), run), a)
    ensures var s := After(Init(max), run); s.max == max && Follows(s, a, Given(run, a), Step(s, a))
  {
    RunKeepsItems(max, run);
    MaxIsFixed(Init(max), run);
    StepFollows(After(Init(max), run), a, Given(run, a));
  }

  /** The items given to the writes that went through, in the order in which they did. */
  ghost function Delivered<T>(max: nat, run: seq<Action<T>>): seq<T>
    requires CanRun(Init(max), run)
    decreases |run|
  {
    if run == [] then [] else
    var past, a := run[..|run| - 1], run[|run| - 1];
    LastStep(Init(max), run);
    Delivered(max, past) +
    if GoesThrough(After(Init(max), past), a) && Given(past, a).Some? then [Given(past, a).value] else []
  }

  lemma FollowedPuts<T>(s: State<T>, a: Action<T>, given: Option<T>, t: State<T>)
    requires Follows(s, a, given, t)
    ensures Puts(t.log) == Puts(s.log) + if GoesThrough(s, a) then [given.value] else []
  {
    if GoesThrough(s, a) {
      OneLogged(s.log, Put(given.value));
    } else if Reads(a) && s.queue != [] {
      OneLogged(s.log, Took(s.queue[0]));
    }
  }

  lemma {:induction false} PutsAreDelivered<T>(max: nat, run: seq<Action<T>>)
    requires CanRun(Init(max), run)
    ensures Puts(After(Init(max), run).log) == Delivered(max, run)
    decreases |run|
  {
    if run != [] {
      var past, a := run[..|run| - 1], run[|run| - 1];
      LastStep(Init(max), run);
      PutsAreDelivered(max, past);
      QueueFollowsCalls(max, past, a);
      FollowedPuts(After(Init(max), past), a, Given(past, a), After(Init(max), run));
    }
  }

  /** What was taken and what is still there are, in order, what was given to the writes that went through. */
  lemma GivenIsDelivered<T>(max: nat, run: seq<Action<T>>)
    requires CanRun(Init(max), run)
    ensures var s := After(Init(max), run); Takes(s.log) + s.queue == Delivered(max, run)
  {
    PutsAreDelivered(max, run);
    RunIsBoundedFifo(Init(max), run);
  }

  // ---------------------------------------------------------------------
  // Who has an end open

  function Opened<T>(run: seq<Action<T>>, forReading: bool): int {
    if run == [] then 0 else
    var a := run[|run| - 1];
    Opened(run[..|run| - 1], forReading) +
    if forReading && a.OpenRead? then a.num else if !forReading && a.OpenWrite? then a.num else 0
  }

  function Closed<T>(run: seq<Action<T>>, forReading: bool): nat {
    if run == [] then 0 else
    Closed(run[..|run| - 1], forReading) + if Closes(run[|run| - 1], forReading) then 1 else 0
  }

  predicate Closes<T>(a: Action<T>, forReading: bool) {
    if forReading then a.CloseRead? else a.CloseWrite?
  }

  /** The run ends in a close of that end after which it was closed as often as it was opened. */
  predicate LastLeaves<T>(run: seq<Action<T>>, forReading: bool) {
    run != [] && Closes(run[|run| - 1], forReading) && Opened(run, forReading) == Closed(run, forReading)
  }

  ghost predicate HasEnded<T>(run: seq<Action<T>>, forReading: bool) {
    exists k :: 0 <= k <= |run| && LastLeaves(run[..k], forReading)
  }

  lemma EndedGrows<T>(past: seq<Action<T>>, a: Action<T>, forReading: bool)
    ensures HasEnded(past + [a], forReading) <==> HasEnded(past, forReading) || LastLeaves(past + [a], forReading)
  {
    var run := past + [a];
    assert run[..|run|] == run;
    forall k | 0 <= k <= |past|
      ensures run[..k] == past[..k]
    {
    }
    if k :| 0 <= k <= |past| && LastLeaves(past[..k], forReading) {
      assert LastLeaves(run[..k], forReading);
    }
    if k :| 0 <= k <= |run| && LastLeaves(run[..k], forReading) {
      assert k <= |past| ==> LastLeaves(past[..k], forReading);
    }
  }

  ghost predicate EndsAreTold<T>(run: seq<Action<T>>, s: State<T>) {
    && s.readers == Opened(run, true) - Closed(run, true)
    && s.writers == Opened(run, false) - Closed(run, false)
    && (s.readClosed <==> HasEnded(run, true))
    && (s.writeClosed <==> HasEnded(run, false))
  }

  lemma StepTellsEnds<T>(past: seq<Action<T>>, s: State<T>, a: Action<T>)
    requires Enabled(s, a) && EndsAreTold(past, s)
    ensures EndsAreTold(past + [a], Step(s, a))
  {
    CountsGrow(past, a, true);
    CountsGrow(past, a, false);
    EndedGrows(past, a, true);
    EndedGrows(past, a, false);
    match a
    case OpenRead(_) =>
    case OpenWrite(_) =>
    case CloseRead =>
    case CloseWrite =>
    case _ => EndsUntouched(s, a);
  }

  lemma CountsGrow<T>(past: seq<Action<T>>, a: Action<T>, forReading: bool)
    ensures Opened(past + [a], forReading) == Opened(past, forReading) +
            if forReading && a.OpenRead? then a.num else if !forReading && a.OpenWrite? then a.num else 0
    ensures Closed(past + [a], forReading) == Closed(past, forReading) + if Closes(a, forReading) then 1 else 0
    ensures LastLeaves(past + [a], forReading) <==>
            Closes(a, forReading) && Opened(past + [a], forReading) == Closed(past + [a], forReading)
  {
    assert (past + [a])[..|past|] == past;
  }

  lemma EndsUntouched<T>(s: State<T>, a: Action<T>)
    requires Enabled(s, a) && !a.OpenRead? && !a.OpenWrite? && !a.CloseRead? && !a.CloseWrite?
    ensures var t := Step(s, a);
            t.readers == s.readers && t.writers == s.writers && t.readClosed == s.readClosed && t.writeClosed == s.writeClosed
  {
  }

  /**
    * An end is closed exactly when at some moment of the run somebody closed it who was the last to
    * have it open; until then its count is what was opened less what was closed.
    */
  lemma {:induction false} LastOneCloses<T>(max: nat, run: seq<Action<T>>)
    requires CanRun(Init(max), run)
    ensures EndsAreTold(run, After(Init(max), run))
    decreases |run|
  {
    if run == [] {
      forall forReading: bool
        ensures !HasEnded(run, forReading)
      {
      }
    } else {
      var past, a := run[..|run| - 1], run[|run| - 1];
      LastStep(Init(max), run);
      LastOneCloses(max, past);
      StepTellsEnds(past, After(Init(max), past), a);
      assert run == past + [a];
    }
  }

  // ---------------------------------------------------------------------
  // Nobody who waits is forgotten

  function WaitingReaders<T>(s: State<T>): set<nat> {
    s.sleepingReaders + s.wokenReaders
  }

  function WaitingWriters<T>(s: State<T>): set<nat> {
    s.sleepingWriters + s.wokenWriters
  }

  /** The threads a step notified. */
  function Notified<T>(s: State<T>, t: State<T>): set<nat> {
    (s.sleepingReaders - t.sleepingReaders) + (s.sleepingWriters - t.sleepingWriters)
  }

  /** The thread that runs in an action, if it is one that can wait. */
  function Runner<T>(a: Action<T>): Option<nat> {
    if a.Read? || a.ResumeRead? || a.Write? || a.ResumeWrite? then Some(a.thread) else None
  }

  /** A thread waits from a call that logs nothing until its own next action that logs something, for as
      long as it takes, asleep or notified. */
  lemma WaitersStay<T>(s: State<T>, a: Action<T>, u: nat)
    requires Enabled(s, a) && Parted(s)
    ensures var t := Step(s, a);
            && (Runner(a) != Some(u) ==> (u in WaitingReaders(t) <==> u in WaitingReaders(s)))
            && (Runner(a) != Some(u) ==> (u in WaitingWriters(t) <==> u in WaitingWriters(s)))
            && (Runner(a) == Some(u) ==> (u in WaitingReaders(t) <==> Reads(a) && t.log == s.log))
            && (Runner(a) == Some(u) ==> (u in WaitingWriters(t) <==> Writes(a) && t.log == s.log))
  {
  }

  /** A put or a take notifies one thread of the other side if one sleeps there, and no other call does. */
  lemma CallNotifies<T>(s: State<T>, a: Action<T>)
    requires Enabled(s, a) && Parted(s) && (Reads(a) || Writes(a))
    ensures var t := Step(s, a);
            if GoesThrough(s, a) then Picks(s.sleepingReaders, a.wake) && Notified(s, t) == Chosen(a.wake)
            else if Reads(a) && s.queue != [] then Picks(s.sleepingWriters, a.wake) && Notified(s, t) == Chosen(a.wake)
            else Notified(s, t) == {}
  {
  }

  /** The last to leave an end notifies everybody on the other side. */
  lemma CloseNotifies<T>(s: State<T>)
    ensures Notified(s, Step(s, CloseRead)) == if s.readers == 1 then s.sleepingWriters else {}
    ensures Notified(s, Step(s, CloseWrite)) == if s.writers == 1 then s.sleepingReaders else {}
  {
  }

  /** A thread that does not wait can call read or write, whatever the state of the pipe. */
  lemma IdleCanCall<T>(s: State<T>, t: nat, x: T) returns (r: Action<T>, w: Action<T>)
    requires Idle(s, t)
    ensures r.Read? && r.thread == t && Enabled(s, r)
    ensures w.Write? && w.thread == t && w.item == x && Enabled(s, w)
  {
    var writer := Pick(s.sleepingWriters);
    var reader := Pick(s.sleepingReaders);
    r, w := Read(t, writer), Write(t, x, reader);
  }

  /** Ends can be opened and closed, and the calls that do not wait be made, at any time. */
  lemma AnybodyCanCall<T>(s: State<T>, num: int, x: T) returns (r: Action<T>, w: Action<T>)
    ensures Enabled(s, OpenRead(num)) && Enabled(s, OpenWrite(num)) && Enabled(s, CloseRead) && Enabled(s, CloseWrite)
    ensures r.TryRead? && Enabled(s, r) && w.TryWrite? && w.item == x && Enabled(s, w)
  {
    var writer := Pick(s.sleepingWriters);
    var reader := Pick(s.sleepingReaders);
    r, w := TryRead(writer), TryWrite(x, reader);
  }

  // ---------------------------------------------------------------------
  // The pipe itself

  /** What a stretch under the mutex ends in. */
  datatype Outcome<T> = Returned | Returns(item: T) | Throws(event: Event<T>) | Waits

  class BoundedPipe<T> {
    const max: nat
    var queue: seq<T>
    var readers: int
    var writers: int
    var readClosed: bool
    var writeClosed: bool
    var sleepingReaders: set<nat>
    var wokenReaders: set<nat>
    var sleepingWriters: set<nat>
    var wokenWriters: set<nat>
    var items: map<nat, T>
    ghost var log: seq<Event<T>>

    ghost function Now(): State<T>
      reads this
    {
      State(max, queue, readers, writers, readClosed, writeClosed,
            sleepingReaders, wokenReaders, sleepingWriters, wokenWriters, items, log)
    }

    constructor (max: nat)
      ensures Now() == Init(max)
    {
      this.max := max;
      queue, readers, writers, readClosed, writeClosed := [], 0, 0, false, false;
      sleepingReaders, wokenReaders, sleepingWriters, wokenWriters, items := {}, {}, {}, {}, map[];
      log := [];
    }

    /** Takes the oldest item and notifies a writer. */
    method Take(wake: Option<nat>) returns (r: Outcome<T>)
      requires queue != [] && Picks(sleepingWriters, wake)
      modifies this
      ensures Now() == Pop(old(Now()), wake) && r == Returns(old(queue[0]))
    {
      r := Returns(queue[0]);
      log := log + [Took(queue[0])];
      queue := queue[1..];
      sleepingWriters, wokenWriters := sleepingWriters - Chosen(wake), wokenWriters + Chosen(wake);
    }

    /** Adds an item and notifies a reader. */
    method Add(x: T, wake: Option<nat>) returns (r: Outcome<T>)
      requires Picks(sleepingReaders, wake)
      modifies this
      ensures Now() == Push(old(Now()), x, wake) && r == Returned
    {
      queue := queue + [x];
      log := log + [Put(x)];
      sleepingReaders, wokenReaders := sleepingReaders - Chosen(wake), wokenReaders + Chosen(wake);
      r := Returned;
    }

    method Throw(e: Event<T>) returns (r: Outcome<T>)
      modifies `log
      ensures Now() == Log(old(Now()), e) && r == Throws(e)
    {
      log := log + [e];
      r := Throws(e);
    }

    /** read, up to its return, its exception or its next wait; `back` when it comes out of a wait. */
    method Read(t: nat, back: bool, wake: Option<nat>) returns (r: Outcome<T>)
      requires Enabled(Now(), if back then ResumeRead(t, wake) else Action.Read(t, wake))
      modifies this
      ensures Now() == Step(old(Now()), if back then ResumeRead(t, wake) else Action.Read(t, wake))
      ensures r == if old(queue) != [] then Returns(old(queue[0]))
                   else if old(writeClosed) then Throws(SawEof) else Waits
      ensures queue == if r.Returns? then old(queue)[1..] else old(queue)
      ensures r == Waits ==> t in sleepingReaders
    {
      if back {
        wokenReaders := wokenReaders - {t};
      }
      if queue != [] {
        r := Take(wake);
      } else if writeClosed {
        r := Throw(SawEof);
      } else {
        sleepingReaders := sleepingReaders + {t};
        r := Waits;
      }
    }

    method TryRead(wake: Option<nat>) returns (r: Outcome<T>)
      requires Enabled(Now(), Action.TryRead(wake))
      modifies this
      ensures Now() == Step(old(Now()), Action.TryRead(wake))
      ensures r == if old(queue) != [] then Returns(old(queue[0]))
                   else Throws(if old(writeClosed) then SawEof else SawEmpty)
      ensures queue == if r.Returns? then old(queue)[1..] else old(queue)
    {
      if queue == [] {
        r := Throw(if writeClosed then SawEof else SawEmpty);
      } else {
        r := Take(wake);
      }
    }

    /** write, up to its return, its exception or its next wait. */
    method Write(t: nat, x: T, wake: Option<nat>) returns (r: Outcome<T>)
      requires Enabled(Now(), Action.Write(t, x, wake))
      modifies this
      ensures Now() == Step(old(Now()), Action.Write(t, x, wake))
      ensures r == if old(readClosed) then Throws(SawSigPipe)
                   else if |old(queue)| == max then Waits else Returned
      ensures queue == if r == Returned then old(queue) + [x] else old(queue)
      ensures r == Waits ==> t in sleepingWriters && items == old(items)[t := x]
    {
      if readClosed {
        r := Throw(SawSigPipe);
      } else if |queue| == max {
        sleepingWriters, items := sleepingWriters + {t}, items[t := x];
        r := Waits;
      } else {
        r := Add(x, wake);
      }
    }

    /** The rest of write when it comes out of a wait. */
    method ResumeWrite(t: nat, wake: Option<nat>) returns (r: Outcome<T>)
      requires Enabled(Now(), Action.ResumeWrite(t, wake))
      modifies this
      ensures Now() == Step(old(Now()), Action.ResumeWrite(t, wake))
      ensures r == if old(readClosed) then Throws(SawSigPipe)
                   else if |old(queue)| == max then Waits else Returned
      ensures queue == if r == Returned then old(queue) + [old(items[t])] else old(queue)
      ensures r == Waits ==> t in sleepingWriters && items == old(items)
    {
      var x := items[t];
      wokenWriters := wokenWriters - {t};
      if readClosed {
        r := Throw(SawSigPipe);
      } else if |queue| == max {
        sleepingWriters, items := sleepingWriters + {t}, items[t := x];
        r := Waits;
      } else {
        r := Add(x, wake);
      }
    }

    method TryWrite(x: T, wake: Option<nat>) returns (r: Outcome<T>)
      requires Enabled(Now(), Action.TryWrite(x, wake))
      modifies this
      ensures Now() == Step(old(Now()), Action.TryWrite(x, wake))
      ensures r == if old(readClosed) then Throws(SawSigPipe)
                   else if |old(queue)| == max then Throws(SawFull) else Returned
      ensures queue == if r == Returned then old(queue) + [x] else old(queue)
    {
      if readClosed {
        r := Throw(SawSigPipe);
      } else if |queue| == max {
        r := Throw(SawFull);
      } else {
        r := Add(x, wake);
      }
    }

    method OpenReadEnd(num: int)
      modifies `readers
      ensures Now() == Step(old(Now()), OpenRead(num)) && readers == old(readers) + num
    {
      readers := readers + num;
    }

    method OpenWriteEnd(num: int)
      modifies `writers
      ensures Now() == Step(old(Now()), OpenWrite(num)) && writers == old(writers) + num
    {
      writers := writers + num;
    }

    method CloseReadEnd()
      modifies this
      ensures Now() == Step(old(Now()), CloseRead) && readers == old(readers) - 1
      ensures readClosed <==> old(readClosed) || old(readers) == 1
      ensures old(readers) == 1 ==> sleepingWriters == {} && wokenWriters == old(wokenWriters + sleepingWriters)
      ensures old(readers) != 1 ==> sleepingWriters == old(sleepingWriters)
    {
      readers := readers - 1;
      if readers == 0 {
        readClosed, log := true, log + [ReadEndClosed];
        sleepingWriters, wokenWriters := {}, wokenWriters + sleepingWriters;
      }
    }

    method CloseWriteEnd()
      modifies this
      ensures Now() == Step(old(Now()), CloseWrite) && writers == old(writers) - 1
      ensures writeClosed <==> old(writeClosed) || old(writers) == 1
      ensures old(writers) == 1 ==> sleepingReaders == {} && wokenReaders == old(wokenReaders + sleepingReaders)
      ensures old(writers) != 1 ==> sleepingReaders == old(sleepingReaders)
    {
      writers := writers - 1;
      if writers == 0 {
        writeClosed, log := true, log + [WriteEndClosed];
        sleepingReaders, wokenReaders := {}, wokenReaders + sleepingReaders;
      }
    }
  }
}
