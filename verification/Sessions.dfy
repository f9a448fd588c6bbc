/** Several processes sharing one container file.  Each keeps the limits, the element count and
    a stamp in memory and trusts them while the stamp on disk is not newer; operations are
    serialised by a lock.  Every run, crashes and reopenings included, is a run of one sequence. */
module Sessions {
  import opened Common
  import opened Disk
  import opened Recovery
  import opened Programs
  import opened Atomicity
  import opened RecoveryProgram
  import SecondCrash
  import Interrupted

  // ---------------------------------------------------------------------
  // Stamps

  const COUNTERS: nat := 0x1_0000                 // unsigned short

  predicate Older(a: Stamp, b: Stamp) {
    a.epoch < b.epoch || (a.epoch == b.epoch && a.counter < b.counter)
  }

  /** update_stamp: `own` is the stamp in memory, `seen` the one just read from the file. */
  function UpdateStamp(own: Stamp, seen: Stamp, now: nat): Stamp {
    var ticked := if own.epoch == now then Stamp(now, (own.counter + 1) % COUNTERS) else Stamp(now, 0);
    if ticked.epoch < seen.epoch then Stamp(seen.epoch, (seen.counter + 1) % COUNTERS)
    else if ticked.epoch == seen.epoch && ticked.counter <= seen.counter
    then Stamp(ticked.epoch, (seen.counter + 1) % COUNTERS)
    else ticked
  }

  /** The counter can still grow, or the clock is past the epoch on disk. */
  predicate StampCanGrow(seen: Stamp, now: nat) {
    seen.epoch < now || seen.counter + 1 < COUNTERS
  }

  /** The new stamp exceeds the one on disk, whatever the process remembered, exactly when the
      16-bit counter does not wrap. */
  lemma UpdatedStampIsNewer(own: Stamp, seen: Stamp, now: nat)
    requires own.counter < COUNTERS && seen.counter < COUNTERS
    ensures Older(seen, UpdateStamp(own, seen, now)) <==> StampCanGrow(seen, now)
    ensures UpdateStamp(own, seen, now).counter < COUNTERS
  {
  }

  /** Its epoch is the later of the clock and the file's; its counter starts at zero with a new epoch and
      otherwise is one more than those seen of that epoch, up to the wrap. */
  lemma UpdatedStampIs(own: Stamp, seen: Stamp, now: nat)
    requires own.counter + 1 < COUNTERS && seen.counter + 1 < COUNTERS
    ensures var u := UpdateStamp(own, seen, now);
            && u.epoch == (if now < seen.epoch then seen.epoch else now)
            && (own.epoch != u.epoch && seen.epoch != u.epoch ==> u.counter == 0)
            && (own.epoch == now == u.epoch != seen.epoch ==> u.counter == own.counter + 1)
            && (own.epoch != now && seen.epoch == u.epoch ==> u.counter == seen.counter + 1)
            && (own.epoch == now < u.epoch ==> u.counter == seen.counter + 1)
            && (own.epoch == now == u.epoch == seen.epoch ==>
                  u.counter == if own.counter < seen.counter then seen.counter + 1 else own.counter + 1)
  {
  }

  // ---------------------------------------------------------------------
  // Processes

  datatype Cache = Cache(stamp: Stamp, limits: Limits, size: nat)

  /** `procs` maps each process that has initialised its container to what it remembers. */
  datatype System = System(disk: Disk, procs: map<nat, Cache>)

  ghost predicate Fresh(c: Cache, d: Disk) {
    && c.stamp.counter < COUNTERS
    && !Older(d.stamp, c.stamp)
    && (c.stamp == d.stamp ==> c.limits == d.limits && c.size == d.size)
  }

  /** No process remembers a stamp newer than the file's, and equal stamps mean equal caches. */
  ghost predicate Coherent(sys: System) {
    && sys.disk.stamp.counter < COUNTERS
    && forall p :: p in sys.procs ==> Fresh(sys.procs[p], sys.disk)
  }

  ghost predicate Sound(sys: System) {
    Coherent(sys) && exists chain :: WellFormed(sys.disk, chain)
  }

  /** What a writer works with after initContainer, or after checkStreamAndStamp and
      syncData(false), which leaves its own stamp alone. */
  function WriterCache(sys: System, p: nat): Cache {
    var d := sys.disk;
    if p !in sys.procs then Cache(d.stamp, d.limits, d.size)
    else if Older(sys.procs[p].stamp, d.stamp) then Cache(sys.procs[p].stamp, d.limits, d.size)
    else sys.procs[p]
  }

  /** The same for a reader, whose syncData also takes the stamp. */
  function ReaderCache(sys: System, p: nat): Cache {
    var d := sys.disk;
    if p !in sys.procs || Older(sys.procs[p].stamp, d.stamp) then Cache(d.stamp, d.limits, d.size)
    else sys.procs[p]
  }

  /** In a coherent system the cache a process works with is the state of the file. */
  lemma CacheIsCurrent(sys: System, p: nat)
    requires Coherent(sys)
    ensures WriterCache(sys, p).limits == sys.disk.limits && WriterCache(sys, p).size == sys.disk.size
    ensures WriterCache(sys, p).stamp.counter < COUNTERS
    ensures ReaderCache(sys, p) == Cache(sys.disk.stamp, sys.disk.limits, sys.disk.size)
  {
  }

  /** fc_limits after an insertion. */
  function AddLimits(lim: Limits, at: nat, end: nat): Limits {
    if at == end then Limits(lim.first, end)
    else if at == lim.first then Limits(end, lim.last)
    else lim
  }

  /** fc_limits after a removal. */
  function RemoveLimits(lim: Limits, it: Iter, end: nat): Limits {
    if it.next == end && it.prev == 0 then Limits(HEADER, HEADER)
    else if it.next == end then Limits(lim.first, it.prev)
    else if it.prev == 0 then Limits(it.next, lim.last)
    else lim
  }

  // ---------------------------------------------------------------------
  // Steps

  /** Operations name their element by its index in the list.  A crashed operation leaves the
      disk `left` after `k` writes, and process `opener` reopens the file. */
  datatype Step =
    | Read(p: nat)
    | Add(p: nat, now: nat, i: nat, data: string)
    | RefusedAdd(p: nat, now: nat, i: nat, opener: nat, clock: nat)
    | Remove(p: nat, now: nat, i: nat)
    | CrashedAdd(p: nat, now: nat, i: nat, data: string, k: nat, left: Disk, again: Again, opener: nat, clock: nat)
    | CrashedRemove(p: nat, now: nat, i: nat, k: nat, left: Disk, again: Again, opener: nat, clock: nat)

  /** Whether the process that first opens the file after a crash dies, too, after `j` writes of its
      recovery. */
  datatype Again = Once | Twice(first: nat, j: nat)

  function NewStamp(sys: System, p: nat, now: nat): Stamp {
    UpdateStamp(WriterCache(sys, p).stamp, sys.disk.stamp, now)
  }

  ghost predicate AddStep(sys: System, chain: seq<nat>, p: nat, now: nat, i: nat, data: string, sys': System) {
    var c, d := WriterCache(sys, p), sys.disk;
    && i <= |chain| && data != ""
    && CanAdd(d, c.limits, PlaceOf(d, chain, i), d.end)
    && StampCanGrow(d.stamp, now)
    && var stamp, at := NewStamp(sys, p, now), PlaceOf(d, chain, i);
       sys' == System(RunAll(d, AddWrites(d, c.limits, c.size, stamp, at, d.end, data)),
                      sys.procs[p := Cache(stamp, AddLimits(c.limits, at, d.end), c.size + 1)])
  }

  ghost predicate RemoveStep(sys: System, chain: seq<nat>, p: nat, now: nat, i: nat, sys': System) {
    var c, d := WriterCache(sys, p), sys.disk;
    && i < |chain|
    && CanRemove(d, chain[i]) && c.size > 0
    && StampCanGrow(d.stamp, now)
    && var stamp := NewStamp(sys, p, now);
       sys' == System(RunAll(d, RemoveWrites(d, c.limits, c.size, stamp, chain[i])),
                      sys.procs[p := Cache(stamp, RemoveLimits(c.limits, IterAt(d, chain[i]), d.end), c.size - 1)])
  }

  /** The disk the last process to open the file finds: a second crash is one recovery is not exposed to. */
  ghost predicate LeftBy(left: Disk, again: Again, found: Disk) {
    match again
    case Once => found == left
    case Twice(_, j) =>
      && RecoveryWrites(left).Some?
      && var rs := RecoveryWrites(left).value;
         && j <= |rs| && !SecondCrash.Exposed(HeaderOf(left), PlanOf(left).writes, rs, j)
         && found == StateAt(left, rs, j)
  }

  function Dead(p: nat, again: Again): set<nat> {
    if again.Once? then {p} else {p, again.first}
  }

  /** The process that dies forgets everything; the one that reopens the file recovers it. */
  ghost predicate Reopened(sys: System, dead: set<nat>, left: Disk, opener: nat, clock: nat, sys': System) {
    var o := Recover(left, clock);
    && o.Good?
    && sys' == System(o.image.disk, (sys.procs - dead)[opener := Cache(left.stamp, o.image.cache, o.image.disk.size)])
  }

  /** The file and the cache an add of empty data leaves behind. */
  ghost function Refused(sys: System, chain: seq<nat>, p: nat, now: nat, i: nat): (Disk, Cache)
    requires i <= |chain|
  {
    var c, d, at := WriterCache(sys, p), sys.disk, PlaceOf(sys.disk, chain, i);
    var stamp := NewStamp(sys, p, now);
    var ws := AddWrites(d, c.limits, c.size, stamp, at, d.end, "");
    (StateAt(d, ws, RefusalPoint(c.limits, at, d.end)), Cache(stamp, AddLimits(c.limits, at, d.end), c.size))
  }

  /** An add of empty data to a list with elements: it is refused with the status still open, and
      the next process to come recovers.  Unless the limits stayed, that must be the same one. */
  ghost predicate RefusedAddStep(sys: System, chain: seq<nat>, p: nat, now: nat, i: nat, opener: nat, clock: nat, sys': System) {
    && 0 < |chain| && i <= |chain|
    && StampCanGrow(sys.disk.stamp, now)
    && (opener == p || 0 < i < |chain|)
    && var (left, cache) := Refused(sys, chain, p, now, i);
       Reopened(sys.(procs := sys.procs[p := cache]), {}, left, opener, clock, sys')
  }

  ghost predicate CrashedAddStep(sys: System, chain: seq<nat>, p: nat, now: nat, i: nat, data: string,
                                 k: nat, left: Disk, again: Again, opener: nat, clock: nat, sys': System)
  {
    var c, d := WriterCache(sys, p), sys.disk;
    && i <= |chain|
    && CanAdd(d, c.limits, PlaceOf(d, chain, i), d.end)
    && StampCanGrow(d.stamp, now)
    && (data == "" ==> k <= RefusalPoint(c.limits, PlaceOf(d, chain, i), d.end))
    && var ws := AddWrites(d, c.limits, c.size, NewStamp(sys, p, now), PlaceOf(d, chain, i), d.end, data);
    && k <= |ws| && CrashedAt(d, ws, k, left)
    && k != |ws| - 3 && (|chain| == 0 ==> !NeedsElement(left.status))
    && exists found :: LeftBy(left, again, found) && Reopened(sys, Dead(p, again), found, opener, clock, sys')
  }

  ghost predicate CrashedRemoveStep(sys: System, chain: seq<nat>, p: nat, now: nat, i: nat,
                                    k: nat, left: Disk, again: Again, opener: nat, clock: nat, sys': System)
  {
    var c, d := WriterCache(sys, p), sys.disk;
    && i < |chain|
    && CanRemove(d, chain[i]) && c.size > 0
    && StampCanGrow(d.stamp, now)
    && var ws := RemoveWrites(d, c.limits, c.size, NewStamp(sys, p, now), chain[i]);
    && k <= |ws| && CrashedAt(d, ws, k, left)
    && k != |ws| - 3 && (|chain| == 1 ==> left.status.Closed? || left.status.Opened?)
    && exists found :: LeftBy(left, again, found) && Reopened(sys, Dead(p, again), found, opener, clock, sys')
  }

  ghost predicate NextWith(sys: System, chain: seq<nat>, step: Step, sys': System) {
    match step
    case Read(p) => sys' == sys.(procs := sys.procs[p := ReaderCache(sys, p)])
    case Add(p, now, i, data) => AddStep(sys, chain, p, now, i, data, sys')
    case RefusedAdd(p, now, i, opener, clock) => RefusedAddStep(sys, chain, p, now, i, opener, clock, sys')
    case Remove(p, now, i) => RemoveStep(sys, chain, p, now, i, sys')
    case CrashedAdd(p, now, i, data, k, left, again, opener, clock) =>
      CrashedAddStep(sys, chain, p, now, i, data, k, left, again, opener, clock, sys')
    case CrashedRemove(p, now, i, k, left, again, opener, clock) =>
      CrashedRemoveStep(sys, chain, p, now, i, k, left, again, opener, clock, sys')
  }

  /** One step of the system, indices being those of the list on disk. */
  ghost predicate Next(sys: System, step: Step, sys': System) {
    exists chain :: WellFormed(sys.disk, chain) && NextWith(sys, chain, step, sys')
  }

  /** The same step on the abstract sequence. */
  ghost predicate NextSeq(s: seq<string>, step: Step, s': seq<string>) {
    match step
    case Read(_) => s' == s
    case Add(_, _, i, data) => i <= |s| && data != "" && s' == InsertAt(s, i, data)
    case RefusedAdd(_, _, _, _, _) => s' == s
    case Remove(_, _, i) => i < |s| && s' == RemoveAt(s, i)
    case CrashedAdd(_, _, i, data, _, _, _, _, _) => i <= |s| && (s' == s || (data != "" && s' == InsertAt(s, i, data)))
    case CrashedRemove(_, _, i, _, _, _, _, _) => i < |s| && (s' == s || s' == RemoveAt(s, i))
  }

  /** The sequence a well-formed disk stands for. */
  ghost function View(d: Disk): seq<string>
    requires exists chain :: WellFormed(d, chain)
  {
    var chain :| WellFormed(d, chain);
    Contents(d, chain)
  }

  lemma ViewIs(d: Disk, chain: seq<nat>)
    requires WellFormed(d, chain)
    ensures View(d) == Contents(d, chain)
  {
    forall other | WellFormed(d, other) ensures other == chain {
      ChainIsUnique(d, other, chain);
    }
  }

  // ---------------------------------------------------------------------
  // Preservation

  /** A step that leaves a newer stamp on disk, and the writer knowing it, keeps the system coherent. */
  lemma NewerStampKeepsCoherence(sys: System, sys': System, gone: set<nat>, opener: nat, c: Cache)
    requires Coherent(sys) && sys'.procs == (sys.procs - gone)[opener := c]
    requires Older(sys.disk.stamp, sys'.disk.stamp) && sys'.disk.stamp.counter < COUNTERS
    requires c == Cache(sys'.disk.stamp, sys'.disk.limits, sys'.disk.size)
    ensures Coherent(sys')
  {
    forall p | p in sys'.procs ensures Fresh(sys'.procs[p], sys'.disk) {
      if p != opener {
        assert Fresh(sys.procs[p], sys.disk);
      }
    }
  }

  lemma AddKeepsSound(sys: System, chain: seq<nat>, p: nat, now: nat, i: nat, data: string, sys': System)
    requires Coherent(sys) && WellFormed(sys.disk, chain) && AddStep(sys, chain, p, now, i, data, sys')
    ensures Sound(sys') && View(sys'.disk) == InsertAt(Contents(sys.disk, chain), i, data)
  {
    CacheIsCurrent(sys, p);
    var d, d', chain' := sys.disk, sys'.disk, InsertAt(chain, i, sys.disk.end);
    UpdatedStampIsNewer(WriterCache(sys, p).stamp, d.stamp, now);
    InsertionCompletes(d, chain, i, data, NewStamp(sys, p, now));
    PlaceIsValid(d, chain, i);
    assert WellFormed(d', chain');
    ViewIs(d', chain');
    assert sys.procs - {} == sys.procs;
    NewerStampKeepsCoherence(sys, sys', {}, p, sys'.procs[p]);
  }

  lemma RemoveKeepsSound(sys: System, chain: seq<nat>, p: nat, now: nat, i: nat, sys': System)
    requires Coherent(sys) && WellFormed(sys.disk, chain) && RemoveStep(sys, chain, p, now, i, sys')
    ensures Sound(sys') && View(sys'.disk) == RemoveAt(Contents(sys.disk, chain), i)
  {
    CacheIsCurrent(sys, p);
    var d, d', chain' := sys.disk, sys'.disk, RemoveAt(chain, i);
    UpdatedStampIsNewer(WriterCache(sys, p).stamp, d.stamp, now);
    RemovalCompletes(d, chain, i, NewStamp(sys, p, now));
    ElementCanGo(d, chain, i);
    assert Node(d.records, d.end, chain, i);
    assert WellFormed(d', chain');
    ViewIs(d', chain');
    assert sys.procs - {} == sys.procs;
    NewerStampKeepsCoherence(sys, sys', {}, p, sys'.procs[p]);
  }

  /** Reopening after a crash that is survived: the reopener is current, all others are older. */
  lemma ReopenKeepsSound(sys: System, dead: set<nat>, left: Disk, opener: nat, clock: nat, sys': System,
                         stamp: Stamp, before: seq<string>, after: seq<string>)
    requires Coherent(sys) && Reopened(sys, dead, left, opener, clock, sys')
    requires Survives(left, clock, before, after)
    requires stamp.counter < COUNTERS && Older(sys.disk.stamp, stamp)
    requires left.stamp == stamp || left == sys.disk
    requires left == sys.disk ==> left.status == Closed
    ensures Sound(sys') && (View(sys'.disk) == before || View(sys'.disk) == after)
  {
    var d' := sys'.disk;
    var chain :| WellFormed(d', chain) && (Contents(d', chain) == before || Contents(d', chain) == after);
    ViewIs(d', chain);
    if left.stamp == stamp {
      NewerStampKeepsCoherence(sys, sys', dead, opener, sys'.procs[opener]);
    } else {
      assert d' == sys.disk;
      forall q | q in sys'.procs ensures Fresh(sys'.procs[q], d') {
        if q != opener {
          assert Fresh(sys.procs[q], sys.disk);
        }
      }
    }
  }

  /** What the last process finds is survived like what the first crash left, under the same stamp. */
  lemma FoundSurvives(d: Disk, chain: seq<nat>, i: nat, stamp: Stamp, left: Disk, again: Again, found: Disk, clock: nat,
                      after: seq<string>)
    requires WellFormed(d, chain) && LeftBy(left, again, found)
    requires Survives(left, clock, Contents(d, chain), after)
    requires Interrupted.Recoverable(left, Begun(d, stamp), chain, i, after)
    ensures Survives(found, clock, Contents(d, chain), after) && found.stamp == left.stamp
    ensures left.status == Closed ==> found == left
  {
    if again.Twice? {
      var before, rs := Contents(d, chain), RecoveryWrites(left).value;
      Interrupted.RecoveredTwice(left, d, chain, i, stamp, again.j, clock, before, after);
      SecondCrash.FateDecides(found, true, clock, before, after);
      Interrupted.RecoveredTwice(left, d, chain, i, stamp, 0, clock, before, after);
      assert StateAt(left, rs, 0) == left;
      Interrupted.SurvivorKeepsStamp(left, clock, before, after, rs, again.j);
      if left.status == Closed {
        ClosedStays(left, rs, again.j);
      }
    }
  }

  lemma ClosedStays(d: Disk, rs: seq<Write>, j: nat)
    requires d.status == Closed && RecoveryWrites(d) == Some(rs) && j <= |rs|
    ensures StateAt(d, rs, j) == d
  {
    assert rs == [WStatus(Closed)];
    assert StateAt(d, rs, 0) == d;
  }

  lemma CrashedAddKeepsSound(sys: System, chain: seq<nat>, p: nat, now: nat, i: nat, data: string,
                             k: nat, left: Disk, again: Again, opener: nat, clock: nat, sys': System)
    requires Coherent(sys) && WellFormed(sys.disk, chain)
    requires CrashedAddStep(sys, chain, p, now, i, data, k, left, again, opener, clock, sys')
    ensures var s := Contents(sys.disk, chain);
            Sound(sys') && (View(sys'.disk) == s || (data != "" && View(sys'.disk) == InsertAt(s, i, data)))
  {
    CacheIsCurrent(sys, p);
    var s, stamp := Contents(sys.disk, chain), NewStamp(sys, p, now);
    var found :| LeftBy(left, again, found) && Reopened(sys, Dead(p, again), found, opener, clock, sys');
    UpdatedStampIsNewer(WriterCache(sys, p).stamp, sys.disk.stamp, now);
    var after := CrashedAddSurvives(sys.disk, chain, i, data, stamp, k, left, clock);
    FoundSurvives(sys.disk, chain, i, stamp, left, again, found, clock, after);
    ReopenKeepsSound(sys, Dead(p, again), found, opener, clock, sys', stamp, s, after);
  }

  /** A survived crash of an add; one whose data is refused never gets past its body. */
  lemma CrashedAddSurvives(d: Disk, chain: seq<nat>, i: nat, data: string, stamp: Stamp, k: nat, left: Disk, clock: nat)
      returns (after: seq<string>)
    requires WellFormed(d, chain) && i <= |chain|
    requires data == "" ==> k <= RefusalPoint(d.limits, PlaceOf(d, chain, i), d.end)
    requires var ws := AddWrites(d, d.limits, d.size, stamp, PlaceOf(d, chain, i), d.end, data);
             && k <= |ws| && CrashedAt(d, ws, k, left)
             && k != |ws| - 3 && (|chain| == 0 ==> !NeedsElement(left.status))
    ensures after == if data == "" then Contents(d, chain) else InsertAt(Contents(d, chain), i, data)
    ensures Survives(left, clock, Contents(d, chain), after)
    ensures Interrupted.Recoverable(left, Begun(d, stamp), chain, i, after)
    ensures left.stamp == (if k == 0 then d.stamp else stamp) && (k == 0 ==> left == d)
  {
    FirstWriteIsStamp(d, stamp, AddBody(d, d.limits, PlaceOf(d, chain, i), d.end, data), AddEpilogue(d.size), k, left);
    if data == "" {
      after := Contents(d, chain);
      PlaceIsValid(d, chain, i);
      UnfinishedIsUndone(d, chain, i, data, stamp, k, left, clock);
      Interrupted.UnfinishedLeaves(d, chain, i, data, stamp, k, left, after);
    } else {
      after := InsertAt(Contents(d, chain), i, data);
      InsertionIsAtomic(d, chain, i, data, stamp, k, left, clock);
      Interrupted.InsertionLeaves(d, chain, i, data, stamp, k, left);
    }
  }

  lemma FirstWriteIsStamp(d: Disk, stamp: Stamp, body: seq<Write>, epilogue: seq<Write>, k: nat, left: Disk)
    requires k <= 2 + |body| + |epilogue| && CrashedAt(d, Prologue(stamp) + body + epilogue, k, left)
    ensures k == 0 ==> left == d
  {
    SplitCrash(d, stamp, body, epilogue, k, left);
  }

  lemma CrashedRemoveKeepsSound(sys: System, chain: seq<nat>, p: nat, now: nat, i: nat,
                                k: nat, left: Disk, again: Again, opener: nat, clock: nat, sys': System)
    requires Coherent(sys) && WellFormed(sys.disk, chain)
    requires CrashedRemoveStep(sys, chain, p, now, i, k, left, again, opener, clock, sys')
    ensures var s := Contents(sys.disk, chain);
            Sound(sys') && (View(sys'.disk) == s || View(sys'.disk) == RemoveAt(s, i))
  {
    CacheIsCurrent(sys, p);
    var d, s, stamp := sys.disk, Contents(sys.disk, chain), NewStamp(sys, p, now);
    var found :| LeftBy(left, again, found) && Reopened(sys, Dead(p, again), found, opener, clock, sys');
    UpdatedStampIsNewer(WriterCache(sys, p).stamp, d.stamp, now);
    RemovalIsAtomic(d, chain, i, stamp, k, left, clock);
    Interrupted.RemovalLeaves(d, chain, i, stamp, k, left);
    FirstWriteIsStamp(d, stamp, RemoveBody(d, d.limits, chain[i]), RemoveEpilogue(d.size), k, left);
    FoundSurvives(d, chain, i, stamp, left, again, found, clock, RemoveAt(s, i));
    ReopenKeepsSound(sys, Dead(p, again), found, opener, clock, sys', stamp, s, RemoveAt(s, i));
  }

  /** What the refused add leaves, and what recovery makes of it. */
  lemma RefusalIsUndone(sys: System, chain: seq<nat>, p: nat, now: nat, i: nat, clock: nat)
    requires Coherent(sys) && WellFormed(sys.disk, chain) && 0 < |chain| && i <= |chain|
    ensures var (left, cache) := Refused(sys, chain, p, now, i);
            var o := Recover(left, clock);
            && o.Good? && WellFormed(o.image.disk, chain)
            && Contents(o.image.disk, chain) == Contents(sys.disk, chain)
            && o.image.cache == o.image.disk.limits == sys.disk.limits && o.image.disk.size == sys.disk.size
            && left.stamp == cache.stamp == o.image.disk.stamp == NewStamp(sys, p, now)
            && (cache.limits == sys.disk.limits <==> 0 < i < |chain|)
  {
    CacheIsCurrent(sys, p);
    PlaceIsValid(sys.disk, chain, i);
    RefusalIsRestored(sys.disk, chain, i, NewStamp(sys, p, now), clock);
    SameBody(sys.disk, Begun(sys.disk, NewStamp(sys, p, now)), chain);
  }

  lemma RefusedAddKeepsSound(sys: System, chain: seq<nat>, p: nat, now: nat, i: nat, opener: nat, clock: nat, sys': System)
    requires Coherent(sys) && WellFormed(sys.disk, chain)
    requires RefusedAddStep(sys, chain, p, now, i, opener, clock, sys')
    ensures Sound(sys') && View(sys'.disk) == Contents(sys.disk, chain)
  {
    CacheIsCurrent(sys, p);
    RefusalIsUndone(sys, chain, p, now, i, clock);
    UpdatedStampIsNewer(WriterCache(sys, p).stamp, sys.disk.stamp, now);
    ViewIs(sys'.disk, chain);
    forall q | q in sys'.procs
      ensures Fresh(sys'.procs[q], sys'.disk)
    {
      if q != opener && q != p {
        assert Fresh(sys.procs[q], sys.disk);
      }
    }
  }

  /** After a refused add, recovery by another process leaves the one refused with a cache it takes
      for current, though it is not, exactly when the place was at an end of the list. */
  lemma RefusalLeavesStaleCache(sys: System, chain: seq<nat>, p: nat, now: nat, i: nat, clock: nat)
    requires Coherent(sys) && WellFormed(sys.disk, chain) && 0 < |chain| && i <= |chain|
    ensures var (left, cache) := Refused(sys, chain, p, now, i);
            var o := Recover(left, clock);
            o.Good? && cache.stamp == o.image.disk.stamp && (Fresh(cache, o.image.disk) <==> 0 < i < |chain|)
  {
    CacheIsCurrent(sys, p);
    RefusalIsUndone(sys, chain, p, now, i, clock);
    UpdatedStampIsNewer(WriterCache(sys, p).stamp, sys.disk.stamp, now);
  }

  /** Every step keeps the system sound and does to the file what it does to the sequence. */
  lemma StepRefines(sys: System, step: Step, sys': System)
    requires Sound(sys) && Next(sys, step, sys')
    ensures Simulated(sys, step, sys')
  {
    var chain :| WellFormed(sys.disk, chain) && NextWith(sys, chain, step, sys');
    ViewIs(sys.disk, chain);
    match step
    case Read(p) =>
      CacheIsCurrent(sys, p);
    case Add(p, now, i, data) =>
      AddKeepsSound(sys, chain, p, now, i, data, sys');
    case RefusedAdd(p, now, i, opener, clock) =>
      RefusedAddKeepsSound(sys, chain, p, now, i, opener, clock, sys');
    case Remove(p, now, i) =>
      RemoveKeepsSound(sys, chain, p, now, i, sys');
    case CrashedAdd(p, now, i, data, k, left, again, opener, clock) =>
      CrashedAddKeepsSound(sys, chain, p, now, i, data, k, left, again, opener, clock, sys');
    case CrashedRemove(p, now, i, k, left, again, opener, clock) =>
      CrashedRemoveKeepsSound(sys, chain, p, now, i, k, left, again, opener, clock, sys');
  }

  ghost predicate Simulated(sys: System, step: Step, sys': System) {
    Sound(sys) && Sound(sys') && NextSeq(View(sys.disk), step, View(sys'.disk))
  }

  ghost predicate IsRun(run: seq<System>, steps: seq<Step>) {
    && |run| == |steps| + 1
    && forall j {:trigger steps[j]} :: 0 <= j < |steps| ==> Next(run[j], steps[j], run[j + 1])
  }

  /** A created file and no process yet: the empty sequence. */
  lemma CreatedIsSound(clock: nat)
    ensures Sound(System(EmptyFile(clock), map[])) && View(EmptyFile(clock)) == []
  {
    assert WellFormed(EmptyFile(clock), []);
    ViewIs(EmptyFile(clock), []);
  }

  lemma {:induction false} RunStaysSound(run: seq<System>, steps: seq<Step>, j: nat)
    requires IsRun(run, steps) && Sound(run[0]) && j < |run|
    ensures Sound(run[j])
  {
    if j > 0 {
      RunStaysSound(run, steps, j - 1);
      assert Next(run[j - 1], steps[j - 1], run[j - 1 + 1]);
      StepRefines(run[j - 1], steps[j - 1], run[j]);
    }
  }

  /** Every run from a sound system, of any number of processes, with any crashes and reopenings
      allowed by `Next`, stays sound and maps step by step to a run of the abstract sequence. */
  lemma RunRefinesSequence(run: seq<System>, steps: seq<Step>, j: nat)
    requires IsRun(run, steps) && Sound(run[0]) && j < |steps|
    ensures Simulated(run[j], steps[j], run[j + 1])
  {
    RunStaysSound(run, steps, j);
    StepRefines(run[j], steps[j], run[j + 1]);
  }
}
