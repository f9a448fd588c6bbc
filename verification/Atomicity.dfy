/** Crash atomicity of add_data and remove_data, for every list, place and crash point, and
    the list each leaves when it is not interrupted. */
module Atomicity {
  import opened Disk
  import opened Recovery
  import opened Programs
  import opened Undoing
  import Insertion
  import Removal

  /** Reopening `c` succeeds and yields a well-formed container that holds `before` or `after`. */
  ghost predicate Survives(c: Disk, clock: nat, before: seq<string>, after: seq<string>) {
    var o := Recover(c, clock);
    && o.Good?
    && o.image.cache == o.image.disk.limits
    && o.image.disk.stamp == c.stamp
    && exists chain :: WellFormed(o.image.disk, chain)
                       && (Contents(o.image.disk, chain) == before || Contents(o.image.disk, chain) == after)
  }

  /** The offset add_data takes for list index `i`. */
  function PlaceOf(d: Disk, chain: seq<nat>, i: nat): nat
    requires i <= |chain|
  {
    if i == |chain| then d.end else chain[i]
  }

  /** In use, nothing changed yet. */
  function Begun(d: Disk, stamp: Stamp): Disk {
    d.(stamp := stamp, status := Opened)
  }

  lemma PrologueStates(d: Disk, stamp: Stamp, k: nat)
    requires k <= 2
    ensures StateAt(d, Prologue(stamp), k) == if k == 0 then d else if k == 1 then d.(stamp := stamp) else Begun(d, stamp)
  {
    assert StateAt(d, Prologue(stamp), 0) == d;
    assert StateAt(d, Prologue(stamp), 1) == d.(stamp := stamp);
  }

  /** A crash of an operation is a crash of its prologue, of its body or of its closing writes. */
  lemma SplitCrash(d: Disk, stamp: Stamp, body: seq<Write>, epilogue: seq<Write>, k: nat, c: Disk)
    requires k <= 2 + |body| + |epilogue| && CrashedAt(d, Prologue(stamp) + body + epilogue, k, c)
    ensures k < 2 ==> c == d.(stamp := if k == 0 then d.stamp else stamp)
    ensures 2 <= k < 2 + |body| ==> CrashedAt(Begun(d, stamp), body, k - 2, c)
    ensures 2 + |body| <= k ==> CrashedAt(RunAll(Begun(d, stamp), body), epilogue, k - 2 - |body|, c)
  {
    assert Prologue(stamp) + body + epilogue == Prologue(stamp) + (body + epilogue);
    CrashConcat(d, Prologue(stamp), body + epilogue, k, c);
    PrologueStates(d, stamp, if k < 2 then k else 2);
    if k >= 2 {
      PrologueStates(d, stamp, 2);
      CrashConcat(Begun(d, stamp), body, epilogue, k - 2, c);
    }
  }

  /** So many writes into its body, an operation is where the body alone would be. */
  lemma BodyState(d: Disk, stamp: Stamp, body: seq<Write>, epilogue: seq<Write>, k: nat)
    requires k <= |body|
    ensures StateAt(d, Prologue(stamp) + body + epilogue, k + 2) == StateAt(Begun(d, stamp), body, k)
  {
    assert Prologue(stamp) + body + epilogue == Prologue(stamp) + (body + epilogue);
    PrologueStates(d, stamp, 2);
    StateAtConcat(d, Prologue(stamp), body + epilogue, k + 2);
    StateAtConcat(Begun(d, stamp), body, epilogue, k);
  }

  lemma RunOperation(d: Disk, stamp: Stamp, body: seq<Write>, epilogue: seq<Write>)
    ensures RunAll(d, Prologue(stamp) + body + epilogue) == RunAll(RunAll(Begun(d, stamp), body), epilogue)
  {
    PrologueStates(d, stamp, 2);
    RunConcat(d, Prologue(stamp), body);
    RunConcat(d, Prologue(stamp) + body, epilogue);
  }

  /** While the status is closed or opened and the list untouched, reopening finds the old list. */
  lemma UntouchedSurvives(c: Disk, d: Disk, chain: seq<nat>, clock: nat, after: seq<string>)
    requires WellFormed(d, chain) && (c.status.Closed? || c.status.Opened?)
    requires c.records == d.records && c.end == d.end && c.limits == d.limits && c.size == d.size
    requires |chain| == 0 ==> c.slots == NO_SLOTS
    ensures Survives(c, clock, Contents(d, chain), after)
  {
    SameBody(d, c.(status := Closed), chain);
    assert WellFormed(Recover(c, clock).image.disk, chain);
  }

  lemma RestoredSurvives(c: Disk, b: Disk, chain: seq<nat>, clock: nat, before: seq<string>, after: seq<string>)
    requires Holds(b, chain) && Restores(c, clock, b, chain) && c.stamp == b.stamp
    requires Contents(b, chain) == before || Contents(b, chain) == after
    ensures Survives(c, clock, before, after)
  {
  }

  // ---------------------------------------------------------------------
  // Closing writes

  ghost function EpilogueState(f: Disk, status: Status, size: nat, k: nat): Disk {
    f.(slots := if k < 1 then f.slots else NO_SLOTS,
       limitsBackup := if k < 1 then f.limitsBackup else Limits(0, 0),
       status := if k < 2 then f.status else if k < 4 then status else Closed,
       size := if k < 3 then f.size else size)
  }

  lemma EpilogueStates(f: Disk, status: Status, size: nat, k: nat)
    requires k <= 4
    ensures StateAt(f, [WClear, WStatus(status), WSize(size), WStatus(Closed)], k) == EpilogueState(f, status, size, k)
    decreases k
  {
    if k > 0 {
      EpilogueStates(f, status, size, k - 1);
    }
  }

  /** Once the status byte says the backups are cleared, the new list is the one found. */
  lemma EpilogueSurvives(f: Disk, chain: seq<nat>, status: Status, k: nat, clock: nat, before: seq<string>)
    requires Holds(f, chain) && |chain| > 0 && 2 <= k <= 4
    requires (status == AdEmpty && f.size == |chain| - 1) || (status == RdEmpty && f.size == |chain| + 1)
    ensures Survives(EpilogueState(f, status, |chain|, k), clock, before, Contents(f, chain))
  {
    var c := EpilogueState(f, status, |chain|, k);
    SameBody(f, c, chain);
    if k == 4 {
      UntouchedSurvives(c, c, chain, clock, before);
    } else {
      UndoneIsRestored(Image(c, c.limits), c, c, chain, if status == AdEmpty then 1 else -1, clock);
      RestoredSurvives(c, c, chain, clock, before, Contents(f, chain));
    }
  }

  // ---------------------------------------------------------------------
  // Insertion

  /** The statuses under which addDataAtEnd relies on slot 0. */
  predicate NeedsElement(s: Status) {
    s.AeLimits? || s.AeWriting? || s.AeWritten?
  }

  lemma PlaceIsValid(b: Disk, chain: seq<nat>, i: nat)
    requires Holds(b, chain) && i <= |chain|
    ensures CanAdd(b, b.limits, PlaceOf(b, chain, i), b.end)
    ensures |chain| > 0 ==> b.limits.last in b.records && b.limits.first in b.records && b.limits.last != b.end
    ensures |chain| > 0 ==> b.records[b.limits.last].next == b.end
    ensures b.end !in b.records
    ensures i < |chain| ==> chain[i] != b.end && (chain[i] == b.limits.first <==> i == 0)
  {
    if |chain| > 0 {
      assert Node(b.records, b.end, chain, |chain| - 1) && Node(b.records, b.end, chain, 0);
    }
    if i < |chain| {
      assert Node(b.records, b.end, chain, i);
      if i > 0 {
        assert Node(b.records, b.end, chain, i - 1);
      }
    }
  }

  lemma SameAddBody(d: Disk, b: Disk, at: nat, end: nat, data: string)
    requires b.records == d.records && b.end == d.end && b.limits == d.limits
    ensures AddBody(b, b.limits, at, end, data) == AddBody(d, d.limits, at, end, data)
  {
  }

  /** Inside the body of an insertion into a non-empty list every crash is undone. */
  lemma InsertBodyUndone(b: Disk, chain: seq<nat>, i: nat, data: string, k: nat, c: Disk, clock: nat) returns (m: Image)
    requires Holds(b, chain) && |chain| > 0 && i <= |chain| && b.status == Opened
    requires var ws := AddBody(b, b.limits, PlaceOf(b, chain, i), b.end, data); k <= |ws| && CrashedAt(b, ws, k, c)
    ensures c.stamp == b.stamp
    ensures k < 2 ==> c == b.(slots := c.slots, limitsBackup := c.limitsBackup)
    ensures k >= 2 ==> Insertion.Promise(c, b, PlaceOf(b, chain, i))
    ensures c.end <= b.end + DataSize(|data|)
    ensures k >= 2 ==> SameList(m, b) && Undo(Image(c, c.limits), clock) == Check(m, 1)
  {
    PlaceIsValid(b, chain, i);
    m := Image(c, c.limits);
    if i == |chain| {
      Insertion.AtEndStates(b, data, k);
      if k >= 2 {
        Insertion.AtEndKeepsPromise(b, data, k, c.end);
        m := Insertion.AeUndone(c, b, clock);
      }
    } else if i == 0 {
      Insertion.AtBeginStates(b, data, k);
      if k >= 2 {
        Insertion.AtBeginKeepsPromise(b, data, k, c.end);
        m := Insertion.AbUndone(c, b, clock);
      }
    } else {
      Insertion.InnerPlaces(b, chain, i);
      Insertion.InMiddleStates(b, chain[i], data, k);
      if k >= 2 {
        Insertion.InMiddleKeepsPromise(b, chain[i], data, k, c.end);
        m := Insertion.AmUndone(c, b, chain[i], clock);
      }
    }
  }

  lemma InsertBodySurvives(b: Disk, chain: seq<nat>, i: nat, data: string, k: nat, c: Disk, clock: nat, after: seq<string>)
    requires Holds(b, chain) && |chain| > 0 && i <= |chain| && b.size == |chain| && b.status == Opened
    requires var ws := AddBody(b, b.limits, PlaceOf(b, chain, i), b.end, data); k <= |ws| && CrashedAt(b, ws, k, c)
    ensures Survives(c, clock, Contents(b, chain), after) && c.stamp == b.stamp
  {
    var m := InsertBodyUndone(b, chain, i, data, k, c, clock);
    if k < 2 {
      SameBody(b, b.(status := Closed), chain);
      UntouchedSurvives(c, b.(status := Closed), chain, clock, after);
    } else {
      UndoneIsRestored(m, c, b, chain, 1, clock);
      RestoredSurvives(c, b, chain, clock, Contents(b, chain), after);
    }
  }

  /** On an empty list a crash is survived exactly while the status byte still says opened. */
  lemma FirstBodySurvives(b: Disk, data: string, k: nat, c: Disk, clock: nat, after: seq<string>)
    requires Holds(b, []) && b.size == 0 && b.status == Opened && b.slots == NO_SLOTS
    requires k <= 6 && CrashedAt(b, AddFirst(b.limits, b.end, data), k, c)
    ensures Survives(c, clock, Contents(b, []), after) <==> k < 2
    ensures (NeedsElement(c.status) <==> k >= 2) && c.stamp == b.stamp
  {
    Insertion.FirstStates(b, data, k);
    if k < 2 {
      SameBody(b, b.(status := Closed), []);
      UntouchedSurvives(c, b.(status := Closed), [], clock, after);
    } else {
      Insertion.FirstIsLost(b, data, k, c.end, clock);
    }
  }

  /** The body of an insertion has run to its end: the element is inserted, nothing else has changed. */
  ghost predicate BodyDone(b: Disk, f: Disk, chain: seq<nat>, i: nat, data: string)
    requires Holds(b, chain) && i <= |chain|
  {
    && Holds(f, InsertAt(chain, i, b.end))
    && Contents(f, InsertAt(chain, i, b.end)) == InsertAt(Contents(b, chain), i, data)
    && f.records.Keys == b.records.Keys + {b.end} && f.end == b.end + DataSize(|data|)
    && f.size == b.size && f.stamp == b.stamp
    && (f.status.AeWritten? || f.status.AbLast? || f.status.AmLast?)
    && OthersStay(b, f, b.end)
    && f.records[b.end].filePrev == b.limits.last && f.records[b.end].fileNext == f.end
  }

  /** Apart from the one at p, the records of the first disk are still there, but for their pointers. */
  ghost predicate OthersStay(b: Disk, f: Disk, p: nat) {
    forall q :: q in b.records && q != p ==>
      q in f.records && f.records[q] == b.records[q].(prev := f.records[q].prev, next := f.records[q].next)
  }

  lemma InsertBehindDone(b: Disk, chain: seq<nat>, data: string)
    requires Holds(b, chain)
    ensures BodyDone(b, RunAll(b, AddBody(b, b.limits, b.end, b.end, data)), chain, |chain|, data)
  {
    PlaceIsValid(b, chain, |chain|);
    if |chain| == 0 {
      Insertion.FirstStates(b, data, 6);
      Insertion.FirstDone(b, data);
    } else {
      Insertion.AtEndStates(b, data, 9);
      Insertion.AtEndDone(b, chain, data);
    }
  }

  lemma InsertFirstDone(b: Disk, chain: seq<nat>, data: string)
    requires Holds(b, chain) && |chain| > 0
    ensures BodyDone(b, RunAll(b, AddBody(b, b.limits, chain[0], b.end, data)), chain, 0, data)
  {
    PlaceIsValid(b, chain, 0);
    Insertion.AtBeginStates(b, data, 12);
    Insertion.AtBeginDone(b, chain, data);
    AtBeginLeaves(b, data);
  }

  lemma AtBeginLeaves(b: Disk, data: string)
    requires b.limits.first in b.records && b.limits.last in b.records && b.end !in b.records
    ensures var f := Insertion.AtBeginState(b, data, 12);
            && f.records.Keys == b.records.Keys + {b.end} && OthersStay(b, f, b.end)
            && f.records[b.end].filePrev == b.limits.last && f.records[b.end].fileNext == f.end
  {
  }

  lemma InsertBetweenDone(b: Disk, chain: seq<nat>, i: nat, data: string)
    requires Holds(b, chain) && 0 < i < |chain|
    ensures BodyDone(b, RunAll(b, AddBody(b, b.limits, chain[i], b.end, data)), chain, i, data)
  {
    PlaceIsValid(b, chain, i);
    Insertion.InMiddleDone(b, chain, i, data);
    Insertion.InMiddleStates(b, chain[i], data, 12);
    InMiddleLeaves(b, chain[i], data);
  }

  lemma InMiddleLeaves(b: Disk, at: nat, data: string)
    requires Insertion.Inner(b, at)
    ensures var f := Insertion.InMiddleState(b, at, data, 12);
            && f.records.Keys == b.records.Keys + {b.end} && OthersStay(b, f, b.end)
            && f.records[b.end].filePrev == b.limits.last && f.records[b.end].fileNext == f.end
  {
  }

  /** Run to its end, the body of an insertion leaves the list with the element inserted. */
  lemma InsertBodyDone(b: Disk, chain: seq<nat>, i: nat, data: string)
    requires Holds(b, chain) && i <= |chain|
    ensures BodyDone(b, RunAll(b, AddBody(b, b.limits, PlaceOf(b, chain, i), b.end, data)), chain, i, data)
  {
    if i == |chain| {
      InsertBehindDone(b, chain, data);
    } else if i == 0 {
      InsertFirstDone(b, chain, data);
    } else {
      InsertBetweenDone(b, chain, i, data);
    }
  }

  /** The closing writes: survived, except between clearing the backups and saying so. */
  lemma ClosingIsAtomic(f: Disk, chain: seq<nat>, status: Status, k: nat, c: Disk, clock: nat, before: seq<string>)
    requires Holds(f, chain) && |chain| > 0 && 1 <= k <= 4
    requires (status == AdEmpty && f.size == |chain| - 1) || (status == RdEmpty && f.size == |chain| + 1)
    requires f.status.AeWritten? || f.status.AbLast? || f.status.AmLast? || f.status.RdMark1? || f.status.RdMark2?
    requires CrashedAt(f, [WClear, WStatus(status), WSize(|chain|), WStatus(Closed)], k, c)
    ensures Survives(c, clock, before, Contents(f, chain)) <==> k != 1
    ensures (k != 1 ==> c.status == status || c.status == Closed) && c.stamp == f.stamp
  {
    EpilogueStates(f, status, |chain|, k);
    if k == 1 {
      assert Node(f.records, f.end, chain, 0) && Node(f.records, f.end, chain, |chain| - 1);
      SameBody(f, c, chain);
      ClearedIsLost(c, clock);
    } else {
      EpilogueSurvives(f, chain, status, k, clock, before);
    }
  }

  lemma InsertBodyIsAtomic(b: Disk, chain: seq<nat>, i: nat, data: string, k: nat, c: Disk, clock: nat, after: seq<string>)
    requires Holds(b, chain) && b.size == |chain| && b.status == Opened && (|chain| == 0 ==> b.slots == NO_SLOTS)
    requires i <= |chain|
    requires var ws := AddBody(b, b.limits, PlaceOf(b, chain, i), b.end, data); k <= |ws| && CrashedAt(b, ws, k, c)
    ensures Survives(c, clock, Contents(b, chain), after) <==> (|chain| == 0 ==> !NeedsElement(c.status))
    ensures c.stamp == b.stamp
  {
    PlaceIsValid(b, chain, i);
    if |chain| == 0 {
      FirstBodySurvives(b, data, k, c, clock, after);
    } else {
      InsertBodySurvives(b, chain, i, data, k, c, clock, after);
    }
  }

  /** The closing writes over a disk that already holds the new list. */
  lemma ClosesInsertion(b: Disk, f: Disk, chain: seq<nat>, i: nat, data: string, k: nat, c: Disk, clock: nat)
    requires Holds(b, chain) && b.size == |chain| == f.size && i <= |chain| && 1 <= k <= 4 && f.stamp == b.stamp
    requires Holds(f, InsertAt(chain, i, b.end)) && (f.status.AeWritten? || f.status.AbLast? || f.status.AmLast?)
    requires Contents(f, InsertAt(chain, i, b.end)) == InsertAt(Contents(b, chain), i, data)
    requires CrashedAt(f, AddEpilogue(b.size), k, c)
    ensures Survives(c, clock, Contents(b, chain), InsertAt(Contents(b, chain), i, data)) <==> k != 1
    ensures (k != 1 ==> !NeedsElement(c.status)) && c.stamp == b.stamp
  {
    ClosingIsAtomic(f, InsertAt(chain, i, b.end), AdEmpty, k, c, clock, Contents(b, chain));
  }

  lemma InsertClosingIsAtomic(b: Disk, chain: seq<nat>, i: nat, data: string, k: nat, c: Disk, clock: nat)
    requires Holds(b, chain) && b.size == |chain| && i <= |chain|
    requires 1 <= k <= 4
    requires CrashedAt(RunAll(b, AddBody(b, b.limits, PlaceOf(b, chain, i), b.end, data)), AddEpilogue(b.size), k, c)
    ensures Survives(c, clock, Contents(b, chain), InsertAt(Contents(b, chain), i, data)) <==> k != 1
    ensures (k != 1 ==> !NeedsElement(c.status)) && c.stamp == b.stamp
  {
    InsertBodyDone(b, chain, i, data);
    ClosesInsertion(b, RunAll(b, AddBody(b, b.limits, PlaceOf(b, chain, i), b.end, data)), chain, i, data, k, c, clock);
  }

  /** Interrupted before its closing writes, an insertion leads back to the old sequence or nowhere. */
  lemma UnfinishedIsUndone(d: Disk, chain: seq<nat>, i: nat, data: string, stamp: Stamp, k: nat, c: Disk, clock: nat)
    requires WellFormed(d, chain) && i <= |chain|
    requires k <= 2 + |AddBody(d, d.limits, PlaceOf(d, chain, i), d.end, data)|
    requires CrashedAt(d, AddWrites(d, d.limits, d.size, stamp, PlaceOf(d, chain, i), d.end, data), k, c)
    ensures Survives(c, clock, Contents(d, chain), Contents(d, chain)) <==> (|chain| == 0 ==> !NeedsElement(c.status))
    ensures c.stamp == if k == 0 then d.stamp else stamp
  {
    var at, b := PlaceOf(d, chain, i), Begun(d, stamp);
    SameBody(d, b, chain);
    SameAddBody(d, b, at, d.end, data);
    SplitCrash(d, stamp, AddBody(d, d.limits, at, d.end, data), AddEpilogue(d.size), k, c);
    if k < 2 {
      UntouchedSurvives(c, d, chain, clock, Contents(d, chain));
    } else {
      InsertBodyIsAtomic(b, chain, i, data, k - 2, c, clock, Contents(d, chain));
    }
  }

  /** A refused insertion is one interrupted before its record is written: on a list with elements
      recovery finds the very same elements again. */
  lemma RefusalIsRestored(d: Disk, chain: seq<nat>, i: nat, stamp: Stamp, clock: nat)
    requires WellFormed(d, chain) && |chain| > 0 && i <= |chain|
    ensures var at := PlaceOf(d, chain, i);
            var ws := AddWrites(d, d.limits, d.size, stamp, at, d.end, "");
            && RefusalPoint(d.limits, at, d.end) == 8 < |ws|
            && Holds(Begun(d, stamp), chain)
            && Restores(StateAt(d, ws, 8), clock, Begun(d, stamp), chain) && StateAt(d, ws, 8).stamp == stamp
  {
    var at, b := PlaceOf(d, chain, i), Begun(d, stamp);
    PlaceIsValid(d, chain, i);
    SameBody(d, b, chain);
    SameAddBody(d, b, at, d.end, "");
    BodyState(d, stamp, AddBody(d, d.limits, at, d.end, ""), AddEpilogue(d.size), 6);
    RefusedBodyIsRestored(b, chain, i, clock);
  }

  lemma RefusedBodyIsRestored(b: Disk, chain: seq<nat>, i: nat, clock: nat)
    requires Holds(b, chain) && b.size == |chain| > 0 && i <= |chain| && b.status == Opened
    ensures var body := AddBody(b, b.limits, PlaceOf(b, chain, i), b.end, "");
            6 <= |body| && Restores(StateAt(b, body, 6), clock, b, chain) && StateAt(b, body, 6).stamp == b.stamp
  {
    PlaceIsValid(b, chain, i);
    var c := StateAt(b, AddBody(b, b.limits, PlaceOf(b, chain, i), b.end, ""), 6);
    var m := InsertBodyUndone(b, chain, i, "", 6, c, clock);
    UndoneIsRestored(m, c, b, chain, 1, clock);
  }

  /** Crash atomicity of add_data.  Whatever the list, the place and the data, a crash after any
      number of writes, or inside the record append, is survived if and only if it does not fall
      between the clearing of the backups and the status byte announcing it, and, when the list
      was empty, not while the status byte sends recovery to the missing last element. */
  lemma InsertionIsAtomic(d: Disk, chain: seq<nat>, i: nat, data: string, stamp: Stamp, k: nat, c: Disk, clock: nat)
    requires WellFormed(d, chain) && i <= |chain|
    requires var ws := AddWrites(d, d.limits, d.size, stamp, PlaceOf(d, chain, i), d.end, data);
             k <= |ws| && CrashedAt(d, ws, k, c)
    ensures var ws := AddWrites(d, d.limits, d.size, stamp, PlaceOf(d, chain, i), d.end, data);
            Survives(c, clock, Contents(d, chain), InsertAt(Contents(d, chain), i, data))
            <==> k != |ws| - 3 && (|chain| == 0 ==> !NeedsElement(c.status))
    ensures c.stamp == if k == 0 then d.stamp else stamp
  {
    var at := PlaceOf(d, chain, i);
    var b := Begun(d, stamp);
    var body, epilogue := AddBody(d, d.limits, at, d.end, data), AddEpilogue(d.size);
    var after := InsertAt(Contents(d, chain), i, data);
    SameBody(d, b, chain);
    SameAddBody(d, b, at, d.end, data);
    SplitCrash(d, stamp, body, epilogue, k, c);
    if k < 2 {
      UntouchedSurvives(c, d, chain, clock, after);
    } else if k <= 2 + |body| {
      InsertBodyIsAtomic(b, chain, i, data, k - 2, c, clock, after);
    } else {
      InsertClosingIsAtomic(b, chain, i, data, k - 2 - |body|, c, clock);
    }
  }

  /** Uninterrupted, add_data of anything but an empty string, which writeDataHere refuses, leaves a
      well-formed container holding the new sequence. */
  lemma InsertionCompletes(d: Disk, chain: seq<nat>, i: nat, data: string, stamp: Stamp)
    requires WellFormed(d, chain) && i <= |chain| && data != ""
    ensures CanAdd(d, d.limits, PlaceOf(d, chain, i), d.end)
    ensures var d' := RunAll(d, AddWrites(d, d.limits, d.size, stamp, PlaceOf(d, chain, i), d.end, data));
            && WellFormed(d', InsertAt(chain, i, d.end))
            && Contents(d', InsertAt(chain, i, d.end)) == InsertAt(Contents(d, chain), i, data)
            && d'.stamp == stamp
            && d.end in d'.records && OthersStay(d, d', d.end)
            && d'.records[d.end].filePrev == d.limits.last && d'.records[d.end].fileNext == d'.end
  {
    var at, b := PlaceOf(d, chain, i), Begun(d, stamp);
    SameBody(d, b, chain);
    PlaceIsValid(b, chain, i);
    var body, epilogue := AddBody(d, d.limits, at, d.end, data), AddEpilogue(d.size);
    SameAddBody(d, b, at, d.end, data);
    InsertBodyDone(b, chain, i, data);
    RunOperation(d, stamp, body, epilogue);
    InsertionCloses(RunAll(b, body), InsertAt(chain, i, d.end));
  }

  lemma InsertionCloses(f: Disk, chain: seq<nat>)
    requires Holds(f, chain) && f.size + 1 == |chain|
    ensures var d := RunAll(f, AddEpilogue(f.size));
            && WellFormed(d, chain) && Contents(d, chain) == Contents(f, chain) && d.stamp == f.stamp
            && d.records == f.records && d.end == f.end
  {
    EpilogueStates(f, AdEmpty, f.size + 1, 4);
    SameBody(f, EpilogueState(f, AdEmpty, f.size + 1, 4), chain);
  }

  // ---------------------------------------------------------------------
  // Removal

  lemma ElementCanGo(b: Disk, chain: seq<nat>, i: nat)
    requires Holds(b, chain) && i < |chain|
    ensures CanRemove(b, chain[i])
    ensures b.records[chain[i]].next == b.end <==> i + 1 == |chain|
    ensures b.records[chain[i]].prev == 0 <==> i == 0
  {
    assert Node(b.records, b.end, chain, i);
    if i + 1 < |chain| {
      assert Node(b.records, b.end, chain, i + 1);
    }
    if i > 0 {
      assert Node(b.records, b.end, chain, i - 1);
    }
  }

  lemma SameRemoveBody(d: Disk, b: Disk, at: nat)
    requires b.records == d.records && b.end == d.end && b.limits == d.limits && CanRemove(d, at)
    ensures CanRemove(b, at) && RemoveBody(b, b.limits, at) == RemoveBody(d, d.limits, at)
  {
  }

  /** Inside the body of a removal from a list of several elements every crash is undone. */
  lemma RemoveBodyUndone(b: Disk, chain: seq<nat>, i: nat, k: nat, c: Disk, clock: nat) returns (m: Image)
    requires Holds(b, chain) && |chain| > 1 && i < |chain| && b.status == Opened && CanRemove(b, chain[i])
    requires var ws := RemoveBody(b, b.limits, chain[i]); k <= |ws| && CrashedAt(b, ws, k, c)
    ensures c.stamp == b.stamp
    ensures k < 2 ==> c == b.(slots := c.slots, limitsBackup := c.limitsBackup)
    ensures k >= 2 ==> Removal.Promise(c, b, chain[i], if i == 0 then chain[1] else chain[i - 1])
    ensures k >= 2 ==> SameList(m, b) && Undo(Image(c, c.limits), clock) == Check(m, -1)
  {
    ElementCanGo(b, chain, i);
    assert Node(b.records, b.end, chain, i);
    m := Image(c, c.limits);
    if 0 < i < |chain| - 1 {
      Removal.BetweenPlaces(b, chain, i);
      Removal.MiddleStates(b, chain[i], k);
      if k >= 2 {
        Removal.MiddleKeepsPromise(b, chain[i], k);
        m := Removal.Rd2Undone(c, b, chain[i], clock);
      }
    } else {
      var near := if i == 0 then chain[1] else chain[i - 1];
      assert Node(b.records, b.end, chain, if i == 0 then 1 else i - 1);
      var lim' := if i == 0 then Limits(near, b.limits.last) else Limits(b.limits.first, near);
      var prev := if i == 0 then 0 else b.records[near].prev;
      var next := if i == 0 then b.records[near].next else b.end;
      Removal.EndStates(b, chain[i], near, lim', prev, next, k);
      if k >= 2 {
        Removal.EndKeepsPromise(b, chain[i], near, lim', prev, next, k);
        m := Removal.Rd1Undone(c, b, chain[i], near, clock);
      }
    }
  }

  lemma RemoveBodySurvives(b: Disk, chain: seq<nat>, i: nat, k: nat, c: Disk, clock: nat, after: seq<string>)
    requires Holds(b, chain) && |chain| > 1 && i < |chain| && b.size == |chain| && b.status == Opened
    requires CanRemove(b, chain[i])
    requires var ws := RemoveBody(b, b.limits, chain[i]); k <= |ws| && CrashedAt(b, ws, k, c)
    ensures Survives(c, clock, Contents(b, chain), after) && c.stamp == b.stamp
  {
    var m := RemoveBodyUndone(b, chain, i, k, c, clock);
    if k < 2 {
      SameBody(b, b.(status := Closed), chain);
      UntouchedSurvives(c, b.(status := Closed), chain, clock, after);
    } else {
      UndoneIsRestored(m, c, b, chain, -1, clock);
      RestoredSurvives(c, b, chain, clock, Contents(b, chain), after);
    }
  }

  /** The body of a removal has run to its end: the element is gone from the list, its record erased. */
  ghost predicate RemovedFrom(b: Disk, f: Disk, chain: seq<nat>, i: nat)
    requires Holds(b, chain) && i < |chain|
  {
    && Holds(f, RemoveAt(chain, i))
    && Contents(f, RemoveAt(chain, i)) == RemoveAt(Contents(b, chain), i)
    && f.size == b.size && f.stamp == b.stamp && f.end == b.end
    && (f.status.RdMark1? || f.status.RdMark2?)
    && OthersStay(b, f, chain[i]) && chain[i] in f.records && !f.records[chain[i]].live
  }

  lemma RemoveFirstDone(b: Disk, chain: seq<nat>)
    requires Holds(b, chain) && |chain| > 1 && CanRemove(b, chain[0])
    ensures RemovedFrom(b, RunAll(b, RemoveBody(b, b.limits, chain[0])), chain, 0)
  {
    var near := chain[1];
    ElementCanGo(b, chain, 0);
    assert Node(b.records, b.end, chain, 0) && Node(b.records, b.end, chain, 1);
    Removal.FirstDone(b, chain);
    Removal.EndStates(b, chain[0], near, Limits(near, b.limits.last), 0, b.records[near].next, 9);
    EndLeaves(b, chain[0], near, Limits(near, b.limits.last), 0, b.records[near].next);
  }

  lemma RemoveLastDone(b: Disk, chain: seq<nat>)
    requires Holds(b, chain) && |chain| > 1 && CanRemove(b, chain[|chain| - 1])
    ensures RemovedFrom(b, RunAll(b, RemoveBody(b, b.limits, chain[|chain| - 1])), chain, |chain| - 1)
  {
    var i, near := |chain| - 1, chain[|chain| - 2];
    ElementCanGo(b, chain, i);
    assert Node(b.records, b.end, chain, i) && Node(b.records, b.end, chain, i - 1);
    Removal.LastDone(b, chain);
    Removal.EndStates(b, chain[i], near, Limits(b.limits.first, near), b.records[near].prev, b.end, 9);
    EndLeaves(b, chain[i], near, Limits(b.limits.first, near), b.records[near].prev, b.end);
  }

  lemma EndLeaves(b: Disk, at: nat, near: nat, lim': Limits, prev: nat, next: nat)
    requires at in b.records && near in b.records && at != near
    ensures var f := Removal.EndState(b, at, near, lim', prev, next, 9);
            OthersStay(b, f, at) && at in f.records && !f.records[at].live
  {
  }

  lemma RemoveInnerDone(b: Disk, chain: seq<nat>, i: nat)
    requires Holds(b, chain) && 0 < i < |chain| - 1 && CanRemove(b, chain[i])
    ensures RemovedFrom(b, RunAll(b, RemoveBody(b, b.limits, chain[i])), chain, i)
  {
    ElementCanGo(b, chain, i);
    Removal.MiddleDone(b, chain, i);
    Removal.MiddleStates(b, chain[i], 9);
    MiddleLeaves(b, chain[i]);
  }

  lemma MiddleLeaves(b: Disk, at: nat)
    requires Removal.Between(b, at)
    ensures var f := Removal.MiddleState(b, at, 9);
            OthersStay(b, f, at) && at in f.records && !f.records[at].live
  {
  }

  /** Run to its end, the body of a removal leaves the list without the element. */
  lemma RemoveBodyDone(b: Disk, chain: seq<nat>, i: nat)
    requires Holds(b, chain) && |chain| > 1 && i < |chain| && CanRemove(b, chain[i])
    ensures RemovedFrom(b, RunAll(b, RemoveBody(b, b.limits, chain[i])), chain, i)
  {
    if 0 < i < |chain| - 1 {
      RemoveInnerDone(b, chain, i);
    } else if i == 0 {
      RemoveFirstDone(b, chain);
    } else {
      RemoveLastDone(b, chain);
    }
  }

  /** The disk `k` writes into the removal of the only element, closing writes included. */
  ghost function OnlyTailState(b: Disk, k: nat): Disk {
    if k < 5 then Removal.OnlyState(b, k) else EpilogueState(Removal.OnlyState(b, 5), RdEmpty, 0, k - 5)
  }

  /** Up to the cleared backups recovery accepts the truncated file, count and all. */
  lemma TruncatedIsLost(b: Disk, chain: seq<nat>, k: nat, clock: nat, before: seq<string>, after: seq<string>)
    requires Holds(b, chain) && |chain| == 1 && b.size == 1 && 2 <= k < 7
    ensures !Survives(OnlyTailState(b, k), clock, before, after)
  {
    var c := OnlyTailState(b, k);
    TruncatedRecovers(c, clock);
    forall ch ensures !WellFormed(Recover(c, clock).image.disk, ch) {
      Removal.OnlyIsLost(Recover(c, clock).image.disk, ch);
    }
  }

  lemma TruncatedRecovers(c: Disk, clock: nat)
    requires c.size == 1 && ((c.status.FtBegin? && c.slots[0].current == HEADER) || (c.status.FtEnd? && c.end == HEADER))
    ensures Recover(c, clock).Good? && Recover(c, clock).image.disk.end == HEADER && Recover(c, clock).image.disk.size == 1
  {
  }

  /** From then on the consistency check finds no element to start from. */
  lemma OnlyClosingIsLost(b: Disk, chain: seq<nat>, k: nat, clock: nat)
    requires Holds(b, chain) && |chain| == 1 && 7 <= k < 9
    ensures Recover(OnlyTailState(b, k), clock) == Bad
  {
    var c := OnlyTailState(b, k);
    Removal.OnlyDone(b, chain);
    NothingToCount(c, clock);
  }

  lemma NothingToCount(c: Disk, clock: nat)
    requires c.status == RdEmpty && c.limits.first !in c.records
    ensures Recover(c, clock) == Bad
  {
    assert WalkAll(c, c.limits) == Lost;
  }

  /** Removing the only element is not protected once the truncation is announced. */
  lemma OnlyTailIsAtomic(b: Disk, chain: seq<nat>, k: nat, c: Disk, clock: nat)
    requires Holds(b, chain) && |chain| == 1 && b.size == 1 && b.status == Opened
    requires k <= 9
    requires k < 5 ==> CrashedAt(b, RemoveOnly(b), k, c)
    requires k >= 5 ==> CrashedAt(RunAll(b, RemoveOnly(b)), RemoveEpilogue(1), k - 5, c)
    ensures Survives(c, clock, Contents(b, chain), []) <==> k < 2 || k == 9
    ensures (k < 2 || k == 9 <==> c.status.Closed? || c.status.Opened?) && c.stamp == b.stamp
  {
    if k < 5 {
      Removal.OnlyStates(b, k);
    } else {
      Removal.OnlyStates(b, 5);
      EpilogueStates(Removal.OnlyState(b, 5), RdEmpty, 0, k - 5);
    }
    assert c == OnlyTailState(b, k);
    if k < 2 {
      SameBody(b, b.(status := Closed), chain);
      UntouchedSurvives(c, b.(status := Closed), chain, clock, []);
    } else if k == 9 {
      Removal.OnlyDone(b, chain);
      UntouchedSurvives(c, c, [], clock, []);
    } else if k < 7 {
      TruncatedIsLost(b, chain, k, clock, Contents(b, chain), []);
    } else {
      OnlyClosingIsLost(b, chain, k, clock);
    }
  }

  lemma RemoveClosingIsAtomic(b: Disk, chain: seq<nat>, i: nat, k: nat, c: Disk, clock: nat)
    requires Holds(b, chain) && |chain| > 1 && b.size == |chain| && i < |chain| && CanRemove(b, chain[i])
    requires 1 <= k <= 4
    requires CrashedAt(RunAll(b, RemoveBody(b, b.limits, chain[i])), RemoveEpilogue(b.size), k, c)
    ensures Survives(c, clock, Contents(b, chain), RemoveAt(Contents(b, chain), i)) <==> k != 1
    ensures c.stamp == b.stamp
  {
    RemoveBodyDone(b, chain, i);
    ClosingIsAtomic(RunAll(b, RemoveBody(b, b.limits, chain[i])), RemoveAt(chain, i),
                    RdEmpty, k, c, clock, Contents(b, chain));
  }

  /** Crash atomicity of remove_data.  A crash is survived if and only if it does not fall between
      the clearing of the backups and the status byte announcing it, and, when the element was the
      only one, not while the file is being truncated. */
  lemma RemovalIsAtomic(d: Disk, chain: seq<nat>, i: nat, stamp: Stamp, k: nat, c: Disk, clock: nat)
    requires WellFormed(d, chain) && i < |chain| && CanRemove(d, chain[i])
    requires var ws := RemoveWrites(d, d.limits, d.size, stamp, chain[i]); k <= |ws| && CrashedAt(d, ws, k, c)
    ensures var ws := RemoveWrites(d, d.limits, d.size, stamp, chain[i]);
            Survives(c, clock, Contents(d, chain), RemoveAt(Contents(d, chain), i))
            <==> k != |ws| - 3 && (|chain| == 1 ==> c.status.Closed? || c.status.Opened?)
    ensures c.stamp == if k == 0 then d.stamp else stamp
  {
    var at, b := chain[i], Begun(d, stamp);
    var body, epilogue := RemoveBody(d, d.limits, at), RemoveEpilogue(d.size);
    var after := RemoveAt(Contents(d, chain), i);
    SameBody(d, b, chain);
    SameRemoveBody(d, b, at);
    ElementCanGo(b, chain, i);
    SplitCrash(d, stamp, body, epilogue, k, c);
    if k < 2 {
      UntouchedSurvives(c, d, chain, clock, after);
    } else if |chain| == 1 {
      assert after == [];
      OnlyTailIsAtomic(b, chain, k - 2, c, clock);
    } else if k <= 2 + |body| {
      RemoveBodySurvives(b, chain, i, k - 2, c, clock, after);
    } else {
      RemoveClosingIsAtomic(b, chain, i, k - 2 - |body|, c, clock);
    }
  }

  /** Uninterrupted, remove_data leaves a well-formed container holding the new sequence. */
  lemma RemovalCompletes(d: Disk, chain: seq<nat>, i: nat, stamp: Stamp)
    requires WellFormed(d, chain) && i < |chain|
    ensures CanRemove(d, chain[i])
    ensures var d' := RunAll(d, RemoveWrites(d, d.limits, d.size, stamp, chain[i]));
            && WellFormed(d', RemoveAt(chain, i))
            && Contents(d', RemoveAt(chain, i)) == RemoveAt(Contents(d, chain), i)
            && d'.stamp == stamp
            && (|chain| > 1 ==> OthersStay(d, d', chain[i]) && chain[i] in d'.records && !d'.records[chain[i]].live)
  {
    var at, b := chain[i], Begun(d, stamp);
    SameBody(d, b, chain);
    ElementCanGo(b, chain, i);
    SameRemoveBody(b, d, at);
    var body, epilogue := RemoveBody(d, d.limits, at), RemoveEpilogue(d.size);
    RunOperation(d, stamp, body, epilogue);
    var f := RunAll(b, body);
    if |chain| == 1 {
      Removal.OnlyStates(b, 5);
      Removal.OnlyDone(b, chain);
    } else {
      RemoveBodyDone(b, chain, i);
    }
    EpilogueStates(f, RdEmpty, d.size - 1, 4);
    SameBody(f, EpilogueState(f, RdEmpty, d.size - 1, 4), RemoveAt(chain, i));
  }
}
