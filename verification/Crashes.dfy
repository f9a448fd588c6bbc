/** The kinds of disk that a crash of add_data or remove_data leaves, survived or not. */
module Crashes {
  import opened Common
  import opened Disk
  import opened Recovery
  import opened Programs
  import opened Undoing
  import opened RecoveryProgram
  import opened Atomicity
  import Insertion
  import Removal

  /** Recovery has nothing to undo. */
  predicate Quiet(s: Status) {
    s.Closed? || s.Opened? || s.AdEmpty? || s.RdEmpty?
  }

  /** The new list is complete; only its elements may still have to be counted. */
  ghost predicate Counts(c: Disk, chain: seq<nat>, after: seq<string>) {
    && Holds(c, chain) && |chain| > 0 && Contents(c, chain) == after
    && (c.size == |chain| || Allowed(|chain| - c.size, if c.status.AdEmpty? then 1 else -1))
  }

  ghost predicate Counting(c: Disk, after: seq<string>) {
    exists chain :: Counts(c, chain, after)
  }

  /** Recovery is sent to the last element of a list that has none. */
  predicate Headless(c: Disk) {
    && NeedsElement(c.status) && c.slots[0] == NO_ITER && c.limitsBackup == Limits(HEADER, HEADER)
    && (if c.status.AeLimits? then c.end == HEADER else c.limits.last == HEADER <= c.end)
  }

  /** The file is being cut to its header, or was, and the count still says one element or the
      check looks for one. */
  predicate Emptied(c: Disk) {
    || (c.status.FtBegin? && c.size == 1 && c.slots[0].current == HEADER <= c.end)
    || (c.status.FtEnd? && c.size == 1 && c.end == HEADER)
    || (c.status.RdEmpty? && c.limits.first == HEADER == c.end)
  }

  lemma ClosingKinds(f: Disk, chain: seq<nat>, status: Status, k: nat, c: Disk)
    requires Holds(f, chain) && |chain| > 0 && 1 <= k <= 4
    requires (status == AdEmpty && f.size == |chain| - 1) || (status == RdEmpty && f.size == |chain| + 1)
    requires f.status.AeWritten? || f.status.AbLast? || f.status.AmLast? || f.status.RdMark1? || f.status.RdMark2?
    requires CrashedAt(f, [WClear, WStatus(status), WSize(|chain|), WStatus(Closed)], k, c)
    ensures c.end == f.end
    ensures if k == 1 then Cleared(c) else Quiet(c.status)
    ensures c.status.AdEmpty? || c.status.RdEmpty? ==> c.status == status && Counts(c, chain, Contents(f, chain))
  {
    EpilogueStates(f, status, |chain|, k);
    SameBody(f, c, chain);
    assert Node(f.records, f.end, chain, 0) && Node(f.records, f.end, chain, |chain| - 1);
  }

  lemma FirstKinds(b: Disk, data: string, k: nat, c: Disk)
    requires Holds(b, []) && b.status == Opened && b.slots == NO_SLOTS
    requires k <= 6 && CrashedAt(b, AddFirst(b.limits, b.end, data), k, c)
    ensures if k < 2 then c.status == Opened else Headless(c)
    ensures c.end <= b.end + DataSize(|data|)
  {
    Insertion.FirstStates(b, data, k);
  }

  lemma InsertBodyKinds(b: Disk, chain: seq<nat>, i: nat, data: string, k: nat, c: Disk)
    requires Holds(b, chain) && b.status == Opened && (|chain| == 0 ==> b.slots == NO_SLOTS) && i <= |chain|
    requires var ws := AddBody(b, b.limits, PlaceOf(b, chain, i), b.end, data); k <= |ws| && CrashedAt(b, ws, k, c)
    ensures if |chain| == 0 && NeedsElement(c.status) then Headless(c)
            else Quiet(c.status) || Insertion.Promise(c, b, PlaceOf(b, chain, i))
    ensures c.end <= b.end + DataSize(|data|) && !c.status.AdEmpty? && !c.status.RdEmpty?
  {
    if |chain| == 0 {
      FirstKinds(b, data, k, c);
    } else {
      var _ := InsertBodyUndone(b, chain, i, data, k, c, 0);
    }
  }

  lemma InsertClosingKinds(b: Disk, chain: seq<nat>, i: nat, data: string, k: nat, c: Disk)
    requires Holds(b, chain) && b.size == |chain| && i <= |chain| && 1 <= k <= 4
    requires CrashedAt(RunAll(b, AddBody(b, b.limits, PlaceOf(b, chain, i), b.end, data)), AddEpilogue(b.size), k, c)
    ensures c.end == b.end + DataSize(|data|)
    ensures if k == 1 then Cleared(c) else Quiet(c.status)
    ensures !c.status.RdEmpty? && (c.status.AdEmpty? ==> Counting(c, InsertAt(Contents(b, chain), i, data)))
  {
    InsertBodyDone(b, chain, i, data);
    ClosingKinds(RunAll(b, AddBody(b, b.limits, PlaceOf(b, chain, i), b.end, data)), InsertAt(chain, i, b.end), AdEmpty, k, c);
  }

  /** After an insertion: in the survived cases there is nothing to undo or the promises of the
      status byte hold; in the others the backups are wiped or never were. */
  lemma InsertionKinds(d: Disk, chain: seq<nat>, i: nat, data: string, stamp: Stamp, k: nat, c: Disk)
    requires WellFormed(d, chain) && i <= |chain|
    requires var ws := AddWrites(d, d.limits, d.size, stamp, PlaceOf(d, chain, i), d.end, data);
             k <= |ws| && CrashedAt(d, ws, k, c)
    ensures var ws := AddWrites(d, d.limits, d.size, stamp, PlaceOf(d, chain, i), d.end, data);
            if k != |ws| - 3 && (|chain| == 0 ==> !NeedsElement(c.status))
            then Quiet(c.status) || Insertion.Promise(c, Begun(d, stamp), PlaceOf(d, chain, i))
            else Cleared(c) || Headless(c)
    ensures c.end <= d.end + DataSize(|data|)
    ensures c.status.AdEmpty? || c.status.RdEmpty? ==> Counting(c, InsertAt(Contents(d, chain), i, data))
  {
    var at, b := PlaceOf(d, chain, i), Begun(d, stamp);
    var body := AddBody(d, d.limits, at, d.end, data);
    SameBody(d, b, chain);
    SameAddBody(d, b, at, d.end, data);
    SplitCrash(d, stamp, body, AddEpilogue(d.size), k, c);
    if 2 <= k <= 2 + |body| {
      InsertBodyKinds(b, chain, i, data, k - 2, c);
    } else if k > 2 {
      InsertClosingKinds(b, chain, i, data, k - 2 - |body|, c);
    }
  }

  lemma OnlyKinds(b: Disk, chain: seq<nat>, k: nat, c: Disk)
    requires Holds(b, chain) && |chain| == 1 && b.size == 1 && b.status == Opened && k <= 9
    requires k < 5 ==> CrashedAt(b, RemoveOnly(b), k, c)
    requires k >= 5 ==> CrashedAt(RunAll(b, RemoveOnly(b)), RemoveEpilogue(1), k - 5, c)
    ensures c.end <= b.end
    ensures if k < 2 || k == 9 then c.status.Closed? || c.status.Opened? else Emptied(c)
  {
    if k < 5 {
      Removal.OnlyStates(b, k);
    } else {
      Removal.OnlyStates(b, 5);
      EpilogueStates(Removal.OnlyState(b, 5), RdEmpty, 0, k - 5);
    }
  }

  lemma RemoveClosingKinds(b: Disk, chain: seq<nat>, i: nat, k: nat, c: Disk)
    requires Holds(b, chain) && |chain| > 1 && b.size == |chain| && i < |chain| && CanRemove(b, chain[i])
    requires 1 <= k <= 4
    requires CrashedAt(RunAll(b, RemoveBody(b, b.limits, chain[i])), RemoveEpilogue(b.size), k, c)
    ensures c.end == b.end
    ensures if k == 1 then Cleared(c) else Quiet(c.status)
    ensures !c.status.AdEmpty? && (c.status.RdEmpty? ==> Counting(c, RemoveAt(Contents(b, chain), i)))
  {
    RemoveBodyDone(b, chain, i);
    ClosingKinds(RunAll(b, RemoveBody(b, b.limits, chain[i])), RemoveAt(chain, i), RdEmpty, k, c);
  }

  lemma RemoveBodyKinds(b: Disk, chain: seq<nat>, i: nat, k: nat, c: Disk)
    requires Holds(b, chain) && |chain| > 1 && i < |chain| && b.status == Opened && CanRemove(b, chain[i])
    requires var ws := RemoveBody(b, b.limits, chain[i]); k <= |ws| && CrashedAt(b, ws, k, c)
    ensures c.status == Opened || Removal.Promise(c, b, chain[i], if i == 0 then chain[1] else chain[i - 1])
    ensures c.end == b.end && !c.status.AdEmpty? && !c.status.RdEmpty?
  {
    var _ := RemoveBodyUndone(b, chain, i, k, c, 0);
  }

  /** The same after a removal, where cutting the file under the only element is not survived. */
  lemma RemovalKinds(d: Disk, chain: seq<nat>, i: nat, stamp: Stamp, k: nat, c: Disk)
    requires WellFormed(d, chain) && i < |chain| && CanRemove(d, chain[i])
    requires var ws := RemoveWrites(d, d.limits, d.size, stamp, chain[i]); k <= |ws| && CrashedAt(d, ws, k, c)
    ensures var ws := RemoveWrites(d, d.limits, d.size, stamp, chain[i]);
            if k != |ws| - 3 && (|chain| == 1 ==> c.status.Closed? || c.status.Opened?)
            then Quiet(c.status) || (|chain| > 1 && Removal.Promise(c, Begun(d, stamp), chain[i],
                                                                   if i == 0 then chain[1] else chain[i - 1]))
            else Cleared(c) || Emptied(c)
    ensures c.end <= d.end
    ensures |chain| > 1 && (c.status.AdEmpty? || c.status.RdEmpty?) ==> Counting(c, RemoveAt(Contents(d, chain), i))
  {
    var at, b := chain[i], Begun(d, stamp);
    var body := RemoveBody(d, d.limits, at);
    SameBody(d, b, chain);
    SameRemoveBody(d, b, at);
    ElementCanGo(b, chain, i);
    SplitCrash(d, stamp, body, RemoveEpilogue(d.size), k, c);
    if k < 2 {
    } else if |chain| == 1 {
      OnlyKinds(b, chain, k - 2, c);
    } else if k <= 2 + |body| {
      RemoveBodyKinds(b, chain, i, k - 2, c);
    } else {
      RemoveClosingKinds(b, chain, i, k - 2 - |body|, c);
    }
  }

  // ---------------------------------------------------------------------
  // Kept promises: the undo steps stay on records of the old list

  /** A slot that names an old record, which a cut at the old end spares. */
  predicate Saved(c: Disk, b: Disk, i: nat)
    requires i < SLOTS
  {
    Whole(c, c.slots[i].current, b.end)
  }

  lemma SlotIsSaved(c: Disk, b: Disk, touched: set<nat>, marked: set<nat>, i: nat)
    requires Layout(b) && Resembles(c.records, b.records, touched, marked, b.end)
    requires i < SLOTS && c.slots[i].current in b.records
    ensures Saved(c, b, i)
  {
    var p := c.slots[i].current;
    assert c.records[p].data == b.records[p].data;
  }

  lemma EndIsSteady(c: Disk, b: Disk)
    requires Layout(b) && Insertion.AePromise(c, b)
    ensures Steady(c)
  {
    SlotIsSaved(c, b, {}, {}, 0);
    IsSteady(c, b.end);
  }

  lemma BeginIsSteady(c: Disk, b: Disk)
    requires Layout(b) && Insertion.AbPromise(c, b)
    ensures Steady(c)
  {
    var touched := if c.status.AbLast? then {b.limits.first, b.limits.last} else {b.limits.first};
    SlotIsSaved(c, b, touched, {}, 0);
    if c.status.AbLast? {
      SlotIsSaved(c, b, touched, {}, 2);
    }
    IsSteady(c, b.end);
  }

  lemma LooksBackToEnd(c: Disk, b: Disk, at: nat)
    requires Insertion.AmPromise(c, b, at) && LooksBack(c.status)
    ensures Back(c) == Some(b.end)
  {
  }

  lemma MiddlePlanIsSteady(c: Disk, cut: nat)
    requires HEADER <= cut <= c.end && (LooksBack(c.status) ==> Back(c) == Some(cut))
    requires c.status.AmIterator1? || c.status.AmIterator2? || LooksBack(c.status)
    requires Whole(c, c.slots[0].current, cut)
    requires !c.status.AmIterator1? ==> Whole(c, c.slots[1].current, cut)
    requires c.status.AmLast? ==> Whole(c, c.slots[2].current, cut)
    ensures Steady(c)
  {
    IsSteady(c, cut);
  }

  lemma MiddleIsSteady(c: Disk, b: Disk, at: nat)
    requires Layout(b) && Insertion.AmPromise(c, b, at)
    ensures Steady(c)
  {
    var before, last := b.records[at].prev, b.limits.last;
    var touched := if c.status.AmLast? then {at, before, last} else {at, before};
    SlotIsSaved(c, b, touched, {}, 0);
    if !c.status.AmIterator1? {
      SlotIsSaved(c, b, touched, {}, 1);
    }
    if c.status.AmLast? {
      SlotIsSaved(c, b, touched, {}, 2);
    }
    if LooksBack(c.status) {
      LooksBackToEnd(c, b, at);
    }
    MiddlePlanIsSteady(c, b.end);
  }

  lemma EndRemovalIsSteady(c: Disk, b: Disk, at: nat, near: nat)
    requires Layout(b) && Removal.RdPromise1(c, b, at, near)
    ensures Steady(c)
  {
    if !c.status.RdLimits? {
      SlotIsSaved(c, b, {near}, {at}, 0);
    }
    if c.status.RdMark1? {
      SlotIsSaved(c, b, {near}, {at}, 2);
    }
    IsSteady(c, b.end);
  }

  lemma MiddleRemovalIsSteady(c: Disk, b: Disk, at: nat)
    requires Layout(b) && Removal.RdPromise2(c, b, at)
    ensures Steady(c)
  {
    var touched := {b.records[at].next, b.records[at].prev};
    assert Resembles(c.records, b.records, touched, {at}, b.end);
    SlotIsSaved(c, b, touched, {at}, 0);
    if !c.status.RdIterator2? {
      SlotIsSaved(c, b, touched, {at}, 1);
    }
    if c.status.RdMark2? {
      SlotIsSaved(c, b, touched, {at}, 2);
    }
    IsSteady(c, b.end);
  }

  lemma QuietIsSteady(c: Disk)
    requires HEADER <= c.end && (Quiet(c.status) || c.status.FtEnd?)
    ensures Steady(c)
  {
    assert PlanOf(c).writes == [];
    IsSteady(c, c.end);
  }
}
