/** The three insertion paths of add_data: the disk at every point of each, what the status
    byte promises there, and that recovery keeps the promise. */
module Insertion {
  import opened Disk
  import opened Recovery
  import opened Programs
  import opened Undoing

  // ---------------------------------------------------------------------
  // addDataAtEnd

  ghost function AtEndState(b: Disk, data: string, k: nat): Disk
    requires b.limits.last in b.records
  {
    var last := b.limits.last;
    var next := b.end + DataSize(|data|);
    var linked := b.records[last := b.records[last].(next := b.end)];
    b.(slots := if k < 1 then b.slots else b.slots[0 := IterAt(b, last)],
       status := if k < 2 then b.status else if k < 5 then AeIterator else if k < 7 then AeLimits
                 else if k < 9 then AeWriting else AeWritten,
       limitsBackup := if k < 4 then b.limitsBackup else b.limits,
       limits := if k < 6 then b.limits else Limits(b.limits.first, b.end),
       records := if k < 3 then b.records else if k < 8 then linked
                  else linked[b.end := Record(last, next, true, data, last, next)],
       end := if k < 8 then b.end else next)
  }

  lemma AtEndStates(b: Disk, data: string, k: nat)
    requires b.limits.last in b.records && k <= 9
    ensures StateAt(b, AddAtEnd(b, b.limits, b.end, data), k) == AtEndState(b, data, k)
    decreases k
  {
    if k > 0 {
      AtEndStates(b, data, k - 1);
    }
  }

  /** What the status byte promises while a record is being added at the end of `b`. */
  ghost predicate AePromise(c: Disk, b: Disk) {
    var last := b.limits.last;
    && last in b.records
    && c.slots[0] == IterAt(b, last)
    && c.size == b.size && c.stamp == b.stamp && b.end <= c.end
    && Resembles(c.records, b.records, {}, {}, b.end)
    && match c.status
       case AeIterator => c.limits == b.limits && c.end == b.end && c.records.Keys == b.records.Keys
       case AeLimits => c.limitsBackup == b.limits && c.end == b.end && c.records.Keys == b.records.Keys
       case AeWriting => c.limitsBackup == b.limits && c.limits.last == b.end
       case AeWritten => c.limitsBackup == b.limits && c.limits.last == b.end
       case _ => false
  }

  lemma AtEndKeepsPromise(b: Disk, data: string, k: nat, end: nat)
    requires b.limits.last in b.records && b.end !in b.records && 2 <= k <= 9
    requires b.records[b.limits.last].next == b.end
    requires end == AtEndState(b, data, k).end || (k == 7 && b.end <= end)
    ensures AePromise(AtEndState(b, data, k).(end := end), b)
  {
  }

  lemma AeUndone(c: Disk, b: Disk, clock: nat) returns (m: Image)
    requires Layout(b) && AePromise(c, b)
    ensures SameList(m, b) && Undo(Image(c, c.limits), clock) == Check(m, 1)
  {
    m := Image(c, c.limits);
    if c.status.AeWriting? || c.status.AeWritten? {
      CutRestores(c.records, b, {}, {});
      m := TruncateFile(m, b.end, clock);
    }
    if !c.status.AeIterator? {
      m := RestoreLimits(m);
    }
    LastSlotRestores(m.disk.records, b, c.slots[0]);
    m := RestoreSlot(m, 0);
  }

  lemma AtEndDone(b: Disk, chain: seq<nat>, data: string)
    requires Holds(b, chain) && |chain| > 0
    ensures b.limits.last in b.records
    ensures var f := AtEndState(b, data, 9);
            && Holds(f, InsertAt(chain, |chain|, b.end))
            && Contents(f, InsertAt(chain, |chain|, b.end)) == InsertAt(Contents(b, chain), |chain|, data)
  {
    assert Node(b.records, b.end, chain, |chain| - 1);
    InsertDone(b, AtEndState(b, data, 9), chain, |chain|, data);
  }

  // ---------------------------------------------------------------------
  // addDataAtBegin

  ghost function AtBeginState(b: Disk, data: string, k: nat): Disk
    requires b.limits.first in b.records && b.limits.last in b.records
  {
    var first, last := b.limits.first, b.limits.last;
    var end' := b.end + DataSize(|data|);
    var linked := b.records[first := b.records[first].(prev := b.end)];
    var added := linked[b.end := Record(0, first, true, data, last, end')];
    b.(slots := if k < 1 then b.slots else if k < 10 then b.slots[0 := IterAt(b, first)]
                else b.slots[0 := IterAt(b, first)][2 := Iter(linked[last].prev, b.records[last].next, last)],
       status := if k < 2 then b.status else if k < 5 then AbIterator else if k < 7 then AbLimits
                 else if k < 9 then AbWriting else if k < 11 then AbWritten else AbLast,
       limitsBackup := if k < 4 then b.limitsBackup else b.limits,
       limits := if k < 6 then b.limits else Limits(b.end, last),
       records := if k < 3 then b.records else if k < 8 then linked else if k < 12 then added
                  else added[last := linked[last].(next := end')],
       end := if k < 8 then b.end else end')
  }

  lemma AtBeginStates(b: Disk, data: string, k: nat)
    requires b.limits.first in b.records && b.limits.last in b.records && b.end !in b.records && k <= 12
    ensures StateAt(b, AddAtBegin(b, b.limits, b.end, data), k) == AtBeginState(b, data, k)
    decreases k
  {
    if k > 0 {
      AtBeginStates(b, data, k - 1);
      if k <= 6 {
        AtBeginLinks(b, data, k - 1);
      } else {
        AtBeginAppends(b, data, k - 1);
      }
    }
  }

  lemma AtBeginLinks(b: Disk, data: string, k: nat)
    requires b.limits.first in b.records && b.limits.last in b.records && b.end !in b.records && k < 6
    ensures Apply(AtBeginState(b, data, k), AddAtBegin(b, b.limits, b.end, data)[k]) == AtBeginState(b, data, k + 1)
  {
  }

  lemma AtBeginAppends(b: Disk, data: string, k: nat)
    requires b.limits.first in b.records && b.limits.last in b.records && b.end !in b.records && 6 <= k < 12
    ensures Apply(AtBeginState(b, data, k), AddAtBegin(b, b.limits, b.end, data)[k]) == AtBeginState(b, data, k + 1)
  {
  }

  /** What the status byte promises while a record is being added at the beginning of `b`. */
  ghost predicate AbPromise(c: Disk, b: Disk) {
    var first, last := b.limits.first, b.limits.last;
    && first in b.records
    && last in b.records
    && c.slots[0] == IterAt(b, first)
    && c.size == b.size && c.stamp == b.stamp && b.end <= c.end
    && Resembles(c.records, b.records, if c.status.AbLast? then {first, last} else {first}, {}, b.end)
    && match c.status
       case AbIterator => c.limits == b.limits && c.end == b.end && c.records.Keys == b.records.Keys
       case AbLimits => c.limitsBackup == b.limits && c.end == b.end && c.records.Keys == b.records.Keys
       case AbWriting => c.limitsBackup == b.limits && c.limits.first == b.end == c.records[first].prev
       case AbWritten => c.limitsBackup == b.limits && c.limits.first == b.end == c.records[first].prev
       case AbLast =>
         && c.limitsBackup == b.limits && c.limits.first == b.end == c.records[first].prev
         && c.slots[2].current == last
         && (if last == first then c.slots[2].prev == b.end else c.slots[2] == IterAt(b, last))
       case _ => false
  }

  lemma AtBeginKeepsPromise(b: Disk, data: string, k: nat, end: nat)
    requires b.limits.first in b.records && b.limits.last in b.records && b.end !in b.records
    requires b.status == Opened && 2 <= k <= 12
    requires end == AtBeginState(b, data, k).end || (k == 7 && b.end <= end)
    ensures AbPromise(AtBeginState(b, data, k).(end := end), b)
  {
  }

  lemma AbUndone(c: Disk, b: Disk, clock: nat) returns (m: Image)
    requires Layout(b) && AbPromise(c, b)
    ensures SameList(m, b) && Undo(Image(c, c.limits), clock) == Check(m, 1)
  {
    var first, last := b.limits.first, b.limits.last;
    m := Image(c, c.limits);
    if c.status.AbLast? {
      if last != first {
        SlotRestores(c.records, b, {first, last}, {}, c.slots[2]);
        assert {first, last} - {last} == {first};
      }
      m := RestoreSlot(m, 2);
    }
    assert Resembles(m.disk.records, b.records, {first}, {}, b.end);
    if c.status.AbLast? || c.status.AbWriting? || c.status.AbWritten? {
      CutRestores(m.disk.records, b, {first}, {});
      m := TruncateFile(m, b.end, clock);
    }
    if !c.status.AbIterator? {
      m := RestoreLimits(m);
    }
    LastSlotRestores(m.disk.records, b, c.slots[0]);
    m := RestoreSlot(m, 0);
  }

  lemma AtBeginDone(b: Disk, chain: seq<nat>, data: string)
    requires Holds(b, chain) && |chain| > 0
    ensures b.limits.first in b.records && b.limits.last in b.records
    ensures var f := AtBeginState(b, data, 12);
            && Holds(f, InsertAt(chain, 0, b.end))
            && Contents(f, InsertAt(chain, 0, b.end)) == InsertAt(Contents(b, chain), 0, data)
  {
    assert Node(b.records, b.end, chain, 0) && Node(b.records, b.end, chain, |chain| - 1);
    InsertDone(b, AtBeginState(b, data, 12), chain, 0, data);
  }

  // ---------------------------------------------------------------------
  // addDataInMiddle

  /** The record at `at` is neither first nor preceded by itself; its predecessor is not the last. */
  predicate Inner(b: Disk, at: nat) {
    && at in b.records
    && b.records[at].prev in b.records
    && b.records[at].prev != at
    && b.limits.last in b.records
    && b.records[at].prev != b.limits.last
    && b.end !in b.records
  }

  ghost function InMiddleState(b: Disk, at: nat, data: string, k: nat): Disk
    requires Inner(b, at)
  {
    var before, last := b.records[at].prev, b.limits.last;
    var end' := b.end + DataSize(|data|);
    var half := b.records[at := b.records[at].(prev := b.end)];
    var linked := half[before := b.records[before].(next := b.end)];
    var added := linked[b.end := Record(before, at, true, data, last, end')];
    b.(slots := if k < 1 then b.slots else if k < 3 then b.slots[0 := IterAt(b, at)]
                else if k < 10 then b.slots[0 := IterAt(b, at)][1 := IterAt(b, before)]
                else b.slots[0 := IterAt(b, at)][1 := IterAt(b, before)]
                            [2 := Iter(linked[last].prev, b.records[last].next, last)],
       status := if k < 2 then b.status else if k < 4 then AmIterator1 else if k < 7 then AmIterator2
                 else if k < 9 then AmWriting else if k < 11 then AmWritten else AmLast,
       records := if k < 5 then b.records else if k < 6 then half else if k < 8 then linked
                  else if k < 12 then added else added[last := linked[last].(next := end')],
       end := if k < 8 then b.end else end')
  }

  lemma InMiddleStates(b: Disk, at: nat, data: string, k: nat)
    requires Inner(b, at) && k <= 12
    ensures StateAt(b, AddInMiddle(b, b.limits, at, b.end, data), k) == InMiddleState(b, at, data, k)
    decreases k
  {
    if k > 0 {
      InMiddleStates(b, at, data, k - 1);
      if k <= 6 {
        InMiddleLinks(b, at, data, k - 1);
      } else {
        InMiddleAppends(b, at, data, k - 1);
      }
    }
  }

  lemma InMiddleLinks(b: Disk, at: nat, data: string, k: nat)
    requires Inner(b, at) && k < 6
    ensures Apply(InMiddleState(b, at, data, k), AddInMiddle(b, b.limits, at, b.end, data)[k]) == InMiddleState(b, at, data, k + 1)
  {
  }

  lemma InMiddleAppends(b: Disk, at: nat, data: string, k: nat)
    requires Inner(b, at) && 6 <= k < 12
    ensures Apply(InMiddleState(b, at, data, k), AddInMiddle(b, b.limits, at, b.end, data)[k]) == InMiddleState(b, at, data, k + 1)
  {
  }

  /** What the status byte promises while a record is being added before `at`. */
  ghost predicate AmPromise(c: Disk, b: Disk, at: nat) {
    Inner(b, at) &&
    var before, last := b.records[at].prev, b.limits.last;
    && c.slots[0] == IterAt(b, at)
    && c.size == b.size && c.stamp == b.stamp && b.end <= c.end
    && c.limits == b.limits
    && (!c.status.AmIterator1? ==> c.slots[1] == IterAt(b, before))
    && Resembles(c.records, b.records, if c.status.AmLast? then {at, before, last} else {at, before}, {}, b.end)
    && match c.status
       case AmIterator1 => c.records == b.records && c.end == b.end
       case AmIterator2 => c.end == b.end && c.records.Keys == b.records.Keys
       case AmWriting => c.records[at].prev == b.end
       case AmWritten => c.records[at].prev == b.end
       case AmLast =>
         && c.slots[2].current == last
         && (if last == at then c.slots[2].prev == b.end
             else c.slots[2] == IterAt(b, last) && c.records[at].prev == b.end)
       case _ => false
  }

  lemma InMiddleResembles(b: Disk, at: nat, data: string, k: nat)
    requires Inner(b, at)
    ensures var c, before := InMiddleState(b, at, data, k), b.records[at].prev;
            && Resembles(c.records, b.records, if k < 11 then {at, before} else {at, before, b.limits.last}, {}, b.end)
            && (k < 8 ==> c.records.Keys == b.records.Keys)
            && (5 <= k ==> c.records[at].prev == b.end)
  {
    if k < 8 {
      InMiddleLinksResemble(b, at, data, k);
    } else {
      InMiddleAppendResembles(b, at, data, k);
    }
  }

  lemma InMiddleLinksResemble(b: Disk, at: nat, data: string, k: nat)
    requires Inner(b, at) && k < 8
    ensures var c, before := InMiddleState(b, at, data, k), b.records[at].prev;
            && Resembles(c.records, b.records, {at, before}, {}, b.end)
            && c.records.Keys == b.records.Keys && (5 <= k ==> c.records[at].prev == b.end)
  {
  }

  lemma InMiddleAppendResembles(b: Disk, at: nat, data: string, k: nat)
    requires Inner(b, at) && k >= 8
    ensures var c, before := InMiddleState(b, at, data, k), b.records[at].prev;
            && Resembles(c.records, b.records, if k < 11 then {at, before} else {at, before, b.limits.last}, {}, b.end)
            && c.records[at].prev == b.end
  {
  }

  lemma InMiddleKeepsPromise(b: Disk, at: nat, data: string, k: nat, end: nat)
    requires Inner(b, at) && b.status == Opened && 2 <= k <= 12
    requires end == InMiddleState(b, at, data, k).end || (k == 7 && b.end <= end)
    ensures AmPromise(InMiddleState(b, at, data, k).(end := end), b, at)
  {
    InMiddleResembles(b, at, data, k);
  }

  lemma AmIterator2Undone(m: Image, b: Disk, at: nat, clock: nat) returns (m': Image)
    requires Inner(b, at) && m.disk.end == b.end && m.disk.limits == m.cache == b.limits && m.disk.size == b.size
    requires m.disk.stamp == b.stamp
    requires m.disk.slots[0] == IterAt(b, at) && m.disk.slots[1] == IterAt(b, b.records[at].prev)
    requires m.disk.records.Keys == b.records.Keys
    requires Resembles(m.disk.records, b.records, {at, b.records[at].prev}, {}, b.end)
    ensures SameList(m', b) && UndoAmIterator2(m, clock) == Check(m', 1)
  {
    var before := b.records[at].prev;
    SlotRestores(m.disk.records, b, {at, before}, {}, m.disk.slots[1]);
    assert {at, before} - {before} == {at};
    m' := RestoreSlot(m, 1);
    LastSlotRestores(m'.disk.records, b, m.disk.slots[0]);
    m' := RestoreSlot(m', 0);
  }

  lemma AmWritingUndone(m: Image, b: Disk, at: nat, clock: nat) returns (m': Image)
    requires Layout(b) && Inner(b, at) && m.disk.limits == m.cache == b.limits && m.disk.size == b.size
    requires m.disk.stamp == b.stamp
    requires m.disk.slots[0] == IterAt(b, at) && m.disk.slots[1] == IterAt(b, b.records[at].prev)
    requires Resembles(m.disk.records, b.records, {at, b.records[at].prev}, {}, b.end)
    requires m.disk.records[at].prev == b.end
    ensures SameList(m', b) && UndoAmWriting(m, clock) == Check(m', 1)
  {
    CutRestores(m.disk.records, b, {at, b.records[at].prev}, {});
    m' := AmIterator2Undone(TruncateFile(m, b.end, clock), b, at, clock);
  }

  lemma AmUndone(c: Disk, b: Disk, at: nat, clock: nat) returns (m: Image)
    requires Layout(b) && AmPromise(c, b, at)
    ensures SameList(m, b) && Undo(Image(c, c.limits), clock) == Check(m, 1)
  {
    var before, last := b.records[at].prev, b.limits.last;
    m := Image(c, c.limits);
    if c.status.AmIterator1? {
      LastSlotRestores(c.records, b, c.slots[0]);
      m := RestoreSlot(m, 0);
    } else if c.status.AmIterator2? {
      m := AmIterator2Undone(m, b, at, clock);
    } else if c.status.AmLast? {
      if last != at {
        SlotRestores(c.records, b, {at, before, last}, {}, c.slots[2]);
        assert {at, before, last} - {last} == {at, before};
      }
      m := AmWritingUndone(RestoreSlot(m, 2), b, at, clock);
    } else {
      m := AmWritingUndone(m, b, at, clock);
    }
  }

  lemma InnerPlaces(b: Disk, chain: seq<nat>, i: nat)
    requires Holds(b, chain) && 0 < i < |chain|
    ensures Inner(b, chain[i]) && b.records[chain[i]].prev == chain[i - 1]
  {
    assert Node(b.records, b.end, chain, i) && Node(b.records, b.end, chain, i - 1);
    assert Node(b.records, b.end, chain, |chain| - 1);
  }

  lemma InMiddleDone(b: Disk, chain: seq<nat>, i: nat, data: string)
    requires Holds(b, chain) && 0 < i < |chain|
    ensures Inner(b, chain[i])
    ensures var f := InMiddleState(b, chain[i], data, 12);
            && Holds(f, InsertAt(chain, i, b.end))
            && Contents(f, InsertAt(chain, i, b.end)) == InsertAt(Contents(b, chain), i, data)
  {
    InnerPlaces(b, chain, i);
    InsertDone(b, InMiddleState(b, chain[i], data, 12), chain, i, data);
  }

  // ---------------------------------------------------------------------
  // addDataAtEnd on an empty list

  ghost function FirstState(b: Disk, data: string, k: nat): Disk {
    var next := b.end + DataSize(|data|);
    b.(status := if k < 2 then b.status else if k < 4 then AeLimits else if k < 6 then AeWriting else AeWritten,
       limitsBackup := if k < 1 then b.limitsBackup else b.limits,
       limits := if k < 3 then b.limits else Limits(b.limits.first, b.end),
       records := if k < 5 then b.records else b.records[b.end := Record(0, next, true, data, b.limits.last, next)],
       end := if k < 5 then b.end else next)
  }

  lemma FirstStates(b: Disk, data: string, k: nat)
    requires k <= 6
    ensures StateAt(b, AddFirst(b.limits, b.end, data), k) == FirstState(b, data, k)
    decreases k
  {
    if k > 0 {
      FirstStates(b, data, k - 1);
    }
  }

  /** With no element to restore, slot 0 is blank: the undo steps write at offset 0 and the
      consistency check finds no element, so recovery fails. */
  lemma FirstIsLost(b: Disk, data: string, k: nat, end: nat, clock: nat)
    requires Holds(b, []) && b.slots == NO_SLOTS && 2 <= k <= 6
    requires end == FirstState(b, data, k).end || k == 4
    ensures Recover(FirstState(b, data, k).(end := end), clock) == Bad
  {
    assert forall p :: p !in b.records;
  }

  lemma FirstDone(b: Disk, data: string)
    requires Holds(b, [])
    ensures var f := FirstState(b, data, 6);
            && Holds(f, InsertAt([], 0, b.end))
            && Contents(f, InsertAt([], 0, b.end)) == InsertAt(Contents(b, []), 0, data)
  {
    InsertDone(b, FirstState(b, data, 6), [], 0, data);
  }

  /** What the status byte promises while an element is being inserted, before `at` if in the middle. */
  ghost predicate Promise(c: Disk, b: Disk, at: nat) {
    AePromise(c, b) || AbPromise(c, b) || AmPromise(c, b, at)
  }
}
