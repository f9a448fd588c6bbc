/** The removal paths of remove_data: the disk at every point of each, what the status
    byte promises there, and that recovery keeps the promise. */
module Removal {
  import opened Disk
  import opened Recovery
  import opened Programs
  import opened Undoing

  // ---------------------------------------------------------------------
  // Removing the first or the last of several elements

  ghost function EndState(b: Disk, at: nat, near: nat, lim': Limits, prev: nat, next: nat, k: nat): Disk
    requires at in b.records && near in b.records
  {
    var linked := b.records[near := b.records[near].(prev := prev, next := next)];
    b.(slots := if k < 4 then b.slots else if k < 7 then b.slots[0 := IterAt(b, near)]
                else b.slots[0 := IterAt(b, near)][2 := IterAt(b, at)],
       status := if k < 2 then b.status else if k < 5 then RdLimits else if k < 8 then RdIterator else RdMark1,
       limitsBackup := if k < 1 then b.limitsBackup else b.limits,
       limits := if k < 3 then b.limits else lim',
       records := if k < 6 then b.records else if k < 9 then linked
                  else linked[at := b.records[at].(live := false)])
  }

  lemma EndStates(b: Disk, at: nat, near: nat, lim': Limits, prev: nat, next: nat, k: nat)
    requires at in b.records && near in b.records && at != near && k <= 9
    ensures StateAt(b, RemoveEnd(b, b.limits, IterAt(b, at), near, lim', prev, next), k)
            == EndState(b, at, near, lim', prev, next, k)
    decreases k
  {
    if k > 0 {
      EndStates(b, at, near, lim', prev, next, k - 1);
    }
  }

  /** What the status byte promises while the element at `at`, next to `near`, is being removed. */
  ghost predicate RdPromise1(c: Disk, b: Disk, at: nat, near: nat) {
    && at in b.records && b.records[at].live
    && near in b.records
    && c.size == b.size && c.stamp == b.stamp
    && c.end == b.end
    && c.limitsBackup == b.limits
    && (!c.status.RdLimits? ==> c.slots[0] == IterAt(b, near))
    && c.records.Keys == b.records.Keys
    && match c.status
       case RdLimits => c.records == b.records
       case RdIterator => Resembles(c.records, b.records, {near}, {}, b.end)
       case RdMark1 => c.slots[2] == IterAt(b, at) && Resembles(c.records, b.records, {near}, {at}, b.end)
       case _ => false
  }

  lemma EndKeepsPromise(b: Disk, at: nat, near: nat, lim': Limits, prev: nat, next: nat, k: nat)
    requires at in b.records && near in b.records && at != near && b.records[at].live
    requires b.status == Opened && 2 <= k <= 9
    ensures RdPromise1(EndState(b, at, near, lim', prev, next, k), b, at, near)
  {
  }

  lemma Rd1Undone(c: Disk, b: Disk, at: nat, near: nat, clock: nat) returns (m: Image)
    requires Layout(b) && RdPromise1(c, b, at, near)
    ensures SameList(m, b) && Undo(Image(c, c.limits), clock) == Check(m, -1)
  {
    m := Image(c, c.limits);
    if c.status.RdMark1? {
      MarkRestores(c.records, b, {near}, c.slots[2]);
      m := Unerase(m, 2).image;
    }
    if !c.status.RdLimits? {
      LastSlotRestores(m.disk.records, b, c.slots[0]);
      m := RestoreSlot(m, 0);
    }
    m := RestoreLimits(m);
  }

  lemma LastDone(b: Disk, chain: seq<nat>)
    requires Holds(b, chain) && |chain| > 1
    ensures var i := |chain| - 1;
            var at, near := chain[i], chain[i - 1];
            && at in b.records && near in b.records
            && var f := EndState(b, at, near, Limits(b.limits.first, near), b.records[near].prev, b.end, 9);
            && Holds(f, RemoveAt(chain, i))
            && Contents(f, RemoveAt(chain, i)) == RemoveAt(Contents(b, chain), i)
  {
    var i := |chain| - 1;
    var at, near := chain[i], chain[i - 1];
    assert Node(b.records, b.end, chain, i) && Node(b.records, b.end, chain, i - 1);
    RemoveDone(b, EndState(b, at, near, Limits(b.limits.first, near), b.records[near].prev, b.end, 9), chain, i);
  }

  lemma FirstDone(b: Disk, chain: seq<nat>)
    requires Holds(b, chain) && |chain| > 1
    ensures var at, near := chain[0], chain[1];
            && at in b.records && near in b.records
            && var f := EndState(b, at, near, Limits(near, b.limits.last), 0, b.records[near].next, 9);
            && Holds(f, RemoveAt(chain, 0))
            && Contents(f, RemoveAt(chain, 0)) == RemoveAt(Contents(b, chain), 0)
  {
    var at, near := chain[0], chain[1];
    assert Node(b.records, b.end, chain, 0) && Node(b.records, b.end, chain, 1);
    RemoveDone(b, EndState(b, at, near, Limits(near, b.limits.last), 0, b.records[near].next, 9), chain, 0);
  }

  // ---------------------------------------------------------------------
  // Removing an element between two others

  /** The record at `at` has two distinct neighbours. */
  predicate Between(b: Disk, at: nat) {
    && at in b.records && b.records[at].live
    && b.records[at].prev in b.records && b.records[at].next in b.records
    && b.records[at].prev != b.records[at].next
    && b.records[at].prev != at && b.records[at].next != at
  }

  ghost function MiddleState(b: Disk, at: nat, k: nat): Disk
    requires Between(b, at)
  {
    var before, after := b.records[at].prev, b.records[at].next;
    var half := b.records[after := b.records[after].(prev := before)];
    var linked := half[before := b.records[before].(next := after)];
    b.(slots := if k < 1 then b.slots else if k < 3 then b.slots[0 := IterAt(b, after)]
                else if k < 7 then b.slots[0 := IterAt(b, after)][1 := IterAt(b, before)]
                else b.slots[0 := IterAt(b, after)][1 := IterAt(b, before)][2 := IterAt(b, at)],
       status := if k < 2 then b.status else if k < 4 then RdIterator2 else if k < 8 then RdIterator3 else RdMark2,
       records := if k < 5 then b.records else if k < 6 then half else if k < 9 then linked
                  else linked[at := b.records[at].(live := false)])
  }

  lemma MiddleStates(b: Disk, at: nat, k: nat)
    requires Between(b, at) && k <= 9
    ensures StateAt(b, RemoveMiddle(b, IterAt(b, at)), k) == MiddleState(b, at, k)
    decreases k
  {
    if k > 0 {
      MiddleStates(b, at, k - 1);
    }
  }

  /** What the status byte promises while the element at `at`, between two others, is being removed. */
  ghost predicate RdPromise2(c: Disk, b: Disk, at: nat) {
    Between(b, at) &&
    var before, after := b.records[at].prev, b.records[at].next;
    && c.size == b.size && c.stamp == b.stamp
    && c.end == b.end
    && c.limits == b.limits
    && c.slots[0] == IterAt(b, after)
    && (!c.status.RdIterator2? ==> c.slots[1] == IterAt(b, before))
    && c.records.Keys == b.records.Keys
    && match c.status
       case RdIterator2 => c.records == b.records
       case RdIterator3 => Resembles(c.records, b.records, {after, before}, {}, b.end)
       case RdMark2 => c.slots[2] == IterAt(b, at) && Resembles(c.records, b.records, {after, before}, {at}, b.end)
       case _ => false
  }

  lemma MiddleKeepsPromise(b: Disk, at: nat, k: nat)
    requires Between(b, at) && b.status == Opened && 2 <= k <= 9
    ensures RdPromise2(MiddleState(b, at, k), b, at)
  {
  }

  lemma Rd2Undone(c: Disk, b: Disk, at: nat, clock: nat) returns (m: Image)
    requires Layout(b) && RdPromise2(c, b, at)
    ensures SameList(m, b) && Undo(Image(c, c.limits), clock) == Check(m, -1)
  {
    var before, after := b.records[at].prev, b.records[at].next;
    m := Image(c, c.limits);
    if c.status.RdMark2? {
      MarkRestores(c.records, b, {after, before}, c.slots[2]);
      m := Unerase(m, 2).image;
    }
    if !c.status.RdIterator2? {
      SlotRestores(m.disk.records, b, {after, before}, {}, c.slots[1]);
      assert {after, before} - {before} == {after};
      m := RestoreSlot(m, 1);
    }
    LastSlotRestores(m.disk.records, b, c.slots[0]);
    m := RestoreSlot(m, 0);
  }

  lemma BetweenPlaces(b: Disk, chain: seq<nat>, i: nat)
    requires Holds(b, chain) && 0 < i < |chain| - 1
    ensures Between(b, chain[i])
    ensures b.records[chain[i]].prev == chain[i - 1] && b.records[chain[i]].next == chain[i + 1]
  {
    assert Node(b.records, b.end, chain, i - 1) && Node(b.records, b.end, chain, i);
    assert Node(b.records, b.end, chain, i + 1);
  }

  lemma MiddleDone(b: Disk, chain: seq<nat>, i: nat)
    requires Holds(b, chain) && 0 < i < |chain| - 1
    ensures Between(b, chain[i])
    ensures var f := MiddleState(b, chain[i], 9);
            && Holds(f, RemoveAt(chain, i))
            && Contents(f, RemoveAt(chain, i)) == RemoveAt(Contents(b, chain), i)
  {
    BetweenPlaces(b, chain, i);
    RemoveDone(b, MiddleState(b, chain[i], 9), chain, i);
  }

  /** What the status byte promises while one of several elements is being removed. */
  ghost predicate Promise(c: Disk, b: Disk, at: nat, near: nat) {
    RdPromise1(c, b, at, near) || RdPromise2(c, b, at)
  }

  // ---------------------------------------------------------------------
  // Removing the only element

  ghost function OnlyState(b: Disk, k: nat): Disk {
    b.(slots := if k < 1 then b.slots else b.slots[0 := Iter(HEADER, HEADER, HEADER)],
       status := if k < 2 then b.status else if k < 4 then FtBegin else FtEnd,
       limits := if k < 5 then b.limits else Limits(HEADER, HEADER),
       records := if k < 3 then b.records else Cut(b.records, HEADER),
       end := if k < 3 then b.end else HEADER)
  }

  lemma OnlyStates(b: Disk, k: nat)
    requires k <= 5
    ensures StateAt(b, RemoveOnly(b), k) == OnlyState(b, k)
    decreases k
  {
    if k > 0 {
      OnlyStates(b, k - 1);
    }
  }

  lemma OnlyDone(b: Disk, chain: seq<nat>)
    requires Holds(b, chain) && |chain| == 1
    ensures Holds(OnlyState(b, 5), []) && OnlyState(b, 5).records == map[]
  {
    assert Cut(b.records, HEADER) == map[];
  }

  /** A file cut to its header whose count still says one element holds no list of that length. */
  lemma OnlyIsLost(c: Disk, chain: seq<nat>)
    requires c.end == HEADER && c.size == 1
    ensures !WellFormed(c, chain)
  {
    assert Holds(c, chain) && |chain| > 0 ==> Node(c.records, c.end, chain, 0);
  }
}
