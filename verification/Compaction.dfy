/** compact_data: the file is emptied and the list written again, element by element. */
module Compaction {
  import opened Disk
  import opened Recovery
  import opened Programs
  import opened Undoing
  import opened Atomicity
  import Insertion

  /** The bytes the records of `items` occupy. */
  ghost function Total(items: seq<string>): nat {
    if items == [] then 0 else Total(items[..|items| - 1]) + DataSize(|items[|items| - 1]|)
  }

  /** Back to back from the end of the header. */
  ghost function Offsets(items: seq<string>): (chain: seq<nat>)
    ensures |chain| == |items|
  {
    if items == [] then []
    else Offsets(items[..|items| - 1]) + [HEADER + Total(items[..|items| - 1])]
  }

  /** One turn of the loop of compact_data: addDataAtEnd. */
  function Append(d: Disk, item: string): Disk {
    if CanAdd(d, d.limits, d.end, d.end) then RunAll(d, AddBody(d, d.limits, d.end, d.end, item)) else d
  }

  /** The file is the header and the records of `items` back to back, in list order. */
  ghost predicate Packed(d: Disk, items: seq<string>) {
    && Holds(d, Offsets(items))
    && Contents(d, Offsets(items)) == items
    && d.end == HEADER + Total(items)
    && forall p :: p in d.records ==> p in Offsets(items)
  }

  lemma AppendExtends(d: Disk, chain: seq<nat>, item: string)
    requires Holds(d, chain)
    ensures CanAdd(d, d.limits, d.end, d.end)
    ensures var d' := Append(d, item);
            && Holds(d', chain + [d.end])
            && Contents(d', chain + [d.end]) == Contents(d, chain) + [item]
            && d'.records.Keys == d.records.Keys + {d.end}
            && d'.end == d.end + DataSize(|item|) && d'.stamp == d.stamp && d'.size == d.size
  {
    PlaceIsValid(d, chain, |chain|);
    InsertBodyDone(d, chain, |chain|, item);
    AtTheEnd(chain, d.end);
    AtTheEnd(Contents(d, chain), item);
  }

  lemma AtTheEnd<T>(s: seq<T>, x: T)
    ensures InsertAt(s, |s|, x) == s + [x]
  {
  }

  lemma AppendKeepsPacked(d: Disk, items: seq<string>, item: string)
    requires Packed(d, items)
    ensures CanAdd(d, d.limits, d.end, d.end) && Packed(Append(d, item), items + [item])
  {
    AppendExtends(d, Offsets(items), item);
    assert (items + [item])[..|items|] == items;
  }

  /** The emptied file after the elements of `items` were added. */
  ghost function Rebuilt(clock: nat, items: seq<string>): Disk {
    if items == [] then EmptyFile(clock).(status := Opened)
    else Append(Rebuilt(clock, items[..|items| - 1]), items[|items| - 1])
  }

  lemma {:induction false} RebuiltIsPacked(clock: nat, items: seq<string>)
    ensures Packed(Rebuilt(clock, items), items)
  {
    if items != [] {
      var n := |items| - 1;
      RebuiltIsPacked(clock, items[..n]);
      AppendKeepsPacked(Rebuilt(clock, items[..n]), items[..n], items[n]);
      assert items[..n] + [items[n]] == items;
    }
  }

  lemma {:induction false} RebuiltKeepsStamp(clock: nat, items: seq<string>)
    ensures Rebuilt(clock, items).stamp == Stamp(clock, 0)
  {
    if items != [] {
      var n := |items| - 1;
      RebuiltKeepsStamp(clock, items[..n]);
      RebuiltIsPacked(clock, items[..n]);
      AppendExtends(Rebuilt(clock, items[..n]), Offsets(items[..n]), items[n]);
    }
  }

  /** There is always room for one more, and the limits kept in memory follow. */
  lemma RebuiltCanGrow(clock: nat, items: seq<string>, item: string)
    ensures var d := Rebuilt(clock, items);
            && CanAdd(d, d.limits, d.end, d.end) && d.limits.last != 0
            && Append(d, item).limits == Limits(d.limits.first, d.end)
  {
    RebuiltIsPacked(clock, items);
    AppendExtends(Rebuilt(clock, items), Offsets(items), item);
  }

  /** The finished container: backups cleared, count written, status closed. */
  ghost function Compacted(clock: nat, items: seq<string>): Disk {
    RunAll(Rebuilt(clock, items), [WClear, WStatus(Empty), WSize(|items|), WStatus(Closed)])
  }

  /** Compaction keeps the sequence and leaves no erased record: every record in the file is an
      element of the list, and the file is the header and the records of the list, no more. */
  lemma CompactionKeepsSequence(d: Disk, chain: seq<nat>, clock: nat)
    requires WellFormed(d, chain)
    ensures var items := Contents(d, chain);
            var d' := Compacted(clock, items);
            && WellFormed(d', Offsets(items))
            && Contents(d', Offsets(items)) == items
            && (forall p :: p in d'.records ==> d'.records[p].live && p in Offsets(items))
            && d'.end == HEADER + Total(items)
  {
    var items := Contents(d, chain);
    var r := Rebuilt(clock, items);
    RebuiltIsPacked(clock, items);
    EpilogueStates(r, Empty, |items|, 4);
    var d' := Compacted(clock, items);
    SameBody(r, d', Offsets(items));
    forall p | p in d'.records ensures d'.records[p].live {
      var i :| 0 <= i < |items| && Offsets(items)[i] == p;
      assert Node(d'.records, d'.end, Offsets(items), i);
    }
  }

  // ---------------------------------------------------------------------
  // An empty element

  /** How many elements come before the first empty one. */
  ghost function BeforeEmpty(items: seq<string>): (n: nat)
    ensures n <= |items| && (n < |items| ==> items[n] == "")
    ensures forall i :: 0 <= i < n ==> items[i] != ""
  {
    if items == [] then 0
    else var n := BeforeEmpty(items[..|items| - 1]);
         if n == |items| - 1 && items[n] != "" then n + 1 else n
  }

  /** The file when addDataAtEnd refuses an element. */
  ghost function Refused(d: Disk): Disk {
    StateAt(d, AddBody(d, d.limits, d.end, d.end, ""), RefusalPoint(d.limits, d.end, d.end) - 2)
  }

  lemma RefusedIsUndone(d: Disk, chain: seq<nat>, clock: nat) returns (m: Image)
    requires Holds(d, chain) && |chain| > 0
    ensures SameList(m, d) && Undo(Image(Refused(d), Refused(d).limits), clock) == Check(m, 1) && Refused(d).stamp == d.stamp
  {
    PlaceIsValid(d, chain, |chain|);
    Insertion.AtEndStates(d, "", 6);
    Insertion.AtEndKeepsPromise(d, "", 6, d.end);
    m := Insertion.AeUndone(Refused(d), d, clock);
  }

  /** The count is still that of the emptied file: recovery corrects it by one and no more. */
  lemma CountIsShort(d: Disk, chain: seq<nat>, clock: nat)
    requires Holds(d, chain) && |chain| > 1 && d.size == 0
    ensures Recover(Refused(d), clock).Good? && Recover(Refused(d), clock).image.disk.size == 0
    ensures Recover(Refused(d), clock).image.disk.limits.first in Recover(Refused(d), clock).image.disk.records
  {
    var m := RefusedIsUndone(d, chain, clock);
    SameBody(d, m.disk, chain);
    WalkWholeChain(m.disk, chain);
    var w := WalkAll(m.disk, m.cache);
    assert Node(d.records, d.end, chain, 0) && Node(d.records, d.end, chain, |chain| - 1);
  }

  /**
    * Compaction that comes upon an empty element has emptied the file already.  Opening what it leaves
    * finds the elements before that one as a well-formed list exactly when there is one of them.
    */
  lemma CompactionStopsAtEmpty(clock: nat, items: seq<string>, now: nat)
    ensures Survives(Refused(Rebuilt(clock, items)), now, items, items) <==> |items| == 1
  {
    var d, chain := Rebuilt(clock, items), Offsets(items);
    RebuiltIsPacked(clock, items);
    RebuiltIsBare(clock, items);
    if items == [] {
      Insertion.FirstStates(d, "", 3);
      Insertion.FirstIsLost(d, "", 3, d.end, now);
    } else if |items| == 1 {
      var m := RefusedIsUndone(d, chain, now);
      UndoneIsRestored(m, Refused(d), d, chain, 1, now);
      RestoredSurvives(Refused(d), d, chain, now, items, items);
    } else {
      CountIsShort(d, chain, now);
      var f := Recover(Refused(d), now).image.disk;
      forall other ensures !WellFormed(f, other) {
        CountedIsEmpty(f, other);
      }
    }
  }

  /** A well-formed container that counts no element has none. */
  lemma CountedIsEmpty(f: Disk, chain: seq<nat>)
    requires f.size == 0 && f.limits.first in f.records
    ensures !WellFormed(f, chain)
  {
  }

  lemma {:induction false} RebuiltIsBare(clock: nat, items: seq<string>)
    ensures Rebuilt(clock, items).size == 0 && (items == [] ==> Rebuilt(clock, items).slots == NO_SLOTS)
  {
    if items != [] {
      var n := |items| - 1;
      RebuiltIsBare(clock, items[..n]);
      RebuiltIsPacked(clock, items[..n]);
      AppendExtends(Rebuilt(clock, items[..n]), Offsets(items[..n]), items[n]);
    }
  }
}
