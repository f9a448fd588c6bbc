/** add_data reads the end of the file before it recovers what a crash left behind and goes on with
    what it read: when recovery cuts the file, the links it writes miss the record it appends. */
module StaleEnd {
  import opened Disk
  import opened Recovery
  import opened Programs
  import opened Undoing
  import opened Atomicity
  import Insertion

  /** The offsets a caller can name: 0, an element, or the end as the file or the caller has it. */
  predicate IsPlace(d: Disk, chain: seq<nat>, at: nat, end: nat) {
    at == 0 || at == end || at == d.end || at in chain
  }

  /** The offsets at which add_data writes a blank iterator over the stamp. */
  predicate LosesStamp(d: Disk, chain: seq<nat>, at: nat, end: nat) {
    at == 0 || (at == d.end && at != end && |chain| > 0)
  }

  /** The container at rest holds the old sequence with the data inserted, under the new stamp. */
  ghost predicate Inserted(f: Disk, stamp: Stamp, before: seq<string>, data: string) {
    && f.stamp == stamp
    && exists chain, i: nat :: WellFormed(f, chain) && i <= |before| && Contents(f, chain) == InsertAt(before, i, data)
  }

  // ---------------------------------------------------------------------
  // What the three paths leave when `end` lies behind the end of the file

  /** addDataAtEnd moves the last limit to where no record is. */
  lemma {:induction false} AtEndMisses(b: Disk, end: nat, data: string, k: nat)
    requires b.limits.last in b.records && b.end !in b.records && k <= 9
    ensures var s := StateAt(b, AddAtEnd(b, b.limits, end, data), k);
            && s.records.Keys <= b.records.Keys + {b.end} && b.limits.last in s.records
            && (k < 8 ==> s.end == b.end)
            && (k >= 6 ==> s.limits == Limits(b.limits.first, end))
  {
    if k > 0 {
      AtEndMisses(b, end, data, k - 1);
    }
  }

  /** addDataAtBegin moves the first limit there. */
  lemma {:induction false} AtBeginMisses(b: Disk, end: nat, data: string, k: nat)
    requires b.limits.first in b.records && b.limits.last in b.records && b.end !in b.records && k <= 12
    ensures var s := StateAt(b, AddAtBegin(b, b.limits, end, data), k);
            && s.records.Keys <= b.records.Keys + {b.end}
            && b.limits.first in s.records && b.limits.last in s.records
            && (k < 8 ==> s.end == b.end)
            && (k >= 6 ==> s.limits == Limits(end, b.limits.last))
  {
    if k > 0 {
      AtBeginMisses(b, end, data, k - 1);
    }
  }

  /** On an empty list the blank iterator saved and written back makes the file longer first. */
  lemma {:induction false} EmptyAtEndMisses(b: Disk, end: nat, data: string, k: nat)
    requires b.records == map[] && b.limits == Limits(HEADER, HEADER) && b.end == HEADER && k <= 9
    ensures var s := StateAt(b, AddAtEnd(b, b.limits, end, data), k);
            && s.records.Keys <= {HEADER + ITER_LINE}
            && (k < 8 ==> s.end == if k < 3 then HEADER else HEADER + ITER_LINE)
            && (k >= 6 ==> s.limits == Limits(HEADER, end))
  {
    if k > 0 {
      EmptyAtEndMisses(b, end, data, k - 1);
    }
  }

  lemma {:induction false} EmptyAtBeginMisses(b: Disk, end: nat, data: string, k: nat)
    requires b.records == map[] && b.limits == Limits(HEADER, HEADER) && b.end == HEADER && k <= 12
    ensures var s := StateAt(b, AddAtBegin(b, b.limits, end, data), k);
            && s.records.Keys <= {HEADER + ITER_LINE}
            && (k < 8 ==> s.end == if k < 3 then HEADER else HEADER + ITER_LINE)
            && (k >= 8 ==> s.end > HEADER)
            && (k >= 6 ==> s.limits == Limits(end, HEADER))
  {
    if k > 0 {
      EmptyAtBeginMisses(b, end, data, k - 1);
    }
  }

  /** Before an inner element the one before it is linked to where no record is. */
  lemma {:induction false} InMiddleMisses(b: Disk, at: nat, end: nat, data: string, k: nat)
    requires Insertion.Inner(b, at) && k <= 12
    ensures var s, before := StateAt(b, AddInMiddle(b, b.limits, at, end, data), k), b.records[at].prev;
            && b.records.Keys <= s.records.Keys <= b.records.Keys + {b.end}
            && (k < 8 ==> s.end == b.end) && s.limits == b.limits
            && (k >= 6 ==> s.records[before].next == end)
  {
    if k > 0 {
      InMiddleMisses(b, at, end, data, k - 1);
    }
  }

  lemma InMiddleWrite(b: Disk, at: nat, end: nat, data: string, k: nat)
    requires Insertion.Inner(b, at) && k < 12
    ensures var w := AddInMiddle(b, b.limits, at, end, data)[k];
            && !w.WMark? && !w.WTruncate? && (w.WAppend? ==> k == 7)
            && (w.WIterator? ==> || (w.at == at && w.next == b.records[at].next)
                                 || w.at == b.records[at].prev || w.at == b.limits.last)
  {
  }

  lemma NextKept(s: Disk, w: Write, p: nat, next: nat)
    requires p in s.records && s.records[p].next == next && (w.WAppend? ==> p != s.end) && !w.WMark? && !w.WTruncate?
    requires w.WIterator? && w.at == p ==> w.next == next
    ensures p in Apply(s, w).records && Apply(s, w).records[p].next == next
  {
  }

  /** The other elements, up to the last, point where they did. */
  lemma {:induction false} InMiddleKeepsNext(b: Disk, at: nat, end: nat, data: string, k: nat, p: nat)
    requires Insertion.Inner(b, at) && k <= 12 && p in b.records && p != b.records[at].prev && p != b.limits.last
    ensures var s := StateAt(b, AddInMiddle(b, b.limits, at, end, data), k);
            p in s.records && s.records[p].next == b.records[p].next
  {
    if k > 0 {
      var ws := AddInMiddle(b, b.limits, at, end, data);
      InMiddleMisses(b, at, end, data, k - 1);
      InMiddleKeepsNext(b, at, end, data, k - 1, p);
      InMiddleWrite(b, at, end, data, k - 1);
      NextKept(StateAt(b, ws, k - 1), ws[k - 1], p, b.records[p].next);
    }
  }

  lemma OverStamp(b: Disk, at: nat, end: nat, data: string, k: nat)
    requires 0 !in b.records && at !in b.records && b.limits.last != 0 && k < 12
    ensures var w := AddInMiddle(b, b.limits, at, end, data)[k];
            && !w.WStamp? && !w.WMark? && !w.WTruncate?
            && (k == 5 ==> w == WIterator(0, 0, end)) && (k > 5 && w.WIterator? ==> w.at != 0)
  {
  }

  lemma StampKept(s: Disk, w: Write)
    requires 0 !in s.records && s.end > 0 && !w.WStamp? && !w.WMark? && !w.WTruncate?
    ensures var t := Apply(s, w);
            && 0 !in t.records && t.end > 0
            && (w.WIterator? && w.at == 0 && w.prev == 0 ==> t.stamp.epoch == 0)
            && (!w.WIterator? || w.at != 0 ==> t.stamp == s.stamp)
  {
  }

  /** Offset 0 and the end of the file read as blank iterators, and one is written over the stamp. */
  lemma {:induction false} StampIsLost(b: Disk, at: nat, end: nat, data: string, k: nat)
    requires 0 !in b.records && at !in b.records && b.limits.last != 0 && k <= 12 && b.end > 0
    ensures var s := StateAt(b, AddInMiddle(b, b.limits, at, end, data), k);
            && 0 !in s.records && s.end > 0 && (k >= 6 ==> s.stamp.epoch == 0)
  {
    if k > 0 {
      var ws := AddInMiddle(b, b.limits, at, end, data);
      StampIsLost(b, at, end, data, k - 1);
      OverStamp(b, at, end, data, k - 1);
      StampKept(StateAt(b, ws, k - 1), ws[k - 1]);
    }
  }

  // ---------------------------------------------------------------------
  // No list holds together over them

  lemma HeldLimits(f: Disk, chain: seq<nat>)
    requires Holds(f, chain)
    ensures || (f.limits == Limits(HEADER, HEADER) && f.end == HEADER)
            || (f.limits.first in f.records && f.limits.last in f.records)
  {
    if |chain| > 0 {
      assert Node(f.records, f.end, chain, 0) && Node(f.records, f.end, chain, |chain| - 1);
    }
  }

  /** Links that agree up to an element make lists that agree up to it. */
  lemma {:induction false} SameUpTo(d: Disk, f: Disk, chain: seq<nat>, other: seq<nat>, j: nat)
    requires Holds(d, chain) && Holds(f, other) && f.limits == d.limits && j < |chain|
    requires forall m {:trigger chain[m]} :: 0 <= m < j ==>
               chain[m] in d.records && chain[m] in f.records && f.records[chain[m]].next == d.records[chain[m]].next
    requires forall m {:trigger chain[m]} :: 0 <= m < j ==> chain[m] != d.limits.last
    requires chain[0] in f.records && f.end > HEADER
    ensures j < |other| && other[j] == chain[j]
  {
    if j > 0 {
      SameUpTo(d, f, chain, other, j - 1);
      assert Node(d.records, d.end, chain, j - 1) && Node(f.records, f.end, other, j - 1);
      assert chain[j - 1] != d.limits.last;
    } else {
      assert Node(d.records, d.end, chain, 0);
    }
  }

  /** The disk add_data leaves when it runs to its end. */
  ghost function Finished(d: Disk, stamp: Stamp, at: nat, end: nat, data: string): Disk {
    RunAll(d, AddWrites(d, d.limits, d.size, stamp, at, end, data))
  }

  lemma FinishedIs(d: Disk, stamp: Stamp, at: nat, end: nat, data: string)
    ensures var b := Begun(d, stamp);
            Finished(d, stamp, at, end, data)
            == EpilogueState(RunAll(b, AddBody(b, b.limits, at, end, data)), AdEmpty, d.size + 1, 4)
  {
    var b := Begun(d, stamp);
    var body := AddBody(d, d.limits, at, end, data);
    SameAddBody(d, b, at, end, data);
    RunOperation(d, stamp, body, AddEpilogue(d.size));
    EpilogueStates(RunAll(b, body), AdEmpty, d.size + 1, 4);
  }

  /** Whichever path is taken with an end behind the real one, no list is left or no stamp. */
  lemma MissedAtEnd(d: Disk, chain: seq<nat>, stamp: Stamp, end: nat, data: string, other: seq<nat>)
    requires WellFormed(d, chain) && d.end < end
    ensures !Holds(Finished(d, stamp, end, end, data), other)
  {
    FinishedIs(d, stamp, end, end, data);
    var b := Begun(d, stamp);
    PlaceIsValid(d, chain, 0);
    if |chain| == 0 {
      EmptyAtEndMisses(b, end, data, 9);
    } else {
      AtEndMisses(b, end, data, 9);
    }
    var f := Finished(d, stamp, end, end, data);
    assert f.limits == Limits(d.limits.first, end);
    if Holds(f, other) {
      HeldLimits(f, other);
    }
  }

  lemma MissedAtBegin(d: Disk, chain: seq<nat>, stamp: Stamp, end: nat, data: string, other: seq<nat>)
    requires WellFormed(d, chain) && d.end < end
    ensures !Holds(Finished(d, stamp, d.limits.first, end, data), other)
  {
    FinishedIs(d, stamp, d.limits.first, end, data);
    var b := Begun(d, stamp);
    PlaceIsValid(d, chain, 0);
    if |chain| == 0 {
      EmptyAtBeginMisses(b, end, data, 12);
    } else {
      AtBeginMisses(b, end, data, 12);
    }
    var f := Finished(d, stamp, d.limits.first, end, data);
    assert f.limits == Limits(end, d.limits.last);
    if Holds(f, other) {
      HeldLimits(f, other);
    }
  }

  lemma MissedInMiddle(d: Disk, chain: seq<nat>, j: nat, stamp: Stamp, end: nat, data: string, other: seq<nat>)
    requires WellFormed(d, chain) && 0 < j < |chain| && d.end < end
    ensures !Holds(Finished(d, stamp, chain[j], end, data), other)
  {
    var b, at := Begun(d, stamp), chain[j];
    FinishedIs(d, stamp, at, end, data);
    SameBody(d, b, chain);
    PlaceIsValid(b, chain, j);
    Insertion.InnerPlaces(b, chain, j);
    InMiddleMisses(b, at, end, data, 12);
    var f := Finished(d, stamp, at, end, data);
    forall m {:trigger chain[m]} | 0 <= m < j
      ensures chain[m] in d.records && chain[m] in f.records && chain[m] != d.limits.last
      ensures m < j - 1 ==> f.records[chain[m]].next == d.records[chain[m]].next
    {
      assert Node(d.records, d.end, chain, m);
      if m < j - 1 {
        InMiddleKeepsNext(b, at, end, data, 12, chain[m]);
      }
    }
    if Holds(f, other) {
      NothingFollows(d, f, chain, j, end, other);
    }
  }

  lemma GoesOn(f: Disk, chain: seq<nat>, m: nat)
    requires Holds(f, chain) && m < |chain|
    ensures chain[m] in f.records && (chain[m] == f.limits.last || f.records[chain[m]].next in f.records)
  {
    assert Node(f.records, f.end, chain, m);
    assert m + 1 < |chain| ==> Node(f.records, f.end, chain, m + 1);
  }

  /** The list would have to go on where the element before points, and cannot end there. */
  lemma NothingFollows(d: Disk, f: Disk, chain: seq<nat>, j: nat, end: nat, other: seq<nat>)
    requires Holds(d, chain) && 0 < j < |chain| && f.limits == d.limits && end !in f.records
    requires forall m {:trigger chain[m]} :: 0 <= m < j ==>
               && chain[m] in d.records && chain[m] in f.records && chain[m] != d.limits.last
               && (m < j - 1 ==> f.records[chain[m]].next == d.records[chain[m]].next)
    requires f.records[chain[j - 1]].next == end
    ensures !Holds(f, other)
  {
    assert chain[0] in f.records;
    if Holds(f, other) {
      SameUpTo(d, f, chain, other, j - 1);
      assert chain[j - 1] != d.limits.last;
      GoesOn(f, other, j - 1);
    }
  }

  lemma MissedStamp(d: Disk, chain: seq<nat>, stamp: Stamp, at: nat, end: nat, data: string)
    requires WellFormed(d, chain) && at !in d.records && at != end && at != d.limits.first && d.limits.last != 0
    ensures Finished(d, stamp, at, end, data).stamp.epoch == 0
  {
    FinishedIs(d, stamp, at, end, data);
    StampIsLost(Begun(d, stamp), at, end, data, 12);
  }

  /** Neither the closing writes nor a refusal bring the stamp back. */
  lemma StampStaysLost(d: Disk, chain: seq<nat>, stamp: Stamp, at: nat, end: nat, data: string)
    requires WellFormed(d, chain) && LosesStamp(d, chain, at, end) && d.end <= end
    ensures Finished(d, stamp, at, end, data).stamp.epoch == 0
    ensures var ws := AddWrites(d, d.limits, d.size, stamp, at, end, data);
            RefusalPoint(d.limits, at, end) == 8 <= |ws| && StateAt(d, ws, 8).stamp.epoch == 0
  {
    NoRecordThere(d, chain, at, end);
    MissedStamp(d, chain, stamp, at, end, data);
    RefusedStamp(d, stamp, at, end, data);
  }

  lemma RefusedStamp(d: Disk, stamp: Stamp, at: nat, end: nat, data: string)
    requires 0 !in d.records && at !in d.records && at != end && at != d.limits.first && d.limits.last != 0 && d.end > 0
    ensures var ws := AddWrites(d, d.limits, d.size, stamp, at, end, data);
            RefusalPoint(d.limits, at, end) == 8 <= |ws| && StateAt(d, ws, 8).stamp.epoch == 0
  {
    var body := AddInMiddle(d, d.limits, at, end, data);
    BodyState(d, stamp, body, AddEpilogue(d.size), 6);
    StampIsLost(Begun(d, stamp), at, end, data, 6);
    SameAddBody(d, Begun(d, stamp), at, end, data);
  }

  /**
    * add_data with the end it read on entry leaves the list with the element inserted exactly when
    * that is still the end of the file and the offset is not 0.
    */
  lemma InsertedIffEndIsFresh(d: Disk, chain: seq<nat>, stamp: Stamp, at: nat, end: nat, data: string)
    requires WellFormed(d, chain) && IsPlace(d, chain, at, end) && d.end <= end && data != "" && stamp.epoch > 0
    ensures Inserted(Finished(d, stamp, at, end, data), stamp, Contents(d, chain), data) <==> end == d.end && at != 0
  {
    var f := Finished(d, stamp, at, end, data);
    NoRecordThere(d, chain, at, end);
    if LosesStamp(d, chain, at, end) {
      MissedStamp(d, chain, stamp, at, end, data);
    } else if end == d.end {
      var i := IndexOf(d, chain, at);
      InsertionCompletes(d, chain, i, data, stamp);
    } else {
      forall other
        ensures !Holds(f, other)
      {
        if at == end {
          MissedAtEnd(d, chain, stamp, end, data, other);
        } else if at == d.limits.first {
          MissedAtBegin(d, chain, stamp, end, data, other);
        } else {
          var j := IndexOf(d, chain, at);
          MissedInMiddle(d, chain, j, stamp, end, data, other);
        }
      }
    }
  }

  lemma NoRecordThere(d: Disk, chain: seq<nat>, at: nat, end: nat)
    requires WellFormed(d, chain) && d.end <= end
    ensures 0 !in d.records && d.end !in d.records && end !in d.records && d.limits.first != 0 && d.limits.last != 0
    ensures |chain| > 0 ==> d.limits.first != d.end && d.limits.first in chain
    ensures |chain| == 0 ==> d.limits.first == d.end
  {
    if |chain| > 0 {
      assert Node(d.records, d.end, chain, 0) && Node(d.records, d.end, chain, |chain| - 1);
    }
  }

  lemma IndexOf(d: Disk, chain: seq<nat>, at: nat) returns (i: nat)
    requires WellFormed(d, chain) && (at == d.end || at in chain)
    ensures i <= |chain| && at == PlaceOf(d, chain, i)
    ensures at != d.end && at != d.limits.first ==> 0 < i < |chain|
  {
    if at == d.end {
      i := |chain|;
    } else {
      i :| 0 <= i < |chain| && chain[i] == at;
    }
  }

  // ---------------------------------------------------------------------
  // A crash that makes it happen

  lemma CheckNeverGrows(m: Image, allowance: int, clock: nat)
    requires Layout(m.disk) && CheckConsistency(m, allowance, clock).Good?
    ensures CheckConsistency(m, allowance, clock).image.disk.end <= m.disk.end
  {
  }

  /** A crash of addDataAtEnd, all of its body written but not yet closed. */
  lemma CrashMovesEnd(d: Disk, chain: seq<nat>, data: string, stamp: Stamp, clock: nat)
    requires WellFormed(d, chain) && |chain| > 0
    ensures var ws := AddWrites(d, d.limits, d.size, stamp, d.end, d.end, data);
            && |ws| == 15
            && var o := Recover(StateAt(d, ws, 11), clock);
               o.Good? && WellFormed(o.image.disk, chain) && o.image.disk.end <= d.end < StateAt(d, ws, 11).end
  {
    var b := Begun(d, stamp);
    var c := StateAt(d, AddWrites(d, d.limits, d.size, stamp, d.end, d.end, data), 11);
    AppendedAtEnd(d, chain, data, stamp);
    var m := InsertBodyUndone(b, chain, |chain|, data, 9, c, clock);
    RestoredIsShort(m, c, b, chain, clock);
  }

  lemma RestoredIsShort(m: Image, c: Disk, b: Disk, chain: seq<nat>, clock: nat)
    requires Holds(b, chain) && b.size == |chain| > 0 && SameList(m, b)
    requires Undo(Image(c, c.limits), clock) == Check(m, 1)
    ensures var o := Recover(c, clock); o.Good? && WellFormed(o.image.disk, chain) && o.image.disk.end <= b.end
  {
    UndoneIsRestored(m, c, b, chain, 1, clock);
    CheckNeverGrows(m, 1, clock);
  }

  lemma AppendedAtEnd(d: Disk, chain: seq<nat>, data: string, stamp: Stamp)
    requires WellFormed(d, chain) && |chain| > 0
    ensures var ws, b := AddWrites(d, d.limits, d.size, stamp, d.end, d.end, data), Begun(d, stamp);
            && |ws| == 15 && Holds(b, chain) && PlaceOf(b, chain, |chain|) == b.end
            && var body := AddBody(b, b.limits, b.end, b.end, data);
               |body| == 9 && CrashedAt(b, body, 9, StateAt(d, ws, 11)) && d.end < StateAt(d, ws, 11).end
  {
    var ws, b := AddWrites(d, d.limits, d.size, stamp, d.end, d.end, data), Begun(d, stamp);
    PlaceIsValid(d, chain, |chain|);
    SameBody(d, b, chain);
    SameAddBody(d, b, d.end, d.end, data);
    SplitCrash(d, stamp, AddBody(d, d.limits, d.end, d.end, data), AddEpilogue(d.size), 11, StateAt(d, ws, 11));
    Insertion.AtEndStates(b, data, 9);
  }

  /** So after such a crash every add_data that answers good without anything between breaks the file. */
  lemma AddAfterCrashBreaks(d: Disk, chain: seq<nat>, data: string, stamp: Stamp, clock: nat,
                            stamp': Stamp, at: nat, data': string)
    requires WellFormed(d, chain) && |chain| > 0 && stamp'.epoch > 0 && data' != ""
    requires var ws := AddWrites(d, d.limits, d.size, stamp, d.end, d.end, data);
             && |ws| == 15
             && var c := StateAt(d, ws, 11);
                Recover(c, clock).Good? && IsPlace(Recover(c, clock).image.disk, chain, at, c.end)
    ensures var c := StateAt(d, AddWrites(d, d.limits, d.size, stamp, d.end, d.end, data), 11);
            var r := Recover(c, clock).image.disk;
            WellFormed(r, chain) && !Inserted(Finished(r, stamp', at, c.end, data'), stamp', Contents(r, chain), data')
  {
    CrashMovesEnd(d, chain, data, stamp, clock);
    var c := StateAt(d, AddWrites(d, d.limits, d.size, stamp, d.end, d.end, data), 11);
    InsertedIffEndIsFresh(Recover(c, clock).image.disk, chain, stamp', at, c.end, data');
  }
}
