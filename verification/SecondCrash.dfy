/** A crash inside recovery: exactly which are survived by recovering once more. */
module SecondCrash {
  import opened Common
  import opened Disk
  import opened Recovery
  import opened Programs
  import opened Undoing
  import opened RecoveryProgram
  import opened Atomicity

  // ---------------------------------------------------------------------
  // Disks that hold no list

  /** The limits lead to or past the end of the file, or an end of the list does not say it is one. */
  predicate Broken(f: Disk) {
    f.end != HEADER &&
    (|| f.limits.first >= f.end
     || f.limits.last >= f.end
     || (f.limits.first in f.records && f.records[f.limits.first].prev != 0)
     || (f.limits.last in f.records && f.records[f.limits.last].next != f.end))
  }

  lemma HeldIsWhole(f: Disk, chain: seq<nat>)
    requires Holds(f, chain)
    ensures !Broken(f)
  {
    if |chain| > 0 {
      assert Node(f.records, f.end, chain, 0) && Node(f.records, f.end, chain, |chain| - 1);
    }
  }

  /** The j-th element points back at the one before it. */
  predicate PointsBack(f: Disk, chain: seq<nat>, j: nat)
    requires 0 < j < |chain|
  {
    chain[j] in f.records && f.records[chain[j]].prev == chain[j - 1] && chain[j - 1] != 0
  }

  ghost predicate BackTo(f: Disk, chain: seq<nat>, i: nat) {
    forall j {:trigger PointsBack(f, chain, j)} :: i < j < |chain| ==> PointsBack(f, chain, j)
  }

  /** Followed back from the last element, the links lead to one that points to or past the end. */
  ghost predicate Severed(f: Disk, chain: seq<nat>, i: nat) {
    && i < |chain| && f.end != HEADER && f.limits.last == chain[|chain| - 1]
    && BackTo(f, chain, i) && chain[i] in f.records
    && f.records[chain[i]].prev != 0 && f.records[chain[i]].prev >= f.end
  }

  /** Followed back from the last element, the two lists agree as long as the links do. */
  lemma {:induction false} BackFrom(f: Disk, chain: seq<nat>, i: nat, other: seq<nat>, t: nat)
    requires Linked(f.records, f.end, other) && |other| > 0 && i < |chain| && chain[|chain| - 1] == other[|other| - 1]
    requires BackTo(f, chain, i) && t <= |chain| - 1 - i
    ensures t < |other| && other[|other| - 1 - t] == chain[|chain| - 1 - t]
    decreases t
  {
    if t > 0 {
      BackFrom(f, chain, i, other, t - 1);
      assert PointsBack(f, chain, |chain| - t);
      assert Node(f.records, f.end, other, |other| - t);
    }
  }

  /** In a list, every element that can be followed back to points back to another or to nothing. */
  lemma NotSevered(f: Disk, chain: seq<nat>, i: nat, other: seq<nat>)
    requires Holds(f, other) && i < |chain| && f.end != HEADER && f.limits.last == chain[|chain| - 1]
    requires BackTo(f, chain, i) && chain[i] in f.records
    ensures f.records[chain[i]].prev < f.end
  {
    BackFrom(f, chain, i, other, |chain| - 1 - i);
    var k := |other| - |chain| + i;
    assert Node(f.records, f.end, other, k);
    if k > 0 {
      assert Node(f.records, f.end, other, k - 1);
    }
  }

  lemma HeldIsNotSevered(f: Disk, chain: seq<nat>, i: nat, other: seq<nat>)
    requires Holds(f, other)
    ensures !Severed(f, chain, i)
  {
    if Severed(f, chain, i) {
      NotSevered(f, chain, i, other);
    }
  }

  ghost predicate Unheld(f: Disk) {
    Broken(f) || exists chain, i :: Severed(f, chain, i)
  }

  lemma UnheldHoldsNothing(f: Disk, chain: seq<nat>)
    requires Unheld(f)
    ensures !Holds(f, chain)
  {
    if Holds(f, chain) {
      HeldIsWhole(f, chain);
      forall other, i ensures !Severed(f, other, i) {
        HeldIsNotSevered(f, other, i, chain);
      }
    }
  }

  // ---------------------------------------------------------------------
  // What becomes of a disk when it is recovered

  /** Recovery answers good and leaves a disk on which no list holds together. */
  ghost predicate Loses(e: Disk, clock: nat) {
    Recover(e, clock).Good? && Unheld(Recover(e, clock).image.disk)
  }

  /** Recovery writes over records only, and finds one of the two sequences again or loses both. */
  ghost predicate Fate(e: Disk, good: bool, clock: nat, before: seq<string>, after: seq<string>) {
    Steady(e) && if good then Survives(e, clock, before, after) else Loses(e, clock)
  }

  lemma FateDecides(e: Disk, good: bool, clock: nat, before: seq<string>, after: seq<string>)
    requires Fate(e, good, clock, before, after)
    ensures Survives(e, clock, before, after) <==> good
  {
    if !good {
      var f := Recover(e, clock).image.disk;
      forall chain ensures !WellFormed(f, chain) {
        UnheldHoldsNothing(f, chain);
      }
    }
  }

  // ---------------------------------------------------------------------
  // Statuses under which recovery only closes the file

  predicate JustClosed(s: Status) {
    s.Closed? || s.Opened? || s.FtEnd?
  }

  lemma ClosedIsSteady(e: Disk)
    requires JustClosed(e.status) && HEADER <= e.end
    ensures Steady(e)
  {
    assert PlanOf(e).writes == [];
    IsSteady(e, e.end);
  }

  lemma HeldSurvives(e: Disk, chain: seq<nat>, clock: nat, before: seq<string>, after: seq<string>)
    requires JustClosed(e.status) && Holds(e, chain) && e.size == |chain| > 0
    requires Contents(e, chain) == before || Contents(e, chain) == after
    ensures Fate(e, true, clock, before, after)
  {
    ClosedIsSteady(e);
    SameBody(e, e.(status := Closed), chain);
    assert WellFormed(Recover(e, clock).image.disk, chain);
  }

  lemma BrokenIsLost(e: Disk, clock: nat, before: seq<string>, after: seq<string>)
    requires JustClosed(e.status) && Broken(e) && HEADER <= e.end
    ensures Fate(e, false, clock, before, after)
  {
    ClosedIsSteady(e);
    assert Broken(Recover(e, clock).image.disk);
  }

  /** An element inside the list that points back to no record severs it. */
  lemma SeveredIsLost(e: Disk, chain: seq<nat>, i: nat, clock: nat, before: seq<string>, after: seq<string>)
    requires JustClosed(e.status) && Severed(e, chain, i) && HEADER <= e.end
    ensures Fate(e, false, clock, before, after)
  {
    ClosedIsSteady(e);
    var f := Recover(e, clock).image.disk;
    assert forall j {:trigger PointsBack(f, chain, j)} :: i < j < |chain| ==> PointsBack(e, chain, j);
    assert Severed(f, chain, i);
  }

  // ---------------------------------------------------------------------
  // The tail of the file cut off, the last element not yet told

  /** The disk with everything from offset `extent` on cut off. */
  function Shortened(b: Disk, extent: nat): Disk {
    Apply(b, WTruncate(extent))
  }

  /** The elements are there, with their links, in both. */
  ghost predicate SameWay(b: Disk, e: Disk, chain: seq<nat>) {
    forall j :: 0 <= j < |chain| ==>
      && chain[j] in b.records && chain[j] in e.records && HEADER <= chain[j] < e.end
      && e.records[chain[j]].next == b.records[chain[j]].next
      && e.records[chain[j]].Size() == b.records[chain[j]].Size()
  }

  lemma {:induction false} WalksAlike(b: Disk, e: Disk, chain: seq<nat>, i: nat, count: nat, extent: nat, s: nat, t: nat)
    requires Holds(b, chain) && SameWay(b, e, chain) && i < |chain| && |chain| - i <= s + 1 && |chain| - i <= t + 1
    ensures WalkFrom(e, chain[i], chain[|chain| - 1], count, extent, t)
            == WalkFrom(b, chain[i], chain[|chain| - 1], count, extent, s)
    decreases s
  {
    assert Node(b.records, b.end, chain, i);
    if i + 1 < |chain| {
      assert Node(b.records, b.end, chain, i + 1);
      var r := b.records[chain[i]];
      assert chain[i] != chain[|chain| - 1];
      WalksAlike(b, e, chain, i + 1, count + 1, if chain[i] + r.Size() > extent then chain[i] + r.Size() else extent, s - 1, t - 1);
    }
  }

  lemma ShortenedIsTheSameWay(b: Disk, chain: seq<nat>, extent: nat)
    requires Holds(b, chain) && Covered(b, chain, 0, extent)
    ensures SameWay(b, Shortened(b, extent), chain)
  {
    forall j | 0 <= j < |chain|
      ensures chain[j] in b.records && chain[j] + b.records[chain[j]].Size() <= extent
    {
      assert Node(b.records, b.end, chain, j);
    }
  }

  lemma ShortenedWalk(b: Disk, chain: seq<nat>)
    requires Holds(b, chain) && |chain| > 0
    ensures var w := WalkAll(b, b.limits);
            && w.Reached? && w.extent <= b.end && w.count == |chain|
            && SameWay(b, Shortened(b, w.extent), chain)
            && WalkAll(Shortened(b, w.extent), b.limits) == w
  {
    WalkWholeChain(b, chain);
    var w := WalkAll(b, b.limits);
    var e := Shortened(b, w.extent);
    ShortenedIsTheSameWay(b, chain, w.extent);
    Pigeonhole(chain, e.records.Keys);
    Pigeonhole(chain, b.records.Keys);
    WalksAlike(b, e, chain, 0, 0, 0, |b.records|, |e.records|);
  }

  /** Once the check has cut the tail off, the last element points past the end, and a second
      recovery finds nothing more to cut and leaves it so. */
  lemma ShortenedIsLost(c: Disk, m: Image, b: Disk, chain: seq<nat>, allowance: int, clock: nat,
                        before: seq<string>, after: seq<string>)
    requires Holds(b, chain) && |chain| > 0 && WalkAll(b, b.limits).Reached? && WalkAll(b, b.limits).extent < b.end
    requires var e := Shortened(b, WalkAll(b, b.limits).extent);
             m.disk.records == e.records && m.disk.end == e.end && m.disk.limits == m.cache == b.limits
    requires Undo(Image(c, c.limits), clock) == Check(m, allowance) && Steady(c)
    ensures Fate(c, false, clock, before, after)
  {
    ShortenedWalk(b, chain);
    SameWalk(m.disk, Shortened(b, WalkAll(b, b.limits).extent), b.limits.first, b.limits.last, 0, 0, |m.disk.records|);
    var f := Recover(c, clock).image.disk;
    assert Node(b.records, b.end, chain, |chain| - 1) && Node(b.records, b.end, chain, 0);
    assert f.records == m.disk.records && f.limits == m.disk.limits && f.end == m.disk.end;
    assert Broken(f);
  }

  lemma {:induction false} SameWalk(d: Disk, e: Disk, at: nat, last: nat, count: nat, extent: nat, steps: nat)
    requires d.records == e.records && d.end == e.end
    ensures WalkFrom(d, at, last, count, extent, steps) == WalkFrom(e, at, last, count, extent, steps)
    decreases steps
  {
    if at in d.records && at != last && steps > 0 {
      var r := d.records[at];
      SameWalk(d, e, r.next, last, count + 1, if at + r.Size() > extent then at + r.Size() else extent, steps - 1);
    }
  }

  // ---------------------------------------------------------------------
  // A crash inside the consistency check

  function TailState(e: Disk, last: Iter, extent: nat, t: nat): Disk {
    var cut := Shortened(e, extent);
    if t == 0 then e else if t == 1 then cut else
    var told := cut.(status := FtEnd);
    if t == 2 then told else
    var linked := WriteIterator(told, last.current, last.prev, extent);
    if t == 3 then linked else linked.(status := Closed)
  }

  function TailWrites(last: Iter, extent: nat): seq<Write> {
    [WTruncate(extent), WStatus(FtEnd), WIterator(last.current, last.prev, extent), WStatus(Closed)]
  }

  lemma {:induction false} TailStates(e: Disk, last: Iter, extent: nat, t: nat)
    requires t <= 4
    ensures StateAt(e, TailWrites(last, extent), t) == TailState(e, last, extent, t)
    decreases t
  {
    if t > 0 {
      TailStates(e, last, extent, t - 1);
    }
  }

  /** `e` has the list of b. */
  predicate HasList(e: Disk, b: Disk) {
    e.records == b.records && e.end == b.end && e.limits == b.limits
  }

  /** The elements of b do not reach to its end. */
  predicate HasTail(b: Disk) {
    WalkAll(b, b.limits).Reached? && WalkAll(b, b.limits).extent < b.end
  }

  lemma LastOfList(b: Disk, chain: seq<nat>)
    requires Holds(b, chain) && |chain| > 0
    ensures b.limits.last == chain[|chain| - 1] && b.limits.last in b.records
    ensures b.records[b.limits.last].next == b.end && HEADER < b.end
    ensures var w := WalkAll(b, b.limits); w.Reached? && b.limits.last in Shortened(b, w.extent).records
                                           && w.extent > HEADER && w.count == |chain| && Covered(b, chain, 0, w.extent)
  {
    assert Node(b.records, b.end, chain, |chain| - 1);
    WalkWholeChain(b, chain);
  }

  lemma ShortenedIsBroken(e: Disk, b: Disk, chain: seq<nat>)
    requires Holds(b, chain) && |chain| > 0 && HasList(e, b) && HasTail(b)
    ensures Broken(Shortened(e, WalkAll(b, b.limits).extent))
  {
    LastOfList(b, chain);
  }

  lemma RelinkedHolds(e: Disk, b: Disk, chain: seq<nat>, t: nat)
    requires Holds(b, chain) && |chain| > 0 && HasList(e, b) && HasTail(b) && 3 <= t <= 4
    ensures b.limits.last in b.records
    ensures var f := TailState(e, IterAt(b, b.limits.last), WalkAll(b, b.limits).extent, t);
            Holds(f, chain) && Contents(f, chain) == Contents(b, chain) && f.size == e.size && JustClosed(f.status)
  {
    LastOfList(b, chain);
    var extent, last := WalkAll(b, b.limits).extent, b.limits.last;
    CutKeepsList(b, chain, extent);
    var d := WriteIterator(Shortened(b, extent), last, b.records[last].prev, extent);
    SameBody(d, TailState(e, IterAt(b, last), extent, t), chain);
  }

  /** From the cut on, until the last element is told, the list is lost. */
  lemma TailCrash(e: Disk, b: Disk, chain: seq<nat>, t: nat, clock: nat, before: seq<string>, after: seq<string>)
    requires Holds(b, chain) && |chain| > 0 && HasList(e, b) && e.size == |chain| && HasTail(b)
    requires Contents(b, chain) == before || Contents(b, chain) == after
    requires 2 <= t <= 4 || (t == 1 && JustClosed(e.status))
    ensures b.limits.last in b.records
    ensures Fate(TailState(e, IterAt(b, b.limits.last), WalkAll(b, b.limits).extent, t), t >= 3, clock, before, after)
  {
    LastOfList(b, chain);
    var f := TailState(e, IterAt(b, b.limits.last), WalkAll(b, b.limits).extent, t);
    ShortenedIsBroken(e, b, chain);
    if t < 3 {
      BrokenIsLost(f, clock, before, after);
    } else {
      RelinkedHolds(e, b, chain, t);
      HeldSurvives(f, chain, clock, before, after);
    }
  }

  /** The writes of checkConsistency on a disk with the list of b. */
  function ChecksOf(e: Disk, b: Disk, allowance: int): seq<Write>
    requires WalkAll(b, b.limits).Reached? && b.limits.last in b.records
  {
    var w := WalkAll(b, b.limits);
    CheckWrites(e.size, b.end, IterAt(b, b.limits.last), w.count, w.extent, allowance)
  }

  function Resizing(e: Disk, n: nat): seq<Write> {
    if e.size != n then [WSize(n)] else []
  }

  function Ending(b: Disk): seq<Write>
    requires WalkAll(b, b.limits).Reached? && b.limits.last in b.records
  {
    if HasTail(b) then TailWrites(IterAt(b, b.limits.last), WalkAll(b, b.limits).extent) else [WStatus(Closed)]
  }

  lemma ChecksAre(e: Disk, b: Disk, chain: seq<nat>, allowance: int)
    requires Holds(b, chain) && |chain| > 0 && (e.size == |chain| || Allowed(|chain| - e.size, allowance))
    ensures WalkAll(b, b.limits).Reached? && b.limits.last in b.records
    ensures ChecksOf(e, b, allowance) + [WStatus(Closed)] == Resizing(e, |chain|) + Ending(b)
  {
    LastOfList(b, chain);
  }

  lemma ResizingStates(e: Disk, n: nat, j: nat)
    requires j <= |Resizing(e, n)|
    ensures StateAt(e, Resizing(e, n), j) == if j < |Resizing(e, n)| then e else e.(size := n)
  {
    assert StateAt(e, Resizing(e, n), 0) == e;
  }

  /** The check is at work between cutting the file and telling the last element. */
  predicate Untold(ws: seq<Write>, j: nat) {
    0 < j < |ws| && (ws[j - 1].WTruncate? || ws[j - 1] == WStatus(FtEnd))
  }

  /** Which crashes inside the check are survived, given what becomes of those before anything is cut
      and of the cut itself. */
  lemma CheckCrash(e: Disk, b: Disk, chain: seq<nat>, allowance: int, ws: seq<Write>, j: nat, clock: nat,
                   before: seq<string>, after: seq<string>)
    requires Holds(b, chain) && |chain| > 0 && HasList(e, b) && (e.size == |chain| || Allowed(|chain| - e.size, allowance))
    requires Contents(b, chain) == before || Contents(b, chain) == after
    requires Fate(e, true, clock, before, after) && Fate(e.(size := |chain|), true, clock, before, after)
    requires HasTail(b) && !JustClosed(e.status)
             ==> Fate(Shortened(e.(size := |chain|), WalkAll(b, b.limits).extent), false, clock, before, after)
    requires WalkAll(b, b.limits).Reached? && b.limits.last in b.records
    requires ws == Resizing(e, |chain|) + Ending(b) && j <= |ws|
    ensures Fate(StateAt(e, ws, j), !Untold(ws, j), clock, before, after)
  {
    var e' := e.(size := |chain|);
    forall t | 1 <= t <= |Ending(b)|
      ensures Fate(StateAt(e', Ending(b), t), !Untold(Ending(b), t), clock, before, after)
    {
      EndingCrash(e', b, chain, t, clock, before, after);
    }
    SizedFates((x, good) => Fate(x, good, clock, before, after), e, |chain|, Ending(b), j);
  }

  /** What becomes of the crashes behind a correction of the count becomes of those of both. */
  lemma SizedFates(fate: (Disk, bool) -> bool, e: Disk, n: nat, ws: seq<Write>, j: nat)
    requires fate(e, true) && fate(e.(size := n), true) && j <= |Resizing(e, n) + ws|
    requires forall t {:trigger StateAt(e.(size := n), ws, t)} :: 1 <= t <= |ws| ==>
               fate(StateAt(e.(size := n), ws, t), !Untold(ws, t))
    ensures fate(StateAt(e, Resizing(e, n) + ws, j), !Untold(Resizing(e, n) + ws, j))
  {
    var a := Resizing(e, n);
    UntoldParts(a, ws, j);
    ResizingStates(e, n, if j < |a| then j else |a|);
    if j <= |a| {
      StateAtConcat(e, a, ws, j);
    } else {
      BehindSwitch(e, a, ws, e.(size := n), j);
    }
  }

  lemma UntoldParts(a: seq<Write>, b: seq<Write>, j: nat)
    requires j <= |a| + |b| && forall w :: w in a ==> w.WSize?
    ensures Untold(a + b, j) <==> j > |a| && Untold(b, j - |a|)
  {
    if 0 < j <= |a| {
      assert (a + b)[j - 1] == a[j - 1] && a[j - 1] in a;
    }
  }

  lemma EndingCrash(e: Disk, b: Disk, chain: seq<nat>, t: nat, clock: nat, before: seq<string>, after: seq<string>)
    requires Holds(b, chain) && |chain| > 0 && HasList(e, b) && e.size == |chain|
    requires Contents(b, chain) == before || Contents(b, chain) == after
    requires HasTail(b) && !JustClosed(e.status)
             ==> Fate(Shortened(e, WalkAll(b, b.limits).extent), false, clock, before, after)
    requires WalkAll(b, b.limits).Reached? && b.limits.last in b.records && 1 <= t <= |Ending(b)|
    ensures Fate(StateAt(e, Ending(b), t), !Untold(Ending(b), t), clock, before, after)
  {
    if HasTail(b) {
      TailStates(e, IterAt(b, b.limits.last), WalkAll(b, b.limits).extent, t);
      if t > 1 || JustClosed(e.status) {
        TailCrash(e, b, chain, t, clock, before, after);
      }
    } else {
      Run1(e, WStatus(Closed));
      SameBody(b, e.(status := Closed), chain);
      HeldSurvives(e.(status := Closed), chain, clock, before, after);
    }
  }

  // ---------------------------------------------------------------------
  // The whole of recovery

  /** A write that brings part of the list back.  At the end of a list the saved iterator does not:
      its record already is what it was. */
  predicate Restoring(h: Header, w: Write) {
    w.WLimits? || (w.WIterator? && !((h.status.AeWriting? || h.status.AeWritten?) && w == SlotBack(h, 0)))
  }

  /** The switch has cut the file, truncateFile has replaced the status byte that says what to undo,
      and something is still to be undone. */
  predicate Halfway(h: Header, us: seq<Write>, j: nat) {
    j < |us| && WStatus(FtEnd) in us[..j] && Restoring(h, us[j])
  }

  /** The j-th write of a recovery, whose switch read the header h and writes `us`, is one before which a
      crash is fatal. */
  predicate Exposed(h: Header, us: seq<Write>, rs: seq<Write>, j: nat) {
    if j < |us| then Halfway(h, us, j) else |us| <= |rs| && Untold(rs[|us|..], j - |us|)
  }

  lemma UndoLeaves(c: Disk, m: Image, allowance: int, clock: nat)
    requires Undo(Image(c, c.limits), clock) == Check(m, allowance) && Recover(c, clock).Good?
    ensures PlanOf(c).Plan? && PlanOf(c).check == Some(allowance)
    ensures PlanOf(c).cache == m.cache && RunAll(c, PlanOf(c).writes) == m.disk
  {
    UndoIsPlanned(c, clock);
    if PlanOf(c).Anew? {
      AnewIsSettled(c, clock);
    }
  }

  /** What the switch of recovery leaves when it is interrupted. */
  ghost predicate SwitchSettled(c: Disk, clock: nat, before: seq<string>, after: seq<string>)
    requires PlanOf(c).Plan?
  {
    var us := PlanOf(c).writes;
    forall j {:trigger StateAt(c, us, j)} :: 0 <= j <= |us| ==>
      Fate(StateAt(c, us, j), !Halfway(HeaderOf(c), us, j), clock, before, after)
  }

  lemma ProgramIs(c: Disk, b: Disk, chain: seq<nat>, m: Image, allowance: int, clock: nat)
    requires Holds(b, chain) && |chain| > 0 && (b.size == |chain| || Allowed(|chain| - b.size, allowance))
    requires Undo(Image(c, c.limits), clock) == Check(m, allowance) && SameList(m, b)
    ensures PlanOf(c).Plan? && RunAll(c, PlanOf(c).writes) == m.disk
    ensures WalkAll(b, b.limits).Reached? && b.limits.last in b.records
    ensures RecoveryWrites(c) == Some(PlanOf(c).writes + (Resizing(m.disk, |chain|) + Ending(b)))
  {
    UndoneIsRestored(m, c, b, chain, allowance, clock);
    UndoLeaves(c, m, allowance, clock);
    ChecksAre(m.disk, b, chain, allowance);
    SameWalk(b, m.disk, b.limits.first, b.limits.last, 0, 0, |b.records|);
    var us, e, w := PlanOf(c).writes, m.disk, WalkAll(b, b.limits);
    var cs := CheckWrites(e.size, e.end, IterAt(e, b.limits.last), w.count, w.extent, allowance);
    assert RecoveryWrites(c) == Some(us + cs + [WStatus(Closed)]);
    assert us + cs + [WStatus(Closed)] == us + (cs + [WStatus(Closed)]);
  }

  /** A crash inside a recovery that undoes something is a crash inside its switch or inside its check. */
  lemma PlannedCrash(c: Disk, b: Disk, chain: seq<nat>, m: Image, allowance: int, rs: seq<Write>, j: nat, clock: nat,
                     before: seq<string>, after: seq<string>)
    requires Holds(b, chain) && |chain| > 0 && (b.size == |chain| || Allowed(|chain| - b.size, allowance))
    requires Contents(b, chain) == before || Contents(b, chain) == after
    requires Undo(Image(c, c.limits), clock) == Check(m, allowance) && SameList(m, b)
    requires PlanOf(c).Plan? && SwitchSettled(c, clock, before, after)
    requires Fate(m.disk.(size := |chain|), true, clock, before, after)
    requires HasTail(b) && !JustClosed(m.disk.status)
             ==> Fate(Shortened(m.disk.(size := |chain|), WalkAll(b, b.limits).extent), false, clock, before, after)
    requires RecoveryWrites(c) == Some(rs) && j <= |rs|
    ensures Fate(StateAt(c, rs, j), !Exposed(HeaderOf(c), PlanOf(c).writes, rs, j), clock, before, after)
  {
    ProgramIs(c, b, chain, m, allowance, clock);
    var us, cs := PlanOf(c).writes, Resizing(m.disk, |chain|) + Ending(b);
    SwitchEnds(c, m.disk, clock, before, after);
    forall t | 0 <= t <= |cs|
      ensures Fate(StateAt(m.disk, cs, t), !Untold(cs, t), clock, before, after)
    {
      CheckCrash(m.disk, b, chain, allowance, cs, t, clock, before, after);
    }
    JoinedFates((x, good) => Fate(x, good, clock, before, after), HeaderOf(c), c, us, cs, m.disk, j);
  }

  /** What becomes of the crashes of the switch and of those of the check becomes of those of both. */
  lemma JoinedFates(fate: (Disk, bool) -> bool, h: Header, c: Disk, us: seq<Write>, cs: seq<Write>, e: Disk, j: nat)
    requires RunAll(c, us) == e && j <= |us| + |cs|
    requires forall t {:trigger StateAt(c, us, t)} :: 0 <= t <= |us| ==> fate(StateAt(c, us, t), !Halfway(h, us, t))
    requires forall t {:trigger StateAt(e, cs, t)} :: 0 <= t <= |cs| ==> fate(StateAt(e, cs, t), !Untold(cs, t))
    ensures fate(StateAt(c, us + cs, j), !Exposed(h, us, us + cs, j))
  {
    ExposedParts(h, us, cs, j);
    if j < |us| {
      StateAtConcat(c, us, cs, j);
    } else {
      BehindSwitch(c, us, cs, e, j);
    }
  }

  lemma BehindSwitch(c: Disk, us: seq<Write>, cs: seq<Write>, e: Disk, j: nat)
    requires |us| <= j <= |us| + |cs| && RunAll(c, us) == e
    ensures StateAt(c, us + cs, j) == StateAt(e, cs, j - |us|)
  {
    StateAtConcat(c, us, cs, j);
  }

  lemma SwitchEnds(c: Disk, e: Disk, clock: nat, before: seq<string>, after: seq<string>)
    requires PlanOf(c).Plan? && SwitchSettled(c, clock, before, after) && RunAll(c, PlanOf(c).writes) == e
    ensures Fate(e, true, clock, before, after)
  {
    var us := PlanOf(c).writes;
    assert Fate(StateAt(c, us, |us|), !Halfway(HeaderOf(c), us, |us|), clock, before, after);
  }

  lemma ExposedParts(h: Header, us: seq<Write>, cs: seq<Write>, j: nat)
    ensures !Halfway(h, us, |us|)
    ensures Exposed(h, us, us + cs, j) <==> if j < |us| then Halfway(h, us, j) else Untold(cs, j - |us|)
  {
    assert (us + cs)[|us|..] == cs;
  }

  // ---------------------------------------------------------------------
  // Undone, but the status byte still says what to undo

  predicate Agrees(e: Disk, i: nat)
    requires i < SLOTS
  {
    e.slots[i].current in e.records && e.slots[i] == IterAt(e, e.slots[i].current)
  }

  /** The records and limits are what recovery would write back. */
  predicate InPlace(e: Disk) {
    match e.status
    case AeIterator => Agrees(e, 0)
    case AbIterator => Agrees(e, 0)
    case AmIterator1 => Agrees(e, 0)
    case RdIterator2 => Agrees(e, 0)
    case AeLimits => Agrees(e, 0) && e.limits == e.limitsBackup
    case AbLimits => Agrees(e, 0) && e.limits == e.limitsBackup
    case AmIterator2 => Agrees(e, 0) && Agrees(e, 1)
    case RdIterator3 => Agrees(e, 0) && Agrees(e, 1)
    case RdMark2 => Agrees(e, 0) && Agrees(e, 1) && Agrees(e, 2) && e.records[e.slots[2].current].live
    case RdLimits => e.limits == e.limitsBackup
    case RdIterator => Agrees(e, 0) && e.limits == e.limitsBackup
    case RdMark1 => Agrees(e, 0) && Agrees(e, 2) && e.records[e.slots[2].current].live && e.limits == e.limitsBackup
    case AdEmpty => true
    case RdEmpty => true
    case _ => false
  }

  lemma WrittenBack(e: Disk, i: nat)
    requires i < SLOTS && Agrees(e, i)
    ensures RestoreSlot(Image(e, e.limits), i) == Image(e, e.limits)
    ensures e.records[e.slots[i].current].live ==> Unerase(Image(e, e.limits), i) == Settle(Image(e, e.limits))
  {
    var p := e.slots[i].current;
    assert e.records[p := e.records[p]] == e.records;
  }

  /** Undoing once more changes nothing. */
  lemma InPlaceStays(e: Disk, clock: nat) returns (allowance: int)
    requires InPlace(e)
    ensures Undo(Image(e, e.limits), clock) == Check(Image(e, e.limits), allowance) && (allowance == 1 || allowance == -1)
  {
    if !e.status.AdEmpty? && !e.status.RdEmpty? && !e.status.RdLimits? {
      WrittenBack(e, 0);
    }
    if e.status.AmIterator2? || e.status.RdIterator3? || e.status.RdMark2? {
      WrittenBack(e, 1);
    }
    if e.status.RdMark1? || e.status.RdMark2? {
      WrittenBack(e, 2);
    }
    allowance := Undo(Image(e, e.limits), clock).allowance;
  }

  lemma InPlaceIsSteady(e: Disk)
    requires InPlace(e) && Layout(e)
    ensures Steady(e)
  {
    IsSteady(e, e.end);
  }

  lemma InPlaceSurvives(e: Disk, b: Disk, chain: seq<nat>, clock: nat, before: seq<string>, after: seq<string>)
    requires Holds(b, chain) && HasList(e, b) && e.size == |chain| > 0 && (InPlace(e) || JustClosed(e.status))
    requires Contents(b, chain) == before || Contents(b, chain) == after
    ensures Fate(e, true, clock, before, after)
  {
    SameBody(b, e, chain);
    if InPlace(e) {
      InPlaceIsSteady(e);
      var allowance := InPlaceStays(e, clock);
      UndoneIsRestored(Image(e, e.limits), e, e, chain, allowance, clock);
      RestoredSurvives(e, e, chain, clock, before, after);
    } else {
      HeldSurvives(e, chain, clock, before, after);
    }
  }

  /** Every record recovery would write back is an element of the list. */
  ghost predicate SlotsInList(e: Disk, chain: seq<nat>) {
    && (e.slots[0].current in e.records && !e.status.AdEmpty? && !e.status.RdEmpty? && !e.status.RdLimits?
        ==> e.slots[0].current in chain)
    && (e.status.AmIterator2? || e.status.RdIterator3? || e.status.RdMark2? ==> e.slots[1].current in chain)
    && (e.status.RdMark1? || e.status.RdMark2? ==> e.slots[2].current in chain)
  }

  lemma ShortenedLayout(e: Disk, extent: nat)
    requires Layout(e) && HEADER <= extent
    ensures Layout(Shortened(e, extent))
  {
    var f := Shortened(e, extent);
    forall p, q | p in f.records && q in f.records && p < q
      ensures Before(f.records, p, q)
    {
      assert Before(e.records, p, q);
    }
  }

  lemma InPlaceShortened(e: Disk, b: Disk, chain: seq<nat>, clock: nat, before: seq<string>, after: seq<string>)
    requires Holds(b, chain) && |chain| > 0 && HasList(e, b) && InPlace(e) && SlotsInList(e, chain) && HasTail(b)
    ensures Fate(Shortened(e, WalkAll(b, b.limits).extent), false, clock, before, after)
  {
    ShortenedWalk(b, chain);
    LastOfList(b, chain);
    var extent := WalkAll(b, b.limits).extent;
    var f := Shortened(e, extent);
    assert f.records == Shortened(b, extent).records;
    assert forall p :: p in chain ==> p in f.records && f.records[p] == e.records[p];
    ShortenedLayout(e, extent);
    InPlaceIsSteady(f);
    var allowance := InPlaceStays(f, clock);
    ShortenedIsLost(f, Image(f, f.limits), b, chain, allowance, clock, before, after);
  }
}
