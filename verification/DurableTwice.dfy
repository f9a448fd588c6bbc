/** The second crash on the bytes of the file: recovery dies after some of its writes, and recover_data
    is run again on what it left. */
module DurableTwice {
  import opened Common
  import opened D = Disk
  import opened L = Layout
  import opened Bytes
  import opened Programs
  import opened RecoveryProgram
  import opened FileRecovery
  import opened SecondCrash
  import opened Durable
  import opened Crashes
  import Atomicity
  import Interrupted
  import Recovery

  // ---------------------------------------------------------------------
  // Files that hold no sequence

  /** Two disks in one file agree where both have a record. */
  lemma RecordsAgree(r: string, f: D.Disk, d: D.Disk, p: nat)
    requires Represents(r, f) && Represents(r, d) && p in f.records && p in d.records
    ensures f.records[p] == d.records[p]
  {
    assert RecordHere(r, p, f.records[p]) && RecordHere(r, p, d.records[p]);
    RecordIsDetermined(r, p, f.records[p], d.records[p]);
  }

  lemma SameHeader(r: string, f: D.Disk, d: D.Disk)
    requires Represents(r, f) && Represents(r, d)
    ensures f.limits == d.limits && f.end == d.end
  {
    HeaderIsRead(r, f);
    HeaderIsRead(r, d);
  }

  lemma BrokenOnFile(r: string, f: D.Disk, d: D.Disk, chain: seq<nat>)
    requires Represents(r, f) && Represents(r, d) && Holds(d, chain)
    ensures !Broken(f)
  {
    SameHeader(r, f, d);
    HeldIsWhole(d, chain);
    if |chain| > 0 {
      assert Node(d.records, d.end, chain, 0) && Node(d.records, d.end, chain, |chain| - 1);
      var first, last := d.limits.first, d.limits.last;
      if first in f.records {
        RecordsAgree(r, f, d, first);
      }
      if last in f.records {
        RecordsAgree(r, f, d, last);
      }
    }
  }

  /** The list the one disk holds and the links of the other lead back over the same records. */
  lemma {:induction false} BackOnFile(r: string, f: D.Disk, d: D.Disk, chain: seq<nat>, i: nat, other: seq<nat>, t: nat)
    requires Represents(r, f) && Represents(r, d) && Linked(d.records, d.end, other)
    requires |other| > 0 && i < |chain| && chain[|chain| - 1] == other[|other| - 1]
    requires BackTo(f, chain, i) && t <= |chain| - 1 - i
    ensures t < |other| && other[|other| - 1 - t] == chain[|chain| - 1 - t]
    decreases t
  {
    if t > 0 {
      BackOnFile(r, f, d, chain, i, other, t - 1);
      assert PointsBack(f, chain, |chain| - t);
      assert Node(d.records, d.end, other, |other| - t);
      RecordsAgree(r, f, d, chain[|chain| - t]);
    }
  }

  lemma LeadsBack(r: string, f: D.Disk, d: D.Disk, chain: seq<nat>, i: nat, other: seq<nat>)
    requires Represents(r, f) && Represents(r, d) && Holds(d, other)
    requires i < |chain| && f.end != HEADER && f.limits.last == chain[|chain| - 1]
    requires BackTo(f, chain, i) && chain[i] in f.records
    ensures f.records[chain[i]].prev < f.end
  {
    SameHeader(r, f, d);
    BackOnFile(r, f, d, chain, i, other, |chain| - 1 - i);
    var k := |other| - |chain| + i;
    assert Node(d.records, d.end, other, k);
    RecordsAgree(r, f, d, chain[i]);
    if k > 0 {
      assert Node(d.records, d.end, other, k - 1);
    }
  }

  lemma UnheldOnFile(r: string, f: D.Disk, d: D.Disk, chain: seq<nat>)
    requires Represents(r, f) && Represents(r, d) && Holds(d, chain)
    ensures !Unheld(f)
  {
    BrokenOnFile(r, f, d, chain);
    forall other, i ensures !Severed(f, other, i) {
      if Severed(f, other, i) {
        LeadsBack(r, f, d, other, i, chain);
      }
    }
  }

  /** A file that holds a disk on which no list holds together holds no sequence, whatever other disks
      it holds. */
  lemma UnheldFileHoldsNothing(r: string, f: D.Disk, stamp: Stamp, s: seq<string>)
    requires Represents(r, f) && Unheld(f)
    ensures !FileHolds(r, stamp, s)
  {
    if FileHolds(r, stamp, s) {
      var d, chain :| Represents(r, d) && WellFormed(d, chain) && d.stamp == stamp && Contents(d, chain) == s;
      UnheldOnFile(r, f, d, chain);
    }
  }

  // ---------------------------------------------------------------------
  // The second crash

  /** What becomes of a disk becomes of the file that holds it. */
  lemma FateOnFile(c: string, e: D.Disk, good: bool, clock: nat, before: seq<string>, after: seq<string>)
    requires Represents(c, e) && FitsIter(e.end) && Fate(e, good, clock, before, after)
    ensures FileSurvives(c, clock, e.stamp, before, after) <==> good
  {
    if good {
      SurvivesOnFile(c, e, clock, before, after);
    } else {
      RecoverySimulates(c, e, clock);
      var r, f := RecoverFile(c, clock).value, Recovery.Recover(e, clock).image.disk;
      UnheldFileHoldsNothing(r, f, e.stamp, before);
      UnheldFileHoldsNothing(r, f, e.stamp, after);
    }
  }

  /** The j-th write of recover_data on the file is one before which a crash is fatal, as its header and
      its switch tell. */
  predicate FileExposed(c: string, rs: seq<Write>, j: nat) {
    ReadHeader(c).Some? &&
    var h := ReadHeader(c).value;
    ReadPlan(c, h).Plan? && Exposed(h, ReadPlan(c, h).writes, rs, j)
  }

  /** The file after j writes of its recovery survives another one exactly when it is not exposed. */
  ghost predicate SurvivesTwice(c: string, rs: seq<Write>, j: nat, clock: nat, stamp: Stamp,
                                before: seq<string>, after: seq<string>)
    requires j <= |rs|
  {
    FileSurvives(BytesAt(c, rs, j), clock, stamp, before, after) <==> !FileExposed(c, rs, j)
  }

  lemma ExposedOnFile(c: string, left: D.Disk, rs: seq<Write>, j: nat)
    requires Represents(c, left) && Steady(left)
    ensures FileExposed(c, rs, j) <==> Exposed(HeaderOf(left), PlanOf(left).writes, rs, j)
  {
    HeaderIsRead(c, left);
    SteadyLooks(left);
    PlanIsRead(c, left);
  }

  lemma TwiceOnFile(c: string, left: D.Disk, rs: seq<Write>, j: nat, clock: nat, before: seq<string>, after: seq<string>)
    requires Represents(c, left) && FitsIter(left.end) && Steady(left) && RecoveryWrites(left) == Some(rs) && j <= |rs|
    requires Fate(StateAt(left, rs, j), !Exposed(HeaderOf(left), PlanOf(left).writes, rs, j), clock, before, after)
    ensures FileWrites(c) == Some(rs) && SurvivesTwice(c, rs, j, clock, left.stamp, before, after)
  {
    WritesAreRead(c, left, rs);
    ExposedOnFile(c, left, rs, j);
    RunSimulates(c, left, rs, j);
    OverwritingKeeps(left, rs, j);
    FateOnFile(BytesAt(c, rs, j), StateAt(left, rs, j), !FileExposed(c, rs, j), clock, before, after);
  }

  /** A survived first crash, any number of writes of the recovery after it, and recovery once more. */
  lemma RecoveredTwiceOnFile(c: string, left: D.Disk, d: D.Disk, chain: seq<nat>, i: nat, stamp: Stamp, j: nat, clock: nat,
                             before: seq<string>, after: seq<string>)
    requires Represents(c, left) && FitsIter(left.end) && WellFormed(d, chain) && Contents(d, chain) == before
    requires Atomicity.Survives(left, clock, before, after)
    requires Interrupted.Recoverable(left, Atomicity.Begun(d, stamp), chain, i, after)
    ensures FileWrites(c).Some?
    ensures j <= |FileWrites(c).value| ==> SurvivesTwice(c, FileWrites(c).value, j, clock, left.stamp, before, after)
  {
    Interrupted.RecoveredTwice(left, d, chain, i, stamp, 0, clock, before, after);
    var rs := RecoveryWrites(left).value;
    assert StateAt(left, rs, 0) == left;
    WritesAreRead(c, left, rs);
    if j <= |rs| {
      Interrupted.RecoveredTwice(left, d, chain, i, stamp, j, clock, before, after);
      TwiceOnFile(c, left, rs, j, clock, before, after);
    }
  }

  /**
    * add_data dies after any write or any number of bytes into its append, the recovery of the bytes it
    * left dies after any write, and recover_data run on the bytes left then finds the old or the new
    * sequence if and only if the second crash was not exposed.
    */
  lemma InsertionIsDurableTwice(b: string, d: D.Disk, chain: seq<nat>, i: nat, data: string, stamp: Stamp, ws: seq<Write>,
                                k: nat, n: nat, c: string, j: nat, clock: nat)
    requires Represents(b, d) && WellFormed(d, chain) && i <= |chain|
    requires FitsIter(d.end + DataSize(|data|)) && |data| < SIZE_LIMIT
    requires FitsStamp(stamp) && d.size + 1 < NUMBER_LIMIT
    requires ws == AddWrites(d, d.limits, d.size, stamp, Atomicity.PlaceOf(d, chain, i), d.end, data)
    requires k <= |ws| && BytesCrashedAt(b, ws, k, n, c) && ReadStatus(c).Some?
    requires k != |ws| - 3 && (|chain| == 0 ==> !Atomicity.NeedsElement(ReadStatus(c).value))
    ensures FileWrites(c).Some?
    ensures j <= |FileWrites(c).value| ==>
              SurvivesTwice(c, FileWrites(c).value, j, clock, if k == 0 then d.stamp else stamp,
                            Contents(d, chain), InsertAt(Contents(d, chain), i, data))
  {
    AddIsLegal(b, d, chain, i, data, stamp);
    var left := CrashedDisk(b, d, ws, k, n, c);
    StatusIsRead(c, left);
    InsertionTwiceOnFile(c, left, d, chain, i, data, stamp, ws, k, j, clock);
  }

  lemma InsertionTwiceOnFile(c: string, left: D.Disk, d: D.Disk, chain: seq<nat>, i: nat, data: string, stamp: Stamp,
                             ws: seq<Write>, k: nat, j: nat, clock: nat)
    requires Represents(c, left) && WellFormed(d, chain) && i <= |chain| && FitsIter(d.end + DataSize(|data|))
    requires ws == AddWrites(d, d.limits, d.size, stamp, Atomicity.PlaceOf(d, chain, i), d.end, data)
    requires k <= |ws| && CrashedAt(d, ws, k, left)
    requires k != |ws| - 3 && (|chain| == 0 ==> !Atomicity.NeedsElement(left.status))
    ensures FileWrites(c).Some?
    ensures j <= |FileWrites(c).value| ==>
              SurvivesTwice(c, FileWrites(c).value, j, clock, if k == 0 then d.stamp else stamp,
                            Contents(d, chain), InsertAt(Contents(d, chain), i, data))
  {
    Atomicity.InsertionIsAtomic(d, chain, i, data, stamp, k, left, clock);
    InsertionKinds(d, chain, i, data, stamp, k, left);
    Interrupted.InsertionLeaves(d, chain, i, data, stamp, k, left);
    RecoveredTwiceOnFile(c, left, d, chain, i, stamp, j, clock, Contents(d, chain), InsertAt(Contents(d, chain), i, data));
  }

  /** The same for remove_data. */
  lemma RemovalIsDurableTwice(b: string, d: D.Disk, chain: seq<nat>, i: nat, stamp: Stamp, ws: seq<Write>,
                              k: nat, n: nat, c: string, j: nat, clock: nat)
    requires Represents(b, d) && WellFormed(d, chain) && i < |chain| && CanRemove(d, chain[i])
    requires FitsIter(d.end + DataSize(0)) && FitsStamp(stamp) && d.size + 1 < NUMBER_LIMIT
    requires ws == RemoveWrites(d, d.limits, d.size, stamp, chain[i])
    requires k <= |ws| && BytesCrashedAt(b, ws, k, n, c)
    requires k != |ws| - 3 && (|chain| == 1 ==> ReadStatus(c) == Some(Closed) || ReadStatus(c) == Some(Opened))
    ensures FileWrites(c).Some?
    ensures j <= |FileWrites(c).value| ==>
              SurvivesTwice(c, FileWrites(c).value, j, clock, if k == 0 then d.stamp else stamp,
                            Contents(d, chain), RemoveAt(Contents(d, chain), i))
  {
    RemoveIsLegal(b, d, chain, chain[i], stamp);
    var left := CrashedDisk(b, d, ws, k, n, c);
    StatusIsRead(c, left);
    RemovalTwiceOnFile(c, left, d, chain, i, stamp, ws, k, j, clock);
  }

  lemma RemovalTwiceOnFile(c: string, left: D.Disk, d: D.Disk, chain: seq<nat>, i: nat, stamp: Stamp,
                           ws: seq<Write>, k: nat, j: nat, clock: nat)
    requires Represents(c, left) && WellFormed(d, chain) && i < |chain| && CanRemove(d, chain[i]) && FitsIter(d.end)
    requires ws == RemoveWrites(d, d.limits, d.size, stamp, chain[i])
    requires k <= |ws| && CrashedAt(d, ws, k, left)
    requires k != |ws| - 3 && (|chain| == 1 ==> left.status.Closed? || left.status.Opened?)
    ensures FileWrites(c).Some?
    ensures j <= |FileWrites(c).value| ==>
              SurvivesTwice(c, FileWrites(c).value, j, clock, if k == 0 then d.stamp else stamp,
                            Contents(d, chain), RemoveAt(Contents(d, chain), i))
  {
    Atomicity.RemovalIsAtomic(d, chain, i, stamp, k, left, clock);
    RemovalKinds(d, chain, i, stamp, k, left);
    Interrupted.RemovalLeaves(d, chain, i, stamp, k, left);
    RecoveredTwiceOnFile(c, left, d, chain, i, stamp, j, clock, Contents(d, chain), RemoveAt(Contents(d, chain), i));
  }
}
