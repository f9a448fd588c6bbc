/** What recovery makes of the file for each kind of disk a crash leaves. */
module FileCrashes {
  import opened Common
  import opened D = Disk
  import opened L = Layout
  import opened Bytes
  import opened RecoveryProgram
  import opened FileRecovery
  import opened Undoing
  import opened Crashes
  import R = Recovery

  /** A check that does not start on an element fails, whatever is in the file. */
  lemma NowhereToStart(b: string, cache: Limits, allowance: int)
    requires cache.first < HEADER || cache.first >= |b|
    ensures CheckProgram(b, cache, Some(allowance)) == None
  {
  }

  /** Offset 0 is no record: behind it are the digits of the element count, and no state letter. */
  lemma NoSizeInHeader(b: string, d: D.Disk)
    requires Represents(b, d)
    ensures !SizeBehind(b, 0)
  {
    var at, q := Offset(FSize), Offset(FSize) + NUMBER_SIZE;
    assert FieldHere(b, d, FSize);
    AtParts(b, at, Digits(d.size, 10, NUMBER_SIZE), "\n");
    assert b[q] == b[q..q + 1][0];
    DigitsAreDigits(d.size, 10, NUMBER_SIZE);
    assert b[AFTER_ITER..q] == b[at..q][AFTER_ITER - at..];
    RunEnds(b, AFTER_ITER, q, 10);
  }

  lemma ClearedPlan(c: D.Disk, end: nat)
    requires Cleared(c)
    ensures var p := UndoPlan(HeaderOf(c), end, Some(0), false);
            p == Doomed || (p.Plan? && p.cache == Limits(0, 0) && p.check.Some?)
  {
  }

  lemma PlanFails(b: string, h: Header)
    requires ReadHeader(b) == Some(h)
    requires var p := ReadPlan(b, h);
             p == Doomed || (p.Plan? && p.check.Some? && !(HEADER <= p.cache.first < |ByteRun(b, p.writes)|))
    ensures !ReadsAnew(b) && FileWrites(b) == None
  {
    var p := ReadPlan(b, h);
    if p.Plan? {
      NowhereToStart(ByteRun(b, p.writes), p.cache, p.check.value);
    }
  }

  /** With the backups wiped the recovery of the file fails like that of the disk. */
  lemma ClearedFails(b: string, c: D.Disk)
    requires Represents(b, c) && Cleared(c)
    ensures !ReadsAnew(b) && FileWrites(b) == None
  {
    HeaderIsRead(b, c);
    NoSizeInHeader(b, c);
    ClearedPlan(c, |b|);
    PlanFails(b, HeaderOf(c));
  }

  lemma SameLength(b: string, w: Write)
    requires w.WLimits? || w.WIterator? || w.WStatus?
    ensures |ByteWrite(b, w)| == |b|
  {
  }

  lemma Length2(b: string, v: Write, w: Write)
    requires (v.WLimits? || v.WIterator? || v.WStatus?) && (w.WLimits? || w.WIterator? || w.WStatus?)
    ensures |ByteRun(b, [v, w])| == |b|
  {
    assert BytesAt(b, [v, w], 0) == b;
    assert BytesAt(b, [v, w], 1) == ByteWrite(b, v);
  }

  lemma Length4(b: string, length: nat, v: Write, w: Write)
    requires (v.WLimits? || v.WIterator? || v.WStatus?) && (w.WLimits? || w.WIterator? || w.WStatus?) && length <= |b|
    ensures |ByteRun(b, [] + Cutting(length) + [v, w])| == length
  {
    var ws := [] + Cutting(length) + [v, w];
    assert ws == [WTruncate(length), WStatus(FtEnd), v, w];
    assert BytesAt(b, ws, 0) == b;
    assert BytesAt(b, ws, 1) == b[..length];
    SameLength(BytesAt(b, ws, 1), WStatus(FtEnd));
    assert BytesAt(b, ws, 2) == ByteWrite(BytesAt(b, ws, 1), WStatus(FtEnd));
    SameLength(BytesAt(b, ws, 2), v);
    assert BytesAt(b, ws, 3) == ByteWrite(BytesAt(b, ws, 2), v);
    SameLength(BytesAt(b, ws, 3), w);
  }

  /** Where the list had no element the check starts at the end of the file. */
  lemma HeadlessFails(b: string, c: D.Disk)
    requires Represents(b, c) && Headless(c)
    ensures !ReadsAnew(b) && FileWrites(b) == None
  {
    var h := HeaderOf(c);
    HeaderIsRead(b, c);
    HeadlessPlan(b, c);
    PlanFails(b, h);
  }

  lemma HeadlessPlan(b: string, c: D.Disk)
    requires |b| == c.end && Headless(c)
    ensures var p := ReadPlan(b, HeaderOf(c));
            p.Plan? && p.check.Some? && p.cache.first == HEADER == |ByteRun(b, p.writes)|
  {
    var h := HeaderOf(c);
    if c.status.AeLimits? {
      Length2(b, WLimits(c.limitsBackup), SlotBack(h, 0));
    } else {
      Length4(b, HEADER, WLimits(c.limitsBackup), SlotBack(h, 0));
    }
  }

  /** A file cut to its header keeps the count of one element. */
  lemma EmptiedFails(b: string, c: D.Disk, clock: nat)
    requires Represents(b, c) && FitsIter(c.end) && Emptied(c)
    ensures match RecoverFile(b, clock) case Some(r) => |r| == HEADER && ReadCount(r) == 1 case None => true
  {
    if c.status.RdEmpty? {
      NothingLeftFails(b, c);
    } else {
      EmptiedIsSteady(c);
      EmptiedRecovers(c, clock);
      RecoverySimulates(b, c, clock);
      CountIsRead(RecoverFile(b, clock).value, R.Recover(c, clock).image.disk);
    }
  }

  lemma NothingLeftFails(b: string, c: D.Disk)
    requires Represents(b, c) && c.status.RdEmpty? && c.limits.first == HEADER == c.end
    ensures !ReadsAnew(b) && FileWrites(b) == None
  {
    HeaderIsRead(b, c);
    NothingLeftPlan(b, c);
    PlanFails(b, HeaderOf(c));
  }

  lemma NothingLeftPlan(b: string, c: D.Disk)
    requires |b| == HEADER && c.status.RdEmpty? && c.limits.first == HEADER
    ensures var p := ReadPlan(b, HeaderOf(c)); p.Plan? && p.check.Some? && p.cache.first == HEADER == |ByteRun(b, p.writes)|
  {
    assert ByteRun(b, []) == b;
  }

  lemma EmptiedIsSteady(c: D.Disk)
    requires Emptied(c) && !c.status.RdEmpty?
    ensures Steady(c)
  {
    IsSteady(c, HEADER);
  }

  lemma EmptiedRecovers(c: D.Disk, clock: nat)
    requires Emptied(c) && !c.status.RdEmpty?
    ensures var o := R.Recover(c, clock); o.Good? && o.image.disk.end == HEADER && o.image.disk.size == 1
  {
  }
}
