/** recover_data on the bytes of the file: it reads the header, the links and the sizes where they
    stand and writes over them, and what it makes of a file that holds a disk holds what it makes
    of the disk. */
module FileRecovery {
  import opened Common
  import opened D = Disk
  import opened L = Layout
  import opened Bytes
  import opened RecoveryProgram
  import opened Creation
  import Programs
  import R = Recovery

  // ---------------------------------------------------------------------
  // Reading the file

  function StatusOf(c: char): Option<Status> {
    match c
    case ' ' => Some(Empty) case '1' => Some(Opened) case '0' => Some(Closed)
    case 'a' => Some(AeIterator) case 'b' => Some(AeLimits) case 'c' => Some(AeWriting) case 'd' => Some(AeWritten)
    case 'e' => Some(AbIterator) case 'f' => Some(AbWriting) case 'g' => Some(AbWritten) case 'h' => Some(AbLast)
    case 'i' => Some(AbLimits)
    case 'j' => Some(AmIterator1) case 'k' => Some(AmIterator2) case 'l' => Some(AmWriting) case 'm' => Some(AmWritten)
    case 'n' => Some(AmLast)
    case 'o' => Some(RdLimits) case 'p' => Some(RdIterator) case 'q' => Some(RdIterator2) case 'r' => Some(RdIterator3)
    case 's' => Some(RdMark1) case 't' => Some(RdMark2) case 'u' => Some(FtBegin) case 'v' => Some(FtEnd)
    case 'w' => Some(AdEmpty) case 'x' => Some(RdEmpty)
    case _ => None
  }

  /** readFileStatus. */
  function ReadStatus(b: string): Option<Status> {
    var at := Offset(FStatus);
    if at + 2 <= |b| && b[at + 1] == '\n' then StatusOf(b[at]) else None
  }

  /** readSize: without a digit the count is zero. */
  function ReadCount(b: string): nat {
    var at := Offset(FSize);
    if at <= |b| then Value(b, at, RunFrom(b, at, 10), 10) else 0
  }

  /** readIteratorBackup. */
  function ReadSlot(b: string, i: nat): Option<Iter> {
    var at := Offset(FSlot(i));
    if at > |b| then None else
    var q := RunFrom(b, at, 16);
    if !(at < q < |b| && b[q] == ' ') then None else
    match ReadIterLine(b, q + 1)
    case NoIter => None
    case IterLine(prev, next, _) => Some(Iter(prev, next, Value(b, at, q, 16)))
  }

  /** readInitialPosition and readLimitsBackup. */
  function ReadLimits(b: string, f: Field): Option<Limits> {
    var at := Offset(f);
    if at > |b| then None else
    match ReadIterLine(b, at)
    case NoIter => None
    case IterLine(first, last, _) => Some(Limits(first, last))
  }

  function ReadSlots(b: string): Option<Slots> {
    match (ReadSlot(b, 0), ReadSlot(b, 1), ReadSlot(b, 2), ReadSlot(b, 3))
    case (Some(s0), Some(s1), Some(s2), Some(s3)) =>
      var slots: Slots := [s0, s1, s2, s3];
      Some(slots)
    case _ => None
  }

  function ReadHeader(b: string): Option<Header> {
    match (ReadStatus(b), ReadSlots(b), ReadLimits(b, FLimitsBackup), ReadLimits(b, FLimits))
    case (Some(status), Some(slots), Some(backup), Some(limits)) =>
      Some(Header(status, ReadCount(b), slots, backup, limits))
    case _ => None
  }

  /** readIterator: blank at offset 0 and at the end of the file. */
  function ReadLink(b: string, p: nat): Option<Iter> {
    if HEADER <= p < |b| then
      (match ReadIterLine(b, p)
       case NoIter => None
       case IterLine(prev, next, _) => Some(Iter(prev, next, p)))
    else if p == 0 || p == |b| then Some(Iter(0, 0, p))
    else None
  }

  /** markDataAsUnerased finds a size behind the iterator at p. */
  predicate SizeBehind(b: string, p: nat) {
    p + AFTER_ITER <= |b| && ReadSizeLine(b, p + AFTER_ITER).SizeLine?
  }

  datatype Entry = NoEntry | Entry(next: nat, size: nat)

  /** readIterator and readSizeAndState behind it, of an element. */
  function ReadEntry(b: string, p: nat): Entry {
    if !(HEADER <= p < |b|) then NoEntry else
    match ReadIterLine(b, p)
    case NoIter => NoEntry
    case IterLine(_, next, after) =>
      if after > |b| then NoEntry else
      match ReadSizeLine(b, after)
      case NoSize => NoEntry
      case SizeLine(size, _, _) => Entry(next, size)
  }

  /** The traversal of checkConsistency over what `read` finds at an offset. */
  function WalkBy(read: nat -> Entry, at: nat, last: nat, count: nat, extent: nat, steps: nat): R.Walk
    decreases steps
  {
    match read(at)
    case NoEntry => R.Lost
    case Entry(next, size) =>
      var extent' := if at + DataSize(size) > extent then at + DataSize(size) else extent;
      if at == last then R.Reached(count + 1, extent')
      else if steps == 0 then R.Cycle
      else WalkBy(read, next, last, count + 1, extent', steps - 1)
  }

  function Reader(b: string): nat -> Entry {
    (p: nat) => ReadEntry(b, p)
  }

  /** On the bytes; more steps than there are bytes mean a cycle. */
  function WalkBytes(b: string, cache: Limits): R.Walk {
    WalkBy(Reader(b), cache.first, cache.last, 0, 0, |b|)
  }

  // ---------------------------------------------------------------------
  // Recovery

  /** The switch of recover_data. */
  function ReadPlan(b: string, h: Header): Plan {
    var e := if h.status == AmLast then ByteWrite(b, SlotBack(h, 2)) else b;
    var link := ReadLink(e, h.slots[0].current);
    UndoPlan(h, |b|, if link.Some? then Some(link.value.prev) else None, SizeBehind(b, h.slots[2].current))
  }

  function ByteRun(b: string, ws: seq<Write>): string {
    BytesAt(b, ws, |ws|)
  }

  /** The writes of checkConsistency, if one is due, with the limits in memory. */
  function CheckProgram(b: string, cache: Limits, check: Option<int>): Option<seq<Write>> {
    if check.None? then Some([]) else
    match WalkBytes(b, cache)
    case Reached(count, extent) =>
      (match ReadLink(b, cache.last)
       case Some(last) => Some(CheckWrites(ReadCount(b), |b|, last, count, extent, check.value))
       case None => None)
    case _ => None
  }

  /** Everything recover_data writes over the file, unless it answers an error, never ends or creates
      the file again. */
  function FileWrites(b: string): Option<seq<Write>> {
    match ReadHeader(b)
    case None => None
    case Some(h) =>
      match ReadPlan(b, h)
      case Plan(ws, cache, check) =>
        (match CheckProgram(ByteRun(b, ws), cache, check)
         case Some(cs) => Some(ws + cs + [WStatus(Closed)])
         case None => None)
      case _ => None
  }

  predicate ReadsAnew(b: string) {
    ReadHeader(b).Some? && ReadPlan(b, ReadHeader(b).value).Anew?
  }

  /** recover_data on a file: the file it leaves, if it answers good. */
  function RecoverFile(b: string, clock: nat): Option<string> {
    if ReadsAnew(b) then Some(NewFile(clock))
    else match FileWrites(b)
         case Some(ws) => Some(ByteRun(b, ws))
         case None => None
  }

  // ---------------------------------------------------------------------
  // What is read is what is there

  lemma StatusIsRead(b: string, d: D.Disk)
    requires Represents(b, d)
    ensures ReadStatus(b) == Some(d.status)
  {
    var at := Offset(FStatus);
    assert FieldHere(b, d, FStatus);
    assert b[at] == b[at..at + 2][0] && b[at + 1] == b[at..at + 2][1];
    StatusIsDecoded(d.status);
  }

  lemma StatusIsDecoded(s: Status)
    ensures StatusOf(StatusByte(s)) == Some(s)
  {
  }

  lemma CountIsRead(b: string, d: D.Disk)
    requires Represents(b, d)
    ensures ReadCount(b) == d.size
  {
    SizeReadsBack(b, d);
  }

  lemma SlotIsRead(b: string, d: D.Disk, i: nat)
    requires Represents(b, d) && i < SLOTS
    ensures ReadSlot(b, i) == Some(d.slots[i])
  {
    SlotReadsBack(b, d, i);
    assert FieldHere(b, d, FSlot(i));
    SlotParts(b, Offset(FSlot(i)), d.slots[i]);
  }

  lemma HeaderIsRead(b: string, d: D.Disk)
    requires Represents(b, d)
    ensures ReadHeader(b) == Some(HeaderOf(d))
  {
    StatusIsRead(b, d);
    CountIsRead(b, d);
    SlotsAreRead(b, d);
    LimitsAreRead(b, d);
  }

  lemma SlotsAreRead(b: string, d: D.Disk)
    requires Represents(b, d)
    ensures ReadSlots(b) == Some(d.slots)
  {
    SlotIsRead(b, d, 0);
    SlotIsRead(b, d, 1);
    SlotIsRead(b, d, 2);
    SlotIsRead(b, d, 3);
    assert [d.slots[0], d.slots[1], d.slots[2], d.slots[3]] == d.slots;
  }

  lemma LimitsAreRead(b: string, d: D.Disk)
    requires Represents(b, d)
    ensures ReadLimits(b, FLimits) == Some(d.limits) && ReadLimits(b, FLimitsBackup) == Some(d.limitsBackup)
  {
    LimitsReadBack(b, d);
  }

  lemma LinkIsRead(b: string, d: D.Disk, p: nat)
    requires Represents(b, d) && p in d.records
    ensures ReadLink(b, p) == Some(IterAt(d, p))
  {
    assert RecordHere(b, p, d.records[p]);
    LineIsRead(b, p, d.records[p]);
  }

  lemma LineIsRead(b: string, p: nat, r: Record)
    requires RecordHere(b, p, r)
    ensures p < |b| && ReadIterLine(b, p) == IterLine(r.prev, r.next, p + AFTER_ITER)
  {
    RecordParts(b, p, r);
    IterReads(b, p, r.prev, r.next);
  }

  lemma EntryReads(b: string, p: nat, prev: nat, next: nat, size: nat)
    requires HEADER <= p && p + AFTER_ITER <= |b| && ReadIterLine(b, p) == IterLine(prev, next, p + AFTER_ITER)
    requires ReadSizeLine(b, p + AFTER_ITER).SizeLine? && ReadSizeLine(b, p + AFTER_ITER).size == size
    ensures ReadEntry(b, p) == Entry(next, size)
  {
  }

  lemma EntryIsRead(b: string, d: D.Disk, p: nat)
    requires Represents(b, d) && p in d.records
    ensures ReadEntry(b, p) == Entry(d.records[p].next, |d.records[p].data|)
  {
    var r := d.records[p];
    assert RecordHere(b, p, r);
    RecordEntryIsRead(b, p, r);
  }

  lemma RecordEntryIsRead(b: string, p: nat, r: Record)
    requires HEADER <= p && RecordHere(b, p, r)
    ensures ReadEntry(b, p) == Entry(r.next, |r.data|)
  {
    SizeIsRead(b, p, r);
    LineIsRead(b, p, r);
    EntryReads(b, p, r.prev, r.next, |r.data|);
  }

  /** Reading every record as it is, the traversal reaches what the one over the disk reaches. */
  lemma {:induction false} WalksAlike(read: nat -> Entry, d: D.Disk, at: nat, last: nat, count: nat, extent: nat,
                                      s: nat, t: nat)
    requires forall p :: p in d.records ==> read(p) == Entry(d.records[p].next, |d.records[p].data|)
    requires s <= t && R.WalkFrom(d, at, last, count, extent, s).Reached?
    ensures WalkBy(read, at, last, count, extent, t) == R.WalkFrom(d, at, last, count, extent, s)
    decreases s
  {
    var r := d.records[at];
    if at != last {
      WalksAlike(read, d, r.next, last, count + 1, if at + r.Size() > extent then at + r.Size() else extent, s - 1, t - 1);
    }
  }

  /** The walk over the bytes counts and reaches what the walk over the disk does. */
  lemma WalkIsRead(b: string, d: D.Disk, cache: Limits)
    requires Represents(b, d) && R.WalkAll(d, cache).Reached?
    ensures WalkBytes(b, cache) == R.WalkAll(d, cache)
  {
    forall p | p in d.records
      ensures Reader(b)(p) == Entry(d.records[p].next, |d.records[p].data|) && p < d.end
    {
      EntryIsRead(b, d, p);
    }
    FewBelow(d.records.Keys, d.end);
    WalksAlike(Reader(b), d, cache.first, cache.last, 0, 0, |d.records|, |b|);
  }

  lemma {:induction false} FewBelow(s: set<nat>, n: nat)
    requires forall x :: x in s ==> x < n
    ensures |s| <= n
  {
    if n > 0 {
      FewBelow(s - {n - 1}, n - 1);
    }
  }

  // ---------------------------------------------------------------------
  // What is written is legal

  /** The numbers fit their columns. */
  ghost predicate FitsWrite(w: Write) {
    FitsHeader(w) &&
    match w
    case WIterator(_, prev, next) => FitsIter(prev) && FitsIter(next)
    case WMark(_, prev, next, _) => FitsIter(prev) && FitsIter(next)
    case _ => true
  }

  ghost predicate Fitting(ws: seq<Write>) {
    forall w :: w in ws ==> FitsWrite(w)
  }

  lemma OnRecordStep(d: D.Disk, e: D.Disk, w: Write, cut: nat, p: nat)
    requires OnRecord(d, w, cut) && Whole(d, p, cut) && Whole(e, p, cut) && e.records[p].Size() == d.records[p].Size()
    ensures Whole(Apply(e, w), p, cut) && Apply(e, w).records[p].Size() == d.records[p].Size()
  {
  }

  lemma {:induction false} StaysWhole(d: D.Disk, ws: seq<Write>, cut: nat, k: nat, p: nat)
    requires OnRecords(d, ws, cut) && k <= |ws| && Whole(d, p, cut)
    ensures var e := StateAt(d, ws, k); Whole(e, p, cut) && e.records[p].Size() == d.records[p].Size()
    decreases k
  {
    if k > 0 {
      StaysWhole(d, ws, cut, k - 1, p);
      OnRecordStep(d, StateAt(d, ws, k - 1), ws[k - 1], cut, p);
    }
  }

  lemma {:induction false} StaysLong(d: D.Disk, ws: seq<Write>, cut: nat, k: nat)
    requires OnRecords(d, ws, cut) && k <= |ws|
    ensures cut <= StateAt(d, ws, k).end
    decreases k
  {
    if k > 0 {
      StaysLong(d, ws, cut, k - 1);
      var w, e := ws[k - 1], StateAt(d, ws, k - 1);
      assert OnRecord(d, w, cut);
      if w.WIterator? {
        StaysWhole(d, ws, cut, k - 1, w.at);
      }
    }
  }

  lemma OnRecordsIsLegal(d: D.Disk, ws: seq<Write>, cut: nat)
    requires OnRecords(d, ws, cut) && Fitting(ws)
    ensures LegalRun(d, ws)
  {
    forall k | 0 <= k < |ws|
      ensures Legal(StateAt(d, ws, k), ws[k])
    {
      var w := ws[k];
      assert OnRecord(d, w, cut) && FitsWrite(w);
      StaysLong(d, ws, cut, k);
      if w.WIterator? || w.WMark? {
        StaysWhole(d, ws, cut, k, w.at);
      }
    }
  }

  lemma LegalConcat(d: D.Disk, a: seq<Write>, b: seq<Write>)
    requires LegalRun(d, a) && LegalRun(RunAll(d, a), b)
    ensures LegalRun(d, a + b)
  {
    forall k | 0 <= k < |a + b|
      ensures Legal(StateAt(d, a + b, k), (a + b)[k])
    {
      Programs.StateAtConcat(d, a, b, k);
      if k < |a| {
        assert Legal(StateAt(d, a, k), a[k]);
      } else {
        assert StateAt(d, a, |a|) == StateAt(RunAll(d, a), b, 0);
        assert Legal(StateAt(RunAll(d, a), b, k - |a|), b[k - |a|]);
      }
    }
  }

  lemma StatusIsLegal(d: D.Disk, s: Status)
    ensures LegalRun(d, [WStatus(s)])
  {
  }

  predicate Overwrites(w: Write) {
    !w.WStamp? && !w.WAppend?
  }

  /** A legal program that neither writes the stamp nor appends keeps the stamp and makes nothing longer. */
  lemma {:induction false} OverwritingKeeps(d: D.Disk, ws: seq<Write>, k: nat)
    requires LegalRun(d, ws) && (forall w :: w in ws ==> Overwrites(w)) && k <= |ws|
    ensures StateAt(d, ws, k).stamp == d.stamp && StateAt(d, ws, k).end <= d.end
    decreases k
  {
    if k > 0 {
      OverwritingKeeps(d, ws, k - 1);
      assert Legal(StateAt(d, ws, k - 1), ws[k - 1]) && Overwrites(ws[k - 1]);
    }
  }

  // ---------------------------------------------------------------------
  // The switch

  predicate LooksBehind(s: Status) {
    s.RdMark1? || s.RdMark2?
  }

  lemma PlanIgnores(h: Header, end: nat, back: Option<nat>, back': Option<nat>, marked: bool, marked': bool)
    requires LooksBack(h.status) ==> back == back'
    requires LooksBehind(h.status) ==> marked == marked'
    ensures UndoPlan(h, end, back, marked) == UndoPlan(h, end, back', marked')
  {
  }

  lemma PlanFits(d: D.Disk)
    requires FitsDisk(d) && PlanOf(d).Plan?
    ensures Fitting(PlanOf(d).writes)
  {
    assert FitsSlot(d.slots[0]) && FitsSlot(d.slots[1]) && FitsSlot(d.slots[2]);
    forall w | w in PlanOf(d).writes
      ensures FitsWrite(w)
    {
      PlanWritesBack(HeaderOf(d), d.end, Back(d), d.slots[2].current in d.records, w);
    }
  }

  /** Whatever link or size the switch reads belongs to a record. */
  predicate LooksAtRecords(d: D.Disk) {
    && (LooksBack(d.status) ==> d.slots[0].current in d.records)
    && (d.status.AmLast? || LooksBehind(d.status) ==> d.slots[2].current in d.records)
  }

  /** Where the switch reads a link or a size it also writes over that record. */
  lemma SteadyLooks(d: D.Disk)
    requires Steady(d)
    ensures LooksAtRecords(d)
  {
    var h, ws := HeaderOf(d), PlanOf(d).writes;
    var cut :| OnRecords(d, ws, cut);
    if LooksBack(d.status) {
      assert ws[|ws| - 1] == SlotBack(h, 0);
      assert OnRecord(d, SlotBack(h, 0), cut);
    }
    if d.status.AmLast? {
      assert ws[0] == SlotBack(h, 2);
      assert OnRecord(d, SlotBack(h, 2), cut);
    }
  }

  lemma AnewLooks(d: D.Disk)
    requires PlanOf(d).Anew?
    ensures LooksAtRecords(d)
  {
  }

  lemma BackIsRead(b: string, d: D.Disk)
    requires Represents(b, d) && d.slots[0].current in d.records
    requires d.status.AmLast? ==> d.slots[2].current in d.records
    ensures var h := HeaderOf(d);
            var link := ReadLink(if d.status.AmLast? then ByteWrite(b, SlotBack(h, 2)) else b, d.slots[0].current);
            link.Some? && Back(d) == Some(link.value.prev)
  {
    var it := d.slots[2];
    if d.status.AmLast? {
      IteratorWriteSimulates(b, d, it.current, it.prev, it.next);
      LinkIsRead(ByteWrite(b, SlotBack(HeaderOf(d), 2)), Apply(d, SlotBack(HeaderOf(d), 2)), d.slots[0].current);
    } else {
      LinkIsRead(b, d, d.slots[0].current);
    }
  }

  /** Where the switch reads the link and the size it looks for as they are on the disk, it decides alike. */
  lemma PlanAgrees(b: string, d: D.Disk)
    requires |b| == d.end
    requires LooksBack(d.status) ==>
               var link := ReadLink(if d.status.AmLast? then ByteWrite(b, SlotBack(HeaderOf(d), 2)) else b, d.slots[0].current);
               link.Some? && Back(d) == Some(link.value.prev)
    requires LooksBehind(d.status) ==> SizeBehind(b, d.slots[2].current) && d.slots[2].current in d.records
    ensures ReadPlan(b, HeaderOf(d)) == PlanOf(d)
  {
    var h := HeaderOf(d);
    var link := ReadLink(if d.status.AmLast? then ByteWrite(b, SlotBack(h, 2)) else b, d.slots[0].current);
    PlanIgnores(h, |b|, if link.Some? then Some(link.value.prev) else None, Back(d),
                SizeBehind(b, d.slots[2].current), d.slots[2].current in d.records);
  }

  /** The switch decides on the bytes as it does on the disk. */
  lemma PlanIsRead(b: string, d: D.Disk)
    requires Represents(b, d) && LooksAtRecords(d)
    ensures ReadPlan(b, HeaderOf(d)) == PlanOf(d)
  {
    if LooksBack(d.status) {
      BackIsRead(b, d);
    }
    if LooksBehind(d.status) {
      SizeIsThere(b, d, d.slots[2].current);
    }
    PlanAgrees(b, d);
  }

  lemma SizeIsThere(b: string, d: D.Disk, p: nat)
    requires Represents(b, d) && p in d.records
    ensures SizeBehind(b, p)
  {
    assert RecordHere(b, p, d.records[p]);
    SizeIsRead(b, p, d.records[p]);
  }

  lemma PlanRuns(b: string, d: D.Disk)
    requires Represents(b, d) && Steady(d)
    ensures var ws := PlanOf(d).writes;
            && LegalRun(d, ws) && Represents(ByteRun(b, ws), RunAll(d, ws)) && RunAll(d, ws).end <= d.end
            && forall w :: w in ws ==> Overwrites(w)
  {
    var ws := PlanOf(d).writes;
    var cut :| OnRecords(d, ws, cut);
    PlanFits(d);
    OnRecordsIsLegal(d, ws, cut);
    RunSimulates(b, d, ws, |ws|);
    forall w | w in ws
      ensures Overwrites(w)
    {
      assert OnRecord(d, w, cut);
    }
    OverwritingKeeps(d, ws, |ws|);
  }

  // ---------------------------------------------------------------------
  // The consistency check

  lemma CheckIsOnRecords(d: D.Disk, cache: Limits, allowance: int)
    requires D.Layout(d) && FitsIter(d.end) && R.WalkAll(d, cache).Reached?
    requires forall p :: p in d.records ==> FitsRecord(d.records[p])
    ensures var w := R.WalkAll(d, cache);
            && cache.last in d.records
            && var ws := CheckWrites(d.size, d.end, IterAt(d, cache.last), w.count, w.extent, allowance);
               OnRecords(d, ws, w.extent) && Fitting(ws)
  {
    var w := R.WalkAll(d, cache);
    WalkEnds(d, cache.first, cache.last, 0, 0, |d.records|);
    FewBelow(d.records.Keys, d.end);
    var last := IterAt(d, cache.last);
    assert FitsRecord(d.records[cache.last]);
    assert forall x :: x in LastBack(last, w.extent) ==> OnRecord(d, x, w.extent) && FitsWrite(x);
    assert forall x :: x in Cutting(w.extent) ==> OnRecord(d, x, w.extent) && FitsWrite(x);
  }

  /** The check reads on the bytes what it reads on the disk, and writes legally. */
  lemma CheckSimulates(b: string, d: D.Disk, cache: Limits, allowance: int)
    requires Represents(b, d) && FitsIter(d.end) && R.WalkAll(d, cache).Reached?
    ensures var w := R.WalkAll(d, cache);
            && cache.last in d.records
            && var ws := CheckWrites(d.size, d.end, IterAt(d, cache.last), w.count, w.extent, allowance);
               && CheckProgram(b, cache, Some(allowance)) == Some(ws) && LegalRun(d, ws)
               && (forall x :: x in ws ==> Overwrites(x))
               && Represents(ByteRun(b, ws), RunAll(d, ws))
  {
    var w := R.WalkAll(d, cache);
    forall p | p in d.records
      ensures FitsRecord(d.records[p])
    {
      assert RecordHere(b, p, d.records[p]);
    }
    CheckIsOnRecords(d, cache, allowance);
    WalkIsRead(b, d, cache);
    LinkIsRead(b, d, cache.last);
    CountIsRead(b, d);
    var ws := CheckWrites(d.size, d.end, IterAt(d, cache.last), w.count, w.extent, allowance);
    OnRecordsIsLegal(d, ws, w.extent);
    RunSimulates(b, d, ws, |ws|);
  }

  // ---------------------------------------------------------------------
  // The whole of recovery

  lemma FollowsPlan(b: string, d: D.Disk, ws: seq<Write>, cache: Limits, check: Option<int>)
    requires Represents(b, d) && Steady(d) && PlanOf(d) == Plan(ws, cache, check)
    ensures FileWrites(b) == match CheckProgram(ByteRun(b, ws), cache, check)
                             case Some(cs) => Some(ws + cs + [WStatus(Closed)])
                             case None => None
    ensures !ReadsAnew(b)
  {
    HeaderIsRead(b, d);
    SteadyLooks(d);
    PlanIsRead(b, d);
  }

  lemma LegalThree(d: D.Disk, a: seq<Write>, b: seq<Write>, s: Status)
    requires LegalRun(d, a) && LegalRun(RunAll(d, a), b)
    ensures LegalRun(d, a + b + [WStatus(s)])
  {
    LegalConcat(d, a, b);
    StatusIsLegal(RunAll(d, a + b), s);
    LegalConcat(d, a + b, [WStatus(s)]);
  }

  /** Where recovery writes over records only, it issues on the bytes the writes it issues on the disk,
      and every one of them is legal. */
  lemma WritesAreRead(b: string, d: D.Disk, rs: seq<Write>)
    requires Represents(b, d) && FitsIter(d.end) && Steady(d) && RecoveryWrites(d) == Some(rs)
    ensures FileWrites(b) == Some(rs) && !ReadsAnew(b) && LegalRun(d, rs) && forall w :: w in rs ==> Overwrites(w)
  {
    var Plan(ws, cache, check) := PlanOf(d);
    var d1 := RunAll(d, ws);
    FollowsPlan(b, d, ws, cache, check);
    PlanRuns(b, d);
    if check.None? {
      assert ws + [] == ws;
      LegalThree(d, ws, [], Closed);
    } else {
      CheckSimulates(ByteRun(b, ws), d1, cache, check.value);
      var w := R.WalkAll(d1, cache);
      LegalThree(d, ws, CheckWrites(d1.size, d1.end, IterAt(d1, cache.last), w.count, w.extent, check.value), Closed);
    }
  }

  /**
    * Recovery on the bytes is recovery on the disk: where the undo steps write over records only, and
    * where the file is created again, what recover_data leaves of a file that holds d is a file that
    * holds what it leaves of d.
    */
  lemma RecoverySimulates(b: string, d: D.Disk, clock: nat)
    requires Represents(b, d) && FitsIter(d.end) && R.Recover(d, clock).Good?
    requires Steady(d) || (PlanOf(d).Anew? && clock < EPOCH_LIMIT)
    ensures RecoverFile(b, clock).Some? && Represents(RecoverFile(b, clock).value, R.Recover(d, clock).image.disk)
  {
    RecoveryIsProgram(d, clock);
    if PlanOf(d).Anew? {
      UndoIsPlanned(d, clock);
      HeaderIsRead(b, d);
      AnewLooks(d);
      PlanIsRead(b, d);
      NewFileIsEmpty(clock);
    } else {
      var rs := RecoveryWrites(d).value;
      WritesAreRead(b, d, rs);
      RunSimulates(b, d, rs, |rs|);
    }
  }
}
