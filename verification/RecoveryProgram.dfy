/** recover_data as the program of writes it issues: first those that undo, which depend on the
    header and on one link, then those of the consistency check, which depend on the walk. */
module RecoveryProgram {
  import opened Common
  import opened Disk
  import opened Recovery
  import opened Programs

  /** What is read of the header before anything is written. */
  datatype Header = Header(status: Status, size: nat, slots: Slots, limitsBackup: Limits, limits: Limits)

  function HeaderOf(d: Disk): Header {
    Header(d.status, d.size, d.slots, d.limitsBackup, d.limits)
  }

  /** The writes of the switch, the limits in memory after them and the allowance of the check that
      follows, if one does.  `Doomed` recoveries answer an error; `Anew` ones create the file again. */
  datatype Plan = Plan(writes: seq<Write>, cache: Limits, check: Option<int>) | Doomed | Anew

  function SlotBack(h: Header, i: nat): Write
    requires i < SLOTS
  {
    WIterator(h.slots[i].current, h.slots[i].prev, h.slots[i].next)
  }

  function Cutting(length: nat): seq<Write> {
    [WTruncate(length), WStatus(FtEnd)]
  }

  /** A file cut to nothing is created again, and the check finds no element in it. */
  function CutThen(before: seq<Write>, length: nat, rest: seq<Write>, cache: Limits): Plan {
    if length == 0 then Doomed else Plan(before + Cutting(length) + rest, cache, Some(1))
  }

  /**
    * The switch of recover_data, fall-through cases written out.  `back` is where the record saved
    * in slot 0 points back to, `marked` whether there is a size to read behind the one in slot 2.
    */
  function UndoPlan(h: Header, end: nat, back: Option<nat>, marked: bool): Plan {
    var limits, s0, s1, s2 := WLimits(h.limitsBackup), SlotBack(h, 0), SlotBack(h, 1), SlotBack(h, 2);
    var unmark := WMark(h.slots[2].current, h.slots[2].prev, h.slots[2].next, true);
    match h.status
    case Closed => Plan([], h.limits, None)
    case Opened => Plan([], h.limits, None)
    case FtEnd => Plan([], h.limits, None)
    case Empty => if h.size == 0 && h.limits.first != end then Anew else Plan([], h.limits, None)
    case FtBegin => if h.slots[0].current == 0 then Anew else Plan(Cutting(h.slots[0].current), h.limits, None)
    case AeIterator => Plan([s0], h.limits, Some(1))
    case AeLimits => Plan([limits, s0], h.limitsBackup, Some(1))
    case AeWriting => CutThen([], h.limits.last, [limits, s0], h.limitsBackup)
    case AeWritten => CutThen([], h.limits.last, [limits, s0], h.limitsBackup)
    case AbIterator => Plan([s0], h.limits, Some(1))
    case AbLimits => Plan([limits, s0], h.limitsBackup, Some(1))
    case AbWriting => CutThen([], h.limits.first, [limits, s0], h.limitsBackup)
    case AbWritten => CutThen([], h.limits.first, [limits, s0], h.limitsBackup)
    case AbLast => CutThen([s2], h.limits.first, [limits, s0], h.limitsBackup)
    case AmIterator1 => Plan([s0], h.limits, Some(1))
    case AmIterator2 => Plan([s1, s0], h.limits, Some(1))
    case AmWriting => if back.None? then Doomed else CutThen([], back.value, [s1, s0], h.limits)
    case AmWritten => if back.None? then Doomed else CutThen([], back.value, [s1, s0], h.limits)
    case AmLast => if back.None? then Doomed else CutThen([s2], back.value, [s1, s0], h.limits)
    case AdEmpty => Plan([], h.limits, Some(1))
    case RdMark1 => if marked then Plan([unmark, s0, limits], h.limitsBackup, Some(-1)) else Doomed
    case RdIterator => Plan([s0, limits], h.limitsBackup, Some(-1))
    case RdLimits => Plan([limits], h.limitsBackup, Some(-1))
    case RdMark2 => if marked then Plan([unmark, s1, s0], h.limits, Some(-1)) else Doomed
    case RdIterator3 => Plan([s1, s0], h.limits, Some(-1))
    case RdIterator2 => Plan([s0], h.limits, Some(-1))
    case RdEmpty => Plan([], h.limits, Some(-1))
  }

  /** The switch reads where the record saved in slot 0 points back to. */
  predicate LooksBack(s: Status) {
    s.AmWriting? || s.AmWritten? || s.AmLast?
  }

  /** What the header has saved, or the cut. */
  predicate WritesBack(h: Header, w: Write) {
    || w.WTruncate? || w.WStatus? || w == WLimits(h.limitsBackup)
    || w == SlotBack(h, 0) || w == SlotBack(h, 1) || w == SlotBack(h, 2)
    || w == WMark(h.slots[2].current, h.slots[2].prev, h.slots[2].next, true)
  }

  lemma CutWritesBack(h: Header, pre: seq<Write>, length: nat, a: Write, z: Write, cache: Limits, w: Write)
    requires length > 0 && w in CutThen(pre, length, [a, z], cache).writes
    requires (w in pre ==> WritesBack(h, w)) && WritesBack(h, a) && WritesBack(h, z)
    ensures WritesBack(h, w)
  {
  }

  /** The statuses under which the switch cuts the file. */
  predicate Cuts(s: Status) {
    s.AeWriting? || s.AeWritten? || s.AbWriting? || s.AbWritten? || s.AbLast? || s.AmWriting? || s.AmWritten? || s.AmLast?
  }

  lemma InsertionWritesBack(h: Header, end: nat, back: Option<nat>, marked: bool, w: Write)
    requires Cuts(h.status)
    requires UndoPlan(h, end, back, marked).Plan? && w in UndoPlan(h, end, back, marked).writes
    ensures WritesBack(h, w)
  {
    var limits, s0, s1, s2 := WLimits(h.limitsBackup), SlotBack(h, 0), SlotBack(h, 1), SlotBack(h, 2);
    match h.status
    case AeWriting | AeWritten => CutWritesBack(h, [], h.limits.last, limits, s0, h.limitsBackup, w);
    case AbWriting | AbWritten => CutWritesBack(h, [], h.limits.first, limits, s0, h.limitsBackup, w);
    case AbLast => CutWritesBack(h, [s2], h.limits.first, limits, s0, h.limitsBackup, w);
    case AmLast => CutWritesBack(h, [s2], back.value, s1, s0, h.limits, w);
    case AmWriting | AmWritten => CutWritesBack(h, [], back.value, s1, s0, h.limits, w);
    case _ =>
  }

  /** Apart from cutting the file, the switch writes back what the header has saved. */
  lemma PlanWritesBack(h: Header, end: nat, back: Option<nat>, marked: bool, w: Write)
    requires UndoPlan(h, end, back, marked).Plan? && w in UndoPlan(h, end, back, marked).writes
    ensures WritesBack(h, w)
  {
    if Cuts(h.status) {
      InsertionWritesBack(h, end, back, marked, w);
    }
  }

  /** Where the record at `at` points back to. */
  function BackIn(d: Disk, at: nat): Option<nat> {
    if at in d.records then Some(d.records[at].prev) else if at == d.end || at == 0 then Some(0) else None
  }

  /** Where the record saved in slot 0 points back to, that in slot 2 being written back first. */
  function Back(d: Disk): Option<nat> {
    var e := if d.status == AmLast then Apply(d, SlotBack(HeaderOf(d), 2)) else d;
    BackIn(e, d.slots[0].current)
  }

  function PlanOf(d: Disk): Plan {
    UndoPlan(HeaderOf(d), d.end, Back(d), d.slots[2].current in d.records)
  }

  // ---------------------------------------------------------------------
  // Running short programs

  lemma Run1(d: Disk, a: Write)
    ensures RunAll(d, [a]) == Apply(d, a)
  {
    assert StateAt(d, [a], 0) == d;
  }

  lemma RunMore(d: Disk, ws: seq<Write>, a: Write)
    ensures RunAll(d, ws + [a]) == Apply(RunAll(d, ws), a)
  {
    RunConcat(d, ws, [a]);
    Run1(RunAll(d, ws), a);
  }

  lemma Run2(d: Disk, a: Write, b: Write)
    ensures RunAll(d, [a, b]) == Apply(Apply(d, a), b)
  {
    assert [a, b] == [a] + [b];
    RunMore(d, [a], b);
    Run1(d, a);
  }

  lemma Run3(d: Disk, a: Write, b: Write, c: Write)
    ensures RunAll(d, [a, b, c]) == Apply(Apply(Apply(d, a), b), c)
  {
    assert [a, b, c] == [a, b] + [c];
    RunMore(d, [a, b], c);
    Run2(d, a, b);
  }

  /** A cut between other writes is truncateFile between them. */
  lemma RunCut(d: Disk, before: seq<Write>, length: nat, a: Write, b: Write, cache: Limits, clock: nat)
    requires length > 0
    ensures RunAll(d, before + Cutting(length) + [a, b])
            == Apply(Apply(TruncateFile(Image(RunAll(d, before), cache), length, clock).disk, a), b)
  {
    RunConcat(d, before, Cutting(length));
    RunConcat(d, before + Cutting(length), [a, b]);
    Run2(RunAll(d, before), WTruncate(length), WStatus(FtEnd));
    Run2(RunAll(d, before + Cutting(length)), a, b);
  }

  // ---------------------------------------------------------------------
  // The switch is its plan

  /** The undo steps of the switch are the writes of the plan. */
  ghost predicate FollowsPlan(d: Disk, clock: nat) {
    match PlanOf(d)
    case Plan(writes, cache, check) =>
      var m := Image(RunAll(d, writes), cache);
      Undo(Image(d, d.limits), clock) == if check.Some? then Check(m, check.value) else Settle(m)
    case Doomed => Recover(d, clock) == Bad
    case Anew => Recover(d, clock) == Good(Image(EmptyFile(clock), Limits(HEADER, HEADER)))
  }

  /** What the switch does where it cuts the file: two writes behind the cut, then the check, which
      finds nothing in a file created again. */
  lemma CutIsFollowed(d: Disk, pre: seq<Write>, length: nat, a: Write, z: Write, cache: Limits, m: Image, clock: nat)
    requires PlanOf(d) == CutThen(pre, length, [a, z], cache) && Undo(Image(d, d.limits), clock) == Check(m, 1)
    requires length == 0 ==> m.disk.records == map[]
    requires length > 0 ==>
               m == Image(Apply(Apply(TruncateFile(Image(RunAll(d, pre), d.limits), length, clock).disk, a), z), cache)
    ensures FollowsPlan(d, clock)
  {
    if length > 0 {
      RunCut(d, pre, length, a, z, d.limits, clock);
    }
  }

  lemma EndFollows(d: Disk, clock: nat)
    requires d.status.AeIterator? || d.status.AeLimits?
    ensures FollowsPlan(d, clock)
  {
    var limits, s0 := WLimits(d.limitsBackup), SlotBack(HeaderOf(d), 0);
    Run1(d, s0);
    Run2(d, limits, s0);
  }

  lemma EndCutFollows(d: Disk, clock: nat)
    requires d.status.AeWriting? || d.status.AeWritten?
    ensures FollowsPlan(d, clock)
  {
    assert RunAll(d, []) == d;
    CutIsFollowed(d, [], d.limits.last, WLimits(d.limitsBackup), SlotBack(HeaderOf(d), 0), d.limitsBackup,
                  UndoAeWriting(Image(d, d.limits), clock).image, clock);
  }

  lemma BeginFollows(d: Disk, clock: nat)
    requires d.status.AbIterator? || d.status.AbLimits?
    ensures FollowsPlan(d, clock)
  {
    var limits, s0 := WLimits(d.limitsBackup), SlotBack(HeaderOf(d), 0);
    Run1(d, s0);
    Run2(d, limits, s0);
  }

  /** ab_writing and what follows it, once the last element is written back. */
  lemma BeginCut(m: Image, length: nat, clock: nat)
    requires length == m.disk.limits.first
    ensures var d, cut := m.disk, TruncateFile(m, length, clock);
            var u := UndoAbWriting(m, clock);
            && u.Check? && u.allowance == 1
            && (length == 0 ==> u.image.disk.records == map[])
            && (length > 0 ==>
                  u.image == Image(Apply(Apply(cut.disk, WLimits(d.limitsBackup)), SlotBack(HeaderOf(d), 0)), d.limitsBackup))
  {
  }

  lemma BeginCutFollows(d: Disk, clock: nat)
    requires d.status.AbWriting? || d.status.AbWritten?
    ensures FollowsPlan(d, clock)
  {
    BeginCut(Image(d, d.limits), d.limits.first, clock);
    assert RunAll(d, []) == d;
    CutIsFollowed(d, [], d.limits.first, WLimits(d.limitsBackup), SlotBack(HeaderOf(d), 0), d.limitsBackup,
                  UndoAbWriting(Image(d, d.limits), clock).image, clock);
  }

  lemma BeginLastFollows(d: Disk, clock: nat)
    requires d.status.AbLast?
    ensures FollowsPlan(d, clock)
  {
    var s2 := SlotBack(HeaderOf(d), 2);
    var e := Apply(d, s2);
    Run1(d, s2);
    BeginCut(Image(e, d.limits), d.limits.first, clock);
    CutIsFollowed(d, [s2], d.limits.first, WLimits(d.limitsBackup), SlotBack(HeaderOf(d), 0), d.limitsBackup,
                  UndoAbWriting(Image(e, d.limits), clock).image, clock);
  }

  lemma MiddleLinksFollow(d: Disk, clock: nat)
    requires d.status.AmIterator1? || d.status.AmIterator2?
    ensures FollowsPlan(d, clock)
  {
    var h := HeaderOf(d);
    Run1(d, SlotBack(h, 0));
    Run2(d, SlotBack(h, 1), SlotBack(h, 0));
  }

  /** am_writing and what follows it, once the last element is written back. */
  lemma MiddleCut(m: Image, length: nat, clock: nat)
    requires BackIn(m.disk, m.disk.slots[0].current) == Some(length)
    ensures var h, cut := HeaderOf(m.disk), TruncateFile(m, length, clock);
            var u := UndoAmWriting(m, clock);
            && u.Check? && u.allowance == 1
            && (length == 0 ==> u.image.disk.records == map[])
            && (length > 0 ==> u.image == Image(Apply(Apply(cut.disk, SlotBack(h, 1)), SlotBack(h, 0)), m.cache))
  {
  }

  lemma MiddleFollows(d: Disk, clock: nat)
    requires d.status.AmWriting? || d.status.AmWritten?
    ensures FollowsPlan(d, clock)
  {
    var h, back := HeaderOf(d), BackIn(d, d.slots[0].current);
    assert Back(d) == back;
    if back.Some? {
      MiddleCut(Image(d, d.limits), back.value, clock);
      assert RunAll(d, []) == d;
      CutIsFollowed(d, [], back.value, SlotBack(h, 1), SlotBack(h, 0), d.limits,
                    UndoAmWriting(Image(d, d.limits), clock).image, clock);
    }
  }

  lemma MiddleLastFollows(d: Disk, clock: nat)
    requires d.status.AmLast?
    ensures FollowsPlan(d, clock)
  {
    var h, s2 := HeaderOf(d), SlotBack(HeaderOf(d), 2);
    var e := Apply(d, s2);
    var back := BackIn(e, d.slots[0].current);
    assert Back(d) == back;
    if back.Some? {
      Run1(d, s2);
      MiddleCut(Image(e, d.limits), back.value, clock);
      CutIsFollowed(d, [s2], back.value, SlotBack(h, 1), SlotBack(h, 0), d.limits,
                    UndoAmWriting(Image(e, d.limits), clock).image, clock);
    }
  }

  lemma EndRemovalFollows(d: Disk, clock: nat)
    requires d.status.RdIterator? || d.status.RdLimits?
    ensures FollowsPlan(d, clock)
  {
    var limits, s0 := WLimits(d.limitsBackup), SlotBack(HeaderOf(d), 0);
    if d.status.RdIterator? {
      Run2(d, s0, limits);
    } else {
      Run1(d, limits);
    }
  }

  lemma EndMarkFollows(d: Disk, clock: nat)
    requires d.status.RdMark1?
    ensures FollowsPlan(d, clock)
  {
    var it := d.slots[2];
    Run3(d, WMark(it.current, it.prev, it.next, true), SlotBack(HeaderOf(d), 0), WLimits(d.limitsBackup));
  }

  lemma MiddleRemovalFollows(d: Disk, clock: nat)
    requires d.status.RdIterator3? || d.status.RdIterator2?
    ensures FollowsPlan(d, clock)
  {
    var s0, s1 := SlotBack(HeaderOf(d), 0), SlotBack(HeaderOf(d), 1);
    if d.status.RdIterator3? {
      Run2(d, s1, s0);
    } else {
      Run1(d, s0);
    }
  }

  lemma MiddleMarkFollows(d: Disk, clock: nat)
    requires d.status.RdMark2?
    ensures FollowsPlan(d, clock)
  {
    if d.slots[2].current in d.records {
      MiddleMarkUndone(d, clock);
    }
  }

  lemma MiddleMarkUndone(d: Disk, clock: nat)
    requires d.status.RdMark2? && d.slots[2].current in d.records
    ensures FollowsPlan(d, clock)
  {
    var h, it := HeaderOf(d), d.slots[2];
    var e := Apply(d, WMark(it.current, it.prev, it.next, true));
    Run3(d, WMark(it.current, it.prev, it.next, true), SlotBack(h, 1), SlotBack(h, 0));
    assert UndoRdIterator3(Image(e, d.limits), clock)
           == Check(Image(Apply(Apply(e, SlotBack(h, 1)), SlotBack(h, 0)), d.limits), -1);
  }

  lemma UndoIsPlanned(d: Disk, clock: nat)
    ensures FollowsPlan(d, clock)
  {
    match d.status
    case AeIterator | AeLimits => EndFollows(d, clock);
    case AeWriting | AeWritten => EndCutFollows(d, clock);
    case AbIterator | AbLimits => BeginFollows(d, clock);
    case AbWriting | AbWritten => BeginCutFollows(d, clock);
    case AbLast => BeginLastFollows(d, clock);
    case AmIterator1 | AmIterator2 => MiddleLinksFollow(d, clock);
    case AmWriting | AmWritten => MiddleFollows(d, clock);
    case AmLast => MiddleLastFollows(d, clock);
    case RdIterator | RdLimits => EndRemovalFollows(d, clock);
    case RdMark1 => EndMarkFollows(d, clock);
    case RdIterator3 | RdIterator2 => MiddleRemovalFollows(d, clock);
    case RdMark2 => MiddleMarkFollows(d, clock);
    case FtBegin =>
      Run2(d, WTruncate(d.slots[0].current), WStatus(FtEnd));
    case _ =>
  }

  lemma AnewIsSettled(d: Disk, clock: nat)
    requires PlanOf(d).Anew?
    ensures (d.status.Empty? || d.status.FtBegin?) && Undo(Image(d, d.limits), clock).Settle?
  {
  }

  lemma PlanIsFollowed(d: Disk, clock: nat, ws: seq<Write>, cache: Limits, check: Option<int>)
    requires PlanOf(d) == Plan(ws, cache, check)
    ensures var m := Image(RunAll(d, ws), cache);
            if check.None? then Recover(d, clock) == Good(Closing(m))
            else var o := CheckConsistency(m, check.value, clock);
                 Recover(d, clock) == if o.Good? then Good(Closing(o.image)) else o
  {
    UndoIsPlanned(d, clock);
  }

  // ---------------------------------------------------------------------
  // The consistency check and the whole of recovery

  /** What checkConsistency writes once it has counted `count` elements up to offset `extent`; `last`
      is the iterator it stopped at. */
  function CheckWrites(size: nat, end: nat, last: Iter, count: nat, extent: nat, allowance: int): seq<Write> {
    (if count != size && Allowed(count - size, allowance) then [WSize(count)] else [])
    + (if extent < end then Cutting(extent) + LastBack(last, extent) else [])
  }

  function LastBack(last: Iter, extent: nat): seq<Write> {
    if last.next != extent then [WIterator(last.current, last.prev, extent)] else []
  }

  /** The traversal stops on a record, in a sound file within its bytes, and after no more elements
      than it had steps. */
  lemma {:induction false} WalkEnds(d: Disk, at: nat, last: nat, count: nat, extent: nat, steps: nat)
    requires WalkFrom(d, at, last, count, extent, steps).Reached?
    ensures var w := WalkFrom(d, at, last, count, extent, steps);
            && last in d.records && last + d.records[last].Size() <= w.extent
            && (Layout(d) && extent <= d.end ==> w.extent <= d.end)
            && w.count <= count + steps + 1
    decreases steps
  {
    var r := d.records[at];
    if at != last {
      WalkEnds(d, r.next, last, count + 1, if at + r.Size() > extent then at + r.Size() else extent, steps - 1);
    }
  }

  lemma RunSized(d: Disk, resized: bool, count: nat, rest: seq<Write>)
    ensures RunAll(d, (if resized then [WSize(count)] else []) + rest)
            == RunAll(if resized then Apply(d, WSize(count)) else d, rest)
  {
    RunConcat(d, if resized then [WSize(count)] else [], rest);
    Run1(d, WSize(count));
    assert RunAll(d, []) == d;
  }

  lemma RunCutting(d: Disk, last: Iter, extent: nat)
    ensures RunAll(d, Cutting(extent) + LastBack(last, extent))
            == var cut := Apply(Apply(d, WTruncate(extent)), WStatus(FtEnd));
               if last.next != extent then WriteIterator(cut, last.current, last.prev, extent) else cut
  {
    var cut := Apply(Apply(d, WTruncate(extent)), WStatus(FtEnd));
    RunConcat(d, Cutting(extent), LastBack(last, extent));
    Run2(d, WTruncate(extent), WStatus(FtEnd));
    Run1(cut, WIterator(last.current, last.prev, extent));
    assert RunAll(cut, []) == cut;
  }

  /** checkConsistency is its writes. */
  lemma CheckIsProgram(m: Image, allowance: int, clock: nat)
    requires WalkAll(m.disk, m.cache).Reached?
    ensures var d, w := m.disk, WalkAll(m.disk, m.cache);
            && m.cache.last in d.records
            && CheckConsistency(m, allowance, clock)
               == Good(m.(disk := RunAll(d, CheckWrites(d.size, d.end, IterAt(d, m.cache.last), w.count, w.extent, allowance))))
  {
    var d, w := m.disk, WalkAll(m.disk, m.cache);
    WalkEnds(d, m.cache.first, m.cache.last, 0, 0, |d.records|);
    var last := IterAt(d, m.cache.last);
    var resized := w.count != d.size && Allowed(w.count - d.size, allowance);
    var sized := if resized then Apply(d, WSize(w.count)) else d;
    RunSized(d, resized, w.count, if w.extent < d.end then Cutting(w.extent) + LastBack(last, w.extent) else []);
    RunCutting(sized, last, w.extent);
    assert RunAll(sized, []) == sized;
  }

  /** Everything recovery writes, if it succeeds without creating the file again. */
  function RecoveryWrites(d: Disk): Option<seq<Write>> {
    match PlanOf(d)
    case Plan(ws, _, None) => Some(ws + [WStatus(Closed)])
    case Plan(ws, cache, Some(allowance)) =>
      var e := RunAll(d, ws);
      (match WalkAll(e, cache)
       case Reached(count, extent) =>
         if cache.last in e.records
         then Some(ws + CheckWrites(e.size, e.end, IterAt(e, cache.last), count, extent, allowance) + [WStatus(Closed)])
         else None
       case _ => None)
    case _ => None
  }

  /** recover_data is its writes: it succeeds exactly when there are some, or the file is created
      again, and then leaves what they make of the disk. */
  lemma RecoveryIsProgram(d: Disk, clock: nat)
    ensures match RecoveryWrites(d)
            case Some(ws) => Recover(d, clock).Good? && Recover(d, clock).image.disk == RunAll(d, ws)
            case None => Recover(d, clock).Good? <==> PlanOf(d).Anew?
  {
    UndoIsPlanned(d, clock);
    match PlanOf(d)
    case Plan(ws, cache, check) =>
      var e := RunAll(d, ws);
      if check.None? {
        RunMore(d, ws, WStatus(Closed));
      } else if WalkAll(e, cache).Reached? {
        var w := WalkAll(e, cache);
        CheckIsProgram(Image(e, cache), check.value, clock);
        var cs := CheckWrites(e.size, e.end, IterAt(e, cache.last), w.count, w.extent, check.value);
        RunConcat(d, ws, cs);
        RunMore(d, ws + cs, WStatus(Closed));
      }
    case _ =>
  }

  // ---------------------------------------------------------------------
  // Recoveries that write over records only

  /** The record at p lies between the header and offset `cut`. */
  predicate Whole(d: Disk, p: nat, cut: nat) {
    HEADER <= p && p in d.records && p + d.records[p].Size() <= cut
  }

  /** A write that hits a record before and after the file is cut at `cut`, the one place where it is cut. */
  predicate OnRecord(d: Disk, w: Write, cut: nat) {
    match w
    case WIterator(at, _, _) => Whole(d, at, cut)
    case WMark(at, _, _, _) => Whole(d, at, cut)
    case WTruncate(length) => length == cut
    case WAppend(_) => false
    case WStamp(_) => false
    case WSlot(i, _) => i < SLOTS
    case _ => true
  }

  ghost predicate OnRecords(d: Disk, ws: seq<Write>, cut: nat) {
    HEADER <= cut <= d.end && forall w :: w in ws ==> OnRecord(d, w, cut)
  }

  /** The undo steps write over records only, and cut the file at one place if anywhere. */
  ghost predicate Steady(d: Disk) {
    PlanOf(d).Plan? && exists cut :: OnRecords(d, PlanOf(d).writes, cut)
  }

  lemma IsSteady(d: Disk, cut: nat)
    requires PlanOf(d).Plan? && OnRecords(d, PlanOf(d).writes, cut)
    ensures Steady(d)
  {
  }

  /** Only the stamp itself and an iterator at offset 0 are written over the stamp. */
  predicate SparesStamp(w: Write) {
    !w.WStamp? && (w.WIterator? ==> w.at != 0)
  }

  lemma {:induction false} StampStays(d: Disk, ws: seq<Write>, k: nat)
    requires k <= |ws| && forall w :: w in ws ==> SparesStamp(w)
    ensures StateAt(d, ws, k).stamp == d.stamp
    decreases k
  {
    if k > 0 {
      StampStays(d, ws, k - 1);
      assert SparesStamp(ws[k - 1]);
    }
  }
}
