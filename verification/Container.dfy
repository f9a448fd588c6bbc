/** The container object: a file and what the process remembers of it.  An operation follows a
    plan, the program of writes `Programs` gives for it; at every moment the file is the state
    of that program after the writes issued so far, so a crash leaves one of its states. */
module Container {
  import opened Disk
  import opened Recovery
  import opened Programs
  import opened Atomicity
  import opened Sessions
  import opened StaleEnd
  import Compaction
  import Insertion
  import Removal

  /** What is left to do after the undo steps. */
  datatype Rest = CheckWith(allowance: int) | Nothing | Failed

  datatype Answer = AllGood | DataError | SyntaxError | UnavailablePosition | Unrecoverable

  class FileContainer {
    var disk: Disk
    var limits: Limits
    var size: nat
    var stamp: Stamp
    var initialized: bool

    ghost var base: Disk
    ghost var plan: seq<Write>
    ghost var done: nat

    ghost predicate Valid()
      reads this
    {
      done <= |plan| && disk == StateAt(base, plan, done)
    }

    /** The next writes of the plan are those of `ws`. */
    ghost predicate Ahead(ws: seq<Write>)
      reads this
    {
      done + |ws| <= |plan| && forall j :: 0 <= j < |ws| ==> plan[done + j] == ws[j]
    }

    /** What the process remembers is what the file says. */
    ghost predicate Current()
      reads this
    {
      limits == disk.limits && size == disk.size
    }

    constructor (file: Disk)
      ensures Valid() && disk == file && !initialized
    {
      disk, base, plan, done := file, file, [], 0;
      limits, size, stamp, initialized := Limits(0, 0), 0, Stamp(0, 0), false;
    }

    /** Every disk write goes through here and must be the next one planned. */
    method Write(w: Write)
      requires Valid() && done < |plan| && plan[done] == w
      modifies this`disk, this`done
      ensures Valid() && done == old(done) + 1 && disk == Apply(old(disk), w)
    {
      disk := Apply(disk, w);
      done := done + 1;
    }

    // -------------------------------------------------------------------
    // Insertion

    method WriteIteratorBackup(slot: nat, it: Iter, status: Status)
      requires Valid() && slot < SLOTS && done + 2 <= |plan|
      requires plan[done] == WSlot(slot, it) && plan[done + 1] == WStatus(status)
      modifies this`disk, this`done
      ensures Valid() && done == old(done) + 2
      ensures disk == old(disk).(slots := old(disk).slots[slot := it], status := status)
    {
      Write(WSlot(slot, it));
      Write(WStatus(status));
    }

    method WriteLimitsBackup(status: Status)
      requires Valid() && done + 2 <= |plan|
      requires plan[done] == WLimitsBackup(limits) && plan[done + 1] == WStatus(status)
      modifies this`disk, this`done
      ensures Valid() && done == old(done) + 2
      ensures disk == old(disk).(limitsBackup := limits, status := status)
    {
      Write(WLimitsBackup(limits));
      Write(WStatus(status));
    }

    /** writeDataHere: an empty string is refused before anything is written. */
    method WriteDataHere(r: Record, writing: Status, written: Status) returns (answer: Answer)
      requires Valid() && done + 3 <= |plan|
      requires plan[done] == WStatus(writing) && plan[done + 1] == WAppend(r) && plan[done + 2] == WStatus(written)
      modifies this`disk, this`done
      ensures Valid()
      ensures answer == if r.data == "" then DataError else AllGood
      ensures r.data == "" ==> done == old(done) && disk == old(disk)
      ensures r.data != "" ==>
                && done == old(done) + 3
                && disk == old(disk).(status := written, records := old(disk).records[old(disk).end := r],
                                      end := old(disk).end + r.Size())
    {
      if r.data == "" {
        return DataError;
      }
      Write(WStatus(writing));
      Write(WAppend(r));
      Write(WStatus(written));
      return AllGood;
    }

    /** resetNextOfLast; `line` is what was written at the last limit if that is no record. */
    method ResetNextOfLast(line: Iter, status: Status)
      requires Valid() && done + 3 <= |plan| && limits.last != 0
      requires var it := if limits.last in disk.records then IterAt(disk, limits.last) else line;
               && plan[done] == WSlot(2, Iter(it.prev, it.next, limits.last))
               && plan[done + 1] == WStatus(status)
               && plan[done + 2] == WIterator(limits.last, it.prev, disk.end)
      modifies this`disk, this`done
      ensures Valid() && done == old(done) + 3
      ensures disk.limits == old(disk).limits && disk.stamp == old(disk).stamp && disk.size == old(disk).size
    {
      var it := if limits.last in disk.records then IterAt(disk, limits.last) else line;
      WriteIteratorBackup(2, Iter(it.prev, it.next, limits.last), status);
      Write(WIterator(limits.last, it.prev, disk.end));
    }

    /** The prefix of an insertion at an end that links what is at `near` to the new record and
        moves the limits there. */
    method LinkEnd(near: nat, it: Iter, limits': Limits, saved: Status, moved: Status)
      requires Valid() && near != 0 && done + 6 <= |plan|
      requires plan[done] == WSlot(0, LinkOf(disk, near)) && plan[done + 1] == WStatus(saved)
      requires plan[done + 2] == WIterator(near, it.prev, it.next)
      requires plan[done + 3] == WLimitsBackup(limits) && plan[done + 4] == WStatus(moved)
      requires plan[done + 5] == WLimits(limits')
      modifies this`disk, this`done, this`limits
      ensures Valid() && done == old(done) + 6 && limits == limits' == disk.limits
      ensures disk.stamp == old(disk).stamp && disk.size == old(disk).size
      ensures var linked := WriteIterator(old(disk), near, it.prev, it.next);
              disk.end == linked.end && disk.records == linked.records
    {
      WriteIteratorBackup(0, LinkOf(disk, near), saved);
      Write(WIterator(near, it.prev, it.next));
      WriteLimitsBackup(moved);
      limits := limits';
      Write(WLimits(limits));
    }

    /** addDataAtEnd, with the end of the file as the caller has it. */
    method AddDataAtEnd(data: string, end: nat) returns (answer: Answer)
      requires Valid() && limits.last != 0 && Ahead(AddBody(disk, limits, end, end, data))
      modifies this`disk, this`done, this`limits
      ensures Valid() && limits == disk.limits == AddLimits(old(limits), end, end)
      ensures disk.stamp == old(disk).stamp && disk.size == old(disk).size
      ensures answer == if data == "" then DataError else AllGood
      ensures done == old(done) + if answer == AllGood then |AddBody(old(disk), old(limits), end, end, data)|
                                  else RefusalPoint(old(limits), end, end) - 2
    {
      ghost var ws, n := AddBody(disk, limits, end, end, data), done;
      assert plan[n] == ws[0] && plan[n + 1] == ws[1] && plan[n + 2] == ws[2] && plan[n + 3] == ws[3];
      assert plan[n + 4] == ws[4] && plan[n + 5] == ws[5];
      assert |ws| == 9 ==> plan[n + 6] == ws[6] && plan[n + 7] == ws[7] && plan[n + 8] == ws[8];
      var next := end + DataSize(|data|);
      var prev := 0;
      var previous := limits.last;
      if limits.last != end {
        prev := limits.last;
        LinkEnd(prev, Iter(LinkOf(disk, prev).prev, end, prev), Limits(limits.first, end), AeIterator, AeLimits);
      } else {
        WriteLimitsBackup(AeLimits);
        limits := Limits(limits.first, end);
        Write(WLimits(limits));
      }
      answer := WriteDataHere(Record(prev, next, true, data, previous, next), AeWriting, AeWritten);
    }

    /** The record and, once it is written, resetNextOfLast. */
    method AppendInside(r: Record, line: Iter, writing: Status, written: Status, reset: Status) returns (answer: Answer)
      requires Valid() && done + 6 <= |plan| && limits.last != 0
      requires plan[done] == WStatus(writing) && plan[done + 1] == WAppend(r) && plan[done + 2] == WStatus(written)
      requires var records := disk.records[disk.end := r];
               var last := if limits.last in records then Iter(records[limits.last].prev, records[limits.last].next, limits.last)
                           else Iter(line.prev, line.next, limits.last);
               && plan[done + 3] == WSlot(2, last) && plan[done + 4] == WStatus(reset)
               && plan[done + 5] == WIterator(limits.last, last.prev, disk.end + r.Size())
      modifies this`disk, this`done
      ensures Valid()
      ensures disk.limits == old(disk).limits && disk.stamp == old(disk).stamp && disk.size == old(disk).size
      ensures answer == if r.data == "" then DataError else AllGood
      ensures done == old(done) + if answer == AllGood then 6 else 0
    {
      answer := WriteDataHere(r, writing, written);
      if answer == AllGood {
        ResetNextOfLast(line, reset);
      }
    }

    /** addDataAtBegin: both ends of the list are records, or both are the end of the file. */
    method AddDataAtBegin(data: string, end: nat) returns (answer: Answer)
      requires Valid() && limits.first != 0 && limits.last != 0 && disk.end !in disk.records
      requires || (limits.first in disk.records && limits.last in disk.records)
               || limits.first == limits.last == disk.end
      requires Ahead(AddAtBegin(disk, limits, end, data))
      modifies this`disk, this`done, this`limits
      ensures Valid() && limits == disk.limits == Limits(end, old(limits).last)
      ensures disk.stamp == old(disk).stamp && disk.size == old(disk).size
      ensures answer == if data == "" then DataError else AllGood
      ensures done == old(done) + if answer == AllGood then 12 else 6
    {
      BeginAhead(data, end);
      var next, previous := limits.first, limits.last;
      var it := Iter(end, LinkOf(disk, next).next, next);
      LinkEnd(next, it, Limits(end, limits.last), AbIterator, AbLimits);
      answer := AppendInside(Record(0, next, true, data, previous, end + DataSize(|data|)), it, AbWriting, AbWritten, AbLast);
    }

    lemma BeginAhead(data: string, end: nat)
      requires Ahead(AddAtBegin(disk, limits, end, data))
      ensures var first, n := limits.first, done;
              && n + 12 <= |plan|
              && plan[n] == WSlot(0, LinkOf(disk, first)) && plan[n + 1] == WStatus(AbIterator)
              && plan[n + 2] == WIterator(first, end, LinkOf(disk, first).next)
              && plan[n + 3] == WLimitsBackup(limits) && plan[n + 4] == WStatus(AbLimits)
              && plan[n + 5] == WLimits(Limits(end, limits.last)) && plan[n + 6] == WStatus(AbWriting)
              && plan[n + 7] == WAppend(Record(0, first, true, data, limits.last, end + DataSize(|data|)))
              && plan[n + 8] == WStatus(AbWritten)
      ensures var prev, n := if limits.last == limits.first then end else LinkOf(disk, limits.last).prev, done;
              && plan[n + 9] == WSlot(2, Iter(prev, LinkOf(disk, limits.last).next, limits.last))
              && plan[n + 10] == WStatus(AbLast)
              && plan[n + 11] == WIterator(limits.last, prev, PastRecord(disk, limits.first, data))
    {
      var ws, n := AddAtBegin(disk, limits, end, data), done;
      assert plan[n] == ws[0] && plan[n + 1] == ws[1] && plan[n + 2] == ws[2] && plan[n + 3] == ws[3];
      assert plan[n + 4] == ws[4] && plan[n + 5] == ws[5] && plan[n + 6] == ws[6] && plan[n + 7] == ws[7];
      assert plan[n + 8] == ws[8] && plan[n + 9] == ws[9] && plan[n + 10] == ws[10] && plan[n + 11] == ws[11];
    }

    /** The prefix of an insertion between two elements that links both to the new record. */
    method LinkMiddle(at: nat, before: nat, end: nat)
      requires Valid() && done + 6 <= |plan| && before == LinkOf(disk, at).prev
      requires plan[done] == WSlot(0, LinkOf(disk, at)) && plan[done + 1] == WStatus(AmIterator1)
      requires plan[done + 2] == WSlot(1, LinkOf(disk, before)) && plan[done + 3] == WStatus(AmIterator2)
      requires plan[done + 4] == WIterator(at, end, LinkOf(disk, at).next)
      requires plan[done + 5] == WIterator(before, LinkOf(disk, before).prev, end)
      modifies this`disk, this`done
      ensures Valid() && done == old(done) + 6 && disk.limits == old(disk).limits
      ensures var linked := MiddleLinked(old(disk), at, end);
              && disk.end == linked.end && disk.records == linked.records
              && disk.stamp == linked.stamp && disk.size == linked.size
    {
      var it, it' := LinkOf(disk, at), LinkOf(disk, before);
      WriteIteratorBackup(0, it, AmIterator1);
      WriteIteratorBackup(1, it', AmIterator2);
      Write(WIterator(at, end, it.next));
      Write(WIterator(before, it'.prev, end));
    }

    /** addDataInMiddle, before an inner element or, the reads answering good there too, at offset 0
        or at the end of the file. */
    method AddDataInMiddle(data: string, at: nat, end: nat) returns (answer: Answer)
      requires Valid() && MiddlePlace(disk, at)
      requires disk.limits == limits && Ahead(AddInMiddle(disk, limits, at, end, data))
      modifies this`disk, this`done
      ensures Valid() && disk.limits == limits
      ensures at in old(disk).records && 0 !in old(disk).records ==>
                disk.stamp == old(disk).stamp && disk.size == old(disk).size
      ensures answer == if data == "" then DataError else AllGood
      ensures done == old(done) + if answer == AllGood then 12 else 6
    {
      var before := LinkOf(disk, at).prev;
      var r := Record(before, at, true, data, limits.last, end + DataSize(|data|));
      MiddleIsLinked(disk, at, end, r);
      MiddleAhead(data, at, end);
      LinkMiddle(at, before, end);
      answer := AppendInside(r, Iter(0, 0, 0), AmWriting, AmWritten, AmLast);
    }

    /** The twelve writes that are next. */
    lemma MiddleAhead(data: string, at: nat, end: nat)
      requires Ahead(AddInMiddle(disk, limits, at, end, data))
      ensures var before, n := LinkOf(disk, at).prev, done;
              && n + 12 <= |plan|
              && plan[n] == WSlot(0, LinkOf(disk, at)) && plan[n + 1] == WStatus(AmIterator1)
              && plan[n + 2] == WSlot(1, LinkOf(disk, before)) && plan[n + 3] == WStatus(AmIterator2)
              && plan[n + 4] == WIterator(at, end, LinkOf(disk, at).next)
              && plan[n + 5] == WIterator(before, LinkOf(disk, before).prev, end)
              && plan[n + 6] == WStatus(AmWriting)
              && plan[n + 7] == WAppend(Record(before, at, true, data, limits.last, end + DataSize(|data|)))
              && plan[n + 8] == WStatus(AmWritten)
      ensures var prev, n := if limits.last == at then end else LinkOf(disk, limits.last).prev, done;
              && plan[n + 9] == WSlot(2, Iter(prev, LinkOf(disk, limits.last).next, limits.last))
              && plan[n + 10] == WStatus(AmLast)
              && plan[n + 11] == WIterator(limits.last, prev, PastRecord(disk, at, data))
    {
      var ws, n := AddInMiddle(disk, limits, at, end, data), done;
      assert plan[n] == ws[0] && plan[n + 1] == ws[1] && plan[n + 2] == ws[2] && plan[n + 3] == ws[3];
      assert plan[n + 4] == ws[4] && plan[n + 5] == ws[5] && plan[n + 6] == ws[6] && plan[n + 7] == ws[7];
      assert plan[n + 8] == ws[8] && plan[n + 9] == ws[9] && plan[n + 10] == ws[10] && plan[n + 11] == ws[11];
    }

    // -------------------------------------------------------------------
    // Recovery

    ghost function Self(): Image
      reads this
    {
      Image(disk, limits)
    }

    /** Recovery follows no plan: the file and the limits become those of `m`. */
    method Become(m: Image)
      modifies this`disk, this`limits, this`base, this`plan, this`done
      ensures Valid() && Self() == m
    {
      disk, limits := m.disk, m.cache;
      base, plan, done := disk, [], 0;
    }

    /** The loop of checkConsistency: from the first element to the last one of the limits. */
    method Traverse() returns (w: Walk)
      requires WalkAll(disk, limits) != Cycle
      ensures w == WalkAll(disk, limits)
      ensures w.Reached? ==> limits.last in disk.records && w.extent > 0
    {
      var at: nat, count: nat, extent: nat := limits.first, 0, 0;
      ghost var steps: nat := |disk.records|;
      while true
        invariant WalkAll(disk, limits) == WalkFrom(disk, at, limits.last, count, extent, steps)
        decreases steps
      {
        if at !in disk.records {
          return Lost;
        }
        var r := disk.records[at];
        if at + r.Size() > extent {
          extent := at + r.Size();
        }
        count := count + 1;
        if at == limits.last {
          return Reached(count, extent);
        }
        if r.next < HEADER || r.next >= disk.end {
          return Lost;
        }
        at := r.next;
        steps := steps - 1;
      }
    }

    /** checkConsistency: walk the list, correct the count within the allowance, cut the file
        behind the furthest element and point the last one at the new end. */
    method CheckConsistency(allowance: int, clock: nat) returns (ok: bool)
      requires Recovery.CheckConsistency(Self(), allowance, clock) != Endless
      modifies this`disk, this`limits, this`stamp, this`base, this`plan, this`done
      ensures Valid()
      ensures old(limits == disk.limits) ==> limits == disk.limits
      ensures ok == Recovery.CheckConsistency(old(Self()), allowance, clock).Good?
      ensures ok ==> Self() == Recovery.CheckConsistency(old(Self()), allowance, clock).image
      ensures ok ==> stamp == old(stamp) && old(disk.records) != map[]
    {
      base, plan, done := disk, [], 0;
      var w := Traverse();
      if !w.Reached? {
        return false;
      }
      var end, lastAt, last := disk.end, limits.last, disk.records[limits.last];
      if w.count != disk.size && Allowed(w.count - disk.size, allowance) {
        Become(Image(Apply(disk, WSize(w.count)), limits));
      }
      if w.extent < end {
        TruncateTo(w.extent, clock);
        if last.next != disk.end {
          Become(Image(WriteIterator(disk, lastAt, last.prev, disk.end), limits));
        }
      }
      return true;
    }

    /** createEmptyFile: the stamp in memory becomes that of the new file. */
    method CreateEmptyFile(clock: nat)
      modifies this`disk, this`limits, this`stamp, this`base, this`plan, this`done
      ensures Valid() && Self() == Image(EmptyFile(clock), Limits(HEADER, HEADER)) && stamp == disk.stamp
    {
      Become(Image(EmptyFile(clock), Limits(HEADER, HEADER)));
      stamp := disk.stamp;
    }

    method TruncateTo(length: nat, clock: nat)
      modifies this`disk, this`limits, this`stamp, this`base, this`plan, this`done
      ensures Valid() && Self() == TruncateFile(old(Self()), length, clock)
      ensures old(limits == disk.limits) ==> limits == disk.limits
      ensures if length == 0 then stamp == disk.stamp && disk.records == map[] else stamp == old(stamp)
    {
      if length == 0 {
        CreateEmptyFile(clock);
      } else {
        Become(Image(Apply(disk, WTruncate(length)), limits));
      }
      Become(Image(Apply(disk, WStatus(FtEnd)), limits));
    }

    method RestoreIteratorBackup(slot: nat)
      requires slot < SLOTS
      modifies this`disk, this`limits, this`base, this`plan, this`done
      ensures Valid() && Self() == RestoreSlot(old(Self()), slot)
      ensures old(limits == disk.limits) ==> limits == disk.limits
      ensures old(disk.records) == map[] ==> disk.records == map[]
    {
      Become(RestoreSlot(Image(disk, limits), slot));
    }

    method RestoreLimitsBackup()
      modifies this`disk, this`limits, this`base, this`plan, this`done
      ensures Valid() && Self() == RestoreLimits(old(Self())) && limits == disk.limits
    {
      Become(RestoreLimits(Image(disk, limits)));
    }

    /** The cases ae_*, each entering the next. */
    method UndoEnd(status: Status, clock: nat)
      requires status.AeWriting? || status.AeWritten? || status.AeLimits? || status.AeIterator?
      modifies this`disk, this`limits, this`stamp, this`base, this`plan, this`done
      ensures Valid()
      ensures old(limits == disk.limits) ==> limits == disk.limits
      ensures stamp == old(stamp) || disk.records == map[]
      ensures Check(Self(), 1) == match status
                                  case AeIterator => UndoAeIterator(old(Self()), clock)
                                  case AeLimits => UndoAeLimits(old(Self()), clock)
                                  case _ => UndoAeWriting(old(Self()), clock)
    {
      if status.AeWriting? || status.AeWritten? {
        TruncateTo(disk.limits.last, clock);
      }
      if !status.AeIterator? {
        RestoreLimitsBackup();
      }
      RestoreIteratorBackup(0);
    }

    /** The cases ab_*. */
    method UndoBegin(status: Status, clock: nat)
      requires status.AbLast? || status.AbWriting? || status.AbWritten? || status.AbLimits? || status.AbIterator?
      modifies this`disk, this`limits, this`stamp, this`base, this`plan, this`done
      ensures Valid()
      ensures old(limits == disk.limits) ==> limits == disk.limits
      ensures stamp == old(stamp) || disk.records == map[]
      ensures Check(Self(), 1) == match status
                                  case AbIterator => UndoAbIterator(old(Self()), clock)
                                  case AbLimits => UndoAbLimits(old(Self()), clock)
                                  case AbLast => UndoAbLast(old(Self()), clock)
                                  case _ => UndoAbWriting(old(Self()), clock)
    {
      if status.AbLast? {
        RestoreIteratorBackup(2);
      }
      if status.AbLast? || status.AbWriting? || status.AbWritten? {
        TruncateTo(disk.limits.first, clock);
      }
      if !status.AbIterator? {
        RestoreLimitsBackup();
      }
      RestoreIteratorBackup(0);
    }

    /** am_iterator2 and am_iterator1. */
    method UndoMiddleLinks(clock: nat)
      modifies this`disk, this`limits, this`base, this`plan, this`done
      ensures Valid() && Check(Self(), 1) == UndoAmIterator2(old(Self()), clock)
      ensures old(limits == disk.limits) ==> limits == disk.limits
      ensures old(disk.records) == map[] ==> disk.records == map[]
    {
      RestoreIteratorBackup(1);
      RestoreIteratorBackup(0);
    }

    /** am_writing and am_written: the new record starts where the record of slot 0 points back to. */
    method UndoMiddleRecord(clock: nat) returns (ok: bool)
      requires Valid()
      modifies this`disk, this`limits, this`stamp, this`base, this`plan, this`done
      ensures Valid() && (if ok then Check(Self(), 1) else GiveUp) == UndoAmWriting(old(Self()), clock)
      ensures old(limits == disk.limits) ==> limits == disk.limits
      ensures stamp == old(stamp) || disk.records == map[]
    {
      var at := disk.slots[0].current;
      if at in disk.records {
        TruncateTo(disk.records[at].prev, clock);
      } else if at == disk.end || at == 0 {
        TruncateTo(0, clock);
      } else {
        return false;
      }
      UndoMiddleLinks(clock);
      return true;
    }

    /** The cases am_*. */
    method UndoMiddle(status: Status, clock: nat) returns (ok: bool)
      requires status.AmLast? || status.AmWriting? || status.AmWritten? || status.AmIterator2? || status.AmIterator1?
      modifies this`disk, this`limits, this`stamp, this`base, this`plan, this`done
      ensures Valid()
      ensures old(limits == disk.limits) ==> limits == disk.limits
      ensures stamp == old(stamp) || disk.records == map[]
      ensures (if ok then Check(Self(), 1) else GiveUp)
              == match status
                 case AmIterator1 => UndoAmIterator1(old(Self()), clock)
                 case AmIterator2 => UndoAmIterator2(old(Self()), clock)
                 case AmLast => UndoAmLast(old(Self()), clock)
                 case _ => UndoAmWriting(old(Self()), clock)
    {
      base, plan, done := disk, [], 0;
      ok := true;
      if status.AmIterator1? {
        RestoreIteratorBackup(0);
      } else if status.AmIterator2? {
        UndoMiddleLinks(clock);
      } else {
        if status.AmLast? {
          RestoreIteratorBackup(2);
        }
        ok := UndoMiddleRecord(clock);
      }
    }

    /** The cases rd_*, for an element at one end (rd_limits, rd_iterator, rd_mark1) and for one
        between two others (rd_iterator2, rd_iterator3, rd_mark2). */
    method UndoRemoval(status: Status, clock: nat) returns (ok: bool)
      requires || status.RdMark1? || status.RdIterator? || status.RdLimits?
               || status.RdMark2? || status.RdIterator3? || status.RdIterator2?
      modifies this`disk, this`limits, this`base, this`plan, this`done
      ensures Valid()
      ensures old(limits == disk.limits) ==> limits == disk.limits
      ensures (if ok then Check(Self(), -1) else GiveUp)
              == match status
                 case RdMark1 => UndoRdMark1(old(Self()), clock)
                 case RdIterator => UndoRdIterator(old(Self()), clock)
                 case RdLimits => UndoRdLimits(old(Self()), clock)
                 case RdMark2 => UndoRdMark2(old(Self()), clock)
                 case RdIterator3 => UndoRdIterator3(old(Self()), clock)
                 case _ => UndoRdIterator2(old(Self()), clock)
    {
      base, plan, done := disk, [], 0;
      if status.RdMark1? || status.RdMark2? {
        ok := MarkDataAsUnerased();
        if !ok {
          return;
        }
      }
      if status.RdMark1? || status.RdIterator? || status.RdLimits? {
        UndoEndRemoval(status.RdLimits?, clock);
      } else {
        UndoMiddleRemoval(status.RdIterator2?, clock);
      }
      return true;
    }

    method MarkDataAsUnerased() returns (ok: bool)
      requires Valid()
      modifies this`disk, this`limits, this`base, this`plan, this`done
      ensures Valid() && (if ok then Settle(Self()) else GiveUp) == Unerase(old(Self()), 2)
      ensures old(limits == disk.limits) ==> limits == disk.limits
    {
      var u := Unerase(Image(disk, limits), 2);
      ok := u.Settle?;
      if ok {
        Become(u.image);
      }
    }

    /** rd_iterator and rd_limits. */
    method UndoEndRemoval(limitsOnly: bool, clock: nat)
      modifies this`disk, this`limits, this`base, this`plan, this`done
      ensures Valid() && limits == disk.limits
      ensures Check(Self(), -1) == if limitsOnly then UndoRdLimits(old(Self()), clock) else UndoRdIterator(old(Self()), clock)
    {
      if !limitsOnly {
        RestoreIteratorBackup(0);
      }
      RestoreLimitsBackup();
    }

    /** rd_iterator3 and rd_iterator2. */
    method UndoMiddleRemoval(oneOnly: bool, clock: nat)
      modifies this`disk, this`limits, this`base, this`plan, this`done
      ensures Valid() && (old(limits == disk.limits) ==> limits == disk.limits)
      ensures Check(Self(), -1) == if oneOnly then UndoRdIterator2(old(Self()), clock) else UndoRdIterator3(old(Self()), clock)
    {
      if !oneOnly {
        RestoreIteratorBackup(1);
      }
      RestoreIteratorBackup(0);
    }

    /** The switch of recover_data, up to the consistency check most of its cases end with. */
    method UndoByStatus(clock: nat) returns (rest: Rest)
      modifies this`disk, this`limits, this`stamp, this`base, this`plan, this`done
      ensures Valid()
      ensures old(limits == disk.limits) ==> limits == disk.limits
      ensures Undo(old(Self()), clock) == match rest
                                          case CheckWith(allowance) => Check(Self(), allowance)
                                          case Nothing => Settle(Self())
                                          case Failed => GiveUp
      ensures rest.CheckWith? ==> !Anew(old(disk)) && (stamp == old(stamp) || disk.records == map[])
      ensures rest.Nothing? ==> stamp == if Anew(old(disk)) then disk.stamp else old(stamp)
    {
      base, plan, done := disk, [], 0;
      var status, ok := disk.status, true;
      match status {
        case Closed | Opened | FtEnd =>
          rest := Nothing;
        case Empty =>
          if disk.size == 0 && disk.limits.first != disk.end {
            CreateEmptyFile(clock);
          } else {
            Become(Image(disk, disk.limits));
          }
          rest := Nothing;
        case FtBegin =>
          TruncateTo(disk.slots[0].current, clock);
          rest := Nothing;
        case AeIterator | AeLimits | AeWriting | AeWritten =>
          UndoEnd(status, clock);
          rest := CheckWith(1);
        case AbIterator | AbLimits | AbWriting | AbWritten | AbLast =>
          UndoBegin(status, clock);
          rest := CheckWith(1);
        case AmIterator1 | AmIterator2 | AmWriting | AmWritten | AmLast =>
          ok := UndoMiddle(status, clock);
          rest := if ok then CheckWith(1) else Failed;
        case RdMark1 | RdIterator | RdLimits | RdMark2 | RdIterator3 | RdIterator2 =>
          ok := UndoRemoval(status, clock);
          rest := if ok then CheckWith(-1) else Failed;
        case AdEmpty =>
          rest := CheckWith(1);
        case RdEmpty =>
          rest := CheckWith(-1);
      }
    }

    /** recover_data, with the limits just read from the file. */
    method RecoverData(clock: nat) returns (ok: bool)
      requires limits == disk.limits && Recover(disk, clock) != Endless
      modifies this
      ensures Valid() && initialized == old(initialized)
      ensures ok ==> stamp == if Anew(old(disk)) then disk.stamp else old(stamp)
      ensures limits == disk.limits
      ensures ok == Recover(old(disk), clock).Good?
      ensures ok ==> Self() == Recover(old(disk), clock).image && size == disk.size
    {
      var rest := UndoByStatus(clock);
      match rest {
        case CheckWith(allowance) =>
          ok := CheckConsistency(allowance, clock);
        case Nothing =>
          ok := true;
        case Failed =>
          ok := false;
      }
      if ok {
        Become(Closing(Image(disk, limits)));
        size := disk.size;
      }
    }

    // -------------------------------------------------------------------
    // Public operations

    /** What the process remembers is no newer than the file and, at equal stamps, the same. */
    ghost predicate Remembers()
      reads this
    {
      disk.stamp.counter < COUNTERS && (initialized ==> Fresh(Cache(stamp, limits, size), disk))
    }

    /** initContainer: the process takes over what the file says and recovers it if it is not closed. */
    method InitContainer(clock: nat) returns (ok: bool)
      requires disk.stamp.counter < COUNTERS && Recover(disk, clock) != Endless && !initialized
      modifies this
      ensures Valid()
      ensures ok == Recover(old(disk), clock).Good? == initialized
      ensures ok ==> disk == Recover(old(disk), clock).image.disk && Current() && stamp.counter < COUNTERS
      ensures ok && (disk.stamp == old(disk).stamp || Anew(old(disk))) ==> Remembers()
    {
      stamp, limits, size := disk.stamp, disk.limits, disk.size;
      ok := RecoverData(clock);
      initialized := ok;
    }

    /** recover_data for a process already at work: what it remembers is brought up to date first. */
    method RecoverOpened(clock: nat) returns (ok: bool)
      requires Remembers() && Recover(disk, clock) != Endless && initialized
      modifies this
      ensures Valid() && initialized
      ensures ok == Recover(old(disk), clock).Good?
      ensures ok ==> disk == Recover(old(disk), clock).image.disk && Current() && stamp.counter < COUNTERS
      ensures ok ==> stamp == if Anew(old(disk)) then disk.stamp else old(disk).stamp
    {
      if Older(stamp, disk.stamp) {
        stamp, limits, size := disk.stamp, disk.limits, disk.size;
      }
      ok := RecoverData(clock);
    }

    /** initContainer, or checkStreamAndStamp followed by syncData: recover if the status is not
        closed, then catch up with the file. */
    method Prepare(clock: nat) returns (ok: bool)
      requires Remembers() && Recover(disk, clock) != Endless
      modifies this
      ensures Valid()
      ensures ok == Recover(old(disk), clock).Good?
      ensures ok ==> disk == Recover(old(disk), clock).image.disk && Current() && initialized
      ensures ok ==> stamp.counter < COUNTERS
      ensures ok && (disk.stamp == old(disk).stamp || Anew(old(disk))) ==> Remembers()
    {
      if !initialized {
        ok := InitContainer(clock);
        return;
      }
      ok := true;
      if disk.status != Closed {
        ok := RecoverOpened(clock);
      } else {
        ClosedNeedsNoRecovery(disk, clock);
        base, plan, done := disk, [], 0;
      }
      if ok && Older(stamp, disk.stamp) {
        limits, size := disk.limits, disk.size;
      }
    }

    /** The body of add_data between the opening and the closing writes, at one of the offsets a
        caller can name and with the end of the file as it was on entry. */
    method AddDataAt(data: string, at: nat, end: nat, ghost chain: seq<nat>) returns (answer: Answer)
      requires Valid() && Holds(disk, chain) && IsPlace(disk, chain, at, end) && disk.end <= end
      requires limits == disk.limits && Ahead(AddBody(disk, limits, at, end, data))
      modifies this`disk, this`done, this`limits
      ensures Valid() && limits == disk.limits == AddLimits(old(limits), at, end)
      ensures !LosesStamp(old(disk), chain, at, end) ==> disk.stamp == old(disk).stamp && disk.size == old(disk).size
      ensures answer == if data == "" then DataError else AllGood
      ensures done == old(done) + if answer == AllGood then |AddBody(old(disk), old(limits), at, end, data)|
                                  else RefusalPoint(old(limits), at, end) - 2
    {
      EndsOfList(disk, chain);
      if at == end {
        answer := AddDataAtEnd(data, end);
      } else if at == limits.first {
        answer := AddDataAtBegin(data, end);
      } else {
        if at in chain {
          ghost var i :| 0 <= i < |chain| && chain[i] == at;
          Insertion.InnerPlaces(disk, chain, i);
        }
        answer := AddDataInMiddle(data, at, end);
      }
    }

    /** Opening writes common to add_data and remove_data. */
    method Begin()
      requires Valid() && done == 0 && 2 <= |plan|
      requires plan[0] == WStamp(stamp) && plan[1] == WStatus(Opened)
      modifies this`disk, this`done
      ensures Valid() && done == 2 && disk == Begun(old(disk), stamp)
    {
      Write(WStamp(stamp));
      Write(WStatus(Opened));
    }

    /** The opening writes of an operation that then refuses. */
    method BeginNothing()
      requires Current() && initialized && stamp.counter < COUNTERS
      modifies this`disk, this`base, this`plan, this`done
      ensures Valid() && base == old(disk) && disk == Begun(base, stamp) && Remembers()
    {
      base, plan, done := disk, Prologue(stamp), 0;
      Begin();
    }

    /** Closing writes: createEmptyBackup, the new count, the status. */
    method Finish(status: Status, count: nat)
      requires Valid() && done + 4 == |plan|
      requires plan[done] == WClear && plan[done + 1] == WStatus(status)
      requires plan[done + 2] == WSize(count) && plan[done + 3] == WStatus(Closed)
      modifies this`disk, this`done, this`size
      ensures Valid() && done == |plan| && size == disk.size == count
      ensures disk.stamp == old(disk).stamp && disk.limits == old(disk).limits
    {
      Write(WClear);
      Write(WStatus(status));
      Write(WSize(count));
      size := count;
      Write(WStatus(Closed));
    }

    /** Takes the program of add_data as the plan and issues its opening writes. */
    method BeginAdd(data: string, at: nat, end: nat, ghost chain: seq<nat>) returns (ghost n: nat)
      requires WellFormed(disk, chain) && Current()
      modifies this`disk, this`base, this`plan, this`done
      ensures Valid() && base == old(disk) && plan == AddWrites(base, base.limits, base.size, stamp, at, end, data)
      ensures disk == Begun(base, stamp) && Holds(disk, chain)
      ensures done == 2 && Ahead(AddBody(disk, limits, at, end, data))
      ensures n == 2 + |AddBody(base, limits, at, end, data)| == 2 + |AddBody(disk, limits, at, end, data)|
      ensures |plan| == n + 4 && plan[n] == WClear && plan[n + 1] == WStatus(AdEmpty)
      ensures plan[n + 2] == WSize(size + 1) && plan[n + 3] == WStatus(Closed)
    {
      AddPlan(disk, chain, at, end, data, stamp);
      n := 2 + |AddBody(disk, limits, at, end, data)|;
      base, plan, done := disk, AddWrites(disk, limits, size, stamp, at, end, data), 0;
      Begin();
    }

    /** The writes of add_data on a container at rest, all of them or up to the refusal of empty data. */
    method Insert(data: string, at: nat, end: nat, ghost chain: seq<nat>) returns (answer: Answer)
      requires WellFormed(disk, chain) && Current() && IsPlace(disk, chain, at, end) && disk.end <= end
      modifies this`disk, this`limits, this`size, this`base, this`plan, this`done
      ensures Valid() && base == old(disk) && plan == AddWrites(base, base.limits, base.size, stamp, at, end, data)
      ensures answer == if data == "" then DataError else AllGood
      ensures done == if answer == AllGood then |plan| else RefusalPoint(base.limits, at, end)
      ensures limits == disk.limits
      ensures !LosesStamp(base, chain, at, end) ==> Current() && disk.stamp == stamp
    {
      ghost var n := BeginAdd(data, at, end, chain);
      answer := FollowAdd(data, at, end, chain, n);
    }

    /** The writes of add_data, as planned, up to a refusal. */
    method FollowAdd(data: string, at: nat, end: nat, ghost chain: seq<nat>, ghost n: nat) returns (answer: Answer)
      requires Valid() && Holds(disk, chain) && IsPlace(disk, chain, at, end) && disk.end <= end && Current()
      requires done == 2 && Ahead(AddBody(disk, limits, at, end, data))
      requires n == 2 + |AddBody(disk, limits, at, end, data)| && |plan| == n + 4
      requires plan[n] == WClear && plan[n + 1] == WStatus(AdEmpty)
      requires plan[n + 2] == WSize(size + 1) && plan[n + 3] == WStatus(Closed)
      modifies this`disk, this`limits, this`size, this`done
      ensures Valid() && limits == disk.limits
      ensures answer == if data == "" then DataError else AllGood
      ensures done == if answer == AllGood then |plan| else RefusalPoint(old(limits), at, end)
      ensures !LosesStamp(old(disk), chain, at, end) ==> Current() && disk.stamp == old(disk).stamp
    {
      answer := AddDataAt(data, at, end, chain);
      if answer == AllGood {
        Finish(AdEmpty, size + 1);
      }
    }

    /** add_data once the file is recovered; `end` is the end it had before. */
    method AddRecovered(data: string, at: nat, end: nat, now: nat, clock: nat, ghost chain: seq<nat>)
        returns (answer: Answer, ghost i: nat)
      requires WellFormed(disk, chain) && Current() && stamp.counter < COUNTERS && now > 0
      requires disk.end <= end && (IsPlace(disk, chain, at, end) || at < HEADER || at > disk.end)
      modifies this`disk, this`limits, this`size, this`stamp, this`base, this`plan, this`done
      ensures Valid() && base == old(disk) && stamp.counter < COUNTERS
      ensures answer == (if !IsPlace(base, chain, at, end) then UnavailablePosition
                         else if data == "" then DataError else AllGood)
      ensures answer == UnavailablePosition ==> disk == Begun(base, stamp) && Current()
      ensures answer == AllGood ==>
                && plan == AddWrites(base, base.limits, base.size, stamp, at, end, data) && done == |plan|
                && (Inserted(disk, stamp, Contents(base, chain), data) <==> base.end == end && at != 0)
      ensures answer == AllGood && base.end == end && at != 0 ==>
                && i <= |chain| && at == PlaceOf(base, chain, i)
                && WellFormed(disk, InsertAt(chain, i, base.end))
                && Contents(disk, InsertAt(chain, i, base.end)) == InsertAt(Contents(base, chain), i, data)
      ensures answer == DataError && base.end == end && at != 0 ==>
                (Survives(disk, clock, Contents(base, chain), Contents(base, chain)) <==> |chain| > 0)
      ensures if answer == UnavailablePosition || !LosesStamp(base, chain, at, end)
              then Current() && disk.stamp == stamp
              else disk.stamp.epoch == 0 && stamp.epoch > 0
    {
      i := 0;
      EndsOfList(disk, chain);
      UpdatedStampIsLater(stamp, disk.stamp, now);
      stamp := UpdateStamp(stamp, disk.stamp, now);
      if at != 0 && at != end && at != disk.end && at !in disk.records {
        base, plan, done := disk, Prologue(stamp), 0;
        Begin();
        return UnavailablePosition, i;
      }
      answer := Insert(data, at, end, chain);
      i := InsertOutcome(base, chain, stamp, at, end, data, disk, clock);
    }

    /** add_data.  The end of the file is read first; whatever a crash left behind is recovered then,
        and `base` is the file after that.  A good answer leaves the list with the element inserted
        exactly when recovery left the end where it was and the offset is not 0; then the element
        is before the one at `at` and the writes are those `InsertionIsAtomic` is about. */
    method AddData(data: string, at: nat, now: nat, clock: nat, ghost chain: seq<nat>)
        returns (answer: Answer, ghost i: nat)
      requires Remembers() && Recover(disk, clock) != Endless && now > 0
      requires Recover(disk, clock).Good? ==>
                 var d := Recover(disk, clock).image.disk;
                 && WellFormed(d, chain) && d.end <= disk.end
                 && (IsPlace(d, chain, at, disk.end) || at < HEADER || at > d.end)
      modifies this
      ensures Valid()
      ensures answer == Unrecoverable <==> !Recover(old(disk), clock).Good?
      ensures answer != Unrecoverable ==>
                && base == Recover(old(disk), clock).image.disk && WellFormed(base, chain)
                && answer == (if !IsPlace(base, chain, at, old(disk).end) then UnavailablePosition
                              else if data == "" then DataError else AllGood)
      ensures answer == UnavailablePosition ==> disk == Begun(base, stamp)
      ensures answer == AllGood ==>
                && plan == AddWrites(base, base.limits, base.size, stamp, at, old(disk).end, data) && done == |plan|
                && (Inserted(disk, stamp, Contents(base, chain), data) <==> base.end == old(disk).end && at != 0)
      ensures answer == AllGood && base.end == old(disk).end && at != 0 ==>
                && i <= |chain| && at == PlaceOf(base, chain, i)
                && WellFormed(disk, InsertAt(chain, i, base.end))
                && Contents(disk, InsertAt(chain, i, base.end)) == InsertAt(Contents(base, chain), i, data)
                && Current() && stamp == disk.stamp
      ensures answer == DataError && base.end == old(disk).end && at != 0 ==>
                (Survives(disk, clock, Contents(base, chain), Contents(base, chain)) <==> |chain| > 0)
      ensures answer != Unrecoverable ==>
                (Remembers() <==> answer == UnavailablePosition || !LosesStamp(base, chain, at, old(disk).end))
    {
      i := 0;
      var end := disk.end;
      var ok := Prepare(clock);
      if !ok {
        return Unrecoverable, i;
      }
      answer, i := AddRecovered(data, at, end, now, clock, chain);
    }

    // -------------------------------------------------------------------
    // Removal

    method MarkDataAsErased(it: Iter, status: Status)
      requires Valid() && it.current in disk.records && done + 3 <= |plan|
      requires plan[done] == WSlot(2, it) && plan[done + 1] == WStatus(status)
      requires plan[done + 2] == WMark(it.current, it.prev, it.next, false)
      modifies this`disk, this`done
      ensures Valid() && done == old(done) + 3
    {
      WriteIteratorBackup(2, it, status);
      Write(WMark(it.current, it.prev, it.next, false));
    }

    /** The only element: the file is cut to its header. */
    method RemoveOnlyObject()
      requires Valid() && Ahead(RemoveOnly(disk))
      modifies this`disk, this`done, this`limits
      ensures Valid() && done == old(done) + 5 && limits == Limits(HEADER, HEADER)
    {
      ghost var ws, n := RemoveOnly(disk), done;
      assert plan[n] == ws[0] && plan[n + 1] == ws[1] && plan[n + 2] == ws[2] && plan[n + 3] == ws[3];
      assert plan[n + 4] == ws[4];
      WriteIteratorBackup(0, Iter(HEADER, HEADER, HEADER), FtBegin);
      Write(WTruncate(HEADER));
      Write(WStatus(FtEnd));
      limits := Limits(HEADER, HEADER);
      Write(WLimits(limits));
    }

    /** The first or the last of several elements, `near` being its neighbour. */
    method RemoveEndObject(it: Iter, near: nat, limits': Limits, prev: nat, next: nat)
      requires Valid() && near in disk.records && it.current in disk.records
      requires Ahead(RemoveEnd(disk, limits, it, near, limits', prev, next))
      modifies this`disk, this`done, this`limits
      ensures Valid() && done == old(done) + 9 && limits == limits'
    {
      ghost var ws, n := RemoveEnd(disk, limits, it, near, limits', prev, next), done;
      assert plan[n] == ws[0] && plan[n + 1] == ws[1] && plan[n + 2] == ws[2] && plan[n + 3] == ws[3];
      assert plan[n + 4] == ws[4] && plan[n + 5] == ws[5] && plan[n + 6] == ws[6] && plan[n + 7] == ws[7];
      assert plan[n + 8] == ws[8];
      WriteLimitsBackup(RdLimits);
      limits := limits';
      Write(WLimits(limits));
      WriteIteratorBackup(0, IterAt(disk, near), RdIterator);
      Write(WIterator(near, prev, next));
      MarkDataAsErased(it, RdMark1);
    }

    method RemoveMiddleObject(it: Iter)
      requires Valid() && it.current in disk.records && it.prev in disk.records && it.next in disk.records
      requires it.prev != it.next && Ahead(RemoveMiddle(disk, it))
      modifies this`disk, this`done
      ensures Valid() && done == old(done) + 9
    {
      ghost var ws, n := RemoveMiddle(disk, it), done;
      assert plan[n] == ws[0] && plan[n + 1] == ws[1] && plan[n + 2] == ws[2] && plan[n + 3] == ws[3];
      assert plan[n + 4] == ws[4] && plan[n + 5] == ws[5] && plan[n + 6] == ws[6] && plan[n + 7] == ws[7];
      assert plan[n + 8] == ws[8];
      var next, prev := IterAt(disk, it.next), IterAt(disk, it.prev);
      WriteIteratorBackup(0, next, RdIterator2);
      WriteIteratorBackup(1, prev, RdIterator3);
      Write(WIterator(next.current, prev.current, next.next));
      Write(WIterator(prev.current, prev.prev, next.current));
      MarkDataAsErased(it, RdMark2);
    }

    /** removeDataPointer on list element `i`. */
    method RemoveDataPointer(it: Iter, ghost chain: seq<nat>, ghost i: nat)
      requires Valid() && Holds(disk, chain) && i < |chain| && chain[i] in disk.records && it == IterAt(disk, chain[i])
      requires CanRemove(disk, chain[i]) && Ahead(RemoveBody(disk, limits, chain[i]))
      modifies this`disk, this`done, this`limits
      ensures Valid() && done == old(done) + |RemoveBody(old(disk), old(limits), chain[i])|
      ensures limits == RemoveLimits(old(limits), it, old(disk).end)
    {
      ElementCanGo(disk, chain, i);
      if it.next == disk.end && it.prev == 0 {
        RemoveOnlyObject();
      } else if it.next == disk.end {
        RemoveEndObject(it, it.prev, Limits(limits.first, it.prev), disk.records[it.prev].prev, disk.end);
      } else if it.prev == 0 {
        RemoveEndObject(it, it.next, Limits(it.next, limits.last), 0, disk.records[it.next].next);
      } else {
        Removal.BetweenPlaces(disk, chain, i);
        RemoveMiddleObject(it);
      }
    }

    /** Takes the program of remove_data as the plan and issues its opening writes. */
    method BeginRemove(at: nat, ghost chain: seq<nat>, ghost i: nat) returns (ghost n: nat)
      requires WellFormed(disk, chain) && Current() && i < |chain| && at == chain[i]
      modifies this`disk, this`base, this`plan, this`done
      ensures Valid() && base == old(disk) && CanRemove(base, at)
      ensures plan == RemoveWrites(base, base.limits, base.size, stamp, at)
      ensures disk == Begun(base, stamp) && Holds(disk, chain)
      ensures done == 2 && CanRemove(disk, at) && Ahead(RemoveBody(disk, limits, at))
      ensures n == 2 + |RemoveBody(disk, limits, at)| && |plan| == n + 4
      ensures plan[n] == WClear && plan[n + 1] == WStatus(RdEmpty)
      ensures plan[n + 2] == WSize(size - 1) && plan[n + 3] == WStatus(Closed)
    {
      RemovePlan(disk, chain, i, stamp);
      n := 2 + |RemoveBody(disk, limits, at)|;
      base, plan, done := disk, RemoveWrites(disk, limits, size, stamp, at), 0;
      Begin();
    }

    /** The writes of remove_data, as planned. */
    method FollowRemove(at: nat, ghost chain: seq<nat>, ghost i: nat, ghost n: nat)
      requires Valid() && Holds(disk, chain) && i < |chain| && at == chain[i] && size > 0
      requires done == 2 && CanRemove(disk, at) && Ahead(RemoveBody(disk, limits, at))
      requires n == 2 + |RemoveBody(disk, limits, at)| && |plan| == n + 4
      requires plan[n] == WClear && plan[n + 1] == WStatus(RdEmpty)
      requires plan[n + 2] == WSize(size - 1) && plan[n + 3] == WStatus(Closed)
      modifies this`disk, this`limits, this`size, this`done
      ensures Valid() && done == |plan| && size == old(size) - 1
      ensures limits == RemoveLimits(old(limits), IterAt(old(disk), at), old(disk).end)
    {
      RemoveDataPointer(IterAt(disk, at), chain, i);
      Finish(RdEmpty, size - 1);
    }

    /** remove_data on a container at rest. */
    method Delete(at: nat, ghost chain: seq<nat>, ghost i: nat)
      requires WellFormed(disk, chain) && Current() && i < |chain| && at == chain[i]
      modifies this`disk, this`limits, this`size, this`base, this`plan, this`done
      ensures Valid() && base == old(disk) && CanRemove(base, at)
      ensures plan == RemoveWrites(base, base.limits, base.size, stamp, at) && done == |plan|
      ensures WellFormed(disk, RemoveAt(chain, i))
      ensures Contents(disk, RemoveAt(chain, i)) == RemoveAt(Contents(base, chain), i)
      ensures Current() && stamp == disk.stamp
      ensures |chain| > 1 ==> Erased(base, disk, at)
    {
      ghost var n := BeginRemove(at, chain, i);
      FollowRemove(at, chain, i, n);
      RemovalCompletes(base, chain, i, stamp);
      RemovedLimits(base, chain, i);
    }

    /** remove_data.  Whatever a crash left behind is recovered first; `base` is the file then.
        Offset 0 and the end of the file read as blank iterators with no state behind them; an
        erased record and an offset out of the file are refused. */
    method RemoveData(at: nat, now: nat, clock: nat, ghost chain: seq<nat>) returns (answer: Answer, ghost i: nat)
      requires Remembers() && Recover(disk, clock) != Endless
      requires Recover(disk, clock).Good? ==>
                 var d := Recover(disk, clock).image.disk;
                 && WellFormed(d, chain) && (at in d.records && d.records[at].live ==> at in chain)
                 && (at in d.records || at < HEADER || at >= d.end)
      modifies this
      ensures Valid()
      ensures answer == Unrecoverable <==> !Recover(old(disk), clock).Good?
      ensures answer != Unrecoverable ==>
                && base == Recover(old(disk), clock).image.disk
                && answer == (if at in base.records && base.records[at].live then AllGood
                              else if at == 0 || at == base.end then SyntaxError else UnavailablePosition)
      ensures answer == UnavailablePosition || answer == SyntaxError ==> disk == Begun(base, stamp)
      ensures answer == AllGood ==>
                && i < |chain| && at == chain[i] && WellFormed(base, chain) && CanRemove(base, at) && base.size > 0
                && plan == RemoveWrites(base, base.limits, base.size, stamp, at) && done == |plan|
                && WellFormed(disk, RemoveAt(chain, i))
                && Contents(disk, RemoveAt(chain, i)) == RemoveAt(Contents(base, chain), i)
                && Current() && stamp == disk.stamp
      ensures answer == AllGood && |chain| > 1 ==> Erased(base, disk, at)
      ensures answer != Unrecoverable ==> Remembers()
    {
      var ok := Prepare(clock);
      i := 0;
      if !ok {
        return Unrecoverable, i;
      }
      UpdatedStampIsLater(stamp, disk.stamp, now);
      stamp := UpdateStamp(stamp, disk.stamp, now);
      if at !in disk.records || !disk.records[at].live {
        EndsOfList(disk, chain);
        answer := if at == 0 || at == disk.end then SyntaxError else UnavailablePosition;
        BeginNothing();
        return;
      }
      i :| 0 <= i < |chain| && chain[i] == at;
      Delete(at, chain, i);
      answer := AllGood;
    }

    // -------------------------------------------------------------------
    // Compaction

    /** The loop of fillVector up to `end`: the data of the list, first to last, or an error when
        the file ends before that. */
    method ReadList(end: nat, ghost chain: seq<nat>) returns (answer: Answer, items: seq<string>)
      requires Holds(disk, chain) && limits == disk.limits && disk.end <= end
      ensures answer == if disk.end == end then AllGood else SyntaxError
      ensures answer == AllGood ==> items == Contents(disk, chain)
    {
      items := [];
      var at := limits.first;
      ghost var n: nat := 0;
      EndsOfList(disk, chain);
      while at < end
        invariant n <= |chain| && at == PlaceOf(disk, chain, n)
        invariant n < |chain| ==> Node(disk.records, disk.end, chain, n)
        invariant items == Contents(disk, chain)[..n]
        decreases |chain| - n
      {
        if at !in disk.records {
          return SyntaxError, items;
        }
        assert Contents(disk, chain)[n] == disk.records[at].data;
        items := items + [disk.records[at].data];
        at := disk.records[at].next;
        n := n + 1;
      }
      answer := AllGood;
    }

    /** fillVector.  It, too, reads the end of the file before a process that is already initialised
        recovers what a crash left behind: a list whose end moved is not read. */
    method FillVector(clock: nat, ghost chain: seq<nat>) returns (answer: Answer, items: seq<string>)
      requires Remembers() && initialized && Recover(disk, clock) != Endless
      requires Recover(disk, clock).Good? ==>
                 var d := Recover(disk, clock).image.disk; WellFormed(d, chain) && d.end <= disk.end
      modifies this
      ensures var o := Recover(old(disk), clock);
              && answer == (if !o.Good? then Unrecoverable
                            else if o.image.disk.end == old(disk).end then AllGood else SyntaxError)
              && (answer != Unrecoverable ==> disk == o.image.disk && Current())
              && (answer == AllGood ==> items == Contents(disk, chain))
    {
      var end := disk.end;
      var ok := Prepare(clock);
      items := [];
      if !ok {
        return Unrecoverable, items;
      }
      if Older(stamp, disk.stamp) {
        stamp := disk.stamp;
      }
      answer, items := ReadList(end, chain);
    }

    /** addDataAtEnd as the loop of compact_data calls it. */
    method AppendItem(item: string) returns (answer: Answer)
      requires CanAdd(disk, limits, disk.end, disk.end) && limits == disk.limits && limits.last != 0
      modifies this`disk, this`limits, this`base, this`plan, this`done
      ensures answer == if item == "" then DataError else AllGood
      ensures disk == if item == "" then Compaction.Refused(old(disk)) else Compaction.Append(old(disk), item)
      ensures Valid() && limits == AddLimits(old(limits), old(disk).end, old(disk).end)
    {
      base, plan, done := disk, AddBody(disk, limits, disk.end, disk.end, item), 0;
      answer := AddDataAtEnd(item, disk.end);
    }

    /** The loop of compact_data over the elements read before, up to one that is refused. */
    method WriteAll(items: seq<string>, clock: nat) returns (answer: Answer)
      requires Valid() && disk == Compaction.Rebuilt(clock, []) && limits == disk.limits
      modifies this`disk, this`limits, this`base, this`plan, this`done
      ensures Valid()
      ensures var n := Compaction.BeforeEmpty(items);
              if n == |items| then answer == AllGood && disk == Compaction.Rebuilt(clock, items) && limits == disk.limits
              else answer == DataError && disk == Compaction.Refused(Compaction.Rebuilt(clock, items[..n]))
    {
      answer := AllGood;
      var n := 0;
      while n < |items|
        invariant Valid() && answer == AllGood && n <= |items| && limits == disk.limits
        invariant forall i :: 0 <= i < n ==> items[i] != ""
        invariant disk == Compaction.Rebuilt(clock, items[..n])
      {
        Compaction.RebuiltCanGrow(clock, items[..n], items[n]);
        assert items[..n + 1][..n] == items[..n];
        answer := AppendItem(items[n]);
        if answer != AllGood {
          return;
        }
        n := n + 1;
      }
      assert items[..n] == items;
    }

    /** compact_data: the list is read, the file emptied and the list written again.  A process that
        first initialises recovers before it reads the end of the file, so nothing moves under it. */
    method CompactData(clock: nat, ghost chain: seq<nat>) returns (answer: Answer)
      requires Remembers() && Recover(disk, clock) != Endless
      requires Recover(disk, clock).Good? ==>
                 var d := Recover(disk, clock).image.disk;
                 && WellFormed(d, chain) && d.end <= disk.end && (d.stamp == disk.stamp || Anew(disk))
      modifies this
      ensures var o := Recover(old(disk), clock);
              && (answer == Unrecoverable <==> !o.Good?)
              && (answer == SyntaxError <==> o.Good? && old(initialized) && o.image.disk.end != old(disk).end)
              && (answer == SyntaxError ==> disk == o.image.disk)
              && (answer == AllGood || answer == DataError ==>
                    var items := Contents(o.image.disk, chain);
                    var n := Compaction.BeforeEmpty(items);
                    if n == |items|
                    then answer == AllGood && disk == Compaction.Compacted(clock, items) && Current() && Remembers()
                    else answer == DataError && disk == Compaction.Refused(Compaction.Rebuilt(clock, items[..n])))
              && answer in {AllGood, DataError, SyntaxError, Unrecoverable}
    {
      if !initialized {
        var ok := Prepare(clock);
        if !ok {
          return Unrecoverable;
        }
        RecoveredIsClosed(old(disk), clock);
      }
      var items: seq<string>;
      answer, items := FillVector(clock, chain);
      if answer != AllGood {
        return;
      }
      answer := Rewrite(items, clock);
    }

    /** The emptied file and the elements one by one; the new file has a new stamp. */
    method Rewrite(items: seq<string>, clock: nat) returns (answer: Answer)
      modifies this`disk, this`limits, this`size, this`stamp, this`base, this`plan, this`done
      ensures Valid()
      ensures var n := Compaction.BeforeEmpty(items);
              if n == |items|
              then answer == AllGood && disk == Compaction.Compacted(clock, items) && Current() && stamp == disk.stamp
                   && disk.stamp == Stamp(clock, 0)
              else answer == DataError && disk == Compaction.Refused(Compaction.Rebuilt(clock, items[..n]))
    {
      CreateEmptyFile(clock);
      Become(Image(disk.(status := Opened), limits));
      size := 0;
      answer := WriteAll(items, clock);
      if answer != AllGood {
        return;
      }
      CloseRewritten(items, clock);
    }

    /** The closing writes of compact_data. */
    method CloseRewritten(items: seq<string>, clock: nat)
      requires Valid() && disk == Compaction.Rebuilt(clock, items) && limits == disk.limits
      modifies this`disk, this`size, this`base, this`plan, this`done
      ensures Valid() && disk == Compaction.Compacted(clock, items) && Current() && disk.stamp == Stamp(clock, 0)
    {
      Compaction.RebuiltKeepsStamp(clock, items);
      base, plan, done := disk, [WClear, WStatus(Empty), WSize(|items|), WStatus(Closed)], 0;
      Finish(Empty, |items|);
      EpilogueStates(base, Empty, |items|, 4);
    }
  }

  /** add_data behind a list at rest. */
  method AddLast(f: FileContainer, data: string, now: nat, clock: nat, ghost chain: seq<nat>)
    requires f.Remembers() && WellFormed(f.disk, chain) && data != "" && now > 0
    modifies f
    ensures f.Remembers() && WellFormed(f.disk, chain + [old(f.disk.end)])
    ensures Contents(f.disk, chain + [old(f.disk.end)]) == old(Contents(f.disk, chain)) + [data]
  {
    ClosedNeedsNoRecovery(f.disk, clock);
    EndsOfList(f.disk, chain);
    var answer, i := f.AddData(data, f.disk.end, now, clock, chain);
    assert i == |chain|;
    Compaction.AtTheEnd(chain, old(f.disk.end));
    Compaction.AtTheEnd(old(Contents(f.disk, chain)), data);
  }

  /** remove_data of element `i` of a list at rest. */
  method RemoveElement(f: FileContainer, at: nat, now: nat, clock: nat, ghost chain: seq<nat>, ghost i: nat)
    requires f.Remembers() && WellFormed(f.disk, chain) && i < |chain| && at == chain[i]
    modifies f
    ensures f.Remembers() && WellFormed(f.disk, RemoveAt(chain, i))
    ensures Contents(f.disk, RemoveAt(chain, i)) == RemoveAt(old(Contents(f.disk, chain)), i)
  {
    ClosedNeedsNoRecovery(f.disk, clock);
    NewElement(f.disk, chain, i);
    var answer, j := f.RemoveData(at, now, clock, chain);
  }

  /** The record stays in the file, marked as erased, and the others are not marked. */
  ghost predicate Erased(b: Disk, f: Disk, at: nat) {
    at in f.records && !f.records[at].live && OthersStay(b, f, at)
  }

  /** An element cannot be removed twice: the second time its offset is refused and nothing changes but the
      stamp and the status. */
  method RemoveTwice(f: FileContainer, at: nat, now: nat, later: nat, clock: nat, ghost chain: seq<nat>, ghost i: nat)
      returns (answer: Answer)
    requires f.Remembers() && WellFormed(f.disk, chain) && i < |chain| && |chain| > 1 && at == chain[i]
    modifies f
    ensures answer == UnavailablePosition && f.Remembers()
    ensures Holds(f.disk, RemoveAt(chain, i))
    ensures Contents(f.disk, RemoveAt(chain, i)) == RemoveAt(old(Contents(f.disk, chain)), i)
  {
    ClosedNeedsNoRecovery(f.disk, clock);
    NewElement(f.disk, chain, i);
    var first, j := f.RemoveData(at, now, clock, chain);
    ghost var items := Contents(f.disk, RemoveAt(chain, i));
    ghost var d := f.disk;
    EndsOfList(d, RemoveAt(chain, i));
    ClosedNeedsNoRecovery(d, clock);
    ghost var k;
    answer, k := f.RemoveData(at, later, clock, RemoveAt(chain, i));
    SameBody(d, f.disk, RemoveAt(chain, i));
  }

  /** What one process adds it can remove again: two operations in a row, for every list and every
      data that is not refused. */
  method AddThenRemove(f: FileContainer, data: string, now: nat, later: nat, clock: nat, ghost chain: seq<nat>)
    requires f.Remembers() && WellFormed(f.disk, chain) && data != "" && now > 0
    modifies f
    ensures f.Remembers() && WellFormed(f.disk, chain) && Contents(f.disk, chain) == old(Contents(f.disk, chain))
  {
    var at := f.disk.end;
    ghost var items := Contents(f.disk, chain);
    AddLast(f, data, now, clock, chain);
    RemoveElement(f, at, later, clock, chain + [at], |chain|);
    assert RemoveAt(chain + [at], |chain|) == chain && RemoveAt(items + [data], |chain|) == items;
  }

  lemma NewElement(d: Disk, chain: seq<nat>, j: nat)
    requires Holds(d, chain) && j < |chain|
    ensures chain[j] in d.records && d.records[chain[j]].live
  {
    assert Node(d.records, d.end, chain, j);
  }

  lemma ClosedNeedsNoRecovery(d: Disk, clock: nat)
    requires d.status == Closed
    ensures Recover(d, clock) == Good(Image(d, d.limits))
  {
  }

  lemma RecoveredIsClosed(c: Disk, clock: nat)
    requires Recover(c, clock).Good?
    ensures var d := Recover(c, clock).image.disk; Recover(d, clock) == Good(Image(d, d.limits))
  {
    ClosedNeedsNoRecovery(Recover(c, clock).image.disk, clock);
  }

  /** The limits kept in memory through a removal are the ends of the new list. */
  lemma RemovedLimits(d: Disk, chain: seq<nat>, i: nat)
    requires WellFormed(d, chain) && i < |chain|
    ensures chain[i] in d.records
    ensures Bounded(RemoveLimits(d.limits, IterAt(d, chain[i]), d.end), HEADER, RemoveAt(chain, i))
  {
    ElementCanGo(d, chain, i);
    assert Node(d.records, d.end, chain, i);
  }

  /** Where the parts of an operation's program are. */
  lemma PlanParts(stamp: Stamp, body: seq<Write>, status: Status, count: nat)
    ensures var n, ws := 2 + |body|, Prologue(stamp) + body + [WClear, WStatus(status), WSize(count), WStatus(Closed)];
            && |ws| == n + 4
            && ws[0] == WStamp(stamp) && ws[1] == WStatus(Opened)
            && (forall j :: 0 <= j < |body| ==> ws[2 + j] == body[j])
            && ws[n] == WClear && ws[n + 1] == WStatus(status)
            && ws[n + 2] == WSize(count) && ws[n + 3] == WStatus(Closed)
  {
  }

  /** The disk add_data leaves, all its writes done or, the data being empty, those before the refusal. */
  ghost function Left(d: Disk, stamp: Stamp, at: nat, end: nat, data: string): Disk {
    var ws := AddWrites(d, d.limits, d.size, stamp, at, end, data);
    if data == "" && RefusalPoint(d.limits, at, end) <= |ws| then StateAt(d, ws, RefusalPoint(d.limits, at, end))
    else RunAll(d, ws)
  }

  lemma InsertOutcome(d: Disk, chain: seq<nat>, stamp: Stamp, at: nat, end: nat, data: string, f: Disk, clock: nat)
    returns (i: nat)
    requires WellFormed(d, chain) && IsPlace(d, chain, at, end) && d.end <= end && stamp.epoch > 0
    requires f == Left(d, stamp, at, end, data)
    ensures data != "" ==> (Inserted(f, stamp, Contents(d, chain), data) <==> d.end == end && at != 0)
    ensures d.end == end && at != 0 ==> i <= |chain| && at == PlaceOf(d, chain, i)
    ensures data != "" && d.end == end && at != 0 ==>
              && WellFormed(f, InsertAt(chain, i, d.end))
              && Contents(f, InsertAt(chain, i, d.end)) == InsertAt(Contents(d, chain), i, data)
    ensures data == "" && d.end == end && at != 0 ==>
              (Survives(f, clock, Contents(d, chain), Contents(d, chain)) <==> |chain| > 0)
    ensures LosesStamp(d, chain, at, end) ==> f.stamp.epoch == 0
  {
    i := 0;
    if data != "" {
      InsertedIffEndIsFresh(d, chain, stamp, at, end, data);
    }
    if LosesStamp(d, chain, at, end) {
      StampStaysLost(d, chain, stamp, at, end, data);
    } else if d.end == end {
      i := IndexOf(d, chain, at);
      if data == "" {
        RefusalSurvives(d, chain, i, stamp, clock);
      } else {
        InsertionCompletes(d, chain, i, data, stamp);
      }
    }
  }

  /** A refused insertion is one interrupted before its record is written. */
  lemma RefusalSurvives(d: Disk, chain: seq<nat>, i: nat, stamp: Stamp, clock: nat)
    requires WellFormed(d, chain) && i <= |chain|
    ensures var at := PlaceOf(d, chain, i);
            var ws := AddWrites(d, d.limits, d.size, stamp, at, d.end, "");
            var k := RefusalPoint(d.limits, at, d.end);
            && k <= |ws|
            && (Survives(StateAt(d, ws, k), clock, Contents(d, chain), Contents(d, chain)) <==> |chain| > 0)
  {
    var at, b := PlaceOf(d, chain, i), Begun(d, stamp);
    var ws, k := AddWrites(d, d.limits, d.size, stamp, at, d.end, ""), RefusalPoint(d.limits, at, d.end);
    PlaceIsValid(d, chain, i);
    UnfinishedIsUndone(d, chain, i, "", stamp, k, StateAt(d, ws, k), clock);
    if |chain| == 0 {
      SameBody(d, b, chain);
      SplitCrash(d, stamp, AddBody(d, d.limits, at, d.end, ""), AddEpilogue(d.size), k, StateAt(d, ws, k));
      Insertion.FirstStates(b, "", 3);
    }
  }

  /** What addDataInMiddle can be asked for: an inner element, offset 0 or the end of the file. */
  ghost predicate MiddlePlace(d: Disk, at: nat) {
    && (forall p :: p in d.records ==> p < d.end) && d.limits.last != 0 && d.end != 0
    && (|| Insertion.Inner(d, at)
        || (&& at !in d.records && 0 !in d.records && (at == 0 || at == d.end)
            && (d.limits.last in d.records || (d.limits.last == d.end && at == 0))))
  }

  /** The disk with both neighbours linked. */
  function MiddleLinked(d: Disk, at: nat, end: nat): Disk {
    var before := LinkOf(d, at).prev;
    WriteIterator(WriteIterator(d, at, end, LinkOf(d, at).next), before, LinkOf(d, before).prev, end)
  }

  /** What the last element then reads as, and where the file ends, once the record is appended. */
  lemma MiddleIsLinked(d: Disk, at: nat, end: nat, r: Record)
    requires MiddlePlace(d, at) && r.prev == LinkOf(d, at).prev && r.next == at
    ensures var last, linked := d.limits.last, MiddleLinked(d, at, end);
            var records := linked.records[linked.end := r];
            && last in records
            && records[last].prev == (if last == at then end else LinkOf(d, last).prev)
            && records[last].next == LinkOf(d, last).next
            && linked.end + r.Size() == PastRecord(d, at, r.data)
            && (at in d.records && 0 !in d.records ==> linked.stamp == d.stamp && linked.size == d.size)
  {
  }

  /** The ends of a list, as the insertion paths need them. */
  lemma EndsOfList(d: Disk, chain: seq<nat>)
    requires Holds(d, chain)
    ensures d.limits.first != 0 && d.limits.last != 0 && d.end !in d.records && 0 !in d.records && d.end != 0
    ensures |chain| > 0 ==> d.limits.first in d.records && d.limits.last in d.records && d.limits.first in chain
    ensures |chain| == 0 ==> d.limits.first == d.limits.last == d.end
    ensures forall p :: p in d.records ==> p < d.end
    ensures forall p :: p in chain ==> p in d.records && p != d.end && p != 0
  {
    if |chain| > 0 {
      assert Node(d.records, d.end, chain, 0) && Node(d.records, d.end, chain, |chain| - 1);
    }
    forall p | p in chain
      ensures p in d.records
    {
      var j :| 0 <= j < |chain| && chain[j] == p;
      assert Node(d.records, d.end, chain, j);
    }
  }

  lemma UpdatedStampIsLater(own: Stamp, seen: Stamp, now: nat)
    requires own.counter < COUNTERS
    ensures UpdateStamp(own, seen, now).counter < COUNTERS && UpdateStamp(own, seen, now).epoch >= now
  {
  }

  /** The program of add_data, part by part, before and after its opening writes. */
  lemma AddPlan(d: Disk, chain: seq<nat>, at: nat, end: nat, data: string, stamp: Stamp)
    requires WellFormed(d, chain)
    ensures var e, body := Begun(d, stamp), AddBody(d, d.limits, at, end, data);
            var n, ws := 2 + |body|, AddWrites(d, d.limits, d.size, stamp, at, end, data);
            && Holds(e, chain) && AddBody(e, d.limits, at, end, data) == body
            && |ws| == n + 4
            && ws[0] == WStamp(stamp) && ws[1] == WStatus(Opened)
            && (forall j :: 0 <= j < |body| ==> ws[2 + j] == body[j])
            && ws[n] == WClear && ws[n + 1] == WStatus(AdEmpty)
            && ws[n + 2] == WSize(d.size + 1) && ws[n + 3] == WStatus(Closed)
  {
    SameBody(d, Begun(d, stamp), chain);
    SameAddBody(d, Begun(d, stamp), at, end, data);
    PlanParts(stamp, AddBody(d, d.limits, at, end, data), AdEmpty, d.size + 1);
  }

  /** The program of remove_data, part by part, before and after its opening writes. */
  lemma RemovePlan(d: Disk, chain: seq<nat>, i: nat, stamp: Stamp)
    requires WellFormed(d, chain) && i < |chain|
    ensures CanRemove(d, chain[i])
    ensures var e, body := Begun(d, stamp), RemoveBody(d, d.limits, chain[i]);
            var n, ws := 2 + |body|, RemoveWrites(d, d.limits, d.size, stamp, chain[i]);
            && Holds(e, chain) && CanRemove(e, chain[i]) && RemoveBody(e, d.limits, chain[i]) == body
            && |ws| == n + 4
            && ws[0] == WStamp(stamp) && ws[1] == WStatus(Opened)
            && (forall j :: 0 <= j < |body| ==> ws[2 + j] == body[j])
            && ws[n] == WClear && ws[n + 1] == WStatus(RdEmpty)
            && ws[n + 2] == WSize(d.size - 1) && ws[n + 3] == WStatus(Closed)
  {
    ElementCanGo(d, chain, i);
    SameBody(d, Begun(d, stamp), chain);
    SameRemoveBody(d, Begun(d, stamp), chain[i]);
    PlanParts(stamp, RemoveBody(d, d.limits, chain[i]), RdEmpty, d.size - 1);
  }
}
