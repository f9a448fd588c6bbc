/** The sequence of disk writes each public operation issues, and the list it leaves
    when it runs to the end. */
module Programs {
  import opened Disk

  /** updateTimeStamp, then the status byte says the container is in use. */
  function Prologue(stamp: Stamp): seq<Write> {
    [WStamp(stamp), WStatus(Opened)]
  }

  function AddEpilogue(size: nat): seq<Write> {
    [WClear, WStatus(AdEmpty), WSize(size + 1), WStatus(Closed)]
  }

  function RemoveEpilogue(size: nat): seq<Write>
    requires size > 0
  {
    [WClear, WStatus(RdEmpty), WSize(size - 1), WStatus(Closed)]
  }

  // ---------------------------------------------------------------------
  // Insertion

  // `end` is the end of the file as add_data read it on entry; the record is appended at the
  // end the file has when it is written.

  /** addDataAtEnd on an empty list: there is no element to save. */
  function AddFirst(lim: Limits, end: nat, data: string): seq<Write> {
    var next := end + DataSize(|data|);
    [WLimitsBackup(lim), WStatus(AeLimits),
     WLimits(Limits(lim.first, end)),
     WStatus(AeWriting), WAppend(Record(0, next, true, data, lim.last, next)), WStatus(AeWritten)]
  }

  /** addDataAtEnd behind the last element. */
  function AddAtEnd(d: Disk, lim: Limits, end: nat, data: string): seq<Write> {
    var next := end + DataSize(|data|);
    [WSlot(0, LinkOf(d, lim.last)), WStatus(AeIterator),
     WIterator(lim.last, LinkOf(d, lim.last).prev, end),
     WLimitsBackup(lim), WStatus(AeLimits),
     WLimits(Limits(lim.first, end)),
     WStatus(AeWriting), WAppend(Record(lim.last, next, true, data, lim.last, next)), WStatus(AeWritten)]
  }

  /** resetNextOfLast: the new record lies behind the last element, which must point past it.
      `prev` is what the last element points back to by then, `past` where the file ends. */
  function ResetLast(d: Disk, lim: Limits, prev: nat, past: nat, status: Status): seq<Write> {
    [WSlot(2, Iter(prev, LinkOf(d, lim.last).next, lim.last)), WStatus(status),
     WIterator(lim.last, prev, past)]
  }

  /** Where the file ends after an iterator was written at p and the record appended. */
  function PastRecord(d: Disk, p: nat, data: string): nat {
    WriteIterator(d, p, 0, 0).end + DataSize(|data|)
  }

  /** addDataAtBegin. */
  function AddAtBegin(d: Disk, lim: Limits, end: nat, data: string): seq<Write> {
    [WSlot(0, LinkOf(d, lim.first)), WStatus(AbIterator),
     WIterator(lim.first, end, LinkOf(d, lim.first).next),
     WLimitsBackup(lim), WStatus(AbLimits),
     WLimits(Limits(end, lim.last)),
     WStatus(AbWriting),
     WAppend(Record(0, lim.first, true, data, lim.last, end + DataSize(|data|))), WStatus(AbWritten)]
    + ResetLast(d, lim, if lim.last == lim.first then end else LinkOf(d, lim.last).prev,
                PastRecord(d, lim.first, data), AbLast)
  }

  /** addDataInMiddle, before the element at `at`. */
  function AddInMiddle(d: Disk, lim: Limits, at: nat, end: nat, data: string): seq<Write> {
    var before := LinkOf(d, at).prev;
    [WSlot(0, LinkOf(d, at)), WStatus(AmIterator1),
     WSlot(1, LinkOf(d, before)), WStatus(AmIterator2),
     WIterator(at, end, LinkOf(d, at).next),
     WIterator(before, LinkOf(d, before).prev, end),
     WStatus(AmWriting),
     WAppend(Record(before, at, true, data, lim.last, end + DataSize(|data|))), WStatus(AmWritten)]
    + ResetLast(d, lim, if lim.last == at then end else LinkOf(d, lim.last).prev, PastRecord(d, at, data), AmLast)
  }

  /** Every iterator add_data reads on its way is there to be read. */
  predicate CanAdd(d: Disk, lim: Limits, at: nat, end: nat) {
    if at == end then lim.last == end || Readable(d, lim.last)
    else Readable(d, lim.last) && Readable(d, at) && (at == lim.first || Readable(d, LinkOf(d, at).prev))
  }

  function AddBody(d: Disk, lim: Limits, at: nat, end: nat, data: string): seq<Write> {
    if at == end then
      if lim.last == end then AddFirst(lim, end, data) else AddAtEnd(d, lim, end, data)
    else if at == lim.first then AddAtBegin(d, lim, end, data)
    else AddInMiddle(d, lim, at, end, data)
  }

  /** The writes of add_data before writeDataHere looks at the data and refuses an empty string. */
  function RefusalPoint(lim: Limits, at: nat, end: nat): nat {
    if at == end && lim.last == end then 5 else 8
  }

  function AddWrites(d: Disk, lim: Limits, size: nat, stamp: Stamp, at: nat, end: nat, data: string): seq<Write> {
    Prologue(stamp) + AddBody(d, lim, at, end, data) + AddEpilogue(size)
  }

  // ---------------------------------------------------------------------
  // Removal

  /** markDataAsErased. */
  function MarkErased(it: Iter, status: Status): seq<Write> {
    [WSlot(2, it), WStatus(status), WMark(it.current, it.prev, it.next, false)]
  }

  /** Removing the only element truncates the file to its header. */
  function RemoveOnly(d: Disk): seq<Write> {
    [WSlot(0, Iter(HEADER, HEADER, HEADER)), WStatus(FtBegin),
     WTruncate(HEADER), WStatus(FtEnd),
     WLimits(Limits(HEADER, HEADER))]
  }

  /** Removing the element at one end: the limits move to its only neighbour `near`, whose
      pointers become `prev` and `next`. */
  function RemoveEnd(d: Disk, lim: Limits, it: Iter, near: nat, lim': Limits, prev: nat, next: nat): seq<Write>
    requires near in d.records
  {
    [WLimitsBackup(lim), WStatus(RdLimits),
     WLimits(lim'),
     WSlot(0, IterAt(d, near)), WStatus(RdIterator),
     WIterator(near, prev, next)]
    + MarkErased(it, RdMark1)
  }

  function RemoveLast(d: Disk, lim: Limits, it: Iter): seq<Write>
    requires it.prev in d.records
  {
    RemoveEnd(d, lim, it, it.prev, Limits(lim.first, it.prev), d.records[it.prev].prev, d.end)
  }

  function RemoveFirst(d: Disk, lim: Limits, it: Iter): seq<Write>
    requires it.next in d.records
  {
    RemoveEnd(d, lim, it, it.next, Limits(it.next, lim.last), 0, d.records[it.next].next)
  }

  function RemoveMiddle(d: Disk, it: Iter): seq<Write>
    requires it.prev in d.records && it.next in d.records
  {
    [WSlot(0, IterAt(d, it.next)), WStatus(RdIterator2),
     WSlot(1, IterAt(d, it.prev)), WStatus(RdIterator3),
     WIterator(it.next, it.prev, d.records[it.next].next),
     WIterator(it.prev, d.records[it.prev].prev, it.next)]
    + MarkErased(it, RdMark2)
  }

  /** The record at `at` is live and its neighbours, where it has any, are records. */
  predicate CanRemove(d: Disk, at: nat) {
    && at in d.records
    && d.records[at].live
    && (d.records[at].prev == 0 || d.records[at].prev in d.records)
    && (d.records[at].next == d.end || d.records[at].next in d.records)
  }

  /** removeDataPointer. */
  function RemoveBody(d: Disk, lim: Limits, at: nat): seq<Write>
    requires CanRemove(d, at)
  {
    var it := IterAt(d, at);
    if it.next == d.end && it.prev == 0 then RemoveOnly(d)
    else if it.next == d.end then RemoveLast(d, lim, it)
    else if it.prev == 0 then RemoveFirst(d, lim, it)
    else RemoveMiddle(d, it)
  }

  function RemoveWrites(d: Disk, lim: Limits, size: nat, stamp: Stamp, at: nat): seq<Write>
    requires CanRemove(d, at) && size > 0
  {
    Prologue(stamp) + RemoveBody(d, lim, at) + RemoveEpilogue(size)
  }

  // ---------------------------------------------------------------------
  // Running a program in parts

  lemma {:induction false} StateAtConcat(d: Disk, a: seq<Write>, b: seq<Write>, k: nat)
    requires k <= |a| + |b|
    ensures StateAt(d, a + b, k) == if k <= |a| then StateAt(d, a, k) else StateAt(RunAll(d, a), b, k - |a|)
    decreases k
  {
    if k > 0 {
      StateAtConcat(d, a, b, k - 1);
      if k <= |a| {
        assert (a + b)[k - 1] == a[k - 1];
      } else {
        assert (a + b)[k - 1] == b[k - 1 - |a|];
      }
    }
  }

  lemma RunConcat(d: Disk, a: seq<Write>, b: seq<Write>)
    ensures RunAll(d, a + b) == RunAll(RunAll(d, a), b)
  {
    StateAtConcat(d, a, b, |a| + |b|);
  }

  /** A crash of a program in two parts is a crash of one of them. */
  lemma CrashConcat(d: Disk, a: seq<Write>, b: seq<Write>, k: nat, c: Disk)
    requires k <= |a| + |b| && CrashedAt(d, a + b, k, c)
    ensures k < |a| ==> CrashedAt(d, a, k, c)
    ensures k >= |a| ==> CrashedAt(RunAll(d, a), b, k - |a|, c)
  {
    StateAtConcat(d, a, b, k);
    if k < |a| {
      assert (a + b)[k] == a[k];
    } else if k < |a| + |b| {
      assert (a + b)[k] == b[k - |a|];
    }
  }

  // ---------------------------------------------------------------------
  // The list a finished operation leaves

  function InsertAt<T>(s: seq<T>, i: nat, x: T): (r: seq<T>)
    requires i <= |s|
  {
    s[..i] + [x] + s[i..]
  }

  function RemoveAt<T>(s: seq<T>, i: nat): (r: seq<T>)
    requires i < |s|
  {
    s[..i] + s[i + 1..]
  }

  /** What inserting a record at offset `end` before element `i` must do to the others:
      its neighbours point at it, and a last element that stays last points at the new end. */
  ghost predicate Spliced(r: map<nat, Record>, r': map<nat, Record>, end: nat, end': nat, chain: seq<nat>, i: nat)
    requires i <= |chain|
  {
    forall j {:trigger Node(r, end, chain, j)} :: 0 <= j < |chain| && Node(r, end, chain, j) ==>
      && chain[j] in r'
      && r'[chain[j]] == r[chain[j]].(
           prev := if j == i then end else r[chain[j]].prev,
           next := if j + 1 == i then end else if j + 1 == |chain| then end' else r[chain[j]].next)
  }

  lemma SpliceLinks(r: map<nat, Record>, r': map<nat, Record>, end: nat, end': nat, chain: seq<nat>, i: nat)
    requires Linked(r, end, chain) && i <= |chain| && end !in r
    requires Spliced(r, r', end, end', chain, i)
    requires end in r' && r'[end].live
    requires r'[end].prev == if i == 0 then 0 else chain[i - 1]
    requires r'[end].next == if i == |chain| then end' else chain[i]
    ensures Linked(r', end', InsertAt(chain, i, end))
  {
    var chain' := InsertAt(chain, i, end);
    forall j | 0 <= j < |chain'|
      ensures Node(r', end', chain', j)
    {
      if j < i {
        assert Node(r, end, chain, j);
      } else if j > i {
        assert Node(r, end, chain, j - 1);
      }
    }
    forall a, b | 0 <= a < b < |chain'|
      ensures chain'[a] != chain'[b]
    {
      if a != i {
        assert Node(r, end, chain, if a < i then a else a - 1);
      }
      if b != i {
        assert Node(r, end, chain, if b < i then b else b - 1);
      }
    }
  }

  /** What removing element `i` must do to the others: its neighbours point at each other. */
  ghost predicate Unspliced(r: map<nat, Record>, r': map<nat, Record>, end: nat, chain: seq<nat>, i: nat)
    requires i < |chain|
  {
    forall j {:trigger Node(r, end, chain, j)} :: 0 <= j < |chain| && j != i && Node(r, end, chain, j) ==>
      && chain[j] in r'
      && r'[chain[j]] == r[chain[j]].(
           prev := if j == i + 1 then PrevIn(chain, i) else r[chain[j]].prev,
           next := if j + 1 == i then NextIn(chain, i, end) else r[chain[j]].next)
  }

  lemma UnspliceLinks(r: map<nat, Record>, r': map<nat, Record>, end: nat, chain: seq<nat>, i: nat)
    requires Linked(r, end, chain) && i < |chain|
    requires Unspliced(r, r', end, chain, i)
    ensures Linked(r', end, RemoveAt(chain, i))
  {
    var chain' := RemoveAt(chain, i);
    forall j | 0 <= j < |chain'|
      ensures Node(r', end, chain', j)
    {
      assert Node(r, end, chain, if j < i then j else j + 1);
    }
  }

  /** Records keep their extent while their data does. */
  lemma LayoutKept(b: Disk, f: Disk)
    requires Layout(b) && b.end <= f.end
    requires forall p :: p in f.records ==> if p in b.records then f.records[p].data == b.records[p].data
                                            else p == b.end && f.end == p + f.records[p].Size()
    ensures Layout(f)
  {
    forall p, q | p in f.records && q in f.records && p < q
      ensures Before(f.records, p, q)
    {
      assert p in b.records && (q in b.records ==> Before(b.records, p, q));
    }
  }

  /** A finished insertion: from the links it wrote follows the list with the new element. */
  lemma InsertDone(b: Disk, f: Disk, chain: seq<nat>, i: nat, data: string)
    requires Holds(b, chain) && i <= |chain|
    requires f.records.Keys == b.records.Keys + {b.end} && f.end == b.end + DataSize(|data|)
    requires forall p :: p in b.records ==> f.records[p].data == b.records[p].data
    requires Spliced(b.records, f.records, b.end, f.end, chain, i)
    requires f.records[b.end].live && f.records[b.end].data == data
    requires f.records[b.end].prev == if i == 0 then 0 else chain[i - 1]
    requires f.records[b.end].next == if i == |chain| then f.end else chain[i]
    requires f.limits.first == if i == 0 then b.end else b.limits.first
    requires f.limits.last == if i == |chain| then b.end else b.limits.last
    ensures Holds(f, InsertAt(chain, i, b.end))
    ensures Contents(f, InsertAt(chain, i, b.end)) == InsertAt(Contents(b, chain), i, data)
  {
    SpliceLinks(b.records, f.records, b.end, f.end, chain, i);
    LayoutKept(b, f);
    InsertContents(b, f, chain, i, data);
  }

  lemma InsertContents(b: Disk, f: Disk, chain: seq<nat>, i: nat, data: string)
    requires Linked(b.records, b.end, chain) && i <= |chain|
    requires Linked(f.records, f.end, InsertAt(chain, i, b.end))
    requires forall p :: p in b.records ==> p in f.records && f.records[p].data == b.records[p].data
    requires b.end in f.records && f.records[b.end].data == data
    ensures Contents(f, InsertAt(chain, i, b.end)) == InsertAt(Contents(b, chain), i, data)
  {
    var s, s' := Contents(b, chain), Contents(f, InsertAt(chain, i, b.end));
    forall j | 0 <= j < |s'|
      ensures s'[j] == InsertAt(s, i, data)[j]
    {
      if j != i {
        assert s[if j < i then j else j - 1] == s'[j];
      }
    }
  }

  /** A finished removal: the element is gone from the list, its record stays in the file. */
  lemma RemoveDone(b: Disk, f: Disk, chain: seq<nat>, i: nat)
    requires Holds(b, chain) && i < |chain| && |chain| > 1
    requires f.records.Keys == b.records.Keys && f.end == b.end
    requires forall p :: p in b.records ==> f.records[p].data == b.records[p].data
    requires Unspliced(b.records, f.records, b.end, chain, i)
    requires f.limits.first == if i == 0 then chain[1] else b.limits.first
    requires f.limits.last == if i + 1 == |chain| then chain[i - 1] else b.limits.last
    ensures Holds(f, RemoveAt(chain, i))
    ensures Contents(f, RemoveAt(chain, i)) == RemoveAt(Contents(b, chain), i)
  {
    var chain' := RemoveAt(chain, i);
    UnspliceLinks(b.records, f.records, b.end, chain, i);
    LayoutKept(b, f);
    var s, s' := Contents(b, chain), Contents(f, chain');
    forall j | 0 <= j < |chain'|
      ensures s'[j] == RemoveAt(s, i)[j]
    {
      assert Node(b.records, b.end, chain, if j < i then j else j + 1);
      assert s[if j < i then j else j + 1] == s'[j];
    }
  }
}
