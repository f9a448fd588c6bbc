/** The file behind a FileContainer, at the granularity of its own disk writes.

    The header holds a stamp, the element count, a status byte, four iterator
    backup slots, a backup of the limits and the limits themselves.  The body is
    a set of records, each found at its file offset.  Every write the container
    issues is a value of type `Write`, so that an operation is a sequence of
    writes and a crash is a prefix of it. */
module Disk {

  const SLOTS: nat := 4                             // fc_s_iteratorBackupNumber
  const HEADER: nat := 391                          // fc_s_headerSize, see Layout.HeaderTiles

  /** calculateDataSize: the bytes a record with `n` bytes of data occupies. */
  function DataSize(n: nat): nat {
    n + 95
  }

  datatype Status =
    | Empty | Opened | Closed
    | AeIterator | AeLimits | AeWriting | AeWritten
    | AbIterator | AbWriting | AbWritten | AbLast | AbLimits
    | AmIterator1 | AmIterator2 | AmWriting | AmWritten | AmLast
    | RdLimits | RdIterator | RdIterator2 | RdIterator3 | RdMark1 | RdMark2
    | FtBegin | FtEnd | AdEmpty | RdEmpty

  datatype Stamp = Stamp(epoch: nat, counter: nat)

  /** A FileIterator: the two pointers of a record and where they are stored. */
  datatype Iter = Iter(prev: nat, next: nat, current: nat)

  /** fc_limits: the offsets of the first and of the last list element. */
  datatype Limits = Limits(first: nat, last: nat)

  const NO_ITER := Iter(0, 0, 0)

  /** `live` is the state letter: 'g' when true, 'i' when erased. */
  datatype Record = Record(prev: nat, next: nat, live: bool, data: string, filePrev: nat, fileNext: nat) {
    function Size(): nat { DataSize(|data|) }
  }

  type Slots = s: seq<Iter> | |s| == SLOTS witness [NO_ITER, NO_ITER, NO_ITER, NO_ITER]

  datatype Disk = Disk(
    stamp: Stamp,
    size: nat,
    status: Status,
    slots: Slots,
    limitsBackup: Limits,
    limits: Limits,
    records: map<nat, Record>,
    end: nat)

  datatype Write =
    | WStamp(stamp: Stamp)
    | WSize(size: nat)
    | WStatus(status: Status)
    | WSlot(slot: nat, it: Iter)
    | WLimitsBackup(limits: Limits)
    | WClear                                        // empty iterators over every backup
    | WLimits(limits: Limits)
    | WIterator(at: nat, prev: nat, next: nat)
    | WMark(at: nat, prev: nat, next: nat, live: bool)
    | WAppend(record: Record)
    | WTruncate(length: nat)

  const NO_SLOTS: Slots := [NO_ITER, NO_ITER, NO_ITER, NO_ITER]

  /** The body after the file was cut to `length` bytes: a record survives when it ends by then. */
  function Cut(records: map<nat, Record>, length: nat): map<nat, Record> {
    map p | p in records && p + records[p].Size() <= length :: records[p]
  }

  const ITER_LINE: nat := 34                        // an iterator and its line end

  /** Sixteen hexadecimal digits read as a decimal number.  Where one is a letter the line is no stamp any
      more, and the number stands for whatever is made of it. */
  function Misread(n: nat): (r: nat)
    ensures n == 0 ==> r == 0
  {
    if n == 0 then 0 else Misread(n / 16) * 10 + n % 16
  }

  const COUNT_OVERLAP: nat := 0x100_0000            // six digits of the iterator reach into the count

  /** Offset 0 is no record: an iterator written there lands on the stamp and on the leading digits of
      the element count.  One written at the end of the file makes it longer. */
  function WriteIterator(d: Disk, at: nat, prev: nat, next: nat): Disk {
    if at in d.records then d.(records := d.records[at := d.records[at].(prev := prev, next := next)])
    else if at == 0 then d.(stamp := Stamp(Misread(prev), Misread(next)), size := Misread(next % COUNT_OVERLAP))
    else if at == d.end then d.(end := d.end + ITER_LINE)
    else d
  }

  function Apply(d: Disk, w: Write): Disk {
    match w
    case WStamp(s) => d.(stamp := s)
    case WSize(n) => d.(size := n)
    case WStatus(s) => d.(status := s)
    case WSlot(i, it) => if i < SLOTS then d.(slots := d.slots[i := it]) else d
    case WLimitsBackup(l) => d.(limitsBackup := l)
    case WClear => d.(slots := NO_SLOTS, limitsBackup := Limits(0, 0))
    case WLimits(l) => d.(limits := l)
    case WIterator(at, prev, next) => WriteIterator(d, at, prev, next)
    case WMark(at, prev, next, live) =>
      if at in d.records then
        d.(records := d.records[at := d.records[at].(prev := prev, next := next, live := live)])
      else d
    case WAppend(r) => d.(records := d.records[d.end := r], end := d.end + r.Size())
    case WTruncate(length) => d.(records := Cut(d.records, length), end := length)
  }

  /** The disk after the first `k` writes of `ws`. */
  function StateAt(d: Disk, ws: seq<Write>, k: nat): Disk
    requires k <= |ws|
    decreases k
  {
    if k == 0 then d else Apply(StateAt(d, ws, k - 1), ws[k - 1])
  }

  function RunAll(d: Disk, ws: seq<Write>): Disk {
    StateAt(d, ws, |ws|)
  }

  /** `c` is what a crash leaves behind after `k` writes: the disk at that point or,
      when the next write appends a record, the same disk with a torn record tail. */
  ghost predicate CrashedAt(d: Disk, ws: seq<Write>, k: nat, c: Disk)
    requires k <= |ws|
  {
    var s := StateAt(d, ws, k);
    || c == s
    || (k < |ws| && ws[k].WAppend? && s.end <= c.end < s.end + ws[k].record.Size() && c == s.(end := c.end))
  }

  /** readIterator on a record. */
  function IterAt(d: Disk, p: nat): Iter
    requires p in d.records
  {
    Iter(d.records[p].prev, d.records[p].next, p)
  }

  /** readIterator anywhere else it answers good: offset 0 and the end of the file read as blank. */
  function LinkOf(d: Disk, p: nat): Iter {
    if p in d.records then IterAt(d, p) else Iter(0, 0, p)
  }

  predicate Readable(d: Disk, p: nat) {
    p in d.records || p == d.end || p == 0
  }

  // ---------------------------------------------------------------------
  // The list the disk represents

  /** Every record lies whole between the header and the physical end, and no two overlap. */
  ghost predicate Layout(d: Disk) {
    && HEADER <= d.end
    && (forall p :: p in d.records ==> HEADER <= p && p + d.records[p].Size() <= d.end)
    && (forall p, q {:trigger Before(d.records, p, q)} ::
          p in d.records && q in d.records && p < q ==> Before(d.records, p, q))
  }

  /** The record at `p` ends by offset `q`. */
  predicate Before(records: map<nat, Record>, p: nat, q: nat)
    requires p in records
  {
    p + records[p].Size() <= q
  }

  ghost predicate Distinct(chain: seq<nat>) {
    forall i, j :: 0 <= i < j < |chain| ==> chain[i] != chain[j]
  }

  function PrevIn(chain: seq<nat>, i: nat): nat
    requires i < |chain|
  {
    if i == 0 then 0 else chain[i - 1]
  }

  function NextIn(chain: seq<nat>, i: nat, end: nat): nat
    requires i < |chain|
  {
    if i + 1 == |chain| then end else chain[i + 1]
  }

  /** The i-th element of the chain is a live record whose pointers are its neighbours;
      the last one points at the physical end of the file. */
  ghost predicate Node(records: map<nat, Record>, end: nat, chain: seq<nat>, i: nat)
    requires i < |chain|
  {
    && chain[i] in records
    && records[chain[i]].live
    && records[chain[i]].prev == PrevIn(chain, i)
    && records[chain[i]].next == NextIn(chain, i, end)
  }

  ghost predicate Linked(records: map<nat, Record>, end: nat, chain: seq<nat>) {
    && Distinct(chain)
    && forall i {:trigger Node(records, end, chain, i)} :: 0 <= i < |chain| ==> Node(records, end, chain, i)
  }

  /** The limits name the two ends of the chain; an empty list owns no byte past the header. */
  ghost predicate Bounded(limits: Limits, end: nat, chain: seq<nat>) {
    if |chain| == 0 then limits == Limits(HEADER, HEADER) && end == HEADER
    else limits == Limits(chain[0], chain[|chain| - 1])
  }

  /** The disk holds the list whose records are, in order, at the offsets of `chain`. */
  ghost predicate Holds(d: Disk, chain: seq<nat>) {
    && Layout(d)
    && Linked(d.records, d.end, chain)
    && Bounded(d.limits, d.end, chain)
  }

  /** A container at rest.  Only creation and a finished removal leave an empty list,
      and both leave the backup slots cleared. */
  ghost predicate WellFormed(d: Disk, chain: seq<nat>) {
    && Holds(d, chain)
    && d.size == |chain|
    && d.status == Closed
    && (|chain| == 0 ==> d.slots == NO_SLOTS)
  }

  /** The abstract value: the data strings in list order. */
  ghost function Contents(d: Disk, chain: seq<nat>): (s: seq<string>)
    requires Linked(d.records, d.end, chain)
    ensures |s| == |chain|
    ensures forall i {:trigger s[i]} :: 0 <= i < |chain| ==>
              Node(d.records, d.end, chain, i) && s[i] == d.records[chain[i]].data
  {
    seq(|chain|, i requires 0 <= i < |chain| => assert Node(d.records, d.end, chain, i); d.records[chain[i]].data)
  }

  /** Following the links from a common prefix yields a common longer prefix. */
  lemma SamePrefix(d: Disk, a: seq<nat>, b: seq<nat>, k: nat)
    requires Holds(d, a) && Holds(d, b) && k < |a| && k < |b|
    ensures a[..k + 1] == b[..k + 1]
    decreases k
  {
    assert Node(d.records, d.end, a, k) && Node(d.records, d.end, b, k);
    if k > 0 {
      SamePrefix(d, a, b, k - 1);
      assert Node(d.records, d.end, a, k - 1) && Node(d.records, d.end, b, k - 1);
      assert a[k - 1] == a[..k][k - 1] == b[..k][k - 1];
    }
    assert a[..k + 1] == a[..k] + [a[k]] && b[..k + 1] == b[..k] + [b[k]];
  }

  /** Of two chains the disk holds, neither can go on past the end of the other. */
  lemma NoLonger(d: Disk, a: seq<nat>, b: seq<nat>)
    requires Holds(d, a) && Holds(d, b)
    ensures |a| <= |b|
  {
    assert |a| > 0 ==> Node(d.records, d.end, a, 0);
    if 0 < |b| < |a| {
      SamePrefix(d, a, b, |b| - 1);
    }
  }

  /** A disk holds at most one list: the chain is determined by the limits and the links. */
  lemma ChainIsUnique(d: Disk, a: seq<nat>, b: seq<nat>)
    requires Holds(d, a) && Holds(d, b)
    ensures a == b
  {
    NoLonger(d, a, b);
    NoLonger(d, b, a);
    if |a| > 0 {
      SamePrefix(d, a, b, |a| - 1);
      assert a == a[..|a|] && b == b[..|a|];
    }
  }
}
