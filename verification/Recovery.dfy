/** recover_data and checkConsistency: what reopening the container makes of the
    disk a crash left behind. */
module Recovery {
  import opened Disk

  /** The container while it recovers: the file and the limits held in memory. */
  datatype Image = Image(disk: Disk, cache: Limits)

  /** `Bad` is any error answer; `Endless` a traversal that never leaves a cycle of links. */
  datatype Outcome = Good(image: Image) | Bad | Endless {
    predicate IsFailure() { !Good? }
    function PropagateFailure(): Outcome requires IsFailure() { this }
    function Extract(): Image requires !IsFailure() { image }
  }

  // ---------------------------------------------------------------------
  // checkConsistency

  /** How the traversal of checkConsistency ends: at the last element of the limits, having
      counted `count` elements reaching up to offset `extent`, or on a position out of the file. */
  datatype Walk = Reached(count: nat, extent: nat) | Lost | Cycle

  /** Follows the links from `at`.  More steps than there are records mean a cycle. */
  function WalkFrom(d: Disk, at: nat, last: nat, count: nat, extent: nat, steps: nat): Walk
    decreases steps
  {
    if at !in d.records then Lost
    else
      var r := d.records[at];
      var extent' := if at + r.Size() > extent then at + r.Size() else extent;
      if at == last then Reached(count + 1, extent')
      else if r.next < HEADER || r.next >= d.end then Lost
      else if steps == 0 then Cycle
      else WalkFrom(d, r.next, last, count + 1, extent', steps - 1)
  }

  function WalkAll(d: Disk, limits: Limits): Walk {
    WalkFrom(d, limits.first, limits.last, 0, 0, |d.records|)
  }

  /** A zero allowance accepts any difference; otherwise sign and magnitude must fit. */
  predicate Allowed(offset: int, allowance: int) {
    || (allowance > 0 && 0 < offset <= allowance)
    || (allowance < 0 && allowance <= offset < 0)
    || allowance == 0
  }

  /** createEmptyFile. */
  function EmptyFile(clock: nat): Disk {
    Disk(Stamp(clock, 0), 0, Closed, NO_SLOTS, Limits(0, 0), Limits(HEADER, HEADER), map[], HEADER)
  }

  /** truncateFile: a cut to nothing rewrites an empty container; either way the status
      byte becomes `FtEnd`. */
  function TruncateFile(m: Image, length: nat, clock: nat): Image {
    if length == 0 then Image(EmptyFile(clock).(status := FtEnd), Limits(HEADER, HEADER))
    else m.(disk := Apply(Apply(m.disk, WTruncate(length)), WStatus(FtEnd)))
  }

  function CheckConsistency(m: Image, allowance: int, clock: nat): Outcome {
    match WalkAll(m.disk, m.cache)
    case Lost => Bad
    case Cycle => Endless
    case Reached(count, extent) =>
      var sized := if count != m.disk.size && Allowed(count - m.disk.size, allowance)
                   then m.(disk := Apply(m.disk, WSize(count))) else m;
      if extent < m.disk.end then
        var cut := TruncateFile(sized, extent, clock);
        var it := m.disk.records;
        if m.cache.last in it && it[m.cache.last].next != cut.disk.end then
          Good(cut.(disk := WriteIterator(cut.disk, m.cache.last, it[m.cache.last].prev, cut.disk.end)))
        else Good(cut)
      else Good(sized)
  }

  // ---------------------------------------------------------------------
  // The undo steps of recover_data

  /** Where the switch of recover_data comes out: with a consistency check still to do, done, or failed. */
  datatype Undone = Check(image: Image, allowance: int) | Settle(image: Image) | GiveUp {
    predicate IsFailure() { GiveUp? }
    function PropagateFailure(): Undone requires IsFailure() { this }
    function Extract(): Image requires !IsFailure() { image }
  }

  function RestoreSlot(m: Image, i: nat): Image
    requires i < SLOTS
  {
    var it := m.disk.slots[i];
    m.(disk := WriteIterator(m.disk, it.current, it.prev, it.next))
  }

  function RestoreLimits(m: Image): Image {
    Image(Apply(m.disk, WLimits(m.disk.limitsBackup)), m.disk.limitsBackup)
  }

  /** markDataAsUnerased reads the size back from the record: there must be one. */
  function Unerase(m: Image, i: nat): Undone
    requires i < SLOTS
  {
    var it := m.disk.slots[i];
    if it.current in m.disk.records
    then Settle(m.(disk := Apply(m.disk, WMark(it.current, it.prev, it.next, true))))
    else GiveUp
  }

  // The cases of the switch, each falling through into the next of its group.

  function UndoAeIterator(m: Image, clock: nat): Undone {
    Check(RestoreSlot(m, 0), 1)
  }

  function UndoAeLimits(m: Image, clock: nat): Undone {
    UndoAeIterator(RestoreLimits(m), clock)
  }

  function UndoAeWriting(m: Image, clock: nat): Undone {
    UndoAeLimits(TruncateFile(m, m.disk.limits.last, clock), clock)
  }

  function UndoAbIterator(m: Image, clock: nat): Undone {
    Check(RestoreSlot(m, 0), 1)
  }

  function UndoAbLimits(m: Image, clock: nat): Undone {
    UndoAbIterator(RestoreLimits(m), clock)
  }

  function UndoAbWriting(m: Image, clock: nat): Undone {
    UndoAbLimits(TruncateFile(m, m.disk.limits.first, clock), clock)
  }

  function UndoAbLast(m: Image, clock: nat): Undone {
    UndoAbWriting(RestoreSlot(m, 2), clock)
  }

  function UndoAmIterator1(m: Image, clock: nat): Undone {
    Check(RestoreSlot(m, 0), 1)
  }

  function UndoAmIterator2(m: Image, clock: nat): Undone {
    UndoAmIterator1(RestoreSlot(m, 1), clock)
  }

  /** The new record starts where the record of slot 0 now points back to. */
  function UndoAmWriting(m: Image, clock: nat): Undone {
    var at := m.disk.slots[0].current;
    if at in m.disk.records then UndoAmIterator2(TruncateFile(m, m.disk.records[at].prev, clock), clock)
    else if at == m.disk.end || at == 0 then UndoAmIterator2(TruncateFile(m, 0, clock), clock)
    else GiveUp
  }

  function UndoAmLast(m: Image, clock: nat): Undone {
    UndoAmWriting(RestoreSlot(m, 2), clock)
  }

  function UndoRdLimits(m: Image, clock: nat): Undone {
    Check(RestoreLimits(m), -1)
  }

  function UndoRdIterator(m: Image, clock: nat): Undone {
    UndoRdLimits(RestoreSlot(m, 0), clock)
  }

  function UndoRdMark1(m: Image, clock: nat): Undone {
    var m' :- Unerase(m, 2);
    UndoRdIterator(m', clock)
  }

  function UndoRdIterator2(m: Image, clock: nat): Undone {
    Check(RestoreSlot(m, 0), -1)
  }

  function UndoRdIterator3(m: Image, clock: nat): Undone {
    UndoRdIterator2(RestoreSlot(m, 1), clock)
  }

  function UndoRdMark2(m: Image, clock: nat): Undone {
    var m' :- Unerase(m, 2);
    UndoRdIterator3(m', clock)
  }

  /** A file that recovery creates again: one left empty with bytes it does not account for, and one that
      was to be cut to nothing. */
  predicate Anew(c: Disk) {
    || (c.status.Empty? && c.size == 0 && c.limits.first != c.end)
    || (c.status.FtBegin? && c.slots[0].current == 0)
  }

  /** The status `empty` is left by a creation or a compaction. */
  function UndoEmpty(m: Image, clock: nat): Undone {
    if m.disk.size == 0 && m.disk.limits.first != m.disk.end
    then Settle(Image(EmptyFile(clock), Limits(HEADER, HEADER)))
    else Settle(m.(cache := m.disk.limits))
  }

  function Undo(m: Image, clock: nat): Undone {
    match m.disk.status
    case Closed => Settle(m)
    case Empty => UndoEmpty(m, clock)
    case Opened => Settle(m)
    case FtEnd => Settle(m)
    case AeWriting => UndoAeWriting(m, clock)
    case AeWritten => UndoAeWriting(m, clock)
    case AeLimits => UndoAeLimits(m, clock)
    case AeIterator => UndoAeIterator(m, clock)
    case AbLast => UndoAbLast(m, clock)
    case AbWriting => UndoAbWriting(m, clock)
    case AbWritten => UndoAbWriting(m, clock)
    case AbLimits => UndoAbLimits(m, clock)
    case AbIterator => UndoAbIterator(m, clock)
    case AmLast => UndoAmLast(m, clock)
    case AmWriting => UndoAmWriting(m, clock)
    case AmWritten => UndoAmWriting(m, clock)
    case AmIterator2 => UndoAmIterator2(m, clock)
    case AmIterator1 => UndoAmIterator1(m, clock)
    case AdEmpty => Check(m, 1)
    case FtBegin => Settle(TruncateFile(m, m.disk.slots[0].current, clock))
    case RdMark1 => UndoRdMark1(m, clock)
    case RdIterator => UndoRdIterator(m, clock)
    case RdLimits => UndoRdLimits(m, clock)
    case RdMark2 => UndoRdMark2(m, clock)
    case RdIterator3 => UndoRdIterator3(m, clock)
    case RdIterator2 => UndoRdIterator2(m, clock)
    case RdEmpty => Check(m, -1)
  }

  /** Opening the file: initContainer reads the limits and recovers unless the status is `Closed`. */
  function Recover(c: Disk, clock: nat): Outcome {
    match Undo(Image(c, c.limits), clock)
    case GiveUp => Bad
    case Settle(m) => Good(Closing(m))
    case Check(m, allowance) =>
      var m' :- CheckConsistency(m, allowance, clock);
      Good(Closing(m'))
  }

  /** A file left `empty` is created again exactly when it counts no element and its first element is not
      at its end; otherwise it is closed as it is.  One that was to be cut is cut, or created again. */
  lemma EmptyRecovers(c: Disk, clock: nat)
    requires c.status.Empty? || c.status.FtBegin?
    ensures var o, to := Recover(c, clock), c.slots[0].current;
            && o.Good? && o.image.disk.status == Closed && o.image.cache == o.image.disk.limits
            && o.image.disk == if c.status.Empty? && (c.size != 0 || c.limits.first == c.end) then c.(status := Closed)
                               else if c.status.FtBegin? && to != 0
                               then c.(records := Cut(c.records, to), end := to, status := Closed)
                               else EmptyFile(clock)
  {
  }

  function Closing(m: Image): Image {
    m.(disk := Apply(m.disk, WStatus(Closed)))
  }

  // ---------------------------------------------------------------------
  // A consistency check on a sound list

  /** Distinct members of a finite set are no more than its elements. */
  lemma {:induction false} Pigeonhole(chain: seq<nat>, s: set<nat>)
    requires Distinct(chain) && forall i :: 0 <= i < |chain| ==> chain[i] in s
    ensures |chain| <= |s|
  {
    if |chain| > 0 {
      var n := |chain| - 1;
      Pigeonhole(chain[..n], s - {chain[n]});
    }
  }

  /** The elements from index `i` on all end by offset `extent`. */
  ghost predicate Covered(d: Disk, chain: seq<nat>, i: nat, extent: nat) {
    forall j {:trigger Node(d.records, d.end, chain, j)} :: i <= j < |chain| ==>
      Node(d.records, d.end, chain, j) && chain[j] + d.records[chain[j]].Size() <= extent
  }

  /** The traversal visits the whole chain: it counts every element still to come and its
      extent covers them all. */
  lemma {:induction false} WalkVisitsChain(d: Disk, chain: seq<nat>, i: nat, count: nat, extent: nat, steps: nat)
    requires Layout(d) && Linked(d.records, d.end, chain)
    requires i < |chain| && |chain| - i <= steps + 1 && extent <= d.end
    ensures var w := WalkFrom(d, chain[i], chain[|chain| - 1], count, extent, steps);
            && w.Reached?
            && w.count == count + |chain| - i
            && extent <= w.extent <= d.end
            && Covered(d, chain, i, w.extent)
    decreases steps
  {
    assert Node(d.records, d.end, chain, i);
    if i + 1 < |chain| {
      assert Node(d.records, d.end, chain, i + 1);
      var r := d.records[chain[i]];
      var extent' := if chain[i] + r.Size() > extent then chain[i] + r.Size() else extent;
      WalkVisitsChain(d, chain, i + 1, count + 1, extent', steps - 1);
    }
  }

  /** Cutting the file behind the furthest element, and pointing the last one there, keeps the list. */
  lemma CutKeepsList(d: Disk, chain: seq<nat>, extent: nat)
    requires Holds(d, chain) && |chain| > 0 && extent <= d.end
    requires Covered(d, chain, 0, extent)
    ensures var last := chain[|chain| - 1];
            var cut := Apply(d, WTruncate(extent));
            && last in d.records
            && var d' := WriteIterator(cut, last, d.records[last].prev, extent);
               Holds(d', chain) && Contents(d', chain) == Contents(d, chain)
  {
    var n := |chain| - 1;
    var last := chain[n];
    assert Node(d.records, d.end, chain, n) && Node(d.records, d.end, chain, 0);
    var d' := WriteIterator(Apply(d, WTruncate(extent)), last, d.records[last].prev, extent);
    forall p, q | p in d'.records && q in d'.records && p < q
      ensures Before(d'.records, p, q)
    {
      assert Before(d.records, p, q);
    }
    forall j | 0 <= j < |chain|
      ensures Node(d'.records, d'.end, chain, j) && d'.records[chain[j]].data == d.records[chain[j]].data
    {
      assert Node(d.records, d.end, chain, j);
    }
  }

  lemma WalkWholeChain(d: Disk, chain: seq<nat>)
    requires Holds(d, chain) && |chain| > 0
    ensures var w := WalkAll(d, d.limits);
            && w.Reached? && w.count == |chain| && w.extent <= d.end
            && Covered(d, chain, 0, w.extent)
  {
    forall i | 0 <= i < |chain| ensures chain[i] in d.records.Keys {
      assert Node(d.records, d.end, chain, i);
    }
    Pigeonhole(chain, d.records.Keys);
    WalkVisitsChain(d, chain, 0, 0, 0, |d.records|);
  }

  /** On a disk that holds a non-empty list, checkConsistency succeeds, keeps the list and
      leaves a matching element count. */
  lemma CheckKeepsList(m: Image, chain: seq<nat>, allowance: int, clock: nat)
    requires Holds(m.disk, chain) && |chain| > 0 && m.cache == m.disk.limits
    requires m.disk.size == |chain| || Allowed(|chain| - m.disk.size, allowance)
    ensures var o := CheckConsistency(m, allowance, clock);
            && o.Good?
            && Holds(o.image.disk, chain)
            && Contents(o.image.disk, chain) == Contents(m.disk, chain)
            && o.image.disk.size == |chain|
            && o.image.disk.stamp == m.disk.stamp
            && o.image.cache == o.image.disk.limits
  {
    var d := m.disk;
    var last := chain[|chain| - 1];
    assert Node(d.records, d.end, chain, |chain| - 1);
    WalkWholeChain(d, chain);
    var w := WalkAll(d, m.cache);
    assert last + d.records[last].Size() <= w.extent;
    if w.extent < d.end {
      CutKeepsList(d, chain, w.extent);
      var d' := WriteIterator(Apply(d, WTruncate(w.extent)), last, d.records[last].prev, w.extent);
      var o := CheckConsistency(m, allowance, clock);
      assert o.Good? && o.image.disk == d'.(size := o.image.disk.size, status := o.image.disk.status);
      SameBody(d', o.image.disk, chain);
    }
  }

  /** The count is corrected exactly when it is short by no more than a positive allowance, over by no
      more than a negative one, or the allowance is zero; otherwise it stays wrong. */
  lemma CountIsCorrected(m: Image, chain: seq<nat>, allowance: int, clock: nat)
    requires Holds(m.disk, chain) && |chain| > 0 && m.cache == m.disk.limits
    ensures var o, missing := CheckConsistency(m, allowance, clock), |chain| - m.disk.size;
            && o.Good?
            && o.image.disk.size == if allowance == 0 || 0 < missing <= allowance || allowance <= missing < 0
                                    then |chain| else m.disk.size
  {
    WalkWholeChain(m.disk, chain);
    var w := WalkAll(m.disk, m.cache);
    assert Node(m.disk.records, m.disk.end, chain, 0);
    assert w.extent > 0;
    assert Node(m.disk.records, m.disk.end, chain, |chain| - 1);
    assert m.cache.last in m.disk.records && m.cache.last + m.disk.records[m.cache.last].Size() <= w.extent;
  }

  /** Size, status, stamp and backups are no part of the list. */
  lemma SameBody(d: Disk, d': Disk, chain: seq<nat>)
    requires Holds(d, chain)
    requires d'.records == d.records && d'.end == d.end && d'.limits == d.limits
    ensures Holds(d', chain) && Contents(d', chain) == Contents(d, chain)
  {
  }
}
