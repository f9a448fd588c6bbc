/** The disk writes as bytes: what each puts into the file and where, and that a file that holds a
    disk goes on to hold what the writes make of it, torn appends included. */
module Bytes {
  import opened D = Disk
  import opened L = Layout

  function StatusByte(s: Status): char {
    match s
    case Empty => ' ' case Opened => '1' case Closed => '0'
    case AeIterator => 'a' case AeLimits => 'b' case AeWriting => 'c' case AeWritten => 'd'
    case AbIterator => 'e' case AbWriting => 'f' case AbWritten => 'g' case AbLast => 'h' case AbLimits => 'i'
    case AmIterator1 => 'j' case AmIterator2 => 'k' case AmWriting => 'l' case AmWritten => 'm' case AmLast => 'n'
    case RdLimits => 'o' case RdIterator => 'p' case RdIterator2 => 'q' case RdIterator3 => 'r'
    case RdMark1 => 's' case RdMark2 => 't' case FtBegin => 'u' case FtEnd => 'v'
    case AdEmpty => 'w' case RdEmpty => 'x'
  }

  lemma StatusBytesDiffer(s: Status, t: Status)
    requires StatusByte(s) == StatusByte(t)
    ensures s == t
  {
  }

  /** The statuses in the order of the enumeration. */
  const STATUSES: seq<Status> := [
    AeIterator, AeLimits, AeWriting, AeWritten,
    AbIterator, AbWriting, AbWritten, AbLast, AbLimits,
    AmIterator1, AmIterator2, AmWriting, AmWritten, AmLast,
    RdLimits, RdIterator, RdIterator2, RdIterator3, RdMark1, RdMark2,
    FtBegin, FtEnd, AdEmpty, RdEmpty]

  /** They run from 'a' on; a file at rest has '0', one in use '1', one just created a blank. */
  lemma StatusBytesAre(i: nat)
    requires i < |STATUSES|
    ensures StatusByte(STATUSES[i]) as int == 'a' as int + i
    ensures StatusByte(Empty) == ' ' && StatusByte(Opened) == '1' && StatusByte(Closed) == '0'
  {
  }

  // ---------------------------------------------------------------------
  // The header

  function StampText(s: Stamp): (t: string)
    ensures |t| == Length(FStamp)
  {
    Digits(s.epoch, 10, EPOCH_WIDTH) + " " + Digits(s.counter, 10, COUNTER_WIDTH) + "\n"
  }

  function NumberText(n: nat): (t: string)
    ensures |t| == Length(FSize)
  {
    Digits(n, 10, NUMBER_SIZE) + "\n"
  }

  function SlotText(it: Iter): (t: string)
    ensures |t| == ITER_WIDTH + 1 + (ITER_WIDTH + 1 + ITER_WIDTH) + 1
  {
    Digits(it.current, 16, ITER_WIDTH) + " " + (IterText(it.prev, it.next) + "\n")
  }

  function LimitsText(l: Limits): (t: string)
    ensures |t| == Length(FLimits)
  {
    IterText(l.first, l.last) + "\n"
  }

  /** A stamp is its epoch and its counter, a slot the position and then the two pointers, limits the
      first element and then the last. */
  lemma TextsAre(s: Stamp, it: Iter, l: Limits)
    requires FitsStamp(s) && FitsSlot(it) && FitsLimits(l)
    ensures Value(StampText(s), 0, 20, 10) == s.epoch && Value(StampText(s), 21, 26, 10) == s.counter
    ensures Value(SlotText(it), 0, 16, 16) == it.current
    ensures SlotText(it)[17..] == IterText(it.prev, it.next) + "\n"
    ensures LimitsText(l) == IterText(l.first, l.last) + "\n"
  {
    StampTextIs(s);
    LimitsArePowers();
    var u := SlotText(it);
    assert u[0..16] == Digits(it.current, 16, 16);
    DigitsRoundTrip(it.current, 16, 16, u, 0);
  }

  lemma StampTextIs(s: Stamp)
    requires FitsStamp(s)
    ensures Value(StampText(s), 0, 20, 10) == s.epoch && Value(StampText(s), 21, 26, 10) == s.counter
  {
    LimitsArePowers();
    var t := StampText(s);
    assert t[0..20] == Digits(s.epoch, 10, 20) && t[21..26] == Digits(s.counter, 10, 5);
    DigitsRoundTrip(s.epoch, 10, 20, t, 0);
    DigitsRoundTrip(s.counter, 10, 5, t, 21);
  }

  /** The list in file order is not followed; the two fields for it are left open. */
  predicate IsKept(f: Field) {
    IsField(f) && f != FListBackup && f != FList
  }

  function FieldText(d: D.Disk, f: Field): (t: string)
    requires IsKept(f)
    ensures |t| == Length(f)
  {
    match f
    case FStamp => StampText(d.stamp)
    case FSize => NumberText(d.size)
    case FStatus => [StatusByte(d.status), '\n']
    case FSlot(i) => SlotText(d.slots[i])
    case FLimitsBackup => LimitsText(d.limitsBackup)
    case FLimits => LimitsText(d.limits)
  }

  ghost predicate FieldHere(b: string, d: D.Disk, f: Field)
    requires IsKept(f)
  {
    At(b, Offset(f), FieldText(d, f))
  }

  ghost predicate FitsStamp(s: Stamp) {
    s.epoch < EPOCH_LIMIT && s.counter < COUNTER_LIMIT
  }

  ghost predicate FitsLimits(l: Limits) {
    FitsIter(l.first) && FitsIter(l.last)
  }

  ghost predicate FitsSlot(it: Iter) {
    FitsIter(it.prev) && FitsIter(it.next) && FitsIter(it.current)
  }

  /** Every number of the header fits its column. */
  ghost predicate FitsDisk(d: D.Disk) {
    && FitsStamp(d.stamp) && d.size < NUMBER_LIMIT && FitsLimits(d.limitsBackup) && FitsLimits(d.limits)
    && forall i :: 0 <= i < SLOTS ==> FitsSlot(d.slots[i])
  }

  /** The file holds the disk: every field and every record in its place, up to the same end. */
  ghost predicate Represents(b: string, d: D.Disk) {
    && |b| == d.end && D.Layout(d) && FitsDisk(d)
    && (forall f {:trigger FieldHere(b, d, f)} :: IsKept(f) ==> FieldHere(b, d, f))
    && (forall p {:trigger RecordHere(b, p, d.records[p])} :: p in d.records ==> RecordHere(b, p, d.records[p]))
  }

  // ---------------------------------------------------------------------
  // Overwriting

  function Splice(b: string, at: nat, t: string): (r: string)
    requires at + |t| <= |b|
    ensures |r| == |b|
  {
    b[..at] + t + b[at + |t|..]
  }

  lemma SpliceIsThere(b: string, at: nat, t: string)
    requires at + |t| <= |b|
    ensures At(Splice(b, at, t), at, t)
  {
  }

  lemma SpliceKeeps(b: string, at: nat, t: string, q: nat, u: string)
    requires at + |t| <= |b| && At(b, q, u) && (q + |u| <= at || at + |t| <= q)
    ensures At(Splice(b, at, t), q, u)
  {
    var r := Splice(b, at, t);
    forall i | q <= i < q + |u|
      ensures r[i] == b[i]
    {
    }
    assert r[q..q + |u|] == b[q..q + |u|];
  }

  // ---------------------------------------------------------------------
  // Header writes

  /** Only the field f of the header differs. */
  ghost predicate OnlyField(d: D.Disk, e: D.Disk, f: Field) {
    && e.records == d.records && e.end == d.end
    && forall g {:trigger FieldText(e, g)} :: IsKept(g) && g != f ==> FieldText(e, g) == FieldText(d, g)
  }

  lemma FieldFits(b: string, d: D.Disk, f: Field)
    requires Represents(b, d) && IsField(f)
    ensures Offset(f) + Length(f) <= HEADER <= |b|
  {
    FieldsAreApart(f, if f == FStamp then FSize else FStamp);
  }

  /** Writing one field leaves every other field and every record alone. */
  lemma FieldWritten(b: string, d: D.Disk, e: D.Disk, f: Field)
    requires Represents(b, d) && IsKept(f) && OnlyField(d, e, f) && FitsDisk(e) && Offset(f) + Length(f) <= |b|
    ensures Represents(Splice(b, Offset(f), FieldText(e, f)), e)
  {
    var t := FieldText(e, f);
    var r := Splice(b, Offset(f), t);
    SpliceIsThere(b, Offset(f), t);
    forall g | IsKept(g)
      ensures FieldHere(r, e, g)
    {
      if g != f {
        assert FieldHere(b, d, g);
        FieldsAreApart(f, g);
        SpliceKeeps(b, Offset(f), t, Offset(g), FieldText(d, g));
      }
    }
    FieldFits(b, d, f);
    forall p | p in e.records
      ensures RecordHere(r, p, e.records[p])
    {
      RecordKept(b, d, p, Offset(f), t);
    }
  }

  /** A record outside the bytes written is still there. */
  lemma RecordKept(b: string, d: D.Disk, p: nat, at: nat, t: string)
    requires Represents(b, d) && p in d.records && at + |t| <= |b|
    requires at + |t| <= p || p + d.records[p].Size() <= at
    ensures RecordHere(Splice(b, at, t), p, d.records[p])
  {
    assert RecordHere(b, p, d.records[p]);
    SpliceKeeps(b, at, t, p, RecordText(d.records[p]));
  }

  // ---------------------------------------------------------------------
  // Record writes

  /** What follows the header of a record. */
  ghost predicate TailHere(b: string, at: nat, data: string, filePrev: nat, fileNext: nat) {
    && At(b, at, data)
    && At(b, at + |data|, "\n")
    && IterHere(b, at + |data| + 1, filePrev, fileNext)
  }

  lemma RecordParts(b: string, at: nat, r: Record)
    ensures RecordHere(b, at, r) <==>
            && IterHere(b, at, r.prev, r.next)
            && SizeHere(b, at + AFTER_ITER, |r.data|, r.live)
            && TailHere(b, at + AFTER_HEADER, r.data, r.filePrev, r.fileNext)
  {
    RecordLines(b, at, r);
  }

  lemma TailKept(b: string, at: nat, t: string, q: nat, data: string, filePrev: nat, fileNext: nat)
    requires at + |t| <= |b| && at + |t| <= q && TailHere(b, q, data, filePrev, fileNext)
    ensures TailHere(Splice(b, at, t), q, data, filePrev, fileNext)
  {
    SpliceKeeps(b, at, t, q, data);
    SpliceKeeps(b, at, t, q + |data|, "\n");
    SpliceKeeps(b, at, t, q + |data| + 1, IterText(filePrev, fileNext) + "\n");
  }

  /** New pointers over the first line of a record. */
  lemma FirstLineWritten(b: string, at: nat, r: Record, prev: nat, next: nat)
    requires RecordHere(b, at, r) && FitsIter(prev) && FitsIter(next) && at + AFTER_ITER <= |b|
    ensures RecordHere(Splice(b, at, IterText(prev, next) + "\n"), at, r.(prev := prev, next := next))
  {
    var t := IterText(prev, next) + "\n";
    var s := Splice(b, at, t);
    RecordParts(b, at, r);
    SpliceIsThere(b, at, t);
    SpliceKeeps(b, at, t, at + AFTER_ITER, SizeText(|r.data|, r.live) + "\n");
    TailKept(b, at, t, at + AFTER_HEADER, r.data, r.filePrev, r.fileNext);
    RecordParts(s, at, r.(prev := prev, next := next));
  }

  /** A new header over the first two lines of a record. */
  lemma HeaderWritten(b: string, at: nat, r: Record, prev: nat, next: nat, live: bool)
    requires RecordHere(b, at, r) && FitsIter(prev) && FitsIter(next) && at + AFTER_HEADER <= |b|
    ensures RecordHere(Splice(b, at, DataHeaderText(prev, next, |r.data|, live)), at,
                       r.(prev := prev, next := next, live := live))
  {
    var t := DataHeaderText(prev, next, |r.data|, live);
    var s := Splice(b, at, t);
    RecordParts(b, at, r);
    SpliceIsThere(b, at, t);
    AtParts(s, at, IterText(prev, next) + "\n", SizeText(|r.data|, live) + "\n");
    TailKept(b, at, t, at + AFTER_HEADER, r.data, r.filePrev, r.fileNext);
    RecordParts(s, at, r.(prev := prev, next := next, live := live));
  }

  /** Text within the bytes two files share is in both. */
  lemma SamePrefixKeeps(b: string, r: string, n: nat, q: nat, u: string)
    requires n <= |b| && n <= |r| && r[..n] == b[..n] && At(b, q, u) && q + |u| <= n
    ensures At(r, q, u)
  {
    forall i | q <= i < q + |u|
      ensures r[i] == b[i]
    {
      assert r[..n][i] == b[..n][i];
    }
    assert r[q..q + |u|] == b[q..q + |u|];
  }

  lemma RecordsKept(b: string, d: D.Disk, r: string, n: nat, p: nat)
    requires Represents(b, d) && n <= |b| && n <= |r| && r[..n] == b[..n]
    requires p in d.records && p + d.records[p].Size() <= n
    ensures RecordHere(r, p, d.records[p])
  {
    assert RecordHere(b, p, d.records[p]);
    SamePrefixKeeps(b, r, n, p, RecordText(d.records[p]));
  }

  /** A field of the header is out of reach of writes behind it. */
  lemma FieldsKept(b: string, d: D.Disk, e: D.Disk, r: string)
    requires Represents(b, d) && |r| >= HEADER && r[..HEADER] == b[..HEADER]
    requires e == d.(records := e.records, end := e.end)
    ensures forall f {:trigger FieldHere(r, e, f)} :: IsKept(f) ==> FieldHere(r, e, f)
  {
    forall f | IsKept(f)
      ensures FieldHere(r, e, f)
    {
      assert FieldHere(b, d, f);
      FieldFits(b, d, f);
      SamePrefixKeeps(b, r, HEADER, Offset(f), FieldText(d, f));
      assert FieldText(e, f) == FieldText(d, f);
    }
  }

  lemma SameSizes(d: D.Disk, at: nat, r: Record)
    requires D.Layout(d) && at in d.records && r.Size() == d.records[at].Size()
    ensures D.Layout(d.(records := d.records[at := r]))
  {
    var e := d.(records := d.records[at := r]);
    forall p, q | p in e.records && q in e.records && p < q
      ensures Before(e.records, p, q)
    {
      assert Before(d.records, p, q);
    }
  }

  /** Overwriting a record from its start, within its bytes. */
  lemma RecordWritten(b: string, d: D.Disk, at: nat, t: string, r: Record)
    requires Represents(b, d) && at in d.records && |t| <= d.records[at].Size() == r.Size() && at + |t| <= |b|
    requires RecordHere(Splice(b, at, t), at, r)
    ensures Represents(Splice(b, at, t), d.(records := d.records[at := r]))
  {
    var e, s := d.(records := d.records[at := r]), Splice(b, at, t);
    SameSizes(d, at, r);
    assert s[..HEADER] == b[..HEADER];
    FieldsKept(b, d, e, s);
    forall p | p in e.records
      ensures RecordHere(s, p, e.records[p])
    {
      if p != at {
        assert p < at ==> Before(d.records, p, at);
        assert at < p ==> Before(d.records, at, p);
        RecordKept(b, d, p, at, t);
      }
    }
  }

  lemma LayoutGrows(d: D.Disk, e: D.Disk)
    requires D.Layout(d) && d.end <= e.end
    requires forall p :: p in e.records ==> (p in d.records && e.records[p] == d.records[p])
                                            || (p == d.end && e.end == p + e.records[p].Size())
    ensures D.Layout(e)
  {
    forall p, q | p in e.records && q in e.records && p < q
      ensures Before(e.records, p, q)
    {
      assert p in d.records && q in d.records ==> Before(d.records, p, q);
    }
  }

  /** A torn append: some more bytes, no more records. */
  lemma Torn(b: string, d: D.Disk, t: string)
    requires Represents(b, d)
    ensures Represents(b + t, d.(end := d.end + |t|))
  {
    var e := d.(end := d.end + |t|);
    LayoutGrows(d, e);
    assert (b + t)[..HEADER] == b[..HEADER] && (b + t)[..|b|] == b[..|b|];
    FieldsKept(b, d, e, b + t);
    forall p | p in e.records
      ensures RecordHere(b + t, p, e.records[p])
    {
      RecordsKept(b, d, b + t, |b|, p);
    }
  }

  lemma Appended(b: string, d: D.Disk, r: Record)
    requires Represents(b, d) && FitsRecord(r)
    ensures Represents(b + RecordText(r), Apply(d, WAppend(r)))
  {
    var e, s := Apply(d, WAppend(r)), b + RecordText(r);
    LayoutGrows(d, e);
    assert s[..HEADER] == b[..HEADER] && s[..|b|] == b[..|b|];
    FieldsKept(b, d, e, s);
    assert s[d.end..d.end + r.Size()] == RecordText(r);
    forall p | p in e.records
      ensures RecordHere(s, p, e.records[p])
    {
      if p != d.end {
        RecordsKept(b, d, s, |b|, p);
      }
    }
  }

  lemma CutShort(b: string, d: D.Disk, length: nat)
    requires Represents(b, d) && HEADER <= length <= |b|
    ensures Represents(b[..length], Apply(d, WTruncate(length)))
  {
    var e, s := Apply(d, WTruncate(length)), b[..length];
    forall p, q | p in e.records && q in e.records && p < q
      ensures Before(e.records, p, q)
    {
      assert Before(d.records, p, q);
    }
    assert s[..HEADER] == b[..HEADER] && s[..length] == b[..length];
    FieldsKept(b, d, e, s);
    forall p | p in e.records
      ensures RecordHere(s, p, e.records[p])
    {
      RecordsKept(b, d, s, length, p);
    }
  }

  // ---------------------------------------------------------------------
  // Every write

  function Overwrite(b: string, at: nat, t: string): string {
    if at + |t| <= |b| then Splice(b, at, t) else b
  }

  /** createEmptyBackup: empty iterators over the four slots and over both backups of the limits. */
  function PutEmpty(b: string): string {
    var blank := SlotText(NO_ITER);
    var none := LimitsText(Limits(0, 0));
    var slots := Overwrite(Overwrite(Overwrite(Overwrite(b, Offset(FSlot(0)), blank), Offset(FSlot(1)), blank),
                                     Offset(FSlot(2)), blank), Offset(FSlot(3)), blank);
    Overwrite(Overwrite(slots, Offset(FLimitsBackup), none), Offset(FListBackup), none)
  }

  /** Marking a record takes its size from the file. */
  function ByteMark(b: string, at: nat, prev: nat, next: nat, live: bool): string {
    if at + AFTER_ITER > |b| then b else
    var line := ReadSizeLine(b, at + AFTER_ITER);
    if line.NoSize? then b else Overwrite(b, at, DataHeaderText(prev, next, line.size, live))
  }

  /** The bytes of the file after the write. */
  function ByteWrite(b: string, w: Write): string {
    match w
    case WStamp(s) => Overwrite(b, Offset(FStamp), StampText(s))
    case WSize(n) => Overwrite(b, Offset(FSize), NumberText(n))
    case WStatus(s) => Overwrite(b, Offset(FStatus), [StatusByte(s), '\n'])
    case WSlot(i, it) => if i < SLOTS then Overwrite(b, Offset(FSlot(i)), SlotText(it)) else b
    case WLimitsBackup(l) => Overwrite(b, Offset(FLimitsBackup), LimitsText(l))
    case WClear => PutEmpty(b)
    case WLimits(l) => Overwrite(b, Offset(FLimits), LimitsText(l))
    case WIterator(at, prev, next) => Overwrite(b, at, IterText(prev, next) + "\n")
    case WMark(at, prev, next, live) => ByteMark(b, at, prev, next, live)
    case WAppend(r) => b + RecordText(r)
    case WTruncate(length) => if length <= |b| then b[..length] else b
  }

  ghost predicate FitsHeader(w: Write) {
    match w
    case WStamp(s) => FitsStamp(s)
    case WSize(n) => n < NUMBER_LIMIT
    case WSlot(_, it) => FitsSlot(it)
    case WLimitsBackup(l) => FitsLimits(l)
    case WLimits(l) => FitsLimits(l)
    case _ => true
  }

  /** The numbers fit their columns, and pointers are written over records only. */
  ghost predicate Legal(d: D.Disk, w: Write) {
    FitsHeader(w) &&
    match w
    case WSlot(i, _) => i < SLOTS
    case WIterator(at, prev, next) => at in d.records && FitsIter(prev) && FitsIter(next)
    case WMark(at, prev, next, _) => at in d.records && FitsIter(prev) && FitsIter(next)
    case WAppend(r) => FitsRecord(r)
    case WTruncate(length) => HEADER <= length <= d.end
    case _ => true
  }

  lemma PutField(b: string, d: D.Disk, e: D.Disk, f: Field, t: string)
    requires Represents(b, d) && IsKept(f) && OnlyField(d, e, f) && FitsDisk(e) && t == FieldText(e, f)
    ensures Represents(Overwrite(b, Offset(f), t), e)
  {
    FieldFits(b, d, f);
    FieldWritten(b, d, e, f);
  }

  /** The fields for the list in file order may hold anything. */
  lemma UnkeptWritten(b: string, d: D.Disk, t: string)
    requires Represents(b, d) && |t| == Length(FListBackup)
    ensures Represents(Overwrite(b, Offset(FListBackup), t), d)
  {
    var at := Offset(FListBackup);
    FieldFits(b, d, FListBackup);
    var r := Splice(b, at, t);
    forall g | IsKept(g)
      ensures FieldHere(r, d, g)
    {
      assert FieldHere(b, d, g);
      FieldsAreApart(FListBackup, g);
      SpliceKeeps(b, at, t, Offset(g), FieldText(d, g));
    }
    forall p | p in d.records
      ensures RecordHere(r, p, d.records[p])
    {
      RecordKept(b, d, p, at, t);
    }
  }

  function SlotCleared(d: D.Disk, i: nat): D.Disk
    requires i < SLOTS
  {
    d.(slots := d.slots[i := NO_ITER])
  }

  lemma SlotIsOnly(d: D.Disk, i: nat, it: Iter)
    requires i < SLOTS
    ensures OnlyField(d, d.(slots := d.slots[i := it]), FSlot(i))
  {
  }

  lemma SlotPut(b: string, d: D.Disk, i: nat)
    requires Represents(b, d) && i < SLOTS
    ensures Represents(Overwrite(b, Offset(FSlot(i)), SlotText(NO_ITER)), SlotCleared(d, i))
  {
    SlotIsOnly(d, i, NO_ITER);
    PutField(b, d, SlotCleared(d, i), FSlot(i), SlotText(NO_ITER));
  }

  lemma EmptyPut(b: string, d: D.Disk)
    requires Represents(b, d)
    ensures Represents(ByteWrite(b, WClear), Apply(d, WClear))
  {
    var e, blank, none := Apply(d, WClear), SlotText(NO_ITER), LimitsText(Limits(0, 0));
    SlotPut(b, d, 0);
    var b1, d1 := Overwrite(b, Offset(FSlot(0)), blank), SlotCleared(d, 0);
    SlotPut(b1, d1, 1);
    var b2, d2 := Overwrite(b1, Offset(FSlot(1)), blank), SlotCleared(d1, 1);
    SlotPut(b2, d2, 2);
    var b3, d3 := Overwrite(b2, Offset(FSlot(2)), blank), SlotCleared(d2, 2);
    SlotPut(b3, d3, 3);
    var b4, d4 := Overwrite(b3, Offset(FSlot(3)), blank), SlotCleared(d3, 3);
    assert d4.slots == NO_SLOTS;
    assert OnlyField(d4, e, FLimitsBackup);
    PutField(b4, d4, e, FLimitsBackup, none);
    UnkeptWritten(Overwrite(b4, Offset(FLimitsBackup), none), e, none);
  }

  predicate IsHeaderWrite(w: Write) {
    w.WStamp? || w.WSize? || w.WStatus? || (w.WSlot? && w.slot < SLOTS) || w.WLimitsBackup? || w.WLimits?
  }

  function FieldOf(w: Write): (f: Field)
    requires IsHeaderWrite(w)
    ensures IsKept(f)
  {
    match w
    case WStamp(_) => FStamp
    case WSize(_) => FSize
    case WStatus(_) => FStatus
    case WSlot(i, _) => FSlot(i)
    case WLimitsBackup(_) => FLimitsBackup
    case WLimits(_) => FLimits
  }

  lemma OneFieldWritten(d: D.Disk, w: Write)
    requires IsHeaderWrite(w)
    ensures OnlyField(d, Apply(d, w), FieldOf(w))
  {
  }

  lemma HeaderWriteSimulates(b: string, d: D.Disk, w: Write)
    requires Represents(b, d) && IsHeaderWrite(w) && FitsHeader(w)
    ensures Represents(ByteWrite(b, w), Apply(d, w))
  {
    var e, f := Apply(d, w), FieldOf(w);
    OneFieldWritten(d, w);
    PutField(b, d, e, f, FieldText(e, f));
    assert ByteWrite(b, w) == Overwrite(b, Offset(f), FieldText(e, f));
  }

  lemma IteratorWriteSimulates(b: string, d: D.Disk, at: nat, prev: nat, next: nat)
    requires Represents(b, d) && at in d.records && FitsIter(prev) && FitsIter(next)
    ensures Represents(ByteWrite(b, WIterator(at, prev, next)), Apply(d, WIterator(at, prev, next)))
  {
    var r := d.records[at];
    assert RecordHere(b, at, r);
    FirstLineWritten(b, at, r, prev, next);
    RecordWritten(b, d, at, IterText(prev, next) + "\n", r.(prev := prev, next := next));
  }

  /** The size of the record, read from its second line. */
  lemma SizeIsRead(b: string, at: nat, r: Record)
    requires RecordHere(b, at, r)
    ensures at + AFTER_ITER <= |b| && ReadSizeLine(b, at + AFTER_ITER).SizeLine?
    ensures ReadSizeLine(b, at + AFTER_ITER).size == |r.data| && ReadSizeLine(b, at + AFTER_ITER).live == r.live
  {
    RecordParts(b, at, r);
    SizeReads(b, at + AFTER_ITER, |r.data|, r.live);
  }

  lemma MarkBytes(b: string, at: nat, r: Record, prev: nat, next: nat, live: bool)
    requires RecordHere(b, at, r)
    ensures ByteMark(b, at, prev, next, live) == Overwrite(b, at, DataHeaderText(prev, next, |r.data|, live))
  {
    SizeIsRead(b, at, r);
  }

  lemma HeaderOverwritten(b: string, d: D.Disk, at: nat, prev: nat, next: nat, live: bool)
    requires Represents(b, d) && at in d.records && FitsIter(prev) && FitsIter(next)
    ensures Represents(Overwrite(b, at, DataHeaderText(prev, next, |d.records[at].data|, live)),
                       Apply(d, WMark(at, prev, next, live)))
  {
    var r := d.records[at];
    assert RecordHere(b, at, r);
    HeaderWritten(b, at, r, prev, next, live);
    RecordWritten(b, d, at, DataHeaderText(prev, next, |r.data|, live), r.(prev := prev, next := next, live := live));
  }

  lemma MarkWriteSimulates(b: string, d: D.Disk, at: nat, prev: nat, next: nat, live: bool)
    requires Represents(b, d) && at in d.records && FitsIter(prev) && FitsIter(next)
    ensures Represents(ByteWrite(b, WMark(at, prev, next, live)), Apply(d, WMark(at, prev, next, live)))
  {
    assert RecordHere(b, at, d.records[at]);
    HeaderOverwritten(b, d, at, prev, next, live);
    MarkBytes(b, at, d.records[at], prev, next, live);
  }

  /** Whatever the write, the bytes it leaves hold the disk it leads to. */
  lemma WriteSimulates(b: string, d: D.Disk, w: Write)
    requires Represents(b, d) && Legal(d, w)
    ensures Represents(ByteWrite(b, w), Apply(d, w))
  {
    match w
    case WClear => EmptyPut(b, d);
    case WIterator(at, prev, next) => IteratorWriteSimulates(b, d, at, prev, next);
    case WMark(at, prev, next, live) => MarkWriteSimulates(b, d, at, prev, next, live);
    case WAppend(r) => Appended(b, d, r);
    case WTruncate(length) => CutShort(b, d, length);
    case _ => HeaderWriteSimulates(b, d, w);
  }

  // ---------------------------------------------------------------------
  // Whole programs

  function BytesAt(b: string, ws: seq<Write>, k: nat): string
    requires k <= |ws|
    decreases k
  {
    if k == 0 then b else ByteWrite(BytesAt(b, ws, k - 1), ws[k - 1])
  }

  ghost predicate LegalRun(d: D.Disk, ws: seq<Write>) {
    forall k {:trigger StateAt(d, ws, k)} :: 0 <= k < |ws| ==> Legal(StateAt(d, ws, k), ws[k])
  }

  lemma {:induction false} RunSimulates(b: string, d: D.Disk, ws: seq<Write>, k: nat)
    requires Represents(b, d) && LegalRun(d, ws) && k <= |ws|
    ensures Represents(BytesAt(b, ws, k), StateAt(d, ws, k))
  {
    if k > 0 {
      RunSimulates(b, d, ws, k - 1);
      WriteSimulates(BytesAt(b, ws, k - 1), StateAt(d, ws, k - 1), ws[k - 1]);
    }
  }

  /** The file a crash leaves: the bytes of so many writes, and perhaps part of a record being appended. */
  ghost predicate BytesCrashedAt(b: string, ws: seq<Write>, k: nat, n: nat, c: string)
    requires k <= |ws|
  {
    var s := BytesAt(b, ws, k);
    if n == 0 then c == s
    else k < |ws| && ws[k].WAppend? && n < ws[k].record.Size() && c == s + RecordText(ws[k].record)[..n]
  }

  /** Every file a crash can leave holds a disk that a crash of the same program leaves. */
  lemma CrashSimulates(b: string, d: D.Disk, ws: seq<Write>, k: nat, n: nat, c: string)
    requires Represents(b, d) && LegalRun(d, ws) && k <= |ws| && BytesCrashedAt(b, ws, k, n, c)
    ensures var s := StateAt(d, ws, k);
            Represents(c, s.(end := s.end + n)) && CrashedAt(d, ws, k, s.(end := s.end + n))
  {
    RunSimulates(b, d, ws, k);
    var s := StateAt(d, ws, k);
    if n > 0 {
      Torn(BytesAt(b, ws, k), s, RecordText(ws[k].record)[..n]);
    } else {
      assert s.(end := s.end + 0) == s;
    }
  }

  // ---------------------------------------------------------------------
  // Reading the header back

  /** Limits and their backup are read back as written. */
  lemma LimitsReadBack(b: string, d: D.Disk)
    requires Represents(b, d)
    ensures var at := Offset(FLimits);
            at <= |b| && ReadIterLine(b, at) == IterLine(d.limits.first, d.limits.last, at + AFTER_ITER)
    ensures var at := Offset(FLimitsBackup);
            at <= |b| && ReadIterLine(b, at) == IterLine(d.limitsBackup.first, d.limitsBackup.last, at + AFTER_ITER)
  {
    assert FieldHere(b, d, FLimits) && FieldHere(b, d, FLimitsBackup);
    IterReads(b, Offset(FLimits), d.limits.first, d.limits.last);
    IterReads(b, Offset(FLimitsBackup), d.limitsBackup.first, d.limitsBackup.last);
  }

  /** A slot is read back as the position and the two pointers saved in it. */
  lemma SlotReadsBack(b: string, d: D.Disk, i: nat)
    requires Represents(b, d) && i < SLOTS
    ensures var at, it := Offset(FSlot(i)), d.slots[i];
            && at + ITER_WIDTH + 1 <= |b|
            && RunFrom(b, at, 16) == at + ITER_WIDTH
            && Value(b, at, at + ITER_WIDTH, 16) == it.current
            && ReadIterLine(b, at + ITER_WIDTH + 1) == IterLine(it.prev, it.next, at + ITER_WIDTH + 1 + AFTER_ITER)
  {
    assert FieldHere(b, d, FSlot(i));
    SlotLineReads(b, Offset(FSlot(i)), d.slots[i]);
  }

  lemma SlotLineReads(b: string, at: nat, it: Iter)
    requires At(b, at, SlotText(it)) && FitsSlot(it)
    ensures at + ITER_WIDTH + 1 <= |b|
    ensures RunFrom(b, at, 16) == at + ITER_WIDTH && Value(b, at, at + ITER_WIDTH, 16) == it.current
    ensures ReadIterLine(b, at + ITER_WIDTH + 1) == IterLine(it.prev, it.next, at + ITER_WIDTH + 1 + AFTER_ITER)
  {
    SlotParts(b, at, it);
    PositionReads(b, at, it.current);
    IterReads(b, at + ITER_WIDTH + 1, it.prev, it.next);
  }

  lemma SlotParts(b: string, at: nat, it: Iter)
    requires At(b, at, SlotText(it)) && FitsSlot(it)
    ensures At(b, at, Digits(it.current, 16, ITER_WIDTH))
    ensures at + ITER_WIDTH < |b| && b[at + ITER_WIDTH] == ' '
    ensures IterHere(b, at + ITER_WIDTH + 1, it.prev, it.next)
  {
    var position, line := Digits(it.current, 16, ITER_WIDTH), IterText(it.prev, it.next) + "\n";
    AtParts(b, at, position + " ", line);
    AtParts(b, at, position, " ");
    assert b[at + ITER_WIDTH] == b[at + ITER_WIDTH..at + ITER_WIDTH + 1][0];
  }

  /** So is the number of elements. */
  lemma SizeReadsBack(b: string, d: D.Disk)
    requires Represents(b, d)
    ensures var at := Offset(FSize);
            && at + NUMBER_SIZE <= |b|
            && RunFrom(b, at, 10) == at + NUMBER_SIZE
            && Value(b, at, at + NUMBER_SIZE, 10) == d.size
  {
    var at := Offset(FSize);
    assert FieldHere(b, d, FSize);
    AtParts(b, at, Digits(d.size, 10, NUMBER_SIZE), "\n");
    assert b[at + NUMBER_SIZE] == b[at + NUMBER_SIZE..at + NUMBER_SIZE + 1][0];
    LimitsArePowers();
    NumberReads(b, at, d.size, 10, NUMBER_SIZE);
  }
}
