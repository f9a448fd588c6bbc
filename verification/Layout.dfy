/** The file as bytes: where every header field and record lies, and how records are written and
    read back. */
module Layout {
  import opened Common
  import opened Disk

  // ---------------------------------------------------------------------
  // Geometry, as staticInitialize computes it

  const ITER_WIDTH: nat := 16                     // FileIterator::size()
  const EPOCH_WIDTH: nat := 20
  const COUNTER_WIDTH: nat := 5
  const STAMP_SIZE: nat := EPOCH_WIDTH + COUNTER_WIDTH + 1 + 1
  const SIZE_WIDTH: nat := 20 + 3                 // fc_s_sizeSize
  const NUMBER_SIZE: nat := 20 + 1                // fc_s_numberSize
  const STATUS_POSITION: nat := STAMP_SIZE + NUMBER_SIZE + 1
  const ITERATOR_BACKUP_SIZE: nat := (SLOTS * 3) * ITER_WIDTH + SLOTS * 3
  const LIMITS_BACKUP_SIZE: nat := 2 * ITER_WIDTH + 2
  const BACKUP_SIZE: nat := ITERATOR_BACKUP_SIZE + LIMITS_BACKUP_SIZE + LIMITS_BACKUP_SIZE + 3
  const HEADER_SIZE: nat := STAMP_SIZE + NUMBER_SIZE + BACKUP_SIZE + 4 * ITER_WIDTH + 4
  const POSITION_POSITION: nat := STAMP_SIZE + NUMBER_SIZE + BACKUP_SIZE
  const LIST_POSITION: nat := POSITION_POSITION + LIMITS_BACKUP_SIZE

  datatype Field = FStamp | FSize | FStatus | FSlot(slot: nat) | FLimitsBackup | FListBackup | FLimits | FList

  predicate IsField(f: Field) {
    f.FSlot? ==> f.slot < SLOTS
  }

  /** Where the code seeks to before it writes or reads the field. */
  function Offset(f: Field): nat {
    match f
    case FStamp => 0
    case FSize => STAMP_SIZE
    case FStatus => STATUS_POSITION
    case FSlot(i) => STATUS_POSITION + 2 + i * (3 * ITER_WIDTH + 3)
    case FLimitsBackup => STATUS_POSITION + ITERATOR_BACKUP_SIZE + 2
    case FListBackup => STATUS_POSITION + ITERATOR_BACKUP_SIZE + 2 + LIMITS_BACKUP_SIZE
    case FLimits => POSITION_POSITION
    case FList => LIST_POSITION
  }

  /** The bytes written there, line end included. */
  function Length(f: Field): nat {
    match f
    case FStamp => EPOCH_WIDTH + 1 + COUNTER_WIDTH + 1
    case FSize => NUMBER_SIZE + 1
    case FStatus => 2
    case FSlot(_) => ITER_WIDTH + 1 + (ITER_WIDTH + 1 + ITER_WIDTH) + 1
    case _ => ITER_WIDTH + 1 + ITER_WIDTH + 1
  }

  function Following(f: Field): Field {
    match f
    case FStamp => FSize
    case FSize => FStatus
    case FStatus => FSlot(0)
    case FSlot(i) => if i + 1 < SLOTS then FSlot(i + 1) else FLimitsBackup
    case FLimitsBackup => FListBackup
    case FListBackup => FLimits
    case FLimits => FList
    case FList => FStamp
  }

  /** The fields tile the header: each begins where the one before it ends, from offset 0 to the
      first record. */
  lemma HeaderTiles(f: Field)
    requires IsField(f)
    ensures Offset(FStamp) == 0
    ensures Offset(f) + Length(f) == if f == FList then HEADER_SIZE else Offset(Following(f))
    ensures HEADER_SIZE == HEADER && ITER_LINE == 2 * ITER_WIDTH + 2
    ensures forall n: nat :: DataSize(n) == 4 * ITER_WIDTH + SIZE_WIDTH + n + 8
  {
  }

  lemma FieldsAreApart(f: Field, g: Field)
    requires IsField(f) && IsField(g) && f != g
    ensures Offset(f) + Length(f) <= Offset(g) || Offset(g) + Length(g) <= Offset(f)
    ensures Offset(f) + Length(f) <= HEADER
  {
  }

  // ---------------------------------------------------------------------
  // Numbers

  /** Numbers are written in decimal or in hexadecimal. */
  type Base = b: nat | b == 10 || b == 16 witness 10

  /** With the products spelled out by base, all about digits is linear arithmetic. */
  function Shift(n: nat, base: Base): nat {
    if base == 10 then 10 * n else 16 * n
  }

  function Quotient(n: nat, base: Base): nat {
    if base == 10 then n / 10 else n / 16
  }

  function Last(n: nat, base: Base): (r: nat)
    ensures r < base
  {
    if base == 10 then n % 10 else n % 16
  }

  lemma TheyAre(n: nat, base: Base)
    ensures Shift(n, base) == n * base && Quotient(n, base) == n / base && Last(n, base) == n % base
  {
  }

  function Pow(base: Base, w: nat): (p: nat)
    ensures p > 0
  {
    if w == 0 then 1 else Shift(Pow(base, w - 1), base)
  }

  /** What does not fit the columns any more. */
  const ITER_LIMIT: nat := 0x1_0000_0000_0000_0000
  const SIZE_LIMIT: nat := 100_000_000_000_000_000_000_000
  const NUMBER_LIMIT: nat := 1_000_000_000_000_000_000_000
  const EPOCH_LIMIT: nat := 100_000_000_000_000_000_000
  const COUNTER_LIMIT: nat := 100_000

  lemma LimitsArePowers()
    ensures Pow(16, ITER_WIDTH) == ITER_LIMIT && Pow(10, SIZE_WIDTH) == SIZE_LIMIT
    ensures Pow(10, NUMBER_SIZE) == NUMBER_LIMIT && Pow(10, EPOCH_WIDTH) == EPOCH_LIMIT
    ensures Pow(10, COUNTER_WIDTH) == COUNTER_LIMIT
  {
    assert Pow(16, 8) == 0x1_0000_0000 && Pow(10, 12) == 1_000_000_000_000;
    assert Pow(16, 16) == ITER_LIMIT && Pow(10, 23) == SIZE_LIMIT;
  }

  const DIGITS := "0123456789abcdef"

  /** setfill('0') << setw(w) of a number that needs no more than `w` digits. */
  function Digits(n: nat, base: Base, w: nat): (s: string)
    ensures |s| == w
  {
    if w == 0 then "" else Digits(Quotient(n, base), base, w - 1) + [DIGITS[Last(n, base)]]
  }

  /** operator>> on the digits from `lo` to `hi`. */
  function Value(s: string, lo: nat, hi: nat, base: Base): nat
    requires lo <= hi <= |s|
    decreases hi
  {
    if lo == hi then 0 else Shift(Value(s, lo, hi - 1, base), base) + DigitValue(s[hi - 1])
  }

  predicate At(b: string, at: nat, text: string) {
    at + |text| <= |b| && b[at..at + |text|] == text
  }

  /** Text found at an offset is found in its parts. */
  lemma AtParts(b: string, at: nat, s: string, t: string)
    ensures At(b, at, s + t) <==> At(b, at, s) && At(b, at + |s|, t)
  {
    if At(b, at, s + t) {
      assert b[at..at + |s|] == (s + t)[..|s|];
      assert b[at + |s|..at + |s| + |t|] == (s + t)[|s|..];
    }
    if At(b, at, s) && At(b, at + |s|, t) {
      assert b[at..at + |s| + |t|] == b[at..at + |s|] + b[at + |s|..at + |s| + |t|];
    }
  }

  lemma FiveParts(b: string, at: nat, s: string, t: string, u: string, v: string, w: string)
    ensures At(b, at, (s + t) + u + v + w) <==>
            && At(b, at, s) && At(b, at + |s|, t) && At(b, at + |s| + |t|, u)
            && At(b, at + |s| + |t| + |u|, v) && At(b, at + |s| + |t| + |u| + |v|, w)
  {
    AtParts(b, at, (s + t) + u + v, w);
    AtParts(b, at, (s + t) + u, v);
    AtParts(b, at, s + t, u);
    AtParts(b, at, s, t);
  }

  lemma DigitOf(k: nat)
    requires k < 16
    ensures DigitValue(DIGITS[k]) == k
  {
  }

  lemma QuotientBelow(n: nat, base: Base, p: nat)
    requires n < Shift(p, base)
    ensures Quotient(n, base) < p && Shift(Quotient(n, base), base) + Last(n, base) == n
  {
  }

  /** The digits of a number, wherever they stand, have its value. */
  lemma {:induction false} DigitsRoundTrip(n: nat, base: Base, w: nat, s: string, lo: nat)
    requires n < Pow(base, w)
    requires lo + w <= |s| && s[lo..lo + w] == Digits(n, base, w)
    ensures Value(s, lo, lo + w, base) == n
    decreases w
  {
    if w > 0 {
      QuotientBelow(n, base, Pow(base, w - 1));
      var d := Digits(n, base, w);
      assert s[lo..lo + w - 1] == d[..w - 1] == Digits(Quotient(n, base), base, w - 1);
      DigitsRoundTrip(Quotient(n, base), base, w - 1, s, lo);
      assert s[lo + w - 1] == d[w - 1];
      DigitOf(Last(n, base));
    }
  }

  // ---------------------------------------------------------------------
  // Lines

  /** What reading a line or a record yields; `after` is the offset of the next line. */
  datatype IterLine = NoIter | IterLine(prev: nat, next: nat, after: nat)
  datatype SizeLine = NoSize | SizeLine(size: nat, live: bool, after: nat)
  datatype Reading = NoRecord | Found(record: Record)

  /** The largest position or pointer an iterator field has room for. */
  predicate FitsIter(n: nat) {
    n < ITER_LIMIT
  }

  function IterText(prev: nat, next: nat): (s: string)
    ensures |s| == 2 * ITER_WIDTH + 1
  {
    Digits(prev, 16, ITER_WIDTH) + " " + Digits(next, 16, ITER_WIDTH)
  }

  function SizeText(size: nat, live: bool): (s: string)
    ensures |s| == SIZE_WIDTH + 2
  {
    Digits(size, 10, SIZE_WIDTH) + " " + (if live then "g" else "i")
  }

  /** An iterator is its two positions in hexadecimal, the one before first. */
  lemma IterTextIs(prev: nat, next: nat)
    requires FitsIter(prev) && FitsIter(next)
    ensures var s := IterText(prev, next);
            && Value(s, 0, ITER_WIDTH, 16) == prev && s[ITER_WIDTH] == ' '
            && Value(s, ITER_WIDTH + 1, 2 * ITER_WIDTH + 1, 16) == next
  {
    var s, w := IterText(prev, next), ITER_WIDTH;
    LimitsArePowers();
    assert s[0..w] == Digits(prev, 16, w) && s[w + 1..w + 1 + w] == Digits(next, 16, w);
    DigitsRoundTrip(prev, 16, w, s, 0);
    DigitsRoundTrip(next, 16, w, s, w + 1);
  }

  /** A size is decimal, and the state letter is 'g' for a record in use and 'i' for an erased one. */
  lemma SizeTextIs(size: nat, live: bool)
    requires size < SIZE_LIMIT
    ensures var s := SizeText(size, live);
            && Value(s, 0, SIZE_WIDTH, 10) == size && s[SIZE_WIDTH] == ' '
            && s[SIZE_WIDTH + 1] == if live then 'g' else 'i'
  {
    var s, w := SizeText(size, live), SIZE_WIDTH;
    LimitsArePowers();
    assert s[0..w] == Digits(size, 10, w);
    DigitsRoundTrip(size, 10, w, s, 0);
  }

  /** The first character from `i` on that is no blank. */
  function SkipFrom(s: string, i: nat): (k: nat)
    requires i <= |s|
    ensures i <= k <= |s|
    decreases |s| - i
  {
    if i < |s| && (s[i] == ' ' || s[i] == '\t') then SkipFrom(s, i + 1) else i
  }

  /** The first character from `i` on that is no digit. */
  function RunFrom(s: string, i: nat, base: nat): (k: nat)
    requires i <= |s|
    ensures i <= k <= |s|
    decreases |s| - i
  {
    if i < |s| && DigitValue(s[i]) < base then RunFrom(s, i + 1, base) else i
  }

  /** FileIterator::read: two hexadecimal numbers parted by blanks, alone on their line. */
  function ReadIterLine(b: string, at: nat): IterLine
    requires at <= |b|
  {
    var p := SkipFrom(b, at);
    var q := RunFrom(b, p, 16);
    var r := SkipFrom(b, q);
    var e := RunFrom(b, r, 16);
    if p < q < r < e < |b| && b[q] == ' ' && b[e] == '\n'
    then IterLine(Value(b, p, q, 16), Value(b, r, e, 16), e + 1)
    else NoIter
  }

  /** readSizeAndState: a decimal number, blanks and the state letter, alone on their line. */
  function ReadSizeLine(b: string, at: nat): SizeLine
    requires at <= |b|
  {
    var q := RunFrom(b, at, 10);
    var r := SkipFrom(b, q);
    if at < q < r && r + 1 < |b| && b[q] == ' ' && (b[r] == 'g' || b[r] == 'i') && b[r + 1] == '\n'
    then SizeLine(Value(b, at, q, 10), b[r] == 'g', r + 2)
    else NoSize
  }

  predicate OnlyDigits(s: string, base: nat) {
    forall i :: 0 <= i < |s| ==> DigitValue(s[i]) < base
  }

  lemma {:induction false} DigitsAreDigits(n: nat, base: Base, w: nat)
    ensures OnlyDigits(Digits(n, base, w), base)
  {
    if w > 0 {
      DigitsAreDigits(Quotient(n, base), base, w - 1);
      DigitOf(Last(n, base));
    }
  }

  lemma {:induction false} RunEnds(s: string, i: nat, k: nat, base: nat)
    requires i <= k <= |s| && OnlyDigits(s[i..k], base) && (k == |s| || DigitValue(s[k]) >= base)
    ensures RunFrom(s, i, base) == k
    decreases k - i
  {
    if i < k {
      assert s[i] == s[i..k][0] && s[i + 1..k] == s[i..k][1..];
      RunEnds(s, i + 1, k, base);
    }
  }

  const AFTER_ITER: nat := 2 * ITER_WIDTH + 2
  const AFTER_SIZE: nat := SIZE_WIDTH + 3

  /** The line FileIterator::write leaves at `at`. */
  ghost predicate IterHere(b: string, at: nat, prev: nat, next: nat) {
    FitsIter(prev) && FitsIter(next) && At(b, at, IterText(prev, next) + "\n")
  }

  ghost predicate SizeHere(b: string, at: nat, size: nat, live: bool) {
    size < SIZE_LIMIT && At(b, at, SizeText(size, live) + "\n")
  }

  lemma IterParts(b: string, at: nat, prev: nat, next: nat)
    requires At(b, at, IterText(prev, next) + "\n")
    ensures At(b, at, Digits(prev, 16, ITER_WIDTH)) && At(b, at + ITER_WIDTH, " ")
    ensures At(b, at + ITER_WIDTH + 1, Digits(next, 16, ITER_WIDTH)) && At(b, at + 2 * ITER_WIDTH + 1, "\n")
  {
    var x, y := Digits(prev, 16, ITER_WIDTH), Digits(next, 16, ITER_WIDTH);
    assert IterText(prev, next) + "\n" == x + (" " + (y + "\n"));
    AtParts(b, at, x, " " + (y + "\n"));
    AtParts(b, at + |x|, " ", y + "\n");
    AtParts(b, at + |x| + 1, y, "\n");
  }

  lemma DigitsRun(b: string, at: nat, n: nat, base: Base, w: nat)
    requires At(b, at, Digits(n, base, w)) && at + w < |b| && DigitValue(b[at + w]) >= base
    ensures RunFrom(b, at, base) == at + w && (w > 0 ==> DigitValue(b[at]) < base)
  {
    DigitsAreDigits(n, base, w);
    RunEnds(b, at, at + w, base);
  }

  /** A number before something that is no digit is found and read whole. */
  lemma NumberReads(b: string, at: nat, n: nat, base: Base, w: nat)
    requires w > 0 && n < Pow(base, w) && At(b, at, Digits(n, base, w))
    requires at + w < |b| && DigitValue(b[at + w]) >= base
    ensures RunFrom(b, at, base) == at + w && DigitValue(b[at]) < base
    ensures Value(b, at, at + w, base) == n
  {
    DigitsRun(b, at, n, base, w);
    DigitsRoundTrip(n, base, w, b, at);
  }

  lemma PositionReads(b: string, at: nat, n: nat)
    requires FitsIter(n) && At(b, at, Digits(n, 16, ITER_WIDTH))
    requires at + ITER_WIDTH < |b| && DigitValue(b[at + ITER_WIDTH]) >= 16
    ensures RunFrom(b, at, 16) == at + ITER_WIDTH && DigitValue(b[at]) < 16
    ensures Value(b, at, at + ITER_WIDTH, 16) == n
  {
    LimitsArePowers();
    NumberReads(b, at, n, 16, ITER_WIDTH);
  }

  lemma LengthReads(b: string, at: nat, n: nat)
    requires n < SIZE_LIMIT && At(b, at, Digits(n, 10, SIZE_WIDTH))
    requires at + SIZE_WIDTH < |b| && DigitValue(b[at + SIZE_WIDTH]) >= 10
    ensures RunFrom(b, at, 10) == at + SIZE_WIDTH && Value(b, at, at + SIZE_WIDTH, 10) == n
  {
    LimitsArePowers();
    NumberReads(b, at, n, 10, SIZE_WIDTH);
  }

  lemma SizeParts(b: string, at: nat, size: nat, live: bool)
    requires At(b, at, SizeText(size, live) + "\n")
    ensures At(b, at, Digits(size, 10, SIZE_WIDTH)) && At(b, at + SIZE_WIDTH, " ")
    ensures At(b, at + SIZE_WIDTH + 1, if live then "g" else "i") && At(b, at + SIZE_WIDTH + 2, "\n")
  {
    var x, y := Digits(size, 10, SIZE_WIDTH), if live then "g" else "i";
    assert SizeText(size, live) + "\n" == x + (" " + (y + "\n"));
    AtParts(b, at, x, " " + (y + "\n"));
    AtParts(b, at + |x|, " ", y + "\n");
    AtParts(b, at + |x| + 1, y, "\n");
  }

  lemma IterReads(b: string, at: nat, prev: nat, next: nat)
    requires IterHere(b, at, prev, next)
    ensures at <= |b| && ReadIterLine(b, at) == IterLine(prev, next, at + 2 * ITER_WIDTH + 2)
  {
    var w := ITER_WIDTH;
    var q, r, e := at + w, at + w + 1, at + 2 * w + 1;
    IterParts(b, at, prev, next);
    assert b[q] == b[q..r][0] && b[e] == b[e..e + 1][0];
    PositionReads(b, at, prev);
    PositionReads(b, r, next);
    assert SkipFrom(b, r) == r;
  }

  lemma SizeReads(b: string, at: nat, size: nat, live: bool)
    requires SizeHere(b, at, size, live)
    ensures at <= |b| && ReadSizeLine(b, at) == SizeLine(size, live, at + SIZE_WIDTH + 3)
  {
    var w := SIZE_WIDTH;
    var q := at + w;
    SizeParts(b, at, size, live);
    assert b[q] == b[q..q + 1][0] && b[q + 1] == b[q + 1..q + 2][0] && b[q + 2] == b[q + 2..q + 3][0];
    LengthReads(b, at, size);
    assert SkipFrom(b, q + 1) == q + 1;
  }

  /** Reading an iterator line gives back whichever two positions were written there. */
  method ReadIterator(b: string, at: nat, ghost prev: nat, ghost next: nat) returns (l: IterLine)
    ensures l.IterLine? ==> at < l.after <= |b|
    ensures IterHere(b, at, prev, next) ==> l == IterLine(prev, next, at + AFTER_ITER)
  {
    if IterHere(b, at, prev, next) {
      IterReads(b, at, prev, next);
    }
    l := if at <= |b| then ReadIterLine(b, at) else NoIter;
  }

  /** Reading a size line gives back whichever size and state were written there. */
  method ReadSizeAndState(b: string, at: nat, ghost size: nat, ghost live: bool) returns (l: SizeLine)
    ensures l.SizeLine? ==> at < l.after <= |b|
    ensures SizeHere(b, at, size, live) ==> l == SizeLine(size, live, at + AFTER_SIZE)
  {
    if SizeHere(b, at, size, live) {
      SizeReads(b, at, size, live);
    }
    l := if at <= |b| then ReadSizeLine(b, at) else NoSize;
  }

  // ---------------------------------------------------------------------
  // Records

  predicate FitsRecord(r: Record) {
    && FitsIter(r.prev) && FitsIter(r.next) && FitsIter(r.filePrev) && FitsIter(r.fileNext)
    && |r.data| < SIZE_LIMIT
  }

  /** writeDataHeader. */
  function DataHeaderText(prev: nat, next: nat, size: nat, live: bool): (s: string)
    ensures |s| == 2 * ITER_WIDTH + 2 + SIZE_WIDTH + 3
  {
    (IterText(prev, next) + "\n") + (SizeText(size, live) + "\n")
  }

  /** writeDataHere; the text takes exactly calculateDataSize bytes. */
  function RecordText(r: Record): (s: string)
    ensures |s| == r.Size()
  {
    DataHeaderText(r.prev, r.next, |r.data|, r.live) + r.data + "\n" + (IterText(r.filePrev, r.fileNext) + "\n")
  }

  /** The text writeDataHere leaves at `at`. */
  ghost predicate RecordHere(b: string, at: nat, r: Record) {
    FitsRecord(r) && At(b, at, RecordText(r))
  }

  const AFTER_HEADER: nat := AFTER_ITER + AFTER_SIZE

  /** The four lines of a record, and where they are. */
  lemma RecordLines(b: string, at: nat, r: Record)
    ensures var to := at + AFTER_HEADER + |r.data|;
            RecordHere(b, at, r) <==>
              && IterHere(b, at, r.prev, r.next)
              && SizeHere(b, at + AFTER_ITER, |r.data|, r.live)
              && At(b, at + AFTER_HEADER, r.data)
              && At(b, to, "\n")
              && IterHere(b, to + 1, r.filePrev, r.fileNext)
  {
    FiveParts(b, at, IterText(r.prev, r.next) + "\n", SizeText(|r.data|, r.live) + "\n", r.data,
              "\n", IterText(r.filePrev, r.fileNext) + "\n");
  }

  const BUFSIZ: nat := 8192

  /** The read loop of readDataHere, a buffer at a time. */
  method ReadData(b: string, from: nat, size: nat) returns (data: string)
    requires from + size <= |b|
    ensures data == b[from..from + size]
  {
    data := "";
    var left := size;
    while left > 0
      invariant 0 <= left <= size && data == b[from..from + size - left]
    {
      var toread := if left > BUFSIZ then BUFSIZ else left;
      var pos := from + size - left;
      assert b[from..pos] + b[pos..pos + toread] == b[from..pos + toread];
      data := data + b[pos..pos + toread];
      left := left - toread;
    }
  }

  /**
    * readDataHere: whatever record was written at `at`, line ends in its data included, is read
    * back whole; an erased one only when forced.
    */
  method ReadDataHere(b: string, at: nat, force: bool, ghost r: Record) returns (reading: Reading)
    ensures RecordHere(b, at, r) ==> reading == if r.live || force then Found(r) else NoRecord
  {
    RecordLines(b, at, r);
    reading := NoRecord;
    var it := ReadIterator(b, at, r.prev, r.next);
    if it.NoIter? {
      return;
    }
    var sl := ReadSizeAndState(b, it.after, |r.data|, r.live);
    if sl.NoSize? || (!sl.live && !force) {
      return;
    }
    var to := sl.after + sl.size;
    if to >= |b| || b[to] != '\n' {
      return;
    }
    var data := ReadData(b, sl.after, sl.size);
    var file := ReadIterator(b, to + 1, r.filePrev, r.fileNext);
    if file.NoIter? {
      return;
    }
    reading := Found(Record(it.prev, it.next, sl.live, data, file.prev, file.next));
  }
}
