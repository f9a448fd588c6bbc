/** Crash atomicity of the container on the bytes of its file. */
module Durable {
  import opened D = Disk
  import opened L = Layout
  import opened Bytes
  import opened FileRecovery
  import opened FileCrashes
  import opened Crashes
  import opened RecoveryProgram
  import opened Common
  import opened Programs
  import Atomicity
  import Insertion
  import Removal
  import Recovery
  import Undoing

  // ---------------------------------------------------------------------
  // The programs write within bounds

  /** A write that is legal at any point of a program for d: one that truncates overwrites no
      record, the others do not truncate. */
  ghost predicate Sound(d: D.Disk, w: Write, truncates: bool) {
    FitsHeader(w) &&
    match w
    case WSlot(i, _) => i < SLOTS
    case WIterator(at, prev, next) => !truncates && at in d.records && FitsIter(prev) && FitsIter(next)
    case WMark(at, prev, next, _) => !truncates && at in d.records && FitsIter(prev) && FitsIter(next)
    case WAppend(r) => FitsRecord(r)
    case WTruncate(length) => truncates && length == HEADER
    case _ => true
  }

  ghost predicate AllSound(d: D.Disk, ws: seq<Write>, truncates: bool) {
    forall w :: w in ws ==> Sound(d, w, truncates)
  }

  lemma {:induction false} RecordsStay(d: D.Disk, ws: seq<Write>, k: nat, truncates: bool)
    requires AllSound(d, ws, truncates) && k <= |ws| && HEADER <= d.end
    ensures HEADER <= StateAt(d, ws, k).end
    ensures !truncates ==> d.records.Keys <= StateAt(d, ws, k).records.Keys
  {
    if k > 0 {
      RecordsStay(d, ws, k - 1, truncates);
      assert Sound(d, ws[k - 1], truncates);
    }
  }

  lemma SoundIsLegal(d: D.Disk, ws: seq<Write>, truncates: bool)
    requires AllSound(d, ws, truncates) && HEADER <= d.end
    ensures LegalRun(d, ws)
  {
    forall k | 0 <= k < |ws|
      ensures Legal(StateAt(d, ws, k), ws[k])
    {
      RecordsStay(d, ws, k, truncates);
      assert Sound(d, ws[k], truncates);
    }
  }

  lemma SoundConcat(d: D.Disk, a: seq<Write>, b: seq<Write>, truncates: bool)
    requires AllSound(d, a, truncates) && AllSound(d, b, truncates)
    ensures AllSound(d, a + b, truncates)
  {
  }

  /** Everything the file points at, and the end after one more record, fits the columns. */
  ghost predicate Roomy(d: D.Disk, data: string) {
    && FitsIter(d.end + DataSize(|data|)) && |data| < SIZE_LIMIT
    && FitsIter(d.limits.first) && FitsIter(d.limits.last)
    && (forall p :: p in d.records ==> FitsIter(p) && FitsRecord(d.records[p]))
  }

  lemma RepresentedIsRoomy(b: string, d: D.Disk, chain: seq<nat>, data: string)
    requires Represents(b, d) && WellFormed(d, chain)
    requires FitsIter(d.end + DataSize(|data|)) && |data| < SIZE_LIMIT
    ensures Roomy(d, data)
  {
    forall p | p in d.records
      ensures FitsIter(p) && FitsRecord(d.records[p])
    {
      assert RecordHere(b, p, d.records[p]);
    }
    if |chain| > 0 {
      assert Node(d.records, d.end, chain, 0) && Node(d.records, d.end, chain, |chain| - 1);
    }
  }

  lemma FirstIsSound(d: D.Disk, data: string)
    requires Roomy(d, data)
    ensures AllSound(d, AddFirst(d.limits, d.end, data), false)
  {
  }

  lemma AtEndIsSound(d: D.Disk, data: string)
    requires Roomy(d, data) && d.limits.last in d.records
    ensures AllSound(d, AddAtEnd(d, d.limits, d.end, data), false)
  {
    assert FitsRecord(d.records[d.limits.last]);
  }

  /** The numbers an insertion writes about the record at p. */
  ghost predicate FitsLinks(d: D.Disk, p: nat) {
    p in d.records && FitsIter(p) && FitsIter(d.records[p].prev) && FitsIter(d.records[p].next)
  }

  lemma ResetIsSound(d: D.Disk, prev: nat, past: nat, status: Status)
    requires FitsIter(past) && FitsLinks(d, d.limits.last) && FitsIter(prev)
    ensures AllSound(d, ResetLast(d, d.limits, prev, past, status), false)
  {
  }

  lemma AtBeginIsSound(d: D.Disk, data: string)
    requires FitsIter(d.end + DataSize(|data|)) && |data| < SIZE_LIMIT
    requires FitsLinks(d, d.limits.first) && FitsLinks(d, d.limits.last)
    ensures AllSound(d, AddAtBegin(d, d.limits, d.end, data), false)
  {
    ResetIsSound(d, if d.limits.last == d.limits.first then d.end else d.records[d.limits.last].prev,
                 PastRecord(d, d.limits.first, data), AbLast);
  }

  lemma InMiddleIsSound(d: D.Disk, at: nat, data: string)
    requires FitsIter(d.end + DataSize(|data|)) && |data| < SIZE_LIMIT
    requires FitsLinks(d, d.limits.last) && FitsLinks(d, at) && FitsLinks(d, d.records[at].prev)
    ensures AllSound(d, AddInMiddle(d, d.limits, at, d.end, data), false)
  {
    ResetIsSound(d, if d.limits.last == at then d.end else d.records[d.limits.last].prev,
                 PastRecord(d, at, data), AmLast);
  }

  lemma AddBodyIsSound(d: D.Disk, chain: seq<nat>, i: nat, data: string)
    requires Roomy(d, data) && Holds(d, chain) && i <= |chain|
    ensures AllSound(d, AddBody(d, d.limits, Atomicity.PlaceOf(d, chain, i), d.end, data), false)
  {
    Atomicity.PlaceIsValid(d, chain, i);
    if i == |chain| == 0 {
      FirstIsSound(d, data);
    } else if i == |chain| {
      AtEndIsSound(d, data);
    } else if i == 0 {
      assert FitsLinks(d, d.limits.first) && FitsLinks(d, d.limits.last);
      AtBeginIsSound(d, data);
    } else {
      Insertion.InnerPlaces(d, chain, i);
      assert FitsLinks(d, d.limits.last) && FitsLinks(d, chain[i]) && FitsLinks(d, d.records[chain[i]].prev);
      InMiddleIsSound(d, chain[i], data);
    }
  }

  /** Between a prologue and an epilogue every sound body makes a legal program. */
  lemma ProgramIsLegal(d: D.Disk, stamp: Stamp, body: seq<Write>, epilogue: seq<Write>, truncates: bool)
    requires FitsStamp(stamp) && HEADER <= d.end && AllSound(d, body, truncates) && AllSound(d, epilogue, truncates)
    ensures LegalRun(d, Prologue(stamp) + body + epilogue)
  {
    assert AllSound(d, Prologue(stamp), truncates);
    SoundConcat(d, Prologue(stamp), body, truncates);
    SoundConcat(d, Prologue(stamp) + body, epilogue, truncates);
    SoundIsLegal(d, Prologue(stamp) + body + epilogue, truncates);
  }

  lemma EpilogueIsSound(d: D.Disk, size: nat, truncates: bool)
    requires size + 1 < NUMBER_LIMIT
    ensures AllSound(d, AddEpilogue(size), truncates) && (size > 0 ==> AllSound(d, RemoveEpilogue(size), truncates))
  {
  }

  /** An element is removed by writes over its neighbours, or by truncating the file. */
  lemma RemoveBodyIsSound(d: D.Disk, at: nat)
    requires Roomy(d, "") && CanRemove(d, at)
    ensures AllSound(d, RemoveBody(d, d.limits, at), d.records[at].next == d.end && d.records[at].prev == 0)
  {
    var it := IterAt(d, at);
    assert FitsLinks(d, at);
    if it.next == d.end && it.prev == 0 {
    } else if it.next == d.end {
      assert FitsLinks(d, it.prev);
      EndIsSound(d, it, it.prev, Limits(d.limits.first, it.prev), d.records[it.prev].prev, d.end);
    } else if it.prev == 0 {
      assert FitsLinks(d, it.next);
      EndIsSound(d, it, it.next, Limits(it.next, d.limits.last), 0, d.records[it.next].next);
    } else {
      assert FitsLinks(d, it.prev) && FitsLinks(d, it.next);
      MiddleIsSound(d, it);
    }
  }

  lemma MarkIsSound(d: D.Disk, it: Iter, status: Status)
    requires FitsLinks(d, it.current) && it == IterAt(d, it.current)
    ensures AllSound(d, MarkErased(it, status), false)
  {
  }

  lemma EndIsSound(d: D.Disk, it: Iter, near: nat, lim: Limits, prev: nat, next: nat)
    requires FitsLinks(d, it.current) && it == IterAt(d, it.current) && FitsLinks(d, near)
    requires FitsIter(d.limits.first) && FitsIter(d.limits.last) && FitsIter(lim.first) && FitsIter(lim.last)
    requires FitsIter(prev) && FitsIter(next)
    ensures AllSound(d, RemoveEnd(d, d.limits, it, near, lim, prev, next), false)
  {
    MarkIsSound(d, it, RdMark1);
  }

  lemma MiddleIsSound(d: D.Disk, it: Iter)
    requires FitsLinks(d, it.current) && it == IterAt(d, it.current) && FitsLinks(d, it.prev) && FitsLinks(d, it.next)
    ensures AllSound(d, RemoveMiddle(d, it), false)
  {
    MarkIsSound(d, it, RdMark2);
  }

  lemma AddIsLegal(b: string, d: D.Disk, chain: seq<nat>, i: nat, data: string, stamp: Stamp)
    requires Represents(b, d) && WellFormed(d, chain) && i <= |chain|
    requires FitsIter(d.end + DataSize(|data|)) && |data| < SIZE_LIMIT
    requires FitsStamp(stamp) && d.size + 1 < NUMBER_LIMIT
    ensures LegalRun(d, AddWrites(d, d.limits, d.size, stamp, Atomicity.PlaceOf(d, chain, i), d.end, data))
  {
    RepresentedIsRoomy(b, d, chain, data);
    AddBodyIsSound(d, chain, i, data);
    EpilogueIsSound(d, d.size, false);
    ProgramIsLegal(d, stamp, AddBody(d, d.limits, Atomicity.PlaceOf(d, chain, i), d.end, data), AddEpilogue(d.size), false);
  }

  lemma RemoveIsLegal(b: string, d: D.Disk, chain: seq<nat>, at: nat, stamp: Stamp)
    requires Represents(b, d) && WellFormed(d, chain) && CanRemove(d, at) && d.size > 0
    requires FitsIter(d.end + DataSize(0)) && FitsStamp(stamp) && d.size + 1 < NUMBER_LIMIT
    ensures LegalRun(d, RemoveWrites(d, d.limits, d.size, stamp, at))
  {
    var truncates := d.records[at].next == d.end && d.records[at].prev == 0;
    RepresentedIsRoomy(b, d, chain, "");
    RemoveBodyIsSound(d, at);
    EpilogueIsSound(d, d.size, truncates);
    ProgramIsLegal(d, stamp, RemoveBody(d, d.limits, at), RemoveEpilogue(d.size), truncates);
  }

  // ---------------------------------------------------------------------
  // The sequence a file holds

  /** The file is a container at rest that holds the stamp and the sequence. */
  ghost predicate FileHolds(b: string, stamp: Stamp, s: seq<string>) {
    exists d, chain :: Represents(b, d) && WellFormed(d, chain) && d.stamp == stamp && Contents(d, chain) == s
  }

  lemma {:induction false} DigitsDetermine(n: nat, m: nat, base: Base, w: nat)
    requires n < Pow(base, w) && m < Pow(base, w) && Digits(n, base, w) == Digits(m, base, w)
    ensures n == m
  {
    var s := Digits(n, base, w);
    assert s[0..w] == s;
    DigitsRoundTrip(n, base, w, s, 0);
    DigitsRoundTrip(m, base, w, s, 0);
  }

  lemma StampIsDetermined(b: string, d: D.Disk, e: D.Disk)
    requires Represents(b, d) && Represents(b, e)
    ensures d.stamp == e.stamp
  {
    assert FieldHere(b, d, FStamp) && FieldHere(b, e, FStamp);
    var t, u := StampText(d.stamp), StampText(e.stamp);
    assert t == u;
    assert t[..EPOCH_WIDTH] == Digits(d.stamp.epoch, 10, EPOCH_WIDTH) && u[..EPOCH_WIDTH] == Digits(e.stamp.epoch, 10, EPOCH_WIDTH);
    var lo, hi := EPOCH_WIDTH + 1, EPOCH_WIDTH + 1 + COUNTER_WIDTH;
    assert t[lo..hi] == Digits(d.stamp.counter, 10, COUNTER_WIDTH) && u[lo..hi] == Digits(e.stamp.counter, 10, COUNTER_WIDTH);
    LimitsArePowers();
    DigitsDetermine(d.stamp.epoch, e.stamp.epoch, 10, EPOCH_WIDTH);
    DigitsDetermine(d.stamp.counter, e.stamp.counter, 10, COUNTER_WIDTH);
  }

  lemma SameSize(b: string, p: nat, r: Record, q: Record)
    requires RecordHere(b, p, r) && RecordHere(b, p, q)
    ensures |r.data| == |q.data| && r.live == q.live
  {
    SizeIsRead(b, p, r);
    SizeIsRead(b, p, q);
  }

  lemma SameIterators(b: string, p: nat, prev: nat, next: nat, prev': nat, next': nat)
    requires IterHere(b, p, prev, next) && IterHere(b, p, prev', next')
    ensures prev == prev' && next == next'
  {
    IterReads(b, p, prev, next);
    IterReads(b, p, prev', next');
  }

  /** The bytes at an offset hold at most one record. */
  lemma RecordIsDetermined(b: string, p: nat, r: Record, q: Record)
    requires RecordHere(b, p, r) && RecordHere(b, p, q)
    ensures r == q
  {
    SameSize(b, p, r, q);
    RecordLines(b, p, r);
    RecordLines(b, p, q);
    SameIterators(b, p, r.prev, r.next, q.prev, q.next);
    SameIterators(b, p + AFTER_HEADER + |r.data| + 1, r.filePrev, r.fileNext, q.filePrev, q.fileNext);
  }

  lemma {:induction false} SameElements(b: string, d: D.Disk, e: D.Disk, x: seq<nat>, y: seq<nat>, k: nat)
    requires Represents(b, d) && Represents(b, e) && Holds(d, x) && Holds(e, y) && d.limits == e.limits
    requires k < |x| && k < |y|
    ensures x[k] == y[k] && x[k] in d.records && x[k] in e.records && d.records[x[k]] == e.records[x[k]]
    decreases k
  {
    assert Node(d.records, d.end, x, k) && Node(e.records, e.end, y, k);
    if k > 0 {
      SameElements(b, d, e, x, y, k - 1);
      assert Node(d.records, d.end, x, k - 1) && Node(e.records, e.end, y, k - 1);
    }
    assert RecordHere(b, x[k], d.records[x[k]]) && RecordHere(b, x[k], e.records[x[k]]);
    RecordIsDetermined(b, x[k], d.records[x[k]], e.records[x[k]]);
  }

  /** A file holds at most one sequence, under one stamp. */
  lemma FileHoldsOne(b: string, stamp: Stamp, s: seq<string>, stamp': Stamp, s': seq<string>)
    requires FileHolds(b, stamp, s) && FileHolds(b, stamp', s')
    ensures stamp == stamp' && s == s'
  {
    var d, x :| Represents(b, d) && WellFormed(d, x) && d.stamp == stamp && Contents(d, x) == s;
    var e, y :| Represents(b, e) && WellFormed(e, y) && e.stamp == stamp' && Contents(e, y) == s';
    StampIsDetermined(b, d, e);
    HeaderIsRead(b, d);
    HeaderIsRead(b, e);
    forall k | 0 <= k < |s|
      ensures s[k] == s'[k]
    {
      SameElements(b, d, e, x, y, k);
    }
  }

  // ---------------------------------------------------------------------
  // What recovery makes of the file a crash leaves

  /** recover_data succeeds on the file and leaves one that holds either sequence. */
  ghost predicate FileSurvives(c: string, clock: nat, stamp: Stamp, before: seq<string>, after: seq<string>) {
    match RecoverFile(c, clock)
    case Some(r) => FileHolds(r, stamp, before) || FileHolds(r, stamp, after)
    case None => false
  }

  lemma SurvivesOnFile(c: string, left: D.Disk, clock: nat, before: seq<string>, after: seq<string>)
    requires Represents(c, left) && FitsIter(left.end) && Steady(left)
    requires Atomicity.Survives(left, clock, before, after)
    ensures FileSurvives(c, clock, left.stamp, before, after)
  {
    RecoverySimulates(c, left, clock);
    var d := Recovery.Recover(left, clock).image.disk;
    var chain :| WellFormed(d, chain) && (Contents(d, chain) == before || Contents(d, chain) == after);
  }

  lemma CrashedDisk(b: string, d: D.Disk, ws: seq<Write>, k: nat, n: nat, c: string) returns (left: D.Disk)
    requires Represents(b, d) && LegalRun(d, ws) && k <= |ws| && BytesCrashedAt(b, ws, k, n, c)
    ensures Represents(c, left) && CrashedAt(d, ws, k, left)
  {
    CrashSimulates(b, d, ws, k, n, c);
    var s := StateAt(d, ws, k);
    left := s.(end := s.end + n);
  }

  lemma InsertionIsSteady(left: D.Disk, b: D.Disk, at: nat)
    requires D.Layout(b) && HEADER <= left.end && (Quiet(left.status) || Insertion.Promise(left, b, at))
    ensures Steady(left)
  {
    if Quiet(left.status) {
      QuietIsSteady(left);
    } else if Insertion.AePromise(left, b) {
      EndIsSteady(left, b);
    } else if Insertion.AbPromise(left, b) {
      BeginIsSteady(left, b);
    } else {
      MiddleIsSteady(left, b, at);
    }
  }

  lemma RemovalIsSteady(left: D.Disk, b: D.Disk, at: nat, near: nat)
    requires D.Layout(b) && HEADER <= left.end && (Quiet(left.status) || Removal.Promise(left, b, at, near))
    ensures Steady(left)
  {
    if Quiet(left.status) {
      QuietIsSteady(left);
    } else if Removal.RdPromise1(left, b, at, near) {
      EndRemovalIsSteady(left, b, at, near);
    } else {
      MiddleRemovalIsSteady(left, b, at);
    }
  }

  /**
    * Crash atomicity of add_data on the file itself: after any number of its writes and, inside
    * the append, any number of bytes of the record, recover_data on what is left makes a file that
    * holds the old or the new sequence, except exactly between the clearing of the backups and the
    * status byte announcing it and, when the list was empty, while the status byte in the file
    * sends recovery to the missing last element.
    */
  lemma InsertionIsDurable(b: string, d: D.Disk, chain: seq<nat>, i: nat, data: string, stamp: Stamp, ws: seq<Write>,
                           k: nat, n: nat, c: string, clock: nat)
    requires Represents(b, d) && WellFormed(d, chain) && i <= |chain|
    requires FitsIter(d.end + DataSize(|data|)) && |data| < SIZE_LIMIT
    requires FitsStamp(stamp) && d.size + 1 < NUMBER_LIMIT
    requires ws == AddWrites(d, d.limits, d.size, stamp, Atomicity.PlaceOf(d, chain, i), d.end, data)
    requires k <= |ws| && BytesCrashedAt(b, ws, k, n, c)
    ensures ReadStatus(c).Some?
    ensures FileSurvives(c, clock, if k == 0 then d.stamp else stamp, Contents(d, chain), InsertAt(Contents(d, chain), i, data))
            <==> k != |ws| - 3 && (|chain| == 0 ==> !Atomicity.NeedsElement(ReadStatus(c).value))
  {
    AddIsLegal(b, d, chain, i, data, stamp);
    var left := CrashedDisk(b, d, ws, k, n, c);
    InsertionOnFile(c, left, d, chain, i, data, stamp, ws, k, clock);
  }

  lemma InsertionOnFile(c: string, left: D.Disk, d: D.Disk, chain: seq<nat>, i: nat, data: string, stamp: Stamp,
                        ws: seq<Write>, k: nat, clock: nat)
    requires Represents(c, left) && WellFormed(d, chain) && i <= |chain| && FitsIter(d.end + DataSize(|data|))
    requires ws == AddWrites(d, d.limits, d.size, stamp, Atomicity.PlaceOf(d, chain, i), d.end, data)
    requires k <= |ws| && CrashedAt(d, ws, k, left)
    ensures ReadStatus(c).Some?
    ensures FileSurvives(c, clock, if k == 0 then d.stamp else stamp, Contents(d, chain), InsertAt(Contents(d, chain), i, data))
            <==> k != |ws| - 3 && (|chain| == 0 ==> !Atomicity.NeedsElement(ReadStatus(c).value))
  {
    StatusIsRead(c, left);
    InsertionKinds(d, chain, i, data, stamp, k, left);
    if k != |ws| - 3 && (|chain| == 0 ==> !Atomicity.NeedsElement(left.status)) {
      Atomicity.InsertionIsAtomic(d, chain, i, data, stamp, k, left, clock);
      InsertionIsSteady(left, Atomicity.Begun(d, stamp), Atomicity.PlaceOf(d, chain, i));
      SurvivesOnFile(c, left, clock, Contents(d, chain), InsertAt(Contents(d, chain), i, data));
    } else if Undoing.Cleared(left) {
      ClearedFails(c, left);
    } else {
      HeadlessFails(c, left);
    }
  }

  /** A file cut to its header that counts one element is no container at rest. */
  lemma EmptiedHoldsNothing(r: string, stamp: Stamp, s: seq<string>)
    requires |r| == HEADER && ReadCount(r) == 1
    ensures !FileHolds(r, stamp, s)
  {
    if FileHolds(r, stamp, s) {
      var d, chain :| Represents(r, d) && WellFormed(d, chain) && d.stamp == stamp && Contents(d, chain) == s;
      CountIsRead(r, d);
      Removal.OnlyIsLost(d, chain);
    }
  }

  /** Crash atomicity of remove_data on the file itself. */
  lemma RemovalIsDurable(b: string, d: D.Disk, chain: seq<nat>, i: nat, stamp: Stamp, ws: seq<Write>,
                         k: nat, n: nat, c: string, clock: nat)
    requires Represents(b, d) && WellFormed(d, chain) && i < |chain| && CanRemove(d, chain[i])
    requires FitsIter(d.end + DataSize(0)) && FitsStamp(stamp) && d.size + 1 < NUMBER_LIMIT
    requires ws == RemoveWrites(d, d.limits, d.size, stamp, chain[i])
    requires k <= |ws| && BytesCrashedAt(b, ws, k, n, c)
    ensures FileSurvives(c, clock, if k == 0 then d.stamp else stamp, Contents(d, chain), RemoveAt(Contents(d, chain), i))
            <==> k != |ws| - 3 && (|chain| == 1 ==> ReadStatus(c) == Some(Closed) || ReadStatus(c) == Some(Opened))
  {
    RemoveIsLegal(b, d, chain, chain[i], stamp);
    var left := CrashedDisk(b, d, ws, k, n, c);
    RemovalOnFile(c, left, d, chain, i, stamp, ws, k, clock);
  }

  lemma EmptiedIsLost(c: string, left: D.Disk, clock: nat, stamp: Stamp, before: seq<string>, after: seq<string>)
    requires Represents(c, left) && FitsIter(left.end) && Emptied(left)
    ensures !FileSurvives(c, clock, stamp, before, after)
  {
    EmptiedFails(c, left, clock);
    if RecoverFile(c, clock).Some? {
      EmptiedHoldsNothing(RecoverFile(c, clock).value, stamp, before);
      EmptiedHoldsNothing(RecoverFile(c, clock).value, stamp, after);
    }
  }

  lemma RemovalOnFile(c: string, left: D.Disk, d: D.Disk, chain: seq<nat>, i: nat, stamp: Stamp, ws: seq<Write>, k: nat,
                      clock: nat)
    requires Represents(c, left) && WellFormed(d, chain) && i < |chain| && CanRemove(d, chain[i]) && FitsIter(d.end)
    requires ws == RemoveWrites(d, d.limits, d.size, stamp, chain[i])
    requires k <= |ws| && CrashedAt(d, ws, k, left)
    ensures FileSurvives(c, clock, if k == 0 then d.stamp else stamp, Contents(d, chain), RemoveAt(Contents(d, chain), i))
            <==> k != |ws| - 3 && (|chain| == 1 ==> ReadStatus(c) == Some(Closed) || ReadStatus(c) == Some(Opened))
  {
    var before, after := Contents(d, chain), RemoveAt(Contents(d, chain), i);
    StatusIsRead(c, left);
    RemovalKinds(d, chain, i, stamp, k, left);
    if k != |ws| - 3 && (|chain| == 1 ==> left.status.Closed? || left.status.Opened?) {
      Atomicity.RemovalIsAtomic(d, chain, i, stamp, k, left, clock);
      var near := if |chain| == 1 then 0 else if i == 0 then chain[1] else chain[i - 1];
      RemovalIsSteady(left, Atomicity.Begun(d, stamp), chain[i], near);
      SurvivesOnFile(c, left, clock, before, after);
    } else if Undoing.Cleared(left) {
      ClearedFails(c, left);
    } else {
      EmptiedIsLost(c, left, clock, if k == 0 then d.stamp else stamp, before, after);
    }
  }
}
