/** createEmptyFile on bytes: the header of a new file, field by field. */
module Creation {
  import opened D = Disk
  import opened L = Layout
  import opened Bytes
  import opened Recovery

  function Joined(parts: seq<string>): string {
    if parts == [] then "" else Joined(parts[..|parts| - 1]) + parts[|parts| - 1]
  }

  /** The k-th part of a text starts where the parts before it end. */
  lemma {:induction false} PartIsThere(parts: seq<string>, k: nat)
    requires k < |parts|
    ensures At(Joined(parts), |Joined(parts[..k])|, parts[k])
    decreases |parts|
  {
    var n := |parts| - 1;
    var before := Joined(parts[..n]);
    if k == n {
      assert Joined(parts)[|before|..] == parts[n];
    } else {
      PartIsThere(parts[..n], k);
      assert parts[..n][..k] == parts[..k] && parts[..n][k] == parts[k];
      var at := |Joined(parts[..k])|;
      assert Joined(parts)[at..at + |parts[k]|] == before[at..at + |parts[k]|];
    }
  }

  const FIELDS: nat := 11

  function FieldAt(k: nat): (f: Field)
    requires k < FIELDS
    ensures IsField(f)
  {
    if k == 0 then FStamp else if k == 1 then FSize else if k == 2 then FStatus
    else if k < 7 then FSlot(k - 3)
    else if k == 7 then FLimitsBackup else if k == 8 then FListBackup else if k == 9 then FLimits else FList
  }

  function PlaceInHeader(f: Field): (k: nat)
    requires IsField(f)
    ensures k < FIELDS && FieldAt(k) == f
  {
    match f
    case FStamp => 0 case FSize => 1 case FStatus => 2 case FSlot(i) => 3 + i
    case FLimitsBackup => 7 case FListBackup => 8 case FLimits => 9 case FList => 10
  }

  const REMOVED := Limits(0xdead, 0xbeef)          // fc_removed, which nothing follows

  /** The fields of the header in order, those for the file order as createEmptyFile leaves them. */
  function HeaderParts(d: D.Disk): (parts: seq<string>)
    ensures |parts| == FIELDS
    ensures forall k :: 0 <= k < FIELDS ==> |parts[k]| == Length(FieldAt(k))
  {
    seq(FIELDS, k requires 0 <= k < FIELDS =>
      if IsKept(FieldAt(k)) then FieldText(d, FieldAt(k))
      else LimitsText(if FieldAt(k) == FList then REMOVED else Limits(0, 0)))
  }

  lemma {:induction false} PartsBefore(parts: seq<string>, k: nat)
    requires |parts| == FIELDS && k <= FIELDS
    requires forall j :: 0 <= j < FIELDS ==> |parts[j]| == Length(FieldAt(j))
    ensures |Joined(parts[..k])| == if k < FIELDS then Offset(FieldAt(k)) else HEADER
  {
    if k > 0 {
      PartsBefore(parts, k - 1);
      assert parts[..k][..k - 1] == parts[..k - 1];
      HeaderTiles(FieldAt(k - 1));
      assert k < FIELDS ==> FieldAt(k) == Following(FieldAt(k - 1));
    }
  }

  /** createEmptyFile. */
  function NewFile(clock: nat): string {
    Joined(HeaderParts(EmptyFile(clock)))
  }

  /** The file it writes holds the empty container, which is well-formed. */
  lemma NewFileIsEmpty(clock: nat)
    requires clock < EPOCH_LIMIT
    ensures Represents(NewFile(clock), EmptyFile(clock))
    ensures WellFormed(EmptyFile(clock), []) && Contents(EmptyFile(clock), []) == []
  {
    var d := EmptyFile(clock);
    HeaderLength(d);
    forall f | IsKept(f)
      ensures FieldHere(NewFile(clock), d, f)
    {
      FieldIsJoined(d, f);
    }
    HoldsNothing(NewFile(clock), clock);
  }

  lemma HoldsNothing(b: string, clock: nat)
    requires |b| == HEADER && clock < EPOCH_LIMIT
    requires forall f {:trigger FieldHere(b, EmptyFile(clock), f)} :: IsKept(f) ==> FieldHere(b, EmptyFile(clock), f)
    ensures Represents(b, EmptyFile(clock))
    ensures WellFormed(EmptyFile(clock), []) && Contents(EmptyFile(clock), []) == []
  {
  }

  lemma HeaderLength(d: D.Disk)
    ensures |Joined(HeaderParts(d))| == HEADER
  {
    var parts := HeaderParts(d);
    PartsBefore(parts, FIELDS);
    assert parts[..FIELDS] == parts;
  }

  lemma FieldIsJoined(d: D.Disk, f: Field)
    requires IsKept(f)
    ensures FieldHere(Joined(HeaderParts(d)), d, f)
  {
    var parts, k := HeaderParts(d), PlaceInHeader(f);
    PartsBefore(parts, k);
    PartIsThere(parts, k);
  }

  /** The time and a counter of zero, no element, the status of a file at rest, blank backups, and
      limits that both name the end of the header. */
  function NewLine(clock: nat, f: Field): (t: string)
    requires IsKept(f)
    ensures |t| == Length(f)
  {
    match f
    case FStamp => StampText(Stamp(clock, 0))
    case FSize => NumberText(0)
    case FStatus => "0\n"
    case FSlot(_) => SlotText(Iter(0, 0, 0))
    case FLimitsBackup => LimitsText(Limits(0, 0))
    case FLimits => LimitsText(Limits(391, 391))
  }

  lemma NewLineIs(clock: nat, f: Field)
    requires IsKept(f)
    ensures FieldText(EmptyFile(clock), f) == NewLine(clock, f)
  {
  }

  /** The lines of a new file. */
  lemma NewFileLines(clock: nat, f: Field)
    requires IsKept(f)
    ensures At(NewFile(clock), Offset(f), NewLine(clock, f))
  {
    NewLineIs(clock, f);
    FieldIsJoined(EmptyFile(clock), f);
  }
}
