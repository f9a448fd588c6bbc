/** What the backup slots are good for: how the undo steps of recover_data bring back the
    body of the file as it was before an interrupted operation. */
module Undoing {
  import opened Disk
  import opened Recovery

  /** `c` holds every record of `b`, up to the pointers of those in `touched` and the state
      letter of those in `marked`; any further record starts at `from` or later. */
  ghost predicate Resembles(c: map<nat, Record>, b: map<nat, Record>, touched: set<nat>, marked: set<nat>, from: nat) {
    && (forall p :: p in b ==> p in c && c[p] == b[p].(
          prev := if p in touched then c[p].prev else b[p].prev,
          next := if p in touched then c[p].next else b[p].next,
          live := if p in marked then c[p].live else b[p].live))
    && (forall p :: p in c && p !in b ==> from <= p)
  }

  /** Cutting the file at the old end drops exactly the records that were not there. */
  lemma CutRestores(c: map<nat, Record>, b: Disk, touched: set<nat>, marked: set<nat>)
    requires Layout(b) && Resembles(c, b.records, touched, marked, b.end)
    ensures Cut(c, b.end).Keys == b.records.Keys
    ensures Resembles(Cut(c, b.end), b.records, touched, marked, b.end)
  {
  }

  /** Writing a saved iterator back undoes the change of one touched record. */
  lemma SlotRestores(r: map<nat, Record>, b: Disk, touched: set<nat>, marked: set<nat>, it: Iter)
    requires it.current in b.records && Resembles(r, b.records, touched, marked, b.end)
    requires it == IterAt(b, it.current)
    ensures Resembles(r[it.current := r[it.current].(prev := it.prev, next := it.next)],
                      b.records, touched - {it.current}, marked, b.end)
  {
  }

  /** Un-marking a record from its saved iterator undoes the change of the one marked record. */
  lemma MarkRestores(r: map<nat, Record>, b: Disk, touched: set<nat>, it: Iter)
    requires it.current in b.records && b.records[it.current].live && it == IterAt(b, it.current)
    requires Resembles(r, b.records, touched, {it.current}, b.end)
    ensures Resembles(r[it.current := r[it.current].(prev := it.prev, next := it.next, live := true)],
                      b.records, touched, {}, b.end)
  {
  }

  lemma NothingTouched(r: map<nat, Record>, b: map<nat, Record>, from: nat)
    requires Resembles(r, b, {}, {}, from) && r.Keys == b.Keys
    ensures r == b
  {
  }

  lemma LastSlotRestores(r: map<nat, Record>, b: Disk, it: Iter)
    requires it.current in b.records && it == IterAt(b, it.current)
    requires Resembles(r, b.records, {it.current}, {}, b.end) && r.Keys == b.records.Keys
    ensures r[it.current := r[it.current].(prev := it.prev, next := it.next)] == b.records
  {
    SlotRestores(r, b, {it.current}, {}, it);
    NothingTouched(r[it.current := r[it.current].(prev := it.prev, next := it.next)], b.records, b.end);
  }

  /** Reopening `c` gives the list of `b`: same elements, matching size, status closed. */
  ghost predicate Restores(c: Disk, clock: nat, b: Disk, chain: seq<nat>)
    requires Holds(b, chain)
  {
    var o := Recover(c, clock);
    && o.Good?
    && WellFormed(o.image.disk, chain)
    && Contents(o.image.disk, chain) == Contents(b, chain)
    && o.image.cache == o.image.disk.limits
    && o.image.disk.stamp == b.stamp
  }

  /** The image agrees with `b` on everything that makes up the list. */
  predicate SameList(m: Image, b: Disk) {
    && m.disk.records == b.records
    && m.disk.end == b.end
    && m.disk.limits == b.limits
    && m.cache == b.limits
    && m.disk.size == b.size
    && m.disk.stamp == b.stamp
  }

  /** When the undo steps bring the list of `b` back, the closing consistency check succeeds. */
  lemma UndoneIsRestored(m: Image, c: Disk, b: Disk, chain: seq<nat>, allowance: int, clock: nat)
    requires Holds(b, chain) && |chain| > 0 && SameList(m, b)
    requires b.size == |chain| || Allowed(|chain| - b.size, allowance)
    requires Undo(Image(c, c.limits), clock) == Check(m, allowance)
    ensures Restores(c, clock, b, chain)
  {
    SameBody(b, m.disk, chain);
    CheckKeepsList(m, chain, allowance, clock);
    var o := CheckConsistency(m, allowance, clock);
    SameBody(o.image.disk, o.image.disk.(status := Closed), chain);
  }

  /** The backups are wiped while the status byte still sends recovery to them. */
  predicate Cleared(c: Disk) {
    && c.slots == NO_SLOTS && c.limitsBackup == Limits(0, 0)
    && (c.status.AeWritten? || c.status.AbLast? || c.status.AmLast? || c.status.RdMark1? || c.status.RdMark2?)
    && (c.status.AeWritten? ==> c.limits.last >= HEADER)
    && (c.status.AbLast? ==> c.limits.first >= HEADER)
  }

  /** With its backups already wiped, an operation that has not yet said so cannot be undone:
      recovery runs into offset 0 and gives up. */
  lemma ClearedIsLost(c: Disk, clock: nat)
    requires Layout(c) && Cleared(c)
    ensures Recover(c, clock) == Bad
  {
    match c.status
    case AeWritten => ClearedAtEnd(c, clock);
    case AbLast => ClearedAtBegin(c, clock);
    case AmLast => ClearedInMiddle(c, clock);
    case _ => ClearedRemoval(c, clock);
  }

  lemma ClearedAtEnd(c: Disk, clock: nat)
    requires Layout(c) && Cleared(c) && c.status.AeWritten?
    ensures Recover(c, clock) == Bad
  {
  }

  lemma ClearedAtBegin(c: Disk, clock: nat)
    requires Layout(c) && Cleared(c) && c.status.AbLast?
    ensures Recover(c, clock) == Bad
  {
  }

  lemma ClearedInMiddle(c: Disk, clock: nat)
    requires Layout(c) && Cleared(c) && c.status.AmLast?
    ensures Recover(c, clock) == Bad
  {
  }

  lemma ClearedRemoval(c: Disk, clock: nat)
    requires Layout(c) && Cleared(c) && (c.status.RdMark1? || c.status.RdMark2?)
    ensures Recover(c, clock) == Bad
  {
  }
}
