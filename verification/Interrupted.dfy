/** Recovery interrupted in its turn: for every point at which it can crash, whether recovering once
    more still finds the old or the new list. */
module Interrupted {
  import opened Common
  import opened Disk
  import opened Recovery
  import opened Programs
  import opened Undoing
  import opened RecoveryProgram
  import opened Atomicity
  import opened Crashes
  import opened SecondCrash
  import Insertion
  import Removal

  /** Every crash of the switch is settled, and what it leaves when it ends says so or is undone. */
  ghost predicate Settles(c: Disk, chain: seq<nat>, clock: nat, before: seq<string>, after: seq<string>) {
    && PlanOf(c).Plan?
    && SwitchSettled(c, clock, before, after)
    && var e := RunAll(c, PlanOf(c).writes);
       JustClosed(e.status) || (InPlace(e) && SlotsInList(e, chain))
  }

  lemma SettledCrash(c: Disk, b: Disk, chain: seq<nat>, m: Image, allowance: int, rs: seq<Write>, j: nat, clock: nat,
                     before: seq<string>, after: seq<string>)
    requires Holds(b, chain) && |chain| > 0 && (b.size == |chain| || Allowed(|chain| - b.size, allowance))
    requires Contents(b, chain) == before || Contents(b, chain) == after
    requires Undo(Image(c, c.limits), clock) == Check(m, allowance) && SameList(m, b)
    requires Settles(c, chain, clock, before, after)
    requires RecoveryWrites(c) == Some(rs) && j <= |rs|
    ensures Fate(StateAt(c, rs, j), !Exposed(HeaderOf(c), PlanOf(c).writes, rs, j), clock, before, after)
  {
    ProgramIs(c, b, chain, m, allowance, clock);
    var e := m.disk.(size := |chain|);
    InPlaceSurvives(e, b, chain, clock, before, after);
    if HasTail(b) && !JustClosed(e.status) {
      InPlaceShortened(e, b, chain, clock, before, after);
    }
    PlannedCrash(c, b, chain, m, allowance, rs, j, clock, before, after);
  }

  lemma PromisedSurvives(c: Disk, b: Disk, chain: seq<nat>, m: Image, allowance: int, clock: nat,
                         before: seq<string>, after: seq<string>)
    requires Holds(b, chain) && b.size == |chain| > 0 && c.stamp == b.stamp
    requires Contents(b, chain) == before || Contents(b, chain) == after
    requires Undo(Image(c, c.limits), clock) == Check(m, allowance) && SameList(m, b) && Steady(c)
    ensures Fate(c, true, clock, before, after)
  {
    UndoneIsRestored(m, c, b, chain, allowance, clock);
    RestoredSurvives(c, b, chain, clock, before, after);
  }

  /** A switch that does not cut the file leaves its status byte alone. */
  predicate NoCut(us: seq<Write>) {
    forall w :: w in us ==> !w.WStatus?
  }

  lemma NeverHalfway(h: Header, us: seq<Write>, j: nat)
    requires NoCut(us)
    ensures !Halfway(h, us, j)
  {
    assert j < |us| ==> forall w :: w in us[..j] ==> w in us;
  }

  lemma PlainSettles(c: Disk, chain: seq<nat>, us: seq<Write>, clock: nat, before: seq<string>, after: seq<string>)
    requires PlanOf(c).Plan? && PlanOf(c).writes == us && NoCut(us)
    requires forall j {:trigger StateAt(c, us, j)} :: 0 <= j <= |us| ==> Fate(StateAt(c, us, j), true, clock, before, after)
    requires InPlace(RunAll(c, us)) && SlotsInList(RunAll(c, us), chain)
    ensures Settles(c, chain, clock, before, after)
  {
    forall j | 0 <= j <= |us|
      ensures !Halfway(HeaderOf(c), us, j)
    {
      NeverHalfway(HeaderOf(c), us, j);
    }
  }

  // ---------------------------------------------------------------------
  // Recoveries whose switch does not cut the file

  predicate SamePlan(e: Disk, c: Disk) {
    e.status == c.status && e.slots == c.slots && e.limitsBackup == c.limitsBackup
  }

  /** What an insertion before, or a removal of, the i-th element of b has promised. */
  ghost predicate Promised(c: Disk, b: Disk, chain: seq<nat>, i: nat) {
    || Insertion.AePromise(c, b)
    || Insertion.AbPromise(c, b)
    || (i < |chain| && Insertion.AmPromise(c, b, chain[i]))
    || (i < |chain| && |chain| > 1 && Removal.RdPromise1(c, b, chain[i], if i == 0 then chain[1] else chain[i - 1]))
    || (i < |chain| && Removal.RdPromise2(c, b, chain[i]))
  }

  lemma PromisedUndone(c: Disk, b: Disk, chain: seq<nat>, i: nat, clock: nat) returns (m: Image, allowance: int)
    requires Layout(b) && Promised(c, b, chain, i)
    ensures c.stamp == b.stamp && SameList(m, b) && Undo(Image(c, c.limits), clock) == Check(m, allowance)
    ensures Steady(c)
  {
    allowance := 1;
    if Insertion.AePromise(c, b) {
      m := Insertion.AeUndone(c, b, clock);
      EndIsSteady(c, b);
    } else if Insertion.AbPromise(c, b) {
      m := Insertion.AbUndone(c, b, clock);
      BeginIsSteady(c, b);
    } else if i < |chain| && Insertion.AmPromise(c, b, chain[i]) {
      m := Insertion.AmUndone(c, b, chain[i], clock);
      MiddleIsSteady(c, b, chain[i]);
    } else {
      allowance := -1;
      if Removal.RdPromise2(c, b, chain[i]) {
        m := Removal.Rd2Undone(c, b, chain[i], clock);
        MiddleRemovalIsSteady(c, b, chain[i]);
      } else {
        var near := if i == 0 then chain[1] else chain[i - 1];
        m := Removal.Rd1Undone(c, b, chain[i], near, clock);
        EndRemovalIsSteady(c, b, chain[i], near);
      }
    }
  }

  lemma AeStep(e: Disk, b: Disk, w: Write)
    requires Insertion.AePromise(e, b) && !Cuts(e.status) && w in PlanOf(e).writes
    ensures Insertion.AePromise(Apply(e, w), b) && SamePlan(Apply(e, w), e)
  {
  }

  lemma AbStep(e: Disk, b: Disk, w: Write)
    requires Insertion.AbPromise(e, b) && !Cuts(e.status) && w in PlanOf(e).writes
    ensures Insertion.AbPromise(Apply(e, w), b) && SamePlan(Apply(e, w), e)
  {
  }

  lemma AmStep(e: Disk, b: Disk, at: nat, w: Write)
    requires Insertion.AmPromise(e, b, at) && !Cuts(e.status) && w in PlanOf(e).writes
    ensures Insertion.AmPromise(Apply(e, w), b, at) && SamePlan(Apply(e, w), e)
  {
    if e.status.AmIterator1? {
      assert b.records[at := b.records[at]] == b.records;
    }
  }

  lemma Rd1Step(e: Disk, b: Disk, at: nat, near: nat, w: Write)
    requires Removal.RdPromise1(e, b, at, near) && w in PlanOf(e).writes
    ensures Removal.RdPromise1(Apply(e, w), b, at, near) && SamePlan(Apply(e, w), e)
  {
    Rd1Writes(e, b, at, near, w);
    Rd1Write(e, b, at, near, w);
  }

  lemma Rd1Writes(e: Disk, b: Disk, at: nat, near: nat, w: Write)
    requires Removal.RdPromise1(e, b, at, near) && w in PlanOf(e).writes
    ensures || w == WLimits(e.limitsBackup)
            || (!e.status.RdLimits? && w == WIterator(near, b.records[near].prev, b.records[near].next))
            || (e.status.RdMark1? && w == WMark(at, b.records[at].prev, b.records[at].next, true))
  {
  }

  lemma Rd1Write(e: Disk, b: Disk, at: nat, near: nat, w: Write)
    requires Removal.RdPromise1(e, b, at, near)
    requires || w == WLimits(e.limitsBackup)
             || (!e.status.RdLimits? && w == WIterator(near, b.records[near].prev, b.records[near].next))
             || (e.status.RdMark1? && w == WMark(at, b.records[at].prev, b.records[at].next, true))
    ensures Removal.RdPromise1(Apply(e, w), b, at, near) && SamePlan(Apply(e, w), e)
  {
    if w.WMark? {
      Rd1Mark(e, b, at, near);
    } else if w.WIterator? {
      Rd1Link(e, b, at, near);
    }
  }

  lemma Rd1Mark(e: Disk, b: Disk, at: nat, near: nat)
    requires Removal.RdPromise1(e, b, at, near) && e.status.RdMark1?
    ensures Removal.RdPromise1(Apply(e, WMark(at, b.records[at].prev, b.records[at].next, true)), b, at, near)
  {
  }

  lemma Rd1Link(e: Disk, b: Disk, at: nat, near: nat)
    requires Removal.RdPromise1(e, b, at, near) && !e.status.RdLimits?
    ensures Removal.RdPromise1(Apply(e, WIterator(near, b.records[near].prev, b.records[near].next)), b, at, near)
  {
  }

  lemma Rd2Step(e: Disk, b: Disk, at: nat, w: Write)
    requires Removal.RdPromise2(e, b, at) && w in PlanOf(e).writes
    ensures Removal.RdPromise2(Apply(e, w), b, at) && SamePlan(Apply(e, w), e)
  {
    if e.status.RdIterator2? {
      var after := b.records[at].next;
      assert b.records[after := b.records[after]] == b.records;
    } else {
      Rd2Writes(e, b, at, w);
      Rd2Write(e, b, at, w);
    }
  }

  lemma Rd2Writes(e: Disk, b: Disk, at: nat, w: Write)
    requires Removal.RdPromise2(e, b, at) && !e.status.RdIterator2? && w in PlanOf(e).writes
    ensures || w == SlotBack(HeaderOf(e), 0) || w == SlotBack(HeaderOf(e), 1)
            || (e.status.RdMark2? && w == WMark(at, b.records[at].prev, b.records[at].next, true))
  {
  }

  lemma Rd2Write(e: Disk, b: Disk, at: nat, w: Write)
    requires Removal.RdPromise2(e, b, at) && !e.status.RdIterator2?
    requires || w == SlotBack(HeaderOf(e), 0) || w == SlotBack(HeaderOf(e), 1)
             || (e.status.RdMark2? && w == WMark(at, b.records[at].prev, b.records[at].next, true))
    ensures Removal.RdPromise2(Apply(e, w), b, at) && SamePlan(Apply(e, w), e)
  {
  }

  lemma SamePlans(c: Disk, e: Disk)
    requires SamePlan(e, c) && !Cuts(c.status) && !c.status.Empty?
    requires c.slots[2].current in c.records <==> e.slots[2].current in e.records
    requires PlanOf(c).Plan?
    ensures PlanOf(e).Plan? && PlanOf(e).writes == PlanOf(c).writes
  {
  }

  lemma PromisedPlan(c: Disk, b: Disk, chain: seq<nat>, i: nat)
    requires Promised(c, b, chain, i) && !Cuts(c.status)
    ensures PlanOf(c).Plan? && !c.status.Empty? && NoCut(PlanOf(c).writes) && c.records.Keys == b.records.Keys
  {
  }

  lemma PlainStep(e: Disk, b: Disk, chain: seq<nat>, i: nat, w: Write)
    requires Promised(e, b, chain, i) && !Cuts(e.status) && PlanOf(e).Plan? && w in PlanOf(e).writes
    ensures Promised(Apply(e, w), b, chain, i) && SamePlan(Apply(e, w), e)
  {
    if Insertion.AePromise(e, b) {
      AeStep(e, b, w);
    } else if Insertion.AbPromise(e, b) {
      AbStep(e, b, w);
    } else if i < |chain| && Insertion.AmPromise(e, b, chain[i]) {
      AmStep(e, b, chain[i], w);
    } else if Removal.RdPromise2(e, b, chain[i]) {
      Rd2Step(e, b, chain[i], w);
    } else {
      Rd1Step(e, b, chain[i], if i == 0 then chain[1] else chain[i - 1], w);
    }
  }

  /** What each of some writes keeps, any number of them keeps. */
  lemma {:induction false} KeptAlong(kept: Disk -> bool, c: Disk, us: seq<Write>, j: nat)
    requires kept(c) && j <= |us|
    requires forall e, w {:trigger kept(Apply(e, w))} :: kept(e) && w in us ==> kept(Apply(e, w))
    ensures kept(StateAt(c, us, j))
    decreases j
  {
    if j > 0 {
      KeptAlong(kept, c, us, j - 1);
    }
  }

  /** Interrupted, such a switch keeps the promises it found. */
  lemma PlainKept(c: Disk, b: Disk, chain: seq<nat>, i: nat, us: seq<Write>, j: nat)
    requires Promised(c, b, chain, i) && !Cuts(c.status) && PlanOf(c).Plan? && us == PlanOf(c).writes && j <= |us|
    ensures var e := StateAt(c, us, j); Promised(e, b, chain, i) && SamePlan(e, c)
  {
    var kept := (e: Disk) => Promised(e, b, chain, i) && SamePlan(e, c);
    forall e, w | kept(e) && w in us
      ensures kept(Apply(e, w))
    {
      PlainNext(c, e, b, chain, i, w);
    }
    KeptAlong(kept, c, us, j);
  }

  lemma PlainNext(c: Disk, e: Disk, b: Disk, chain: seq<nat>, i: nat, w: Write)
    requires Promised(c, b, chain, i) && Promised(e, b, chain, i) && SamePlan(e, c) && !Cuts(c.status)
    requires PlanOf(c).Plan? && w in PlanOf(c).writes
    ensures Promised(Apply(e, w), b, chain, i) && SamePlan(Apply(e, w), c)
  {
    PromisedPlan(c, b, chain, i);
    PromisedPlan(e, b, chain, i);
    SamePlans(c, e);
    PlainStep(e, b, chain, i, w);
  }

  lemma ListEnds(b: Disk, chain: seq<nat>)
    requires Holds(b, chain) && |chain| > 0
    ensures b.limits.first in chain && b.limits.last in chain && 0 !in b.records && b.end !in b.records
  {
    assert b.limits.first == chain[0] && b.limits.last == chain[|chain| - 1];
  }

  lemma Neighbours(b: Disk, chain: seq<nat>, i: nat)
    requires Holds(b, chain) && i < |chain|
    ensures var r := b.records;
            && chain[i] in r
            && (r[chain[i]].prev in r ==> r[chain[i]].prev in chain)
            && (r[chain[i]].next in r ==> r[chain[i]].next in chain)
  {
    assert Node(b.records, b.end, chain, i);
    ListEnds(b, chain);
  }

  /** With the list of b back, what a promise saved is in place. */
  lemma PromisedInPlace(e: Disk, b: Disk, chain: seq<nat>, i: nat)
    requires Holds(b, chain) && |chain| > 0 && Promised(e, b, chain, i) && !Cuts(e.status) && HasList(e, b)
    ensures InPlace(e) && SlotsInList(e, chain)
  {
    ListEnds(b, chain);
    if i < |chain| {
      Neighbours(b, chain, i);
    }
  }

  lemma UncutSettles(c: Disk, b: Disk, chain: seq<nat>, i: nat, clock: nat, before: seq<string>, after: seq<string>)
    requires Holds(b, chain) && b.size == |chain| > 0
    requires Contents(b, chain) == before || Contents(b, chain) == after
    requires Promised(c, b, chain, i) && !Cuts(c.status)
    ensures Settles(c, chain, clock, before, after)
  {
    PromisedPlan(c, b, chain, i);
    var us := PlanOf(c).writes;
    forall j | 0 <= j <= |us|
      ensures Fate(StateAt(c, us, j), true, clock, before, after)
    {
      PlainKept(c, b, chain, i, us, j);
      var m, allowance := PromisedUndone(StateAt(c, us, j), b, chain, i, clock);
      PromisedSurvives(StateAt(c, us, j), b, chain, m, allowance, clock, before, after);
    }
    var m, allowance := PromisedUndone(c, b, chain, i, clock);
    UndoneIsRestored(m, c, b, chain, allowance, clock);
    UndoLeaves(c, m, allowance, clock);
    PlainKept(c, b, chain, i, us, |us|);
    PromisedInPlace(m.disk, b, chain, i);
    PlainSettles(c, chain, us, clock, before, after);
  }

  // ---------------------------------------------------------------------
  // Recoveries whose switch cuts the file

  /** The disk after the cut, and after truncateFile has put its own status there. */
  function CutOff(e: Disk, cut: nat): Disk {
    Apply(e, WTruncate(cut))
  }

  function Announced(e: Disk, cut: nat): Disk {
    CutOff(e, cut).(status := FtEnd)
  }

  lemma FourStates(e: Disk, cut: nat, a: Write, z: Write, t: nat)
    requires t <= 4
    ensures StateAt(e, Cutting(cut) + [a, z], t)
            == if t == 0 then e else if t == 1 then CutOff(e, cut) else if t == 2 then Announced(e, cut)
               else if t == 3 then Apply(Announced(e, cut), a) else Apply(Apply(Announced(e, cut), a), z)
    decreases t
  {
    if t > 0 {
      FourStates(e, cut, a, z, t - 1);
    }
  }

  lemma HalfwayAt(h: Header, pre: seq<Write>, cut: nat, a: Write, z: Write, j: nat)
    requires NoCut(pre) && j <= |pre| + 4 && !a.WStatus?
    ensures var us := pre + (Cutting(cut) + [a, z]);
            Halfway(h, us, j) <==> (j == |pre| + 2 && Restoring(h, a)) || (j == |pre| + 3 && Restoring(h, z))
  {
    var us := pre + (Cutting(cut) + [a, z]);
    if j <= |pre| + 1 {
      assert us[..j] == if j <= |pre| then pre[..j] else pre + [WTruncate(cut)];
      assert j <= |pre| ==> forall w :: w in pre[..j] ==> w in pre;
    } else {
      assert us[..j][|pre| + 1] == WStatus(FtEnd);
    }
  }

  /** What becomes of a crash around the cut of e, `z` being a write that restores something or not. */
  ghost predicate CutStages(fate: (Disk, bool) -> bool, e: Disk, cut: nat, a: Write, z: Write, restoring: bool) {
    && fate(e, true)
    && fate(CutOff(e, cut), true)
    && fate(Announced(e, cut), false)
    && fate(Apply(Announced(e, cut), a), !restoring)
    && fate(Apply(Apply(Announced(e, cut), a), z), true)
  }

  lemma StageSettled(fate: (Disk, bool) -> bool, c: Disk, pre: seq<Write>, cut: nat, a: Write, z: Write, j: nat)
    requires NoCut(pre) && |pre| <= 1 && !a.WStatus? && Restoring(HeaderOf(c), a)
    requires fate(c, true) && CutStages(fate, RunAll(c, pre), cut, a, z, Restoring(HeaderOf(c), z))
    requires j <= |pre| + 4
    ensures var us := pre + (Cutting(cut) + [a, z]); fate(StateAt(c, us, j), !Halfway(HeaderOf(c), us, j))
  {
    HalfwayAt(HeaderOf(c), pre, cut, a, z, j);
    StateAtConcat(c, pre, Cutting(cut) + [a, z], j);
    if j > |pre| {
      FourStates(RunAll(c, pre), cut, a, z, j - |pre|);
    } else {
      assert StateAt(c, pre, 0) == c;
    }
  }

  lemma EndsAnnounced(c: Disk, pre: seq<Write>, cut: nat, a: Write, z: Write)
    requires !a.WStatus? && !z.WStatus?
    ensures RunAll(c, pre + (Cutting(cut) + [a, z])).status == FtEnd
  {
    RunConcat(c, pre, Cutting(cut) + [a, z]);
    FourStates(RunAll(c, pre), cut, a, z, 4);
  }

  ghost function FateOf(clock: nat, before: seq<string>, after: seq<string>): (Disk, bool) -> bool {
    (e, good) => Fate(e, good, clock, before, after)
  }

  lemma CutSwitch(c: Disk, pre: seq<Write>, cut: nat, a: Write, z: Write, clock: nat,
                  before: seq<string>, after: seq<string>)
    requires PlanOf(c).Plan? && PlanOf(c).writes == pre + (Cutting(cut) + [a, z])
    requires NoCut(pre) && |pre| <= 1 && !a.WStatus? && Restoring(HeaderOf(c), a)
    requires Fate(c, true, clock, before, after)
    requires CutStages(FateOf(clock, before, after), RunAll(c, pre), cut, a, z, Restoring(HeaderOf(c), z))
    ensures SwitchSettled(c, clock, before, after)
  {
    var us := PlanOf(c).writes;
    forall j | 0 <= j <= |us|
      ensures Fate(StateAt(c, us, j), !Halfway(HeaderOf(c), us, j), clock, before, after)
    {
      StageSettled(FateOf(clock, before, after), c, pre, cut, a, z, j);
    }
  }

  /** From the announced cut to the last restoring write a crash is fatal, before and after it is not. */
  lemma CutSettles(c: Disk, chain: seq<nat>, pre: seq<Write>, cut: nat, a: Write, z: Write, clock: nat,
                   before: seq<string>, after: seq<string>)
    requires PlanOf(c).Plan? && PlanOf(c).writes == pre + (Cutting(cut) + [a, z])
    requires NoCut(pre) && |pre| <= 1 && !a.WStatus? && Restoring(HeaderOf(c), a) && !z.WStatus?
    requires Fate(c, true, clock, before, after)
    requires CutStages(FateOf(clock, before, after), RunAll(c, pre), cut, a, z, Restoring(HeaderOf(c), z))
    ensures Settles(c, chain, clock, before, after)
  {
    CutSwitch(c, pre, cut, a, z, clock, before, after);
    EndsAnnounced(c, pre, cut, a, z);
  }

  // At the end: only the limits are out of place.

  lemma AeCut(c: Disk, b: Disk)
    requires Layout(b) && Insertion.AePromise(c, b) && Cuts(c.status)
    ensures Insertion.AePromise(CutOff(c, b.end), b) && CutOff(c, b.end).records == b.records
  {
    CutRestores(c.records, b, {}, {});
    NothingTouched(Cut(c.records, b.end), b.records, b.end);
  }

  lemma AePlan(c: Disk, b: Disk)
    requires Insertion.AePromise(c, b) && Cuts(c.status) && b.end > 0
    ensures var limits, z := WLimits(b.limits), SlotBack(HeaderOf(c), 0);
            && PlanOf(c).Plan? && PlanOf(c).writes == [] + (Cutting(b.end) + [limits, z])
            && Restoring(HeaderOf(c), limits) && !Restoring(HeaderOf(c), z)
  {
  }

  lemma AeSurvives(c: Disk, b: Disk, chain: seq<nat>, clock: nat, before: seq<string>, after: seq<string>)
    requires Holds(b, chain) && b.size == |chain| > 0
    requires Contents(b, chain) == before || Contents(b, chain) == after
    requires Insertion.AePromise(c, b)
    ensures Fate(c, true, clock, before, after)
  {
    var m := Insertion.AeUndone(c, b, clock);
    EndIsSteady(c, b);
    PromisedSurvives(c, b, chain, m, 1, clock, before, after);
  }

  lemma AeLost(c: Disk, b: Disk, chain: seq<nat>, clock: nat, before: seq<string>, after: seq<string>)
    requires Holds(b, chain) && |chain| > 0 && Insertion.AePromise(c, b) && Cuts(c.status)
    ensures Fate(Announced(c, b.end), false, clock, before, after)
  {
    AeCut(c, b);
    LastOfList(b, chain);
    ListEnds(b, chain);
    BrokenIsLost(Announced(c, b.end), clock, before, after);
  }

  lemma AeRelimited(c: Disk, b: Disk)
    requires Layout(b) && Insertion.AePromise(c, b) && Cuts(c.status)
    ensures var e := Apply(Announced(c, b.end), WLimits(b.limits));
            HasList(e, b) && e.size == b.size && Apply(e, SlotBack(HeaderOf(c), 0)) == e
  {
    AeCut(c, b);
    WrittenBack(Apply(Announced(c, b.end), WLimits(b.limits)), 0);
  }

  lemma AeRelimitedSurvives(c: Disk, b: Disk, chain: seq<nat>, clock: nat, before: seq<string>, after: seq<string>)
    requires Holds(b, chain) && b.size == |chain| > 0
    requires Contents(b, chain) == before || Contents(b, chain) == after
    requires Insertion.AePromise(c, b) && Cuts(c.status)
    ensures var e := Apply(Announced(c, b.end), WLimits(b.limits));
            Fate(e, true, clock, before, after) && Apply(e, SlotBack(HeaderOf(c), 0)) == e
  {
    AeRelimited(c, b);
    InPlaceSurvives(Apply(Announced(c, b.end), WLimits(b.limits)), b, chain, clock, before, after);
  }

  lemma AeStages(c: Disk, b: Disk, chain: seq<nat>, clock: nat, before: seq<string>, after: seq<string>)
    requires Holds(b, chain) && b.size == |chain| > 0
    requires Contents(b, chain) == before || Contents(b, chain) == after
    requires Insertion.AePromise(c, b) && Cuts(c.status)
    ensures CutStages(FateOf(clock, before, after), c, b.end, WLimits(b.limits), SlotBack(HeaderOf(c), 0), false)
  {
    AeCut(c, b);
    AeSurvives(c, b, chain, clock, before, after);
    AeSurvives(CutOff(c, b.end), b, chain, clock, before, after);
    AeLost(c, b, chain, clock, before, after);
    AeRelimitedSurvives(c, b, chain, clock, before, after);
  }

  lemma AeCutSettles(c: Disk, b: Disk, chain: seq<nat>, clock: nat, before: seq<string>, after: seq<string>)
    requires Holds(b, chain) && b.size == |chain| > 0
    requires Contents(b, chain) == before || Contents(b, chain) == after
    requires Insertion.AePromise(c, b) && Cuts(c.status)
    ensures Settles(c, chain, clock, before, after)
  {
    AePlan(c, b);
    AeStages(c, b, chain, clock, before, after);
    assert RunAll(c, []) == c;
    CutSettles(c, chain, [], b.end, WLimits(b.limits), SlotBack(HeaderOf(c), 0), clock, before, after);
  }

  // At the beginning: the first element points back at the new record until it is written back.

  /** The disk once the last element has been written back, where the status asks for that. */
  function LastWritten(c: Disk): Disk {
    if c.status.AbLast? || c.status.AmLast? then Apply(c, SlotBack(HeaderOf(c), 2)) else c
  }

  function LastWrites(c: Disk): (pre: seq<Write>)
    ensures |pre| <= 1 && NoCut(pre)
  {
    if c.status.AbLast? || c.status.AmLast? then [SlotBack(HeaderOf(c), 2)] else []
  }

  lemma LastWritesRun(c: Disk)
    ensures RunAll(c, LastWrites(c)) == LastWritten(c)
  {
    Run1(c, SlotBack(HeaderOf(c), 2));
    assert RunAll(c, []) == c;
  }

  lemma AbBack(c: Disk, b: Disk)
    requires Insertion.AbPromise(c, b) && Cuts(c.status)
    ensures var e, first := LastWritten(c), b.limits.first;
            && Insertion.AbPromise(e, b) && SamePlan(e, c)
            && Resembles(e.records, b.records, {first}, {}, b.end) && e.records[first].prev == b.end
  {
  }

  lemma AbCut(e: Disk, b: Disk)
    requires Layout(b) && Insertion.AbPromise(e, b) && Cuts(e.status)
    requires Resembles(e.records, b.records, {b.limits.first}, {}, b.end) && e.records[b.limits.first].prev == b.end
    ensures var f := CutOff(e, b.end);
            Insertion.AbPromise(f, b) && f.records.Keys == b.records.Keys && f.records[b.limits.first].prev == b.end
  {
    CutRestores(e.records, b, {b.limits.first}, {});
  }

  lemma AbPlan(c: Disk, b: Disk)
    requires Insertion.AbPromise(c, b) && Cuts(c.status) && b.end > 0
    ensures var limits, z := WLimits(b.limits), SlotBack(HeaderOf(c), 0);
            && PlanOf(c).Plan? && PlanOf(c).writes == LastWrites(c) + (Cutting(b.end) + [limits, z])
            && Restoring(HeaderOf(c), limits) && Restoring(HeaderOf(c), z)
  {
  }

  lemma AbSurvives(c: Disk, b: Disk, chain: seq<nat>, clock: nat, before: seq<string>, after: seq<string>)
    requires Holds(b, chain) && b.size == |chain| > 0
    requires Contents(b, chain) == before || Contents(b, chain) == after
    requires Insertion.AbPromise(c, b)
    ensures Fate(c, true, clock, before, after)
  {
    var m := Insertion.AbUndone(c, b, clock);
    BeginIsSteady(c, b);
    PromisedSurvives(c, b, chain, m, 1, clock, before, after);
  }

  /** What the whole switch leaves, once the cut has been announced, is the list of b. */
  lemma AllWritten(c: Disk, b: Disk, chain: seq<nat>, m: Image, pre: seq<Write>, cut: nat, a: Write, z: Write, clock: nat,
                   before: seq<string>, after: seq<string>)
    requires Holds(b, chain) && b.size == |chain| > 0
    requires Contents(b, chain) == before || Contents(b, chain) == after
    requires Undo(Image(c, c.limits), clock) == Check(m, 1) && SameList(m, b)
    requires PlanOf(c).Plan? && PlanOf(c).writes == pre + (Cutting(cut) + [a, z]) && !a.WStatus? && !z.WStatus?
    ensures Fate(Apply(Apply(Announced(RunAll(c, pre), cut), a), z), true, clock, before, after)
  {
    UndoneIsRestored(m, c, b, chain, 1, clock);
    UndoLeaves(c, m, 1, clock);
    RunConcat(c, pre, Cutting(cut) + [a, z]);
    FourStates(RunAll(c, pre), cut, a, z, 4);
    EndsAnnounced(c, pre, cut, a, z);
    InPlaceSurvives(m.disk, b, chain, clock, before, after);
  }

  lemma AbLost(e: Disk, b: Disk, chain: seq<nat>, clock: nat, before: seq<string>, after: seq<string>)
    requires Holds(b, chain) && |chain| > 0 && Insertion.AbPromise(e, b) && Cuts(e.status)
    requires Resembles(e.records, b.records, {b.limits.first}, {}, b.end) && e.records[b.limits.first].prev == b.end
    ensures Fate(Announced(e, b.end), false, clock, before, after)
    ensures Fate(Apply(Announced(e, b.end), WLimits(b.limits)), false, clock, before, after)
  {
    AbCut(e, b);
    LastOfList(b, chain);
    ListEnds(b, chain);
    BrokenIsLost(Announced(e, b.end), clock, before, after);
    BrokenIsLost(Apply(Announced(e, b.end), WLimits(b.limits)), clock, before, after);
  }

  lemma AbStages(c: Disk, b: Disk, chain: seq<nat>, clock: nat, before: seq<string>, after: seq<string>)
    requires Holds(b, chain) && b.size == |chain| > 0
    requires Contents(b, chain) == before || Contents(b, chain) == after
    requires Insertion.AbPromise(c, b) && Cuts(c.status)
    requires PlanOf(c).Plan?
    requires PlanOf(c).writes == LastWrites(c) + (Cutting(b.end) + [WLimits(b.limits), SlotBack(HeaderOf(c), 0)])
    ensures CutStages(FateOf(clock, before, after), RunAll(c, LastWrites(c)), b.end, WLimits(b.limits),
                      SlotBack(HeaderOf(c), 0), true)
  {
    var e := LastWritten(c);
    AbBack(c, b);
    LastWritesRun(c);
    AbCut(e, b);
    AbSurvives(e, b, chain, clock, before, after);
    AbSurvives(CutOff(e, b.end), b, chain, clock, before, after);
    AbLost(e, b, chain, clock, before, after);
    var m := Insertion.AbUndone(c, b, clock);
    AllWritten(c, b, chain, m, LastWrites(c), b.end, WLimits(b.limits), SlotBack(HeaderOf(c), 0), clock, before, after);
  }

  lemma AbCutSettles(c: Disk, b: Disk, chain: seq<nat>, clock: nat, before: seq<string>, after: seq<string>)
    requires Holds(b, chain) && b.size == |chain| > 0
    requires Contents(b, chain) == before || Contents(b, chain) == after
    requires Insertion.AbPromise(c, b) && Cuts(c.status)
    ensures Settles(c, chain, clock, before, after)
  {
    AbPlan(c, b);
    AbSurvives(c, b, chain, clock, before, after);
    AbStages(c, b, chain, clock, before, after);
    CutSettles(c, chain, LastWrites(c), b.end, WLimits(b.limits), SlotBack(HeaderOf(c), 0), clock, before, after);
  }

  // In the middle: the element behind the new record points back at it until it is written back.

  lemma AmBack(c: Disk, b: Disk, at: nat)
    requires Insertion.AmPromise(c, b, at) && Cuts(c.status)
    ensures var e := LastWritten(c);
            && Insertion.AmPromise(e, b, at) && SamePlan(e, c)
            && Resembles(e.records, b.records, {at, b.records[at].prev}, {}, b.end) && e.records[at].prev == b.end
  {
  }

  lemma AmCut(e: Disk, b: Disk, at: nat)
    requires Layout(b) && Insertion.AmPromise(e, b, at) && Cuts(e.status)
    requires Resembles(e.records, b.records, {at, b.records[at].prev}, {}, b.end) && e.records[at].prev == b.end
    ensures var f := CutOff(e, b.end);
            && Insertion.AmPromise(f, b, at) && f.records.Keys == b.records.Keys && f.records[at].prev == b.end
            && Resembles(f.records, b.records, {at, b.records[at].prev}, {}, b.end)
  {
    CutRestores(e.records, b, {at, b.records[at].prev}, {});
  }

  lemma AmPlan(c: Disk, b: Disk, at: nat)
    requires Insertion.AmPromise(c, b, at) && Cuts(c.status) && b.end > 0
    ensures var a, z := SlotBack(HeaderOf(c), 1), SlotBack(HeaderOf(c), 0);
            && PlanOf(c).Plan? && PlanOf(c).writes == LastWrites(c) + (Cutting(b.end) + [a, z])
            && Restoring(HeaderOf(c), a) && Restoring(HeaderOf(c), z)
  {
    AmBack(c, b, at);
    assert Back(c) == Some(b.end);
  }

  lemma AmSurvives(c: Disk, b: Disk, chain: seq<nat>, at: nat, clock: nat, before: seq<string>, after: seq<string>)
    requires Holds(b, chain) && b.size == |chain| > 0
    requires Contents(b, chain) == before || Contents(b, chain) == after
    requires Insertion.AmPromise(c, b, at)
    ensures Fate(c, true, clock, before, after)
  {
    var m := Insertion.AmUndone(c, b, at, clock);
    MiddleIsSteady(c, b, at);
    PromisedSurvives(c, b, chain, m, 1, clock, before, after);
  }

  lemma AmSevered(f: Disk, b: Disk, chain: seq<nat>, i: nat, clock: nat, before: seq<string>, after: seq<string>)
    requires Holds(b, chain) && i < |chain| && Insertion.Inner(b, chain[i]) && f.status == FtEnd
    requires f.limits == b.limits && f.end == b.end && f.records.Keys == b.records.Keys
    requires f.records[chain[i]].prev == b.end
    requires Resembles(f.records, b.records, {chain[i], b.records[chain[i]].prev}, {}, b.end)
    ensures Fate(f, false, clock, before, after)
  {
    LastOfList(b, chain);
    assert Node(b.records, b.end, chain, i);
    forall j | i < j < |chain|
      ensures PointsBack(f, chain, j)
    {
      assert Node(b.records, b.end, chain, j) && Node(b.records, b.end, chain, j - 1);
    }
    SeveredIsLost(f, chain, i, clock, before, after);
  }

  /** Writing back the element before the new record leaves the one behind it as it is. */
  lemma AmHalfBack(e: Disk, b: Disk, at: nat)
    requires Insertion.AmPromise(e, b, at) && Cuts(e.status) && e.records.Keys == b.records.Keys
    requires Resembles(e.records, b.records, {at, b.records[at].prev}, {}, b.end) && e.records[at].prev == b.end
    ensures var f := Apply(e, SlotBack(HeaderOf(e), 1));
            && f == e.(records := f.records) && f.records.Keys == b.records.Keys && f.records[at].prev == b.end
            && Resembles(f.records, b.records, {at, b.records[at].prev}, {}, b.end)
  {
  }

  lemma AmSeveredTwice(e: Disk, b: Disk, chain: seq<nat>, i: nat, clock: nat, before: seq<string>, after: seq<string>)
    requires Holds(b, chain) && i < |chain| && Insertion.AmPromise(e, b, chain[i]) && Cuts(e.status)
    requires e.records.Keys == b.records.Keys && e.end == b.end && e.records[chain[i]].prev == b.end
    requires Resembles(e.records, b.records, {chain[i], b.records[chain[i]].prev}, {}, b.end)
    ensures Fate(e.(status := FtEnd), false, clock, before, after)
    ensures Fate(Apply(e.(status := FtEnd), SlotBack(HeaderOf(e), 1)), false, clock, before, after)
  {
    AmSevered(e.(status := FtEnd), b, chain, i, clock, before, after);
    AmHalfBack(e, b, chain[i]);
    StatusApart(e, SlotBack(HeaderOf(e), 1));
    AmSevered(Apply(e, SlotBack(HeaderOf(e), 1)).(status := FtEnd), b, chain, i, clock, before, after);
  }

  lemma StatusApart(e: Disk, w: Write)
    requires w.WIterator?
    ensures Apply(e.(status := FtEnd), w) == Apply(e, w).(status := FtEnd)
  {
  }

  lemma AmLost(e: Disk, b: Disk, chain: seq<nat>, i: nat, clock: nat, before: seq<string>, after: seq<string>)
    requires Holds(b, chain) && i < |chain| && Insertion.AmPromise(e, b, chain[i]) && Cuts(e.status)
    requires Resembles(e.records, b.records, {chain[i], b.records[chain[i]].prev}, {}, b.end)
    requires e.records[chain[i]].prev == b.end
    ensures Fate(Announced(e, b.end), false, clock, before, after)
    ensures Fate(Apply(Announced(e, b.end), SlotBack(HeaderOf(e), 1)), false, clock, before, after)
  {
    AmCut(e, b, chain[i]);
    AmSeveredTwice(CutOff(e, b.end), b, chain, i, clock, before, after);
  }

  lemma AmStages(c: Disk, b: Disk, chain: seq<nat>, i: nat, clock: nat, before: seq<string>, after: seq<string>)
    requires Holds(b, chain) && b.size == |chain| > 0 && i < |chain|
    requires Contents(b, chain) == before || Contents(b, chain) == after
    requires Insertion.AmPromise(c, b, chain[i]) && Cuts(c.status)
    requires PlanOf(c).Plan?
    requires PlanOf(c).writes == LastWrites(c) + (Cutting(b.end) + [SlotBack(HeaderOf(c), 1), SlotBack(HeaderOf(c), 0)])
    ensures CutStages(FateOf(clock, before, after), RunAll(c, LastWrites(c)), b.end, SlotBack(HeaderOf(c), 1),
                      SlotBack(HeaderOf(c), 0), true)
  {
    var e := LastWritten(c);
    AmBack(c, b, chain[i]);
    LastWritesRun(c);
    AmCut(e, b, chain[i]);
    AmSurvives(e, b, chain, chain[i], clock, before, after);
    AmSurvives(CutOff(e, b.end), b, chain, chain[i], clock, before, after);
    AmLost(e, b, chain, i, clock, before, after);
    var m := Insertion.AmUndone(c, b, chain[i], clock);
    AllWritten(c, b, chain, m, LastWrites(c), b.end, SlotBack(HeaderOf(c), 1), SlotBack(HeaderOf(c), 0), clock, before, after);
  }

  lemma AmCutSettles(c: Disk, b: Disk, chain: seq<nat>, i: nat, clock: nat, before: seq<string>, after: seq<string>)
    requires Holds(b, chain) && b.size == |chain| > 0 && i < |chain|
    requires Contents(b, chain) == before || Contents(b, chain) == after
    requires Insertion.AmPromise(c, b, chain[i]) && Cuts(c.status)
    ensures Settles(c, chain, clock, before, after)
  {
    AmPlan(c, b, chain[i]);
    AmSurvives(c, b, chain, chain[i], clock, before, after);
    AmStages(c, b, chain, i, clock, before, after);
    CutSettles(c, chain, LastWrites(c), b.end, SlotBack(HeaderOf(c), 1), SlotBack(HeaderOf(c), 0), clock, before, after);
  }

  // ---------------------------------------------------------------------
  // Every crash inside the recovery of a survived crash

  lemma PromisedSettles(c: Disk, b: Disk, chain: seq<nat>, i: nat, clock: nat, before: seq<string>, after: seq<string>)
    requires Holds(b, chain) && b.size == |chain| > 0
    requires Contents(b, chain) == before || Contents(b, chain) == after
    requires Promised(c, b, chain, i)
    ensures Settles(c, chain, clock, before, after)
  {
    if !Cuts(c.status) {
      UncutSettles(c, b, chain, i, clock, before, after);
    } else if Insertion.AePromise(c, b) {
      AeCutSettles(c, b, chain, clock, before, after);
    } else if Insertion.AbPromise(c, b) {
      AbCutSettles(c, b, chain, clock, before, after);
    } else {
      AmCutSettles(c, b, chain, i, clock, before, after);
    }
  }

  lemma PromisedCrash(c: Disk, b: Disk, chain: seq<nat>, i: nat, rs: seq<Write>, j: nat, clock: nat,
                      before: seq<string>, after: seq<string>)
    requires Holds(b, chain) && b.size == |chain| > 0
    requires Contents(b, chain) == before || Contents(b, chain) == after
    requires Promised(c, b, chain, i)
    requires RecoveryWrites(c) == Some(rs) && j <= |rs|
    ensures Fate(StateAt(c, rs, j), !Exposed(HeaderOf(c), PlanOf(c).writes, rs, j), clock, before, after)
  {
    var m, allowance := PromisedUndone(c, b, chain, i, clock);
    PromisedSettles(c, b, chain, i, clock, before, after);
    SettledCrash(c, b, chain, m, allowance, rs, j, clock, before, after);
  }

  lemma ClosedIsLong(c: Disk, clock: nat, before: seq<string>, after: seq<string>)
    requires JustClosed(c.status) && Survives(c, clock, before, after)
    ensures HEADER <= c.end
  {
    ClosedRecovers(c, clock);
    var f := Recover(c, clock).image.disk;
    var chain :| WellFormed(f, chain) && (Contents(f, chain) == before || Contents(f, chain) == after);
  }

  lemma ClosedRecovers(c: Disk, clock: nat)
    requires JustClosed(c.status)
    ensures Recover(c, clock) == Good(Image(c.(status := Closed), c.limits))
  {
  }

  lemma ClosedAlready(c: Disk, rs: seq<Write>, j: nat, clock: nat, before: seq<string>, after: seq<string>)
    requires (c.status.Closed? || c.status.Opened?) && Survives(c, clock, before, after)
    requires RecoveryWrites(c) == Some(rs) && j <= |rs|
    ensures Fate(StateAt(c, rs, j), true, clock, before, after) && !Exposed(HeaderOf(c), PlanOf(c).writes, rs, j)
  {
    ClosedIsLong(c, clock, before, after);
    ClosedIsSteady(c);
    ClosedIsSteady(c.(status := Closed));
    assert rs == [WStatus(Closed)];
    assert StateAt(c, rs, 0) == c;
    assert StateAt(c, rs, 1) == c.(status := Closed);
    assert rs[0..] == rs;
  }

  lemma CountPlan(c: Disk, chain: seq<nat>)
    requires c.status.AdEmpty? || c.status.RdEmpty?
    ensures PlanOf(c).Plan? && PlanOf(c).writes == [] && InPlace(c) && SlotsInList(c, chain)
  {
  }

  lemma CountSettles(c: Disk, chain: seq<nat>, clock: nat, before: seq<string>, after: seq<string>)
    requires (c.status.AdEmpty? || c.status.RdEmpty?) && Survives(c, clock, before, after) && Layout(c)
    ensures Settles(c, chain, clock, before, after)
  {
    var us: seq<Write> := [];
    CountPlan(c, chain);
    InPlaceIsSteady(c);
    assert RunAll(c, us) == c;
    PlainSettles(c, chain, us, clock, before, after);
  }

  lemma CountUndone(c: Disk, clock: nat) returns (allowance: int)
    requires c.status.AdEmpty? || c.status.RdEmpty?
    ensures Undo(Image(c, c.limits), clock) == Check(Image(c, c.limits), allowance)
    ensures SameList(Image(c, c.limits), c) && allowance == if c.status.AdEmpty? then 1 else -1
  {
    allowance := if c.status.AdEmpty? then 1 else -1;
  }

  lemma CountCrash(c: Disk, chain: seq<nat>, rs: seq<Write>, j: nat, clock: nat, before: seq<string>, after: seq<string>)
    requires (c.status.AdEmpty? || c.status.RdEmpty?) && Survives(c, clock, before, after)
    requires Counts(c, chain, after)
    requires RecoveryWrites(c) == Some(rs) && j <= |rs|
    ensures Fate(StateAt(c, rs, j), !Exposed(HeaderOf(c), PlanOf(c).writes, rs, j), clock, before, after)
  {
    CountSettles(c, chain, clock, before, after);
    var allowance := CountUndone(c, clock);
    SettledCrash(c, c, chain, Image(c, c.limits), allowance, rs, j, clock, before, after);
  }

  /** Where the first crash left nothing to undo. */
  lemma QuietCrash(c: Disk, rs: seq<Write>, j: nat, clock: nat, before: seq<string>, after: seq<string>)
    requires Quiet(c.status) && Survives(c, clock, before, after)
    requires c.status.AdEmpty? || c.status.RdEmpty? ==> Counting(c, after)
    requires RecoveryWrites(c) == Some(rs) && j <= |rs|
    ensures Fate(StateAt(c, rs, j), !Exposed(HeaderOf(c), PlanOf(c).writes, rs, j), clock, before, after)
  {
    if c.status.AdEmpty? || c.status.RdEmpty? {
      var chain :| Counts(c, chain, after);
      CountCrash(c, chain, rs, j, clock, before, after);
    } else {
      ClosedAlready(c, rs, j, clock, before, after);
    }
  }

  /** The new list stands, or the promises that lead back to the old one do. */
  ghost predicate Recoverable(c: Disk, b: Disk, chain: seq<nat>, i: nat, after: seq<string>) {
    || (Quiet(c.status) && (c.status.AdEmpty? || c.status.RdEmpty? ==> Counting(c, after)))
    || (|chain| > 0 && Promised(c, b, chain, i))
  }

  lemma Again(c: Disk, b: Disk, chain: seq<nat>, i: nat, rs: seq<Write>, j: nat, clock: nat,
              before: seq<string>, after: seq<string>)
    requires Holds(b, chain) && b.size == |chain| && Contents(b, chain) == before && Survives(c, clock, before, after)
    requires Recoverable(c, b, chain, i, after)
    requires RecoveryWrites(c) == Some(rs) && j <= |rs|
    ensures Fate(StateAt(c, rs, j), !Exposed(HeaderOf(c), PlanOf(c).writes, rs, j), clock, before, after)
  {
    if |chain| > 0 && Promised(c, b, chain, i) {
      PromisedCrash(c, b, chain, i, rs, j, clock, before, after);
    } else {
      QuietCrash(c, rs, j, clock, before, after);
    }
  }

  lemma InsertionPromised(c: Disk, b: Disk, chain: seq<nat>, i: nat)
    requires Holds(b, chain) && i <= |chain| && Insertion.Promise(c, b, PlaceOf(b, chain, i))
    ensures |chain| > 0 && Promised(c, b, chain, i)
  {
    if |chain| > 0 {
      ListEnds(b, chain);
    }
  }

  /** Before its closing writes an insertion can only lead back. */
  lemma UnfinishedLeaves(d: Disk, chain: seq<nat>, i: nat, data: string, stamp: Stamp, k: nat, c: Disk, after: seq<string>)
    requires WellFormed(d, chain) && i <= |chain|
    requires k <= 2 + |AddBody(d, d.limits, PlaceOf(d, chain, i), d.end, data)|
    requires CrashedAt(d, AddWrites(d, d.limits, d.size, stamp, PlaceOf(d, chain, i), d.end, data), k, c)
    requires |chain| == 0 ==> !NeedsElement(c.status)
    ensures Recoverable(c, Begun(d, stamp), chain, i, after)
  {
    var at, b := PlaceOf(d, chain, i), Begun(d, stamp);
    SameBody(d, b, chain);
    SameAddBody(d, b, at, d.end, data);
    SplitCrash(d, stamp, AddBody(d, d.limits, at, d.end, data), AddEpilogue(d.size), k, c);
    if k >= 2 {
      InsertBodyKinds(b, chain, i, data, k - 2, c);
    }
    if !Quiet(c.status) {
      InsertionPromised(c, b, chain, i);
    }
  }

  lemma InsertionLeaves(d: Disk, chain: seq<nat>, i: nat, data: string, stamp: Stamp, k: nat, c: Disk)
    requires WellFormed(d, chain) && i <= |chain|
    requires var ws := AddWrites(d, d.limits, d.size, stamp, PlaceOf(d, chain, i), d.end, data);
             && k <= |ws| && CrashedAt(d, ws, k, c)
             && k != |ws| - 3 && (|chain| == 0 ==> !NeedsElement(c.status))
    ensures Recoverable(c, Begun(d, stamp), chain, i, InsertAt(Contents(d, chain), i, data))
  {
    InsertionKinds(d, chain, i, data, stamp, k, c);
    SameBody(d, Begun(d, stamp), chain);
    if !Quiet(c.status) {
      InsertionPromised(c, Begun(d, stamp), chain, i);
    }
  }

  lemma RemovalLeaves(d: Disk, chain: seq<nat>, i: nat, stamp: Stamp, k: nat, c: Disk)
    requires WellFormed(d, chain) && i < |chain| && CanRemove(d, chain[i])
    requires var ws := RemoveWrites(d, d.limits, d.size, stamp, chain[i]);
             && k <= |ws| && CrashedAt(d, ws, k, c)
             && k != |ws| - 3 && (|chain| == 1 ==> c.status.Closed? || c.status.Opened?)
    ensures Recoverable(c, Begun(d, stamp), chain, i, RemoveAt(Contents(d, chain), i))
  {
    RemovalKinds(d, chain, i, stamp, k, c);
  }

  lemma RecoverableIsWritten(c: Disk, b: Disk, chain: seq<nat>, i: nat, clock: nat, after: seq<string>)
    requires Recover(c, clock).Good? && Recoverable(c, b, chain, i, after)
    ensures RecoveryWrites(c).Some?
  {
    RecoveryIsProgram(c, clock);
    if PlanOf(c).Anew? {
      AnewIsSettled(c, clock);
    }
  }

  lemma SteadySparesStamp(c: Disk)
    requires Steady(c)
    ensures forall w :: w in PlanOf(c).writes ==> SparesStamp(w)
  {
    var cut :| OnRecords(c, PlanOf(c).writes, cut);
    forall w | w in PlanOf(c).writes
      ensures SparesStamp(w)
    {
      assert OnRecord(c, w, cut);
    }
  }

  lemma LastIsSomewhere(d: Disk, chain: seq<nat>)
    requires WellFormed(d, chain)
    ensures d.limits.last != 0
  {
    if |chain| > 0 {
      assert Node(d.records, d.end, chain, |chain| - 1);
    }
  }

  lemma SurvivorsLast(c: Disk, clock: nat, before: seq<string>, after: seq<string>)
    requires Survives(c, clock, before, after)
    ensures Recover(c, clock).image.cache.last != 0
  {
    var f := Recover(c, clock).image.disk;
    var chain :| WellFormed(f, chain) && (Contents(f, chain) == before || Contents(f, chain) == after);
    LastIsSomewhere(f, chain);
  }

  lemma CheckKeepsCache(m: Image, allowance: int, clock: nat)
    requires CheckConsistency(m, allowance, clock).Good?
    ensures CheckConsistency(m, allowance, clock).image.cache == m.cache
  {
    CheckIsProgram(m, allowance, clock);
  }

  /** The limits in memory after the switch of a recovery that leaves a list are those of the list. */
  lemma CacheIsKept(c: Disk, clock: nat, before: seq<string>, after: seq<string>)
    requires PlanOf(c).Plan? && Survives(c, clock, before, after)
    ensures PlanOf(c).cache.last != 0
  {
    var Plan(us, cache, check) := PlanOf(c);
    SurvivorsLast(c, clock, before, after);
    PlanIsFollowed(c, clock, us, cache, check);
    if check.Some? {
      CheckKeepsCache(Image(RunAll(c, us), cache), check.value, clock);
    }
  }

  /** A recovery that is survived keeps the stamp at each of its writes. */
  lemma SurvivorKeepsStamp(c: Disk, clock: nat, before: seq<string>, after: seq<string>, rs: seq<Write>, j: nat)
    requires Steady(c) && Survives(c, clock, before, after) && RecoveryWrites(c) == Some(rs) && j <= |rs|
    ensures StateAt(c, rs, j).stamp == c.stamp
  {
    SteadySparesStamp(c);
    CacheIsKept(c, clock, before, after);
    StampStays(c, rs, j);
  }

  /** A survived crash leaves recovery something to write, and a crash of it is settled. */
  lemma RecoveredTwice(c: Disk, d: Disk, chain: seq<nat>, i: nat, stamp: Stamp, j: nat, clock: nat,
                       before: seq<string>, after: seq<string>)
    requires WellFormed(d, chain) && Contents(d, chain) == before
    requires Survives(c, clock, before, after) && Recoverable(c, Begun(d, stamp), chain, i, after)
    ensures RecoveryWrites(c).Some?
    ensures var rs := RecoveryWrites(c).value;
            j <= |rs| ==> Fate(StateAt(c, rs, j), !Exposed(HeaderOf(c), PlanOf(c).writes, rs, j), clock, before, after)
  {
    RecoverableIsWritten(c, Begun(d, stamp), chain, i, clock, after);
    SameBody(d, Begun(d, stamp), chain);
    if j <= |RecoveryWrites(c).value| {
      Again(c, Begun(d, stamp), chain, i, RecoveryWrites(c).value, j, clock, before, after);
    }
  }

  /**
    * A crash of add_data that recovery survives, and then one of that recovery after any number of
    * its writes: recovering once more finds the old or the new sequence if and only if the second
    * crash falls neither between the announced cut of the switch and the last write that restores
    * something, nor between the cut of the check and the link of the last element.
    */
  lemma InsertionRecoveredTwice(d: Disk, chain: seq<nat>, i: nat, data: string, stamp: Stamp, k: nat, c: Disk,
                                j: nat, clock: nat)
    requires WellFormed(d, chain) && i <= |chain|
    requires var ws := AddWrites(d, d.limits, d.size, stamp, PlaceOf(d, chain, i), d.end, data);
             && k <= |ws| && CrashedAt(d, ws, k, c)
             && k != |ws| - 3 && (|chain| == 0 ==> !NeedsElement(c.status))
    ensures RecoveryWrites(c).Some?
    ensures var rs := RecoveryWrites(c).value;
            j <= |rs| ==>
              (Survives(StateAt(c, rs, j), clock, Contents(d, chain), InsertAt(Contents(d, chain), i, data))
               <==> !Exposed(HeaderOf(c), PlanOf(c).writes, rs, j))
  {
    InsertionIsAtomic(d, chain, i, data, stamp, k, c, clock);
    InsertionLeaves(d, chain, i, data, stamp, k, c);
    var before, after := Contents(d, chain), InsertAt(Contents(d, chain), i, data);
    RecoveredTwice(c, d, chain, i, stamp, j, clock, before, after);
    var rs := RecoveryWrites(c).value;
    if j <= |rs| {
      FateDecides(StateAt(c, rs, j), !Exposed(HeaderOf(c), PlanOf(c).writes, rs, j), clock, before, after);
    }
  }

  /** The same for a crash of remove_data. */
  lemma RemovalRecoveredTwice(d: Disk, chain: seq<nat>, i: nat, stamp: Stamp, k: nat, c: Disk, j: nat, clock: nat)
    requires WellFormed(d, chain) && i < |chain| && CanRemove(d, chain[i])
    requires var ws := RemoveWrites(d, d.limits, d.size, stamp, chain[i]);
             && k <= |ws| && CrashedAt(d, ws, k, c)
             && k != |ws| - 3 && (|chain| == 1 ==> c.status.Closed? || c.status.Opened?)
    ensures RecoveryWrites(c).Some?
    ensures var rs := RecoveryWrites(c).value;
            j <= |rs| ==>
              (Survives(StateAt(c, rs, j), clock, Contents(d, chain), RemoveAt(Contents(d, chain), i))
               <==> !Exposed(HeaderOf(c), PlanOf(c).writes, rs, j))
  {
    RemovalIsAtomic(d, chain, i, stamp, k, c, clock);
    RemovalLeaves(d, chain, i, stamp, k, c);
    var before, after := Contents(d, chain), RemoveAt(Contents(d, chain), i);
    RecoveredTwice(c, d, chain, i, stamp, j, clock, before, after);
    var rs := RecoveryWrites(c).value;
    if j <= |rs| {
      FateDecides(StateAt(c, rs, j), !Exposed(HeaderOf(c), PlanOf(c).writes, rs, j), clock, before, after);
    }
  }

  lemma WritingIsExposed(c: Disk, b: Disk, rs: seq<Write>)
    requires Insertion.AePromise(c, b) && Cuts(c.status) && b.end > 0 && RecoveryWrites(c) == Some(rs)
    ensures 2 <= |rs| && Exposed(HeaderOf(c), PlanOf(c).writes, rs, 2)
  {
    AePlan(c, b);
    HalfwayAt(HeaderOf(c), [], b.end, WLimits(b.limits), SlotBack(HeaderOf(c), 0), 2);
  }

  lemma AtEndPromises(d: Disk, chain: seq<nat>, data: string, stamp: Stamp)
    requires WellFormed(d, chain) && |chain| > 0
    ensures var ws := AddWrites(d, d.limits, d.size, stamp, d.end, d.end, data);
            && |ws| == 15 && PlaceOf(d, chain, |chain|) == d.end
            && Insertion.AePromise(StateAt(d, ws, 9), Begun(d, stamp)) && Cuts(StateAt(d, ws, 9).status)
  {
    var b := Begun(d, stamp);
    SameBody(d, b, chain);
    PlaceIsValid(b, chain, |chain|);
    SameAddBody(d, b, d.end, d.end, data);
    var ws, body := AddWrites(d, d.limits, d.size, stamp, d.end, d.end, data), AddBody(d, d.limits, d.end, d.end, data);
    BodyState(d, stamp, body, AddEpilogue(d.size), 7);
    Insertion.AtEndStates(b, data, 7);
    Insertion.AtEndKeepsPromise(b, data, 7, b.end);
  }

  /** Such second crashes exist for every list with an element: add_data at its end dies before the
      record is written, and the recovery of that right after its cut. */
  lemma RecoveryCanBreak(d: Disk, chain: seq<nat>, data: string, stamp: Stamp, clock: nat)
    requires WellFormed(d, chain) && |chain| > 0
    ensures var ws := AddWrites(d, d.limits, d.size, stamp, d.end, d.end, data);
            var before, after := Contents(d, chain), InsertAt(Contents(d, chain), |chain|, data);
            && |ws| == 15
            && var c := StateAt(d, ws, 9);
            && Survives(c, clock, before, after)
            && RecoveryWrites(c).Some? && 2 <= |RecoveryWrites(c).value|
            && !Survives(StateAt(c, RecoveryWrites(c).value, 2), clock, before, after)
  {
    AtEndPromises(d, chain, data, stamp);
    var c := StateAt(d, AddWrites(d, d.limits, d.size, stamp, d.end, d.end, data), 9);
    InsertionIsAtomic(d, chain, |chain|, data, stamp, 9, c, clock);
    InsertionRecoveredTwice(d, chain, |chain|, data, stamp, 9, c, 2, clock);
    WritingIsExposed(c, Begun(d, stamp), RecoveryWrites(c).value);
  }
}
