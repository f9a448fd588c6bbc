/** The DAG manager: each pass colours the nodes from their logged status, then queues or aborts
    the ones not yet started; between passes the rest of the system runs what was queued. */
module Dag {

  /** Node v has the in-edges from graph[v], in that order. */
  type Graph = seq<seq<nat>>

  predicate IsGraph(g: Graph) {
    forall v, i :: 0 <= v < |g| && 0 <= i < |g[v]| ==> g[v][i] < |g|
  }

  /** What the logging service says of a node; Active stands for all its other states. */
  datatype Status = Submitted | Active | DoneOk | DoneFailed | Aborted | Cancelled

  datatype Colour = White | Gray | Green | Red

  datatype Action = Queue(node: nat) | Abort(node: nat)

  datatype Verdict = Again | LogDoneOk | LogAbort

  // ---------------------------------------------------------------------
  // One pass

  function ColourOf(s: Status): Colour {
    match s
    case Aborted => Red
    case Cancelled => Red
    case DoneOk => Green
    case DoneFailed => Gray
    case Submitted => White
    case Active => Gray
  }

  function Coloured(status: seq<Status>): (c: seq<Colour>)
    ensures |c| == |status|
  {
    seq(|status|, v requires 0 <= v < |status| => ColourOf(status[v]))
  }

  ghost predicate SomeRed(parents: seq<nat>, c: seq<Colour>)
    requires forall i :: 0 <= i < |parents| ==> parents[i] < |c|
  {
    exists i :: 0 <= i < |parents| && c[parents[i]] == Red
  }

  ghost predicate AllGreen(parents: seq<nat>, c: seq<Colour>)
    requires forall i :: 0 <= i < |parents| ==> parents[i] < |c|
  {
    forall i :: 0 <= i < |parents| ==> c[parents[i]] == Green
  }

  /** The visit of one node: what is done about it and the colour it is left with. */
  ghost function Visit(g: Graph, c: seq<Colour>, v: nat): (Colour, seq<Action>)
    requires IsGraph(g) && |c| == |g| && v < |g|
  {
    if c[v] != White then (c[v], [])
    else if g[v] == [] then (Gray, [Queue(v)])
    else if SomeRed(g[v], c) then (Red, [Abort(v)])
    else if AllGreen(g[v], c) then (White, [Queue(v)])
    else (White, [])
  }

  datatype Swept = Swept(colours: seq<Colour>, actions: seq<Action>)

  /** The second phase after the first k nodes, colours being changed as it goes. */
  ghost function Sweep(g: Graph, c: seq<Colour>, k: nat): (s: Swept)
    requires IsGraph(g) && |c| == |g| && k <= |g|
    ensures |s.colours| == |g|
  {
    if k == 0 then Swept(c, []) else
    var s := Sweep(g, c, k - 1);
    var (colour, actions) := Visit(g, s.colours, k - 1);
    Swept(s.colours[k - 1 := colour], s.actions + actions)
  }

  ghost predicate Settled(c: seq<Colour>) {
    forall v :: 0 <= v < |c| ==> c[v] == Green || c[v] == Red
  }

  ghost function Actions(g: Graph, status: seq<Status>): seq<Action>
    requires IsGraph(g) && |status| == |g|
  {
    Sweep(g, Coloured(status), |g|).actions
  }

  /** What is logged after the pass: nothing while a node is gray or white, then by the colours. */
  ghost function Outcome(status: seq<Status>): Verdict {
    var c := Coloured(status);
    if !Settled(c) then Again
    else if forall v :: 0 <= v < |c| ==> c[v] == Green then LogDoneOk
    else LogAbort
  }

  /** A sweep leaves every node it has not reached as it was, and never touches a green one. */
  lemma {:induction false} SweepKeeps(g: Graph, c: seq<Colour>, k: nat, v: nat)
    requires IsGraph(g) && |c| == |g| && k <= |g| && v < |g|
    ensures k <= v || c[v] != White ==> Sweep(g, c, k).colours[v] == c[v]
    ensures Sweep(g, c, k).colours[v] == Green <==> c[v] == Green
    ensures Sweep(g, c, k).colours[v] == Red <==> c[v] == Red || Abort(v) in Sweep(g, c, k).actions
    decreases k
  {
    if k > 0 {
      SweepKeeps(g, c, k - 1, v);
    }
  }

  lemma {:induction false} SweepActions(g: Graph, c: seq<Colour>, k: nat, a: Action)
    requires IsGraph(g) && |c| == |g| && k <= |g|
    ensures a in Sweep(g, c, k).actions <==>
            a.node < k && a in Visit(g, Sweep(g, c, a.node).colours, a.node).1
    decreases k
  {
    if k > 0 {
      SweepActions(g, c, k - 1, a);
    }
  }

  /** A pass queues exactly the nodes not started whose parents have all ended well. */
  lemma QueuesReadyNodes(g: Graph, status: seq<Status>, v: nat)
    requires IsGraph(g) && |status| == |g|
    ensures Queue(v) in Actions(g, status) <==>
            && v < |g| && status[v] == Submitted
            && forall i :: 0 <= i < |g[v]| ==> status[g[v][i]] == DoneOk
  {
    var c := Coloured(status);
    SweepActions(g, c, |g|, Queue(v));
    if v < |g| {
      var now := Sweep(g, c, v).colours;
      SweepKeeps(g, c, v, v);
      forall i | 0 <= i < |g[v]|
        ensures now[g[v][i]] == Green <==> status[g[v][i]] == DoneOk
      {
        SweepKeeps(g, c, v, g[v][i]);
      }
    }
  }

  ghost predicate InNodeOrder(actions: seq<Action>, k: nat) {
    && (forall i :: 0 <= i < |actions| ==> actions[i].node < k)
    && (forall i, j :: 0 <= i < j < |actions| ==> actions[i].node < actions[j].node)
  }

  lemma {:induction false} SweepInOrder(g: Graph, c: seq<Colour>, k: nat)
    requires IsGraph(g) && |c| == |g| && k <= |g|
    ensures InNodeOrder(Sweep(g, c, k).actions, k)
    decreases k
  {
    if k > 0 {
      SweepInOrder(g, c, k - 1);
      var s := Sweep(g, c, k - 1);
      assert |Visit(g, s.colours, k - 1).1| <= 1;
    }
  }

  lemma {:induction false} OrderedOnce(actions: seq<Action>, k: nat, a: Action)
    requires InNodeOrder(actions, k)
    ensures multiset(actions)[a] <= 1
    decreases |actions|
  {
    if actions != [] {
      var n := |actions| - 1;
      var before, last := actions[..n], actions[n];
      OrderedOnce(before, k, a);
      assert actions == before + [last];
      if a == last {
        assert a !in before;
        assert multiset(before)[a] == 0;
      }
    }
  }

  /** A pass does at most one thing about a node, and takes the nodes in order. */
  lemma OneActionEach(g: Graph, status: seq<Status>)
    requires IsGraph(g) && |status| == |g|
    ensures var actions := Actions(g, status);
            && (forall i, j :: 0 <= i < j < |actions| ==> actions[i].node < actions[j].node)
            && (forall v: nat :: multiset(actions)[Queue(v)] + multiset(actions)[Abort(v)] <= 1)
  {
    var actions := Actions(g, status);
    SweepInOrder(g, Coloured(status), |g|);
    forall v: nat
      ensures multiset(actions)[Queue(v)] + multiset(actions)[Abort(v)] <= 1
    {
      OrderedOnce(actions, |g|, Queue(v));
      OrderedOnce(actions, |g|, Abort(v));
      if Queue(v) in actions {
        var i :| 0 <= i < |actions| && actions[i] == Queue(v);
        assert forall j :: 0 <= j < |actions| && j != i ==> actions[j].node != v;
        assert Abort(v) !in actions;
      }
    }
  }

  predicate IsRed(s: Status) {
    s == Aborted || s == Cancelled
  }

  /** A parent that makes its children hopeless: one that failed, or is given up earlier in this pass. */
  ghost predicate Dooms(g: Graph, status: seq<Status>, p: nat, v: nat)
    requires IsGraph(g) && |status| == |g| && p < |g|
  {
    IsRed(status[p]) || (p < v && Abort(p) in Actions(g, status))
  }

  /** A pass aborts exactly the nodes not started with a parent that dooms them. */
  lemma AbortsDoomedNodes(g: Graph, status: seq<Status>, v: nat)
    requires IsGraph(g) && |status| == |g|
    ensures Abort(v) in Actions(g, status) <==>
            && v < |g| && status[v] == Submitted
            && exists i :: 0 <= i < |g[v]| && Dooms(g, status, g[v][i], v)
  {
    var c := Coloured(status);
    SweepActions(g, c, |g|, Abort(v));
    if v < |g| {
      var now := Sweep(g, c, v).colours;
      SweepKeeps(g, c, v, v);
      forall i | 0 <= i < |g[v]|
        ensures now[g[v][i]] == Red <==> Dooms(g, status, g[v][i], v)
      {
        var p := g[v][i];
        SweepKeeps(g, c, v, p);
        SweepActions(g, c, v, Abort(p));
        SweepActions(g, c, |g|, Abort(p));
      }
    }
  }

  // ---------------------------------------------------------------------
  // Ancestors

  /** A way down the graph, from an ancestor to a node below it. */
  ghost predicate IsPath(g: Graph, path: seq<nat>) {
    && |path| >= 2
    && (forall i :: 0 <= i < |path| ==> path[i] < |g|)
    && (forall i :: 0 <= i < |path| - 1 ==> path[i] in g[path[i + 1]])
  }

  ghost predicate Leads(g: Graph, path: seq<nat>, v: nat) {
    IsPath(g, path) && path[|path| - 1] == v
  }

  ghost predicate RedAbove(g: Graph, status: seq<Status>, v: nat)
    requires |status| == |g|
  {
    exists path :: Leads(g, path, v) && IsRed(status[path[0]])
  }

  /** The manager aborts a node only below one that has failed. */
  lemma {:induction false} AbortHasCause(g: Graph, status: seq<Status>, v: nat)
    requires IsGraph(g) && |status| == |g| && Abort(v) in Actions(g, status)
    ensures RedAbove(g, status, v)
    decreases v
  {
    AbortsDoomedNodes(g, status, v);
    var i :| 0 <= i < |g[v]| && Dooms(g, status, g[v][i], v);
    var p := g[v][i];
    if IsRed(status[p]) {
      assert Leads(g, [p, v], v);
    } else {
      AbortHasCause(g, status, p);
      var path :| Leads(g, path, p) && IsRed(status[path[0]]);
      assert Leads(g, path + [v], v);
    }
  }

  // ---------------------------------------------------------------------
  // Whole runs

  /** What the log says now, and what the manager has ever done. */
  datatype State = State(status: seq<Status>, queued: set<nat>, aborted: set<nat>, verdict: Verdict)

  ghost function Start(g: Graph): State {
    State(seq(|g|, _ => Submitted), {}, {}, Again)
  }

  ghost predicate PassStep(g: Graph, s: State, t: State)
    requires IsGraph(g) && |s.status| == |g|
  {
    && s.verdict == Again && t.status == s.status && t.verdict == Outcome(s.status)
    && (forall v: nat :: v in t.queued <==> v in s.queued || Queue(v) in Actions(g, s.status))
    && (forall v: nat :: v in t.aborted <==> v in s.aborted || Abort(v) in Actions(g, s.status))
  }

  /**
    * The rest of the system: a node starts only once it was queued, though it may be aborted or
    * cancelled at any time; DONE OK, ABORTED and CANCELLED are final.
    */
  predicate MayBecome(queued: bool, from: Status, to: Status) {
    match from
    case Submitted => to == Submitted || IsRed(to) || queued
    case Active => true
    case DoneFailed => true
    case _ => to == from
  }

  ghost predicate EnvStep(s: State, t: State) {
    && t == s.(status := t.status) && |t.status| == |s.status|
    && forall v: nat :: v < |s.status| ==> MayBecome(v in s.queued, s.status[v], t.status[v])
  }

  ghost predicate Next(g: Graph, s: State, t: State)
    requires IsGraph(g) && |s.status| == |g|
  {
    PassStep(g, s, t) || EnvStep(s, t)
  }

  ghost predicate IsRun(g: Graph, run: seq<State>)
    requires IsGraph(g)
  {
    && |run| > 0 && run[0] == Start(g)
    && (forall i :: 0 <= i < |run| ==> |run[i].status| == |g|)
    && (forall i :: 0 <= i < |run| - 1 ==> Next(g, run[i], run[i + 1]))
  }

  ghost predicate ParentsDone(g: Graph, status: seq<Status>, v: nat)
    requires IsGraph(g) && |status| == |g| && v < |g|
  {
    forall i :: 0 <= i < |g[v]| ==> status[g[v][i]] == DoneOk
  }

  predicate HasStarted(s: Status) {
    s == Active || s == DoneFailed || s == DoneOk
  }

  ghost predicate Inv(g: Graph, s: State)
    requires IsGraph(g)
  {
    && |s.status| == |g|
    && (forall v: nat :: v in s.queued ==> v < |g| && ParentsDone(g, s.status, v))
    && (forall v: nat :: v < |g| && HasStarted(s.status[v]) ==> v in s.queued)
    && (forall v: nat :: v in s.aborted ==> v < |g| && RedAbove(g, s.status, v))
  }

  lemma PassKeepsInv(g: Graph, s: State, t: State)
    requires IsGraph(g) && Inv(g, s) && PassStep(g, s, t)
    ensures Inv(g, t)
  {
    forall v: nat | v in t.queued
      ensures v < |g| && ParentsDone(g, t.status, v)
    {
      QueuesReadyNodes(g, s.status, v);
    }
    forall v: nat | v in t.aborted
      ensures v < |g| && RedAbove(g, t.status, v)
    {
      AbortsDoomedNodes(g, s.status, v);
      if Abort(v) in Actions(g, s.status) {
        AbortHasCause(g, s.status, v);
      }
    }
  }

  lemma EnvKeepsInv(g: Graph, s: State, t: State)
    requires IsGraph(g) && Inv(g, s) && EnvStep(s, t)
    ensures Inv(g, t)
  {
    forall v: nat | v in t.queued
      ensures v < |g| && ParentsDone(g, t.status, v)
    {
      assert ParentsDone(g, s.status, v);
    }
    forall v: nat | v in t.aborted
      ensures v < |g| && RedAbove(g, t.status, v)
    {
      var path :| Leads(g, path, v) && IsRed(s.status[path[0]]);
      assert Leads(g, path, v) && IsRed(t.status[path[0]]);
    }
  }

  lemma {:induction false} RunKeepsInv(g: Graph, run: seq<State>, i: nat)
    requires IsGraph(g) && IsRun(g, run) && i < |run|
    ensures Inv(g, run[i])
  {
    if i > 0 {
      RunKeepsInv(g, run, i - 1);
      assert Next(g, run[i - 1], run[i - 1 + 1]);
      if PassStep(g, run[i - 1], run[i]) {
        PassKeepsInv(g, run[i - 1], run[i]);
      } else {
        EnvKeepsInv(g, run[i - 1], run[i]);
      }
    }
  }

  /** What was queued stays queued; what ended well or failed stays so. */
  lemma {:induction false} RunGrows(g: Graph, run: seq<State>, i: nat, j: nat)
    requires IsGraph(g) && IsRun(g, run) && i <= j < |run|
    ensures run[i].queued <= run[j].queued && run[i].aborted <= run[j].aborted
    ensures forall v: nat :: v < |g| && (run[i].status[v] == DoneOk || IsRed(run[i].status[v])) ==>
              run[j].status[v] == run[i].status[v]
    decreases j
  {
    if i < j {
      RunGrows(g, run, i, j - 1);
      assert Next(g, run[j - 1], run[j - 1 + 1]);
    }
  }

  /** Above a node that was queued everything was queued and is done. */
  lemma {:induction false} QueuedMeansAncestorsDone(g: Graph, s: State, path: seq<nat>)
    requires IsGraph(g) && Inv(g, s) && IsPath(g, path) && path[|path| - 1] in s.queued
    ensures s.status[path[0]] == DoneOk && path[0] in s.queued
    decreases |path|
  {
    var n := |path|;
    var p, v := path[n - 2], path[n - 1];
    assert p in g[path[n - 2 + 1]];
    var i :| 0 <= i < |g[v]| && g[v][i] == p;
    assert ParentsDone(g, s.status, v);
    assert s.status[p] == DoneOk;
    if n > 2 {
      QueuedMeansAncestorsDone(g, s, path[..n - 1]);
    }
  }

  /**
    * Safety over whole runs: when a node has been queued, each of its ancestors is DONE OK, at
    * that moment and ever after.
    */
  lemma QueuedAfterAncestors(g: Graph, run: seq<State>, i: nat, j: nat, path: seq<nat>)
    requires IsGraph(g) && IsRun(g, run) && i <= j < |run|
    requires IsPath(g, path) && path[|path| - 1] in run[i].queued
    ensures run[i].status[path[0]] == DoneOk && run[j].status[path[0]] == DoneOk
  {
    RunKeepsInv(g, run, i);
    QueuedMeansAncestorsDone(g, run[i], path);
    RunGrows(g, run, i, j);
  }

  /** Below a node that is aborted or cancelled at some point of a run nothing is queued at any point of it. */
  lemma NothingBelowFailure(g: Graph, run: seq<State>, i: nat, j: nat, path: seq<nat>)
    requires IsGraph(g) && IsRun(g, run) && i < |run| && j < |run|
    requires IsPath(g, path) && IsRed(run[i].status[path[0]])
    ensures path[|path| - 1] !in run[j].queued
  {
    if path[|path| - 1] in run[j].queued {
      var k := if i <= j then j else i;
      RunGrows(g, run, i, k);
      RunGrows(g, run, j, k);
      RunKeepsInv(g, run, k);
      QueuedMeansAncestorsDone(g, run[k], path);
      assert false;
    }
  }

  /** No node is both queued and aborted by the manager, in whatever order. */
  lemma NeverQueuedAndAborted(g: Graph, run: seq<State>, i: nat)
    requires IsGraph(g) && IsRun(g, run) && i < |run|
    ensures run[i].queued !! run[i].aborted
  {
    RunKeepsInv(g, run, i);
    forall v | v in run[i].queued
      ensures v !in run[i].aborted
    {
      if v in run[i].aborted {
        var path :| Leads(g, path, v) && IsRed(run[i].status[path[0]]);
        QueuedMeansAncestorsDone(g, run[i], path);
        assert false;
      }
    }
  }

  /** A pass queues a node a second time exactly when the log still calls it submitted. */
  lemma QueuedAgain(g: Graph, run: seq<State>, i: nat, v: nat)
    requires IsGraph(g) && IsRun(g, run) && i < |run| && v in run[i].queued
    ensures Queue(v) in Actions(g, run[i].status) <==> v < |g| && run[i].status[v] == Submitted
  {
    RunKeepsInv(g, run, i);
    assert ParentsDone(g, run[i].status, v);
    QueuesReadyNodes(g, run[i].status, v);
  }

  /** A pass over the nodes at the start of the run. */
  ghost function FirstPass(g: Graph): State
    requires IsGraph(g)
  {
    var s := Start(g);
    State(s.status,
          (set v: nat | v < |g| && Queue(v) in Actions(g, s.status)),
          (set v: nat | v < |g| && Abort(v) in Actions(g, s.status)), Outcome(s.status))
  }

  /** And that happens: on every graph a node without parents is queued by the first pass and again by
      a second one that finds it still submitted. */
  lemma QueuedTwice(g: Graph, v: nat)
    requires IsGraph(g) && v < |g| && g[v] == []
    ensures var run := [Start(g), FirstPass(g), FirstPass(g)];
            && IsRun(g, run) && PassStep(g, run[0], run[1]) && PassStep(g, run[1], run[2])
            && v in run[1].queued && run[1].status[v] == Submitted
            && Queue(v) in Actions(g, run[0].status) && Queue(v) in Actions(g, run[1].status)
  {
    var s, t := Start(g), FirstPass(g);
    QueuesReadyNodes(g, s.status, v);
    assert Coloured(s.status)[v] == White;
    forall a: Action | a in Actions(g, s.status)
      ensures a.node < |g|
    {
      SweepActions(g, Coloured(s.status), |g|, a);
    }
  }

  /**
    * The DAG is logged done exactly when every node is; when it is logged aborted, nothing is in
    * flight and nothing can be started any more.
    */
  lemma VerdictIsRight(g: Graph, run: seq<State>, i: nat)
    requires IsGraph(g) && IsRun(g, run) && i + 1 < |run| && PassStep(g, run[i], run[i + 1])
    ensures var t := run[i + 1];
            && (t.verdict == LogDoneOk <==> forall v: nat :: v < |g| ==> t.status[v] == DoneOk)
            && (t.verdict == LogDoneOk ==> forall v: nat :: v < |g| ==> v in t.queued)
            && (t.verdict == LogAbort ==> Actions(g, t.status) == [] && exists v :: 0 <= v < |g| && IsRed(t.status[v]))
            && (t.verdict == Again <==> exists v :: 0 <= v < |g| && t.status[v] in {Submitted, Active, DoneFailed})
  {
    RunKeepsInv(g, run, i + 1);
    var status := run[i].status;
    var c := Coloured(status);
    if Settled(c) {
      NothingToDo(g, c, |g|);
    }
    forall v: nat | v < |g|
      ensures c[v] == Green || c[v] == Red <==> status[v] !in {Submitted, Active, DoneFailed}
      ensures c[v] == Green <==> status[v] == DoneOk
    {
    }
  }

  lemma {:induction false} NothingToDo(g: Graph, c: seq<Colour>, k: nat)
    requires IsGraph(g) && |c| == |g| && k <= |g| && Settled(c)
    ensures Sweep(g, c, k).actions == []
  {
    if k > 0 {
      NothingToDo(g, c, k - 1);
      SweepKeeps(g, c, k - 1, k - 1);
    }
  }

  // ---------------------------------------------------------------------
  // Progress

  ghost predicate Ranked(g: Graph, rank: seq<nat>)
    requires IsGraph(g)
  {
    |rank| == |g| && forall v, i :: 0 <= v < |g| && 0 <= i < |g[v]| ==> rank[g[v][i]] < rank[v]
  }

  ghost predicate Acyclic(g: Graph)
    requires IsGraph(g)
  {
    exists rank :: Ranked(g, rank)
  }

  /** Something is left to start, nothing is in flight, and the pass does nothing about it. */
  ghost predicate Stalls(g: Graph, status: seq<Status>)
    requires IsGraph(g)
  {
    && |status| == |g| && Submitted in status && Active !in status && DoneFailed !in status
    && Actions(g, status) == []
  }

  lemma {:induction false} SomethingIsDone(g: Graph, rank: seq<nat>, status: seq<Status>, v: nat)
    requires IsGraph(g) && Ranked(g, rank) && |status| == |g| && v < |g| && status[v] == Submitted
    requires Active !in status && DoneFailed !in status
    ensures Actions(g, status) != []
    decreases rank[v]
  {
    QueuesReadyNodes(g, status, v);
    if i :| 0 <= i < |g[v]| && status[g[v][i]] != DoneOk {
      var p := g[v][i];
      assert status[p] in status;
      if status[p] == Submitted {
        SomethingIsDone(g, rank, status, p);
      } else {
        assert Dooms(g, status, p, v);
        AbortsDoomedNodes(g, status, v);
      }
    }
  }

  ghost function AllBut(g: Graph, waiting: set<nat>): seq<Status> {
    seq(|g|, v => if v in waiting then Submitted else DoneOk)
  }

  /** If no pass ever stalls, any nodes have one among them with no parent among them. */
  lemma SomeSource(g: Graph, waiting: set<nat>) returns (v: nat)
    requires IsGraph(g) && waiting != {} && forall u :: u in waiting ==> u < |g|
    requires !Stalls(g, AllBut(g, waiting))
    ensures v in waiting && forall i :: 0 <= i < |g[v]| ==> g[v][i] !in waiting
  {
    var status := AllBut(g, waiting);
    var u :| u in waiting;
    assert status[u] == Submitted;
    var a := Actions(g, status)[0];
    assert a in Actions(g, status);
    v := a.node;
    if a.Abort? {
      AbortHasCause(g, status, v);
      assert false;
    }
    QueuesReadyNodes(g, status, v);
  }

  ghost predicate RankedIn(g: Graph, rank: seq<nat>, nodes: set<nat>)
    requires IsGraph(g)
  {
    |rank| == |g| &&
    forall v, i :: v in nodes && v < |g| && 0 <= i < |g[v]| && g[v][i] in nodes ==> rank[g[v][i]] < rank[v]
  }

  /** A graph on which no pass stalls can be ranked, source by source. */
  lemma {:induction false} RankBySources(g: Graph, nodes: set<nat>) returns (rank: seq<nat>)
    requires IsGraph(g) && forall u :: u in nodes ==> u < |g|
    requires forall status :: !Stalls(g, status)
    ensures RankedIn(g, rank, nodes)
    decreases |nodes|
  {
    if nodes == {} {
      rank := seq(|g|, _ => 0);
    } else {
      var v := SomeSource(g, nodes);
      var below := RankBySources(g, nodes - {v});
      rank := seq(|g|, u requires 0 <= u < |g| => if u == v then 0 else below[u] + 1);
    }
  }

  ghost function Nodes(n: nat): (s: set<nat>)
    ensures forall v: nat :: v in s <==> v < n
  {
    if n == 0 then {} else Nodes(n - 1) + {n - 1}
  }

  /** The manager can be left with nodes it never starts and nothing in flight exactly on a cyclic graph. */
  lemma StallsOnlyOnCycles(g: Graph)
    requires IsGraph(g)
    ensures (exists status :: Stalls(g, status)) <==> !Acyclic(g)
  {
    if Acyclic(g) {
      var rank :| Ranked(g, rank);
      forall status | |status| == |g| && Submitted in status && Active !in status && DoneFailed !in status
        ensures !Stalls(g, status)
      {
        var v :| 0 <= v < |g| && status[v] == Submitted;
        SomethingIsDone(g, rank, status, v);
      }
    } else if forall status :: !Stalls(g, status) {
      var rank := RankBySources(g, Nodes(|g|));
      assert Ranked(g, rank);
    }
  }

  // ---------------------------------------------------------------------
  // The pass as it is run

  /** Both loops of a pass and its verdict, colours being changed in place. */
  method ManageDag(g: Graph, status: seq<Status>) returns (actions: seq<Action>, verdict: Verdict)
    requires IsGraph(g) && |status| == |g|
    ensures actions == Actions(g, status) && verdict == Outcome(status)
    ensures InNodeOrder(actions, |g|)
  {
    var colour := new Colour[|g|];
    for v := 0 to |g|
      invariant forall u :: 0 <= u < v ==> colour[u] == ColourOf(status[u])
    {
      colour[v] := ColourOf(status[v]);
    }
    ghost var c := Coloured(status);
    assert colour[..] == c;
    actions := [];
    var completed := true;
    for v := 0 to |g|
      invariant Sweep(g, c, v) == Swept(colour[..], actions)
      invariant completed <==> forall u :: 0 <= u < v ==> c[u] == Green || c[u] == Red
    {
      SweepKeeps(g, c, v, v);
      if colour[v] == Gray {
        completed := false;
      } else if colour[v] == White {
        completed := false;
        if g[v] == [] {
          actions := actions + [Queue(v)];
          colour[v] := Gray;
        } else {
          var red, green := LookAtParents(g[v], colour);
          if red {
            colour[v] := Red;
            actions := actions + [Abort(v)];
          } else if green {
            actions := actions + [Queue(v)];
          }
        }
      }
      assert Swept(colour[..], actions) == Sweep(g, c, v + 1);
    }
    SweepInOrder(g, c, |g|);
    verdict := Again;
    if completed {
      NothingToDo(g, c, |g|);
      AllSettled(g, c, |g|);
      var allGreen := true;
      var v := 0;
      while v < |g| && allGreen
        invariant 0 <= v <= |g|
        invariant allGreen ==> forall u :: 0 <= u < v ==> c[u] == Green
        invariant !allGreen ==> exists u :: 0 <= u < |g| && c[u] != Green
        decreases |g| - v, allGreen
      {
        if colour[v] != Green {
          allGreen := false;
        } else {
          v := v + 1;
        }
      }
      verdict := if allGreen then LogDoneOk else LogAbort;
    }
  }

  lemma {:induction false} AllSettled(g: Graph, c: seq<Colour>, k: nat)
    requires IsGraph(g) && |c| == |g| && k <= |g| && Settled(c)
    ensures Sweep(g, c, k).colours == c
  {
    if k > 0 {
      AllSettled(g, c, k - 1);
    }
  }

  /** The loop over the in-edges, which stops at the first red parent. */
  method LookAtParents(parents: seq<nat>, colour: array<Colour>) returns (red: bool, green: bool)
    requires forall i :: 0 <= i < |parents| ==> parents[i] < colour.Length
    ensures red <==> SomeRed(parents, colour[..])
    ensures !red ==> (green <==> AllGreen(parents, colour[..]))
  {
    red, green := false, true;
    var i := 0;
    while i < |parents| && !red
      invariant 0 <= i <= |parents|
      invariant red ==> SomeRed(parents, colour[..])
      invariant !red ==> forall j :: 0 <= j < i ==> colour[parents[j]] != Red
      invariant !red ==> (green <==> AllGreen(parents[..i], colour[..]))
      decreases |parents| - i, !red
    {
      if colour[parents[i]] == Red {
        red := true;
        assert colour[..][parents[i]] == Red;
      } else {
        if colour[parents[i]] == White || colour[parents[i]] == Gray {
          green := false;
        }
        i := i + 1;
      }
    }
  }
}
