/** The choice of a destination among the matches of a cluster. */
module Selection {

  datatype Match = Match(ce: string, rank: real)

  // ---------------------------------------------------------------------
  // The best matches, brought to the front in place

  predicate IsMax(ms: seq<Match>, rank: real) {
    (exists i :: 0 <= i < |ms| && ms[i].rank == rank) && forall i :: 0 <= i < |ms| ==> ms[i].rank <= rank
  }

  /** max_element. */
  method MaxRank(ms: array<Match>) returns (rank: real)
    requires ms.Length > 0
    ensures IsMax(ms[..], rank)
  {
    rank := ms[0].rank;
    for i := 1 to ms.Length
      invariant forall j :: 0 <= j < i ==> ms[j].rank <= rank
      invariant exists j :: 0 <= j < i && ms[j].rank == rank
    {
      if rank < ms[i].rank {
        rank := ms[i].rank;
      }
    }
    ghost var j :| 0 <= j < ms.Length && ms[j].rank == rank;
    assert ms[..][j].rank == rank;
  }

  method Swap(ms: array<Match>, i: nat, j: nat)
    requires i < ms.Length && j < ms.Length
    modifies ms
    ensures ms[..] == old(ms[..])[i := old(ms[j])][j := old(ms[i])]
    ensures multiset(ms[..]) == multiset(old(ms[..]))
  {
    ms[i], ms[j] := ms[j], ms[i];
  }

  /** partition: from both ends, matches of that rank go in front. */
  method Partition(ms: array<Match>, rank: real) returns (k: nat)
    modifies ms
    ensures k <= ms.Length && multiset(ms[..]) == multiset(old(ms[..]))
    ensures forall i :: 0 <= i < k ==> ms[i].rank == rank
    ensures forall i :: k <= i < ms.Length ==> ms[i].rank != rank
  {
    k := 0;
    var last := ms.Length;
    while k < last
      invariant 0 <= k <= last <= ms.Length && multiset(ms[..]) == multiset(old(ms[..]))
      invariant forall i :: 0 <= i < k ==> ms[i].rank == rank
      invariant forall i :: last <= i < ms.Length ==> ms[i].rank != rank
    {
      if ms[k].rank == rank {
        k := k + 1;
      } else if ms[last - 1].rank != rank {
        last := last - 1;
      } else {
        Swap(ms, k, last - 1);
        k, last := k + 1, last - 1;
      }
    }
  }

  /** max_partition: a permutation with the matches of maximal rank, and no others, in front. */
  method MaxPartition(ms: array<Match>) returns (k: nat)
    modifies ms
    ensures k <= ms.Length && multiset(ms[..]) == multiset(old(ms[..]))
    ensures k == 0 <==> ms.Length == 0
    ensures forall i, j :: 0 <= i < k && 0 <= j < ms.Length ==> ms[j].rank <= ms[i].rank
    ensures forall i, j :: 0 <= i < k <= j < ms.Length ==> ms[j].rank < ms[i].rank
  {
    if ms.Length == 0 {
      return 0;
    }
    var rank := MaxRank(ms);
    ghost var before := ms[..];
    k := Partition(ms, rank);
    ghost var after := ms[..];
    forall m | m in after
      ensures m.rank <= rank
    {
      assert m in multiset(after);
      assert m in before;
    }
    ghost var j :| 0 <= j < |before| && before[j].rank == rank;
    assert before[j] in multiset(after);
    assert before[j] in after;
    forall i | 0 <= i < ms.Length
      ensures ms[i].rank <= rank
    {
      assert ms[i] in after;
    }
  }

  // ---------------------------------------------------------------------
  // Partial sums and draws

  /** The sum of the first k weights. */
  function Prefix(ws: seq<real>, k: nat): real
    requires k <= |ws|
  {
    if k == 0 then 0.0 else Prefix(ws, k - 1) + ws[k - 1]
  }

  predicate Positive(ws: seq<real>) {
    forall i :: 0 <= i < |ws| ==> ws[i] > 0.0
  }

  function PartialSums(ws: seq<real>): (d: seq<real>)
    ensures |d| == |ws|
  {
    seq(|ws|, i requires 0 <= i < |ws| => Prefix(ws, i + 1))
  }

  /** partial_sum, in place. */
  method PartialSum(ws: array<real>)
    modifies ws
    ensures ws[..] == PartialSums(old(ws[..]))
  {
    ghost var was := ws[..];
    if ws.Length == 0 {
      return;
    }
    for i := 1 to ws.Length
      invariant forall j :: 0 <= j < i ==> ws[j] == Prefix(was, j + 1)
      invariant forall j :: i <= j < ws.Length ==> ws[j] == was[j]
    {
      ws[i] := ws[i - 1] + ws[i];
    }
  }

  lemma {:induction false} PrefixGrows(ws: seq<real>, i: nat, j: nat)
    requires i < j <= |ws| && Positive(ws)
    ensures Prefix(ws, i) < Prefix(ws, j)
    decreases j
  {
    if i + 1 < j {
      PrefixGrows(ws, i, j - 1);
    }
  }

  predicate Sorted(d: seq<real>) {
    forall i, j :: 0 <= i < j < |d| ==> d[i] <= d[j]
  }

  /** lower_bound: the first element not less than p. */
  method LowerBound(d: seq<real>, p: real) returns (k: nat)
    requires Sorted(d)
    ensures k <= |d|
    ensures forall i :: 0 <= i < k ==> d[i] < p
    ensures forall i :: k <= i < |d| ==> d[i] >= p
  {
    k := 0;
    var len := |d|;
    while len > 0
      invariant 0 <= len && k + len <= |d|
      invariant forall i :: 0 <= i < k ==> d[i] < p
      invariant forall i :: k + len <= i < |d| ==> d[i] >= p
    {
      var half := len / 2;
      if d[k + half] < p {
        k := k + half + 1;
        len := len - half - 1;
      } else {
        len := half;
      }
    }
  }

  /** The points below the total that fall to i; zero falls to the first. */
  predicate Holds(ws: seq<real>, i: nat, p: real)
    requires i < |ws|
  {
    p <= Prefix(ws, i + 1) && (Prefix(ws, i) < p || (i == 0 && p == 0.0))
  }

  /** The draws that choose i. */
  predicate Owns(ws: seq<real>, i: nat, u: real)
    requires i < |ws|
  {
    Holds(ws, i, u * Prefix(ws, |ws|))
  }

  lemma SumsAreSorted(ws: seq<real>)
    requires Positive(ws)
    ensures Sorted(PartialSums(ws))
  {
    var d := PartialSums(ws);
    forall i, j | 0 <= i < j < |d|
      ensures d[i] <= d[j]
    {
      PrefixGrows(ws, i + 1, j + 1);
    }
  }

  /** Two holders of a point would overlap. */
  lemma HolderIsUnique(ws: seq<real>, i: nat, j: nat, p: real)
    requires Positive(ws) && i < |ws| && j < |ws| && Holds(ws, i, p) && Holds(ws, j, p)
    ensures i == j
  {
    if i < j {
      HoldersInOrder(ws, i, j, p);
    } else if j < i {
      HoldersInOrder(ws, j, i, p);
    }
  }

  lemma HoldersInOrder(ws: seq<real>, i: nat, j: nat, p: real)
    requires Positive(ws) && i < j < |ws| && Holds(ws, i, p)
    ensures !Holds(ws, j, p)
  {
    if i + 1 < j {
      PrefixGrows(ws, i + 1, j);
    }
  }

  /** lower_bound on the partial sums finds the holder of a point. */
  method FindHolder(ghost ws: seq<real>, d: seq<real>, p: real) returns (i: nat)
    requires ws != [] && Positive(ws) && d == PartialSums(ws) && 0.0 <= p <= d[|d| - 1]
    ensures i < |d| && Holds(ws, i, p)
  {
    SumsAreSorted(ws);
    i := LowerBound(d, p);
    assert d[|d| - 1] >= p;
    assert d[i] == Prefix(ws, i + 1) && (i > 0 ==> d[i - 1] == Prefix(ws, i));
  }

  lemma Scaled(total: real, u: real)
    requires total > 0.0 && 0.0 <= u < 1.0
    ensures 0.0 <= u * total <= total
  {
    assert (1.0 - u) * total >= 0.0;
  }

  lemma DrawIsInRange(ws: seq<real>, total: real, u: real, p: real)
    requires ws != [] && Positive(ws) && total == Prefix(ws, |ws|) && 0.0 <= u < 1.0 && p == u * total
    ensures 0.0 <= p <= total
    ensures forall i :: 0 <= i < |ws| ==> (Owns(ws, i, u) <==> Holds(ws, i, p))
  {
    PrefixGrows(ws, 0, |ws|);
    Scaled(total, u);
  }

  /** SelectDestination: every draw chooses one match, the one that owns it. */
  method Select(ghost ws: seq<real>, d: seq<real>, u: real) returns (i: nat)
    requires ws != [] && Positive(ws) && d == PartialSums(ws) && 0.0 <= u < 1.0
    ensures i < |d| && Owns(ws, i, u)
    ensures forall j :: 0 <= j < |ws| && Owns(ws, j, u) ==> j == i
  {
    var total := d[|d| - 1];
    var p := u * total;
    DrawIsInRange(ws, total, u, p);
    i := FindHolder(ws, d, p);
    forall j | 0 <= j < |ws| && Owns(ws, j, u)
      ensures j == i
    {
      HolderIsUnique(ws, i, j, p);
    }
  }

  lemma DivideBy(a: real, u: real, total: real)
    requires total > 0.0
    ensures a < u * total <==> a / total < u
    ensures u * total <= a <==> u <= a / total
    ensures u * total == 0.0 <==> u == 0.0
  {
    assert (a / total) * total == a;
  }

  /** The draws that choose i are those of a half-open interval. */
  lemma OwnedInterval(ws: seq<real>, i: nat, u: real)
    requires i < |ws| && Positive(ws) && 0.0 <= u < 1.0
    ensures var total := Prefix(ws, |ws|);
            && total > 0.0
            && (Owns(ws, i, u) <==> u <= Prefix(ws, i + 1) / total && (Prefix(ws, i) / total < u || (i == 0 && u == 0.0)))
  {
    PrefixGrows(ws, 0, |ws|);
    DivideBy(Prefix(ws, i), u, Prefix(ws, |ws|));
    DivideBy(Prefix(ws, i + 1), u, Prefix(ws, |ws|));
  }

  /** It is as long as the share of the weight in the total. */
  lemma OwnedShare(ws: seq<real>, i: nat, total: real)
    requires i < |ws| && total > 0.0
    ensures Prefix(ws, i + 1) / total - Prefix(ws, i) / total == ws[i] / total
  {
    assert (Prefix(ws, i) + ws[i]) / total == Prefix(ws, i) / total + ws[i] / total;
  }

  function Ones(k: nat): (ws: seq<real>)
    ensures |ws| == k && Positive(ws)
  {
    seq(k, _ => 1.0)
  }

  lemma {:induction false} PrefixOfOnes(k: nat, i: nat)
    requires i <= k
    ensures Prefix(Ones(k), i) == i as real
    decreases i
  {
    if i > 0 {
      PrefixOfOnes(k, i - 1);
    }
  }

  /** Among k matches of equal weight each owns a k-th of the draws. */
  lemma EqualShares(k: nat, i: nat, u: real)
    requires i < k && 0.0 <= u < 1.0
    ensures Owns(Ones(k), i, u) <==>
            u <= (i + 1) as real / k as real && (i as real / k as real < u || (i == 0 && u == 0.0))
    ensures (i + 1) as real / k as real - i as real / k as real == 1.0 / k as real
  {
    OwnedInterval(Ones(k), i, u);
    PrefixOfOnes(k, i);
    PrefixOfOnes(k, i + 1);
    PrefixOfOnes(k, k);
  }

  /** The weight of a rank: the curve, an arc tangent raised above zero, at its scaled distance from the mean. */
  function Weight(curve: real -> real, f: real, rank: real, mean: real): real {
    curve(f * (rank - mean))
  }

  /** make_distribution. */
  method MakeDistribution(ms: seq<Match>, f: real, curve: real -> real) returns (d: seq<real>, ghost ws: seq<real>)
    requires forall x :: curve(x) > 0.0
    ensures |ws| == |ms| && Positive(ws) && d == PartialSums(ws)
    ensures forall i :: 0 <= i < |ms| ==> ws[i] == Weight(curve, f, ms[i].rank, Mean(ms))
  {
    var ranks := new real[|ms|];
    var sum := 0.0;
    for i := 0 to |ms|
      invariant sum == RankSum(ms, i)
      invariant forall j :: 0 <= j < i ==> ranks[j] == ms[j].rank
    {
      ranks[i] := ms[i].rank;
      sum := sum + ranks[i];
    }
    var mean := if |ms| == 0 then 0.0 else sum / |ms| as real;
    for i := 0 to |ms|
      invariant forall j :: 0 <= j < i ==> ranks[j] == Weight(curve, f, ms[j].rank, mean)
      invariant forall j :: i <= j < |ms| ==> ranks[j] == ms[j].rank
    {
      ranks[i] := Weight(curve, f, ranks[i], mean);
    }
    ws := ranks[..];
    PartialSum(ranks);
    d := ranks[..];
  }

  function RankSum(ms: seq<Match>, k: nat): real
    requires k <= |ms|
  {
    if k == 0 then 0.0 else RankSum(ms, k - 1) + ms[k - 1].rank
  }

  /** The mean rank; over no match the code divides zero by zero and uses it for nothing. */
  function Mean(ms: seq<Match>): real {
    if |ms| == 0 then 0.0 else RankSum(ms, |ms|) / |ms| as real
  }

  /** By how much the first k ranks exceed m, in all. */
  function Excess(ms: seq<Match>, m: real, k: nat): real
    requires k <= |ms|
  {
    if k == 0 then 0.0 else Excess(ms, m, k - 1) + (ms[k - 1].rank - m)
  }

  lemma {:induction false} ExcessIs(ms: seq<Match>, m: real, k: nat)
    requires k <= |ms|
    ensures Excess(ms, m, k) == RankSum(ms, k) - k as real * m
    decreases k
  {
    if k > 0 {
      ExcessIs(ms, m, k - 1);
      assert k as real * m == (k - 1) as real * m + m;
    }
  }

  /** The mean is the one number that the ranks exceed as much as they fall short of it. */
  lemma MeanBalances(ms: seq<Match>, m: real)
    requires ms != []
    ensures Excess(ms, m, |ms|) == 0.0 <==> m == Mean(ms)
  {
    ExcessIs(ms, m, |ms|);
    var n := |ms| as real;
    assert (RankSum(ms, |ms|) / n) * n == RankSum(ms, |ms|);
    DivideBy(RankSum(ms, |ms|), m, n);
  }

  lemma FartherUp(f: real, a: real, b: real, mean: real)
    requires f > 0.0 && a < b
    ensures f * (a - mean) < f * (b - mean)
  {
    var x, y := a - mean, b - mean;
    assert f * (y - x) > 0.0;
    assert f * y - f * x == f * (y - x);
  }

  ghost predicate Rises(curve: real -> real) {
    forall x, y {:trigger curve(x), curve(y)} :: x < y ==> curve(x) < curve(y)
  }

  /** On a rising curve, with a positive factor, of two ranks the higher has the greater weight, and so
      owns the longer interval of draws. */
  lemma BetterIsLikelier(curve: real -> real, f: real, a: real, b: real, mean: real)
    requires Rises(curve) && f > 0.0
    ensures a < b <==> Weight(curve, f, a, mean) < Weight(curve, f, b, mean)
  {
    if a < b {
      FartherUp(f, a, b, mean);
    } else if b < a {
      FartherUp(f, b, a, mean);
    }
  }
}
