/** Bulk matchmaking: the nodes of a collection are clustered by their significant attributes, each
    cluster is matched once, and every node is scheduled or left pending. */
module BulkMatch {
  import opened Common
  import opened Selection

  /** A description: its attributes as unparsed text, and its list of significant ones, if any. */
  datatype Ad = Ad(values: map<string, string>, significant: Option<seq<string>>)

  datatype Node = Node(name: string, ad: Ad)

  /** The description of the whole, the one shared by the nodes, and the nodes. */
  datatype Dag = Dag(own: Ad, shared: Ad, nodes: seq<Node>)

  type Key = seq<(string, string)>

  predicate DistinctNames(nodes: seq<Node>) {
    forall i, j :: 0 <= i < j < |nodes| ==> nodes[i].name != nodes[j].name
  }

  // ---------------------------------------------------------------------
  // Keys

  /** lookup_significant_attributes. */
  function Significant(dag: Dag, ad: Ad): seq<string> {
    if ad.significant.Some? then ad.significant.value
    else if dag.shared.significant.Some? then dag.shared.significant.value
    else if dag.own.significant.Some? then dag.own.significant.value
    else []
  }

  /** lookup: in the node, in what the nodes share, in the whole. */
  function Lookup(dag: Dag, ad: Ad, attribute: string): Option<string> {
    if attribute in ad.values then Some(ad.values[attribute])
    else if attribute in dag.shared.values then Some(dag.shared.values[attribute])
    else if attribute in dag.own.values then Some(dag.own.values[attribute])
    else None
  }

  /** The node gives the attribute that value itself; or it does not give it, and what the nodes share
      does; or neither does, and the whole does. */
  predicate Sees(dag: Dag, ad: Ad, attribute: string, value: string) {
    || (attribute in ad.values && ad.values[attribute] == value)
    || (attribute !in ad.values && attribute in dag.shared.values && dag.shared.values[attribute] == value)
    || (attribute !in ad.values && attribute !in dag.shared.values
        && attribute in dag.own.values && dag.own.values[attribute] == value)
  }

  /** The list that counts is that of the node, or else of what the nodes share, or else of the whole. */
  predicate Lists(dag: Dag, ad: Ad, list: seq<string>) {
    || ad.significant == Some(list)
    || (ad.significant.None? && dag.shared.significant == Some(list))
    || (ad.significant.None? && dag.shared.significant.None? && dag.own.significant == Some(list))
  }

  lemma NearestCounts(dag: Dag, ad: Ad, attribute: string, value: string, list: seq<string>)
    ensures Lookup(dag, ad, attribute) == Some(value) <==> Sees(dag, ad, attribute, value)
    ensures Lists(dag, ad, list) ==> Significant(dag, ad) == list
    ensures ad.significant.None? && dag.shared.significant.None? && dag.own.significant.None? ==> Significant(dag, ad) == []
  {
  }

  /** The attributes of the list that have a value, with it. */
  function Found(dag: Dag, ad: Ad, attributes: seq<string>): Key {
    if attributes == [] then [] else
    var last := attributes[|attributes| - 1];
    var value := Lookup(dag, ad, last);
    Found(dag, ad, attributes[..|attributes| - 1]) + if value.Some? then [(last, value.value)] else []
  }

  function Attributes(dag: Dag, node: Node): Key {
    Found(dag, node.ad, Significant(dag, node.ad))
  }

  function KeyOf(dag: Dag, node: Node): Key {
    if Attributes(dag, node) == [] then [(node.name, "")] else Attributes(dag, node)
  }

  /** make_key. */
  method MakeKey(dag: Dag, node: Node) returns (key: Key)
    ensures key == KeyOf(dag, node)
  {
    key := [];
    var attributes := Significant(dag, node.ad);
    for i := 0 to |attributes|
      invariant key == Found(dag, node.ad, attributes[..i])
    {
      assert attributes[..i + 1][..i] == attributes[..i];
      var value := Lookup(dag, node.ad, attributes[i]);
      if value.Some? {
        key := key + [(attributes[i], value.value)];
      }
    }
    assert attributes[..|attributes|] == attributes;
    if key == [] {
      key := [(node.name, "")];
    }
  }

  lemma {:induction false} FoundIs(dag: Dag, ad: Ad, attributes: seq<string>, attribute: string, value: string)
    ensures (attribute, value) in Found(dag, ad, attributes) <==>
            attribute in attributes && Lookup(dag, ad, attribute) == Some(value)
    decreases |attributes|
  {
    if attributes != [] {
      FoundIs(dag, ad, attributes[..|attributes| - 1], attribute, value);
    }
  }

  /** Nodes with a common key agree on every attribute that is significant to both. */
  lemma SameKeyAgrees(dag: Dag, a: Node, b: Node, attribute: string)
    requires KeyOf(dag, a) == KeyOf(dag, b) && Attributes(dag, a) != [] && Attributes(dag, b) != []
    requires attribute in Significant(dag, a.ad) && attribute in Significant(dag, b.ad)
    ensures Lookup(dag, a.ad, attribute) == Lookup(dag, b.ad, attribute)
  {
    var x, y := Lookup(dag, a.ad, attribute), Lookup(dag, b.ad, attribute);
    if x.Some? {
      FoundIs(dag, a.ad, Significant(dag, a.ad), attribute, x.value);
      FoundIs(dag, b.ad, Significant(dag, b.ad), attribute, x.value);
    } else if y.Some? {
      FoundIs(dag, a.ad, Significant(dag, a.ad), attribute, y.value);
      FoundIs(dag, b.ad, Significant(dag, b.ad), attribute, y.value);
    }
  }

  /** Nodes with a common key agree on an attribute significant to the first exactly when it is
      significant to the second as well or has no value there: a key holds nothing of the attributes
      outside the list of its node, nor of those without a value. */
  lemma SameKeyAgreesIff(dag: Dag, a: Node, b: Node, attribute: string)
    requires KeyOf(dag, a) == KeyOf(dag, b) && Attributes(dag, a) != [] && Attributes(dag, b) != []
    requires attribute in Significant(dag, a.ad)
    ensures Lookup(dag, a.ad, attribute) == Lookup(dag, b.ad, attribute) <==>
            attribute in Significant(dag, b.ad) || Lookup(dag, b.ad, attribute) == None
  {
    if attribute in Significant(dag, b.ad) {
      SameKeyAgrees(dag, a, b, attribute);
    } else if Lookup(dag, a.ad, attribute).Some? {
      var value := Lookup(dag, a.ad, attribute).value;
      FoundIs(dag, a.ad, Significant(dag, a.ad), attribute, value);
      FoundIs(dag, b.ad, Significant(dag, b.ad), attribute, value);
    }
  }

  /** One more attribute on the list adds its value, if it has one. */
  lemma FoundMore(dag: Dag, ad: Ad, attributes: seq<string>, last: string)
    ensures Found(dag, ad, attributes + [last]) ==
            Found(dag, ad, attributes) + var value := Lookup(dag, ad, last);
                                         if value.Some? then [(last, value.value)] else []
  {
    assert (attributes + [last])[..|attributes|] == attributes;
  }

  /** Two nodes of one cluster and an attribute on which they disagree though it is significant to the
      first: X and Y are to the one, which has no Y, X alone to the other. */
  lemma SameKeyCanDisagree()
    ensures var none := Ad(map[], None);
            var a := Node("a", Ad(map["X" := "1"], Some(["X", "Y"])));
            var b := Node("b", Ad(map["X" := "1", "Y" := "2"], Some(["X"])));
            var dag := Dag(none, none, [a, b]);
            && KeyOf(dag, a) == KeyOf(dag, b) && "Y" in Significant(dag, a.ad)
            && Lookup(dag, a.ad, "Y") != Lookup(dag, b.ad, "Y")
  {
    var none := Ad(map[], None);
    var a := Node("a", Ad(map["X" := "1"], Some(["X", "Y"])));
    var b := Node("b", Ad(map["X" := "1", "Y" := "2"], Some(["X"])));
    var dag := Dag(none, none, [a, b]);
    FoundMore(dag, b.ad, [], "X");
    FoundMore(dag, a.ad, [], "X");
    assert [] + ["X"] == ["X"] && ["X"] + ["Y"] == ["X", "Y"];
    FoundMore(dag, a.ad, ["X"], "Y");
  }

  /** A node without significant attributes shares its key only with one whose only attribute is
      called like it and has an empty text. */
  lemma LonelyKey(dag: Dag, a: Node, b: Node)
    requires Attributes(dag, a) == [] && a.name != b.name
    ensures KeyOf(dag, a) == KeyOf(dag, b) <==> Attributes(dag, b) == [(a.name, "")]
  {
    if Attributes(dag, b) == [] {
      assert KeyOf(dag, a)[0] == (a.name, "") && KeyOf(dag, b)[0] == (b.name, "");
    }
  }

  /** So it is alone in its cluster as long as no attribute unparses to nothing. */
  lemma AloneWithoutAttributes(dag: Dag, i: nat, j: nat)
    requires i < |dag.nodes| && j < |dag.nodes| && DistinctNames(dag.nodes)
    requires Attributes(dag, dag.nodes[i]) == [] && KeyOf(dag, dag.nodes[i]) == KeyOf(dag, dag.nodes[j])
    requires forall attribute :: Lookup(dag, dag.nodes[j].ad, attribute) != Some("")
    ensures i == j
  {
    if i != j {
      var a, b := dag.nodes[i], dag.nodes[j];
      LonelyKey(dag, a, b);
      assert (a.name, "") in Attributes(dag, b);
      FoundIs(dag, b.ad, Significant(dag, b.ad), a.name, "");
    }
  }

  ghost predicate AgreeOn(dag: Dag, a: Node, b: Node, attributes: seq<string>) {
    forall attribute :: attribute in attributes ==> Lookup(dag, a.ad, attribute) == Lookup(dag, b.ad, attribute)
  }

  /** Whatever the second node has a value for, of what is significant to the first, is significant to it. */
  ghost predicate ListsCover(dag: Dag, a: Node, b: Node) {
    forall attribute :: attribute in Significant(dag, a.ad) && Lookup(dag, b.ad, attribute).Some? ==>
      attribute in Significant(dag, b.ad)
  }

  /**
    * Nodes of one cluster agree on everything significant to the first exactly when the list of the
    * second covers what it has values for.
    */
  lemma ClusterAgreesIff(dag: Dag, i: nat, j: nat)
    requires i < |dag.nodes| && j < |dag.nodes| && DistinctNames(dag.nodes)
    requires KeyOf(dag, dag.nodes[i]) == KeyOf(dag, dag.nodes[j])
    requires forall attribute :: Lookup(dag, dag.nodes[i].ad, attribute) != Some("")
    requires forall attribute :: Lookup(dag, dag.nodes[j].ad, attribute) != Some("")
    ensures var a, b := dag.nodes[i], dag.nodes[j];
            AgreeOn(dag, a, b, Significant(dag, a.ad)) <==> ListsCover(dag, a, b)
  {
    var a, b := dag.nodes[i], dag.nodes[j];
    if Attributes(dag, a) == [] {
      AloneWithoutAttributes(dag, i, j);
    } else if Attributes(dag, b) == [] {
      AloneWithoutAttributes(dag, j, i);
    } else {
      forall attribute | attribute in Significant(dag, a.ad)
        ensures Lookup(dag, a.ad, attribute) == Lookup(dag, b.ad, attribute) <==>
                attribute in Significant(dag, b.ad) || Lookup(dag, b.ad, attribute) == None
      {
        SameKeyAgreesIff(dag, a, b, attribute);
      }
    }
  }

  /** So nodes whose lists hold the same attributes, such as those without a list of their own, agree on
      all of them. */
  lemma SameListsAgree(dag: Dag, i: nat, j: nat)
    requires i < |dag.nodes| && j < |dag.nodes| && DistinctNames(dag.nodes)
    requires KeyOf(dag, dag.nodes[i]) == KeyOf(dag, dag.nodes[j])
    requires forall attribute :: Lookup(dag, dag.nodes[i].ad, attribute) != Some("")
    requires forall attribute :: Lookup(dag, dag.nodes[j].ad, attribute) != Some("")
    requires var a, b := Significant(dag, dag.nodes[i].ad), Significant(dag, dag.nodes[j].ad);
             forall attribute :: attribute in a <==> attribute in b
    ensures AgreeOn(dag, dag.nodes[i], dag.nodes[j], Significant(dag, dag.nodes[i].ad))
  {
    ClusterAgreesIff(dag, i, j);
  }

  // ---------------------------------------------------------------------
  // Clusters

  datatype Cluster = Cluster(ad: Ad, names: seq<string>)

  /** The names of the first k nodes that have the key, in order. */
  function Members(nodes: seq<Node>, keys: seq<Key>, key: Key, k: nat): seq<string>
    requires k <= |nodes| == |keys|
  {
    if k == 0 then [] else
    var before := Members(nodes, keys, key, k - 1);
    if keys[k - 1] == key then before + [nodes[k - 1].name] else before
  }

  /** The description of the first node with the key. */
  function Template(nodes: seq<Node>, keys: seq<Key>, key: Key, k: nat): Option<Ad>
    requires k <= |nodes| == |keys|
  {
    if k == 0 then None else
    var t := Template(nodes, keys, key, k - 1);
    if t.None? && keys[k - 1] == key then Some(nodes[k - 1].ad) else t
  }

  ghost predicate IsCluster(nodes: seq<Node>, keys: seq<Key>, clusters: map<Key, Cluster>, key: Key, k: nat)
    requires k <= |nodes| == |keys|
  {
    var members, template := Members(nodes, keys, key, k), Template(nodes, keys, key, k);
    if key in clusters then clusters[key].names == members != [] && template == Some(clusters[key].ad)
    else members == [] && template == None
  }

  ghost predicate AreClusters(nodes: seq<Node>, keys: seq<Key>, clusters: map<Key, Cluster>, k: nat)
    requires k <= |nodes| == |keys|
  {
    forall key :: IsCluster(nodes, keys, clusters, key, k)
  }

  function KeysOf(dag: Dag): (keys: seq<Key>)
    ensures |keys| == |dag.nodes|
  {
    seq(|dag.nodes|, i requires 0 <= i < |dag.nodes| => KeyOf(dag, dag.nodes[i]))
  }

  /** Clusterize on one node. */
  function Added(clusters: map<Key, Cluster>, key: Key, node: Node): map<Key, Cluster> {
    var cluster := if key in clusters then clusters[key] else Cluster(node.ad, []);
    clusters[key := cluster.(names := cluster.names + [node.name])]
  }

  lemma AddedIsCluster(nodes: seq<Node>, keys: seq<Key>, clusters: map<Key, Cluster>, k: nat)
    requires k < |nodes| == |keys| && AreClusters(nodes, keys, clusters, k)
    ensures AreClusters(nodes, keys, Added(clusters, keys[k], nodes[k]), k + 1)
  {
    var next, n := Added(clusters, keys[k], nodes[k]), k + 1;
    forall key
      ensures IsCluster(nodes, keys, next, key, n)
    {
      assert IsCluster(nodes, keys, clusters, key, k);
    }
  }

  /** Clusterize on every node: the clusters are the classes of nodes with a common key. */
  method Clusterize(dag: Dag) returns (clusters: map<Key, Cluster>)
    ensures AreClusters(dag.nodes, KeysOf(dag), clusters, |dag.nodes|)
  {
    ghost var keys := KeysOf(dag);
    clusters := map[];
    for i := 0 to |dag.nodes|
      invariant AreClusters(dag.nodes, keys, clusters, i)
    {
      AddedIsCluster(dag.nodes, keys, clusters, i);
      var key := MakeKey(dag, dag.nodes[i]);
      clusters := Added(clusters, key, dag.nodes[i]);
    }
  }

  /** The two nodes see different values of an attribute that is on both their lists. */
  ghost predicate Differ(dag: Dag, a: Node, b: Node) {
    exists attribute, v, w, l, m ::
      && Lists(dag, a.ad, l) && Lists(dag, b.ad, m) && attribute in l && attribute in m
      && Sees(dag, a.ad, attribute, v) && Sees(dag, b.ad, attribute, w) && v != w
  }

  /** They have the same list, with an attribute on it that the first sees, and see the same of all on it. */
  ghost predicate Alike(dag: Dag, a: Node, b: Node) {
    exists list ::
      && Lists(dag, a.ad, list) && Lists(dag, b.ad, list)
      && (exists attribute, value :: attribute in list && Sees(dag, a.ad, attribute, value))
      && (forall attribute, value :: attribute in list ==>
            (Sees(dag, a.ad, attribute, value) <==> Sees(dag, b.ad, attribute, value)))
  }

  lemma DifferentKeys(dag: Dag, a: Node, b: Node)
    requires Differ(dag, a, b)
    ensures KeyOf(dag, a) != KeyOf(dag, b)
  {
    var attribute, v, w, l, m :|
      && Lists(dag, a.ad, l) && Lists(dag, b.ad, m) && attribute in l && attribute in m
      && Sees(dag, a.ad, attribute, v) && Sees(dag, b.ad, attribute, w) && v != w;
    NearestCounts(dag, a.ad, attribute, v, l);
    NearestCounts(dag, b.ad, attribute, w, m);
    FoundIs(dag, a.ad, l, attribute, v);
    FoundIs(dag, b.ad, m, attribute, v);
    FoundIs(dag, b.ad, m, attribute, w);
  }

  lemma {:induction false} FoundAlike(dag: Dag, a: Ad, b: Ad, list: seq<string>)
    requires forall attribute :: attribute in list ==> Lookup(dag, a, attribute) == Lookup(dag, b, attribute)
    ensures Found(dag, a, list) == Found(dag, b, list)
  {
    if list != [] {
      FoundAlike(dag, a, b, list[..|list| - 1]);
    }
  }

  lemma SameLookup(dag: Dag, a: Ad, b: Ad, attribute: string)
    requires forall value :: Sees(dag, a, attribute, value) <==> Sees(dag, b, attribute, value)
    ensures Lookup(dag, a, attribute) == Lookup(dag, b, attribute)
  {
    if Lookup(dag, a, attribute).Some? {
      NearestCounts(dag, a, attribute, Lookup(dag, a, attribute).value, []);
      NearestCounts(dag, b, attribute, Lookup(dag, a, attribute).value, []);
    } else if Lookup(dag, b, attribute).Some? {
      NearestCounts(dag, a, attribute, Lookup(dag, b, attribute).value, []);
      NearestCounts(dag, b, attribute, Lookup(dag, b, attribute).value, []);
    }
  }

  lemma AlikeKeys(dag: Dag, a: Node, b: Node)
    requires Alike(dag, a, b)
    ensures KeyOf(dag, a) == KeyOf(dag, b)
  {
    var list :|
      && Lists(dag, a.ad, list) && Lists(dag, b.ad, list)
      && (exists attribute, value :: attribute in list && Sees(dag, a.ad, attribute, value))
      && (forall attribute, value :: attribute in list ==>
            (Sees(dag, a.ad, attribute, value) <==> Sees(dag, b.ad, attribute, value)));
    var attribute, value :| attribute in list && Sees(dag, a.ad, attribute, value);
    NearestCounts(dag, a.ad, attribute, value, list);
    NearestCounts(dag, b.ad, attribute, value, list);
    FoundIs(dag, a.ad, list, attribute, value);
    forall attribute | attribute in list
      ensures Lookup(dag, a.ad, attribute) == Lookup(dag, b.ad, attribute)
    {
      SameLookup(dag, a.ad, b.ad, attribute);
    }
    FoundAlike(dag, a.ad, b.ad, list);
  }

  ghost predicate Together(dag: Dag, clusters: map<Key, Cluster>, i: nat, j: nat)
    requires i < |dag.nodes| && j < |dag.nodes|
  {
    exists key :: key in clusters && dag.nodes[i].name in clusters[key].names && dag.nodes[j].name in clusters[key].names
  }

  /**
    * Nodes that see different values of an attribute on both their lists are in no cluster together;
    * nodes with the same list that see the same values, and any at all, are.
    */
  lemma ClustersGoByValues(dag: Dag, clusters: map<Key, Cluster>, i: nat, j: nat)
    requires AreClusters(dag.nodes, KeysOf(dag), clusters, |dag.nodes|) && DistinctNames(dag.nodes)
    requires i < |dag.nodes| && j < |dag.nodes|
    ensures Differ(dag, dag.nodes[i], dag.nodes[j]) ==> !Together(dag, clusters, i, j)
    ensures Alike(dag, dag.nodes[i], dag.nodes[j]) ==> Together(dag, clusters, i, j)
  {
    var a, b := dag.nodes[i], dag.nodes[j];
    if Differ(dag, a, b) {
      DifferentKeys(dag, a, b);
      forall key | key in clusters && a.name in clusters[key].names
        ensures b.name !in clusters[key].names
      {
        ClustersPartition(dag, clusters, i, key);
        ClustersPartition(dag, clusters, j, key);
      }
    }
    if Alike(dag, a, b) {
      AlikeKeys(dag, a, b);
      ClustersPartition(dag, clusters, i, KeyOf(dag, a));
      ClustersPartition(dag, clusters, j, KeyOf(dag, a));
    }
  }

  /** A cluster is matched with the description of its first node. */
  lemma {:induction false} TemplateIsFirst(nodes: seq<Node>, keys: seq<Key>, key: Key, k: nat, i: nat)
    requires i < k <= |nodes| == |keys| && keys[i] == key && forall j :: 0 <= j < i ==> keys[j] != key
    ensures Template(nodes, keys, key, k) == Some(nodes[i].ad)
    decreases k
  {
    if i + 1 < k {
      TemplateIsFirst(nodes, keys, key, k - 1, i);
    } else {
      NoTemplate(nodes, keys, key, i);
    }
  }

  lemma {:induction false} NoTemplate(nodes: seq<Node>, keys: seq<Key>, key: Key, k: nat)
    requires k <= |nodes| == |keys| && forall j :: 0 <= j < k ==> keys[j] != key
    ensures Template(nodes, keys, key, k) == None
    decreases k
  {
    if k > 0 {
      NoTemplate(nodes, keys, key, k - 1);
    }
  }

  /** The names of a cluster come in the order of the nodes. */
  lemma {:induction false} MembersInOrder(nodes: seq<Node>, keys: seq<Key>, key: Key, k: nat, x: nat, y: nat)
      returns (i: nat, j: nat)
    requires k <= |nodes| == |keys| && x < y < |Members(nodes, keys, key, k)|
    ensures i < j < k && keys[i] == key == keys[j]
    ensures nodes[i].name == Members(nodes, keys, key, k)[x] && nodes[j].name == Members(nodes, keys, key, k)[y]
    decreases k
  {
    var before := Members(nodes, keys, key, k - 1);
    if y < |before| {
      i, j := MembersInOrder(nodes, keys, key, k - 1, x, y);
    } else {
      j := k - 1;
      assert before[x] in before;
      i := MemberIsNode(nodes, keys, key, k - 1, before[x]);
    }
  }

  lemma OneMore(names: seq<string>, x: string, name: string)
    ensures multiset(names + [x])[name] == multiset(names)[name] + if x == name then 1 else 0
  {
  }

  /** A name is a member of the cluster of its node's key and of no other, once. */
  lemma {:induction false} MemberOnce(nodes: seq<Node>, keys: seq<Key>, key: Key, k: nat, i: nat)
    requires i < |nodes| == |keys| && k <= |nodes| && DistinctNames(nodes)
    ensures multiset(Members(nodes, keys, key, k))[nodes[i].name] == if i < k && keys[i] == key then 1 else 0
    decreases k
  {
    if k > 0 {
      MemberOnce(nodes, keys, key, k - 1, i);
      OneMore(Members(nodes, keys, key, k - 1), nodes[k - 1].name, nodes[i].name);
      assert i != k - 1 ==> nodes[i].name != nodes[k - 1].name;
    }
  }

  lemma {:induction false} MemberIsNode(nodes: seq<Node>, keys: seq<Key>, key: Key, k: nat, name: string) returns (i: nat)
    requires k <= |nodes| == |keys| && name in Members(nodes, keys, key, k)
    ensures i < k && nodes[i].name == name && keys[i] == key
    decreases k
  {
    if keys[k - 1] == key && nodes[k - 1].name == name {
      i := k - 1;
    } else {
      i := MemberIsNode(nodes, keys, key, k - 1, name);
    }
  }

  /** Every node is in exactly one cluster: that of its key. */
  lemma ClustersPartition(dag: Dag, clusters: map<Key, Cluster>, i: nat, key: Key)
    requires AreClusters(dag.nodes, KeysOf(dag), clusters, |dag.nodes|) && i < |dag.nodes| && DistinctNames(dag.nodes)
    ensures (key in clusters && dag.nodes[i].name in clusters[key].names) <==> key == KeyOf(dag, dag.nodes[i])
  {
    var nodes, keys := dag.nodes, KeysOf(dag);
    assert IsCluster(nodes, keys, clusters, key, |nodes|);
    MemberOnce(nodes, keys, key, |nodes|, i);
    var names := Members(nodes, keys, key, |nodes|);
    assert nodes[i].name in names <==> nodes[i].name in multiset(names);
  }

  // ---------------------------------------------------------------------
  // Scheduling

  /** What the rest of the system provides: the matches of a description, its fuzzy factor if it asks
      for a stochastic choice, the weight curve, and the draw made for each node. */
  datatype Oracle = Oracle(
    matches: Ad -> seq<Match>, fuzzy: Ad -> Option<real>, curve: real -> real, draw: string -> real)

  ghost predicate IsOracle(o: Oracle) {
    && (forall x :: o.curve(x) > 0.0)
    && (forall name :: 0.0 <= o.draw(name) < 1.0)
  }

  /** The matches are those of maximal rank and the rest. */
  ghost predicate Splits(matches: seq<Match>, best: seq<Match>, rest: seq<Match>) {
    && multiset(matches) == multiset(best) + multiset(rest)
    && (matches != [] ==> best != [])
    && (forall m, r :: m in best && r in best ==> r.rank == m.rank)
    && (forall m, r :: m in best && r in rest ==> r.rank < m.rank)
  }

  /** What a cluster chooses from: all its matches, or those of maximal rank. */
  ghost predicate IsPool(pool: seq<Match>, matches: seq<Match>, fuzzy: bool) {
    if fuzzy then pool == matches else exists rest :: Splits(matches, pool, rest)
  }

  /** The weight of a match is that of its rank, the mean rank of the pool and the fuzzy factor. */
  ghost predicate Weighs(o: Oracle, pool: seq<Match>, fuzzy: real, ws: seq<real>) {
    |ws| == |pool| && forall i :: 0 <= i < |pool| ==> ws[i] == Weight(o.curve, fuzzy, pool[i].rank, Mean(pool))
  }

  /** The pool and the partial sums of its weights. */
  method MakePool(o: Oracle, matches: seq<Match>, fuzzy: Option<real>)
    returns (pool: seq<Match>, sums: seq<real>, ghost ws: seq<real>)
    requires IsOracle(o)
    ensures IsPool(pool, matches, fuzzy.Some?)
    ensures |ws| == |pool| && Positive(ws) && sums == PartialSums(ws)
    ensures pool == [] <==> matches == []
    ensures fuzzy.None? ==> ws == Ones(|pool|)
    ensures fuzzy.Some? ==> Weighs(o, pool, fuzzy.value, ws)
  {
    if fuzzy.Some? {
      pool := matches;
      sums, ws := MakeDistribution(matches, fuzzy.value, o.curve);
    } else {
      ghost var rest;
      pool, rest := BestMatches(matches);
      ws := Ones(|pool|);
      var ranks := new real[|pool|](_ => 1.0);
      assert ranks[..] == ws;
      PartialSum(ranks);
      sums := ranks[..];
    }
  }

  /** The matches of maximal rank, brought to the front of a copy. */
  method BestMatches(matches: seq<Match>) returns (best: seq<Match>, ghost rest: seq<Match>)
    ensures Splits(matches, best, rest) && (best == [] <==> matches == [])
  {
    var ms := new Match[|matches|](i requires 0 <= i < |matches| => matches[i]);
    assert ms[..] == matches;
    var k := MaxPartition(ms);
    best, rest := ms[..k], ms[k..];
    assert ms[..] == best + rest;
  }

  datatype Placed = Placed(name: string, destination: Match)

  function Names(jobs: seq<Placed>): (names: seq<string>)
    ensures |names| == |jobs|
  {
    seq(|jobs|, i requires 0 <= i < |jobs| => jobs[i].name)
  }

  /** The match the draw falls to. */
  ghost predicate Chosen(pool: seq<Match>, ws: seq<real>, u: real, m: Match)
    requires |ws| == |pool|
  {
    exists k :: 0 <= k < |pool| && m == pool[k] && Owns(ws, k, u)
  }

  /** Schedule on one cluster: its nodes in order, each with the match that owns its draw. */
  method ScheduleCluster(o: Oracle, cluster: Cluster) returns (jobs: seq<Placed>, ghost pool: seq<Match>, ghost ws: seq<real>)
    requires IsOracle(o)
    ensures IsPool(pool, o.matches(cluster.ad), o.fuzzy(cluster.ad).Some?) && |ws| == |pool| && Positive(ws)
    ensures o.fuzzy(cluster.ad).None? ==> ws == Ones(|pool|)
    ensures o.fuzzy(cluster.ad).Some? ==> Weighs(o, pool, o.fuzzy(cluster.ad).value, ws)
    ensures Names(jobs) == if o.matches(cluster.ad) == [] then [] else cluster.names
    ensures forall job :: job in jobs ==> Chosen(pool, ws, o.draw(job.name), job.destination)
  {
    var sums: seq<real>, matches: seq<Match>;
    matches, sums, ws := MakePool(o, o.matches(cluster.ad), o.fuzzy(cluster.ad));
    pool := matches;
    jobs := [];
    if sums != [] {
      for i := 0 to |cluster.names|
        invariant Names(jobs) == cluster.names[..i]
        invariant forall job :: job in jobs ==> Chosen(pool, ws, o.draw(job.name), job.destination)
      {
        var k := Select(ws, sums, o.draw(cluster.names[i]));
        var job := Placed(cluster.names[i], matches[k]);
        assert Chosen(pool, ws, o.draw(job.name), job.destination);
        assert Names(jobs + [job]) == Names(jobs) + [job.name];
        jobs := jobs + [job];
      }
    }
  }

  /** Without a fuzzy rank the match chosen has maximal rank among all matches of the cluster. */
  lemma ChosenIsBest(pool: seq<Match>, matches: seq<Match>, ws: seq<real>, u: real, m: Match, other: Match)
    requires IsPool(pool, matches, false) && |ws| == |pool| && Chosen(pool, ws, u, m) && other in matches
    ensures m in matches && other.rank <= m.rank
  {
    var rest :| Splits(matches, pool, rest);
    assert m in pool;
    assert m in multiset(pool) && other in multiset(matches);
    assert m in multiset(matches);
    assert other in multiset(pool) || other in multiset(rest);
  }

  ghost predicate HasMatches(o: Oracle, nodes: seq<Node>, keys: seq<Key>, key: Key)
    requires |nodes| == |keys|
  {
    var t := Template(nodes, keys, key, |nodes|);
    t.Some? && o.matches(t.value) != []
  }

  /** Where a node stands once the clusters of all keys but those in `todo` are done. */
  ghost predicate Settled(o: Oracle, nodes: seq<Node>, keys: seq<Key>, todo: set<Key>, jobs: seq<Placed>, pending: set<string>, i: nat)
    requires i < |nodes| == |keys|
  {
    var name, done, matched := nodes[i].name, keys[i] !in todo, HasMatches(o, nodes, keys, keys[i]);
    && multiset(Names(jobs))[name] == (if done && matched then 1 else 0)
    && (name in pending <==> done && !matched)
  }

  function SetOf(names: seq<string>): set<string> {
    set i | 0 <= i < |names| :: names[i]
  }

  lemma NamesConcat(a: seq<Placed>, b: seq<Placed>)
    ensures Names(a + b) == Names(a) + Names(b)
  {
  }

  /** One more cluster settles its own nodes and no others. */
  lemma ClusterSettles(o: Oracle, nodes: seq<Node>, keys: seq<Key>, todo: set<Key>, key: Key,
                       jobs: seq<Placed>, pending: set<string>, more: seq<Placed>, i: nat)
    requires i < |nodes| == |keys| && DistinctNames(nodes) && key in todo
    requires Settled(o, nodes, keys, todo, jobs, pending, i)
    requires var names := Members(nodes, keys, key, |nodes|);
             Names(more) == if HasMatches(o, nodes, keys, key) then names else []
    ensures var names := Members(nodes, keys, key, |nodes|);
            Settled(o, nodes, keys, todo - {key}, jobs + more,
                    if HasMatches(o, nodes, keys, key) then pending else pending + SetOf(names), i)
  {
    var names := Members(nodes, keys, key, |nodes|);
    MemberOnce(nodes, keys, key, |nodes|, i);
    NamesConcat(jobs, more);
    var name := nodes[i].name;
    assert name in names <==> name in multiset(names);
  }

  /** A choice made from the pool of that description. */
  ghost predicate ChosenFor(o: Oracle, ad: Ad, pool: seq<Match>, ws: seq<real>, job: Placed) {
    && IsPool(pool, o.matches(ad), o.fuzzy(ad).Some?) && |ws| == |pool| && Positive(ws)
    && (o.fuzzy(ad).None? ==> ws == Ones(|pool|))
    && (o.fuzzy(ad).Some? ==> Weighs(o, pool, o.fuzzy(ad).value, ws))
    && Chosen(pool, ws, o.draw(job.name), job.destination)
  }

  /** A job is a node with the match its draw falls to among those of its cluster. */
  ghost predicate RightlyPlaced(o: Oracle, nodes: seq<Node>, keys: seq<Key>, job: Placed)
    requires |nodes| == |keys|
  {
    exists i, ad, pool, ws ::
      && 0 <= i < |nodes| && nodes[i].name == job.name
      && Template(nodes, keys, keys[i], |nodes|) == Some(ad)
      && ChosenFor(o, ad, pool, ws, job)
  }

  lemma ClusterIsRight(o: Oracle, nodes: seq<Node>, keys: seq<Key>, clusters: map<Key, Cluster>, key: Key,
                       jobs: seq<Placed>, pool: seq<Match>, ws: seq<real>)
    requires |nodes| == |keys| && key in clusters && IsCluster(nodes, keys, clusters, key, |nodes|)
    requires Names(jobs) == if o.matches(clusters[key].ad) == [] then [] else clusters[key].names
    requires forall job :: job in jobs ==> ChosenFor(o, clusters[key].ad, pool, ws, job)
    ensures forall job :: job in jobs ==> RightlyPlaced(o, nodes, keys, job)
  {
    forall job | job in jobs
      ensures RightlyPlaced(o, nodes, keys, job)
    {
      var k :| 0 <= k < |jobs| && jobs[k] == job;
      assert Names(jobs)[k] == job.name;
      var i := MemberIsNode(nodes, keys, key, |nodes|, job.name);
      assert ChosenFor(o, clusters[key].ad, pool, ws, job);
    }
  }

  function AllNames(nodes: seq<Node>, k: nat): seq<string>
    requires k <= |nodes|
  {
    if k == 0 then [] else AllNames(nodes, k - 1) + [nodes[k - 1].name]
  }

  lemma {:induction false} EachNameOnce(nodes: seq<Node>, k: nat, i: nat)
    requires i < |nodes| && k <= |nodes| && DistinctNames(nodes)
    ensures multiset(AllNames(nodes, k))[nodes[i].name] == if i < k then 1 else 0
    decreases k
  {
    if k > 0 {
      EachNameOnce(nodes, k - 1, i);
      OneMore(AllNames(nodes, k - 1), nodes[k - 1].name, nodes[i].name);
      assert i != k - 1 ==> nodes[i].name != nodes[k - 1].name;
    }
  }

  lemma {:induction false} OnlyNames(nodes: seq<Node>, k: nat, name: string)
    requires k <= |nodes| && forall i :: 0 <= i < k ==> nodes[i].name != name
    ensures multiset(AllNames(nodes, k))[name] == 0
    decreases k
  {
    if k > 0 {
      OnlyNames(nodes, k - 1, name);
      OneMore(AllNames(nodes, k - 1), nodes[k - 1].name, name);
    }
  }

  lemma NodeEndsOnce(o: Oracle, nodes: seq<Node>, keys: seq<Key>, jobs: seq<Placed>, pending: set<string>, i: nat)
    requires i < |nodes| == |keys| && DistinctNames(nodes) && Settled(o, nodes, keys, {}, jobs, pending, i)
    ensures var name := nodes[i].name;
            multiset(Names(jobs))[name] + multiset(pending)[name] == multiset(AllNames(nodes, |nodes|))[name]
  {
    EachNameOnce(nodes, |nodes|, i);
  }

  lemma NotPlaced(o: Oracle, nodes: seq<Node>, keys: seq<Key>, jobs: seq<Placed>, name: string)
    requires |nodes| == |keys| && forall i :: 0 <= i < |nodes| ==> nodes[i].name != name
    requires forall job :: job in jobs ==> RightlyPlaced(o, nodes, keys, job)
    ensures multiset(Names(jobs))[name] == 0
  {
    assert name in multiset(Names(jobs)) <==> name in Names(jobs);
    forall k | 0 <= k < |jobs|
      ensures Names(jobs)[k] != name
    {
      assert jobs[k] in jobs;
    }
  }

  /** Every node ends exactly once, as a job or pending, and nothing else does. */
  lemma Conserved(o: Oracle, nodes: seq<Node>, keys: seq<Key>, jobs: seq<Placed>, pending: set<string>)
    requires |nodes| == |keys| && DistinctNames(nodes)
    requires forall i :: 0 <= i < |nodes| ==> Settled(o, nodes, keys, {}, jobs, pending, i)
    requires forall job :: job in jobs ==> RightlyPlaced(o, nodes, keys, job)
    requires forall name :: name in pending ==> exists i :: 0 <= i < |nodes| && nodes[i].name == name
    ensures multiset(Names(jobs)) + multiset(pending) == multiset(AllNames(nodes, |nodes|))
  {
    var ended, all := multiset(Names(jobs)) + multiset(pending), multiset(AllNames(nodes, |nodes|));
    forall name
      ensures ended[name] == all[name]
    {
      SameCount(o, nodes, keys, jobs, pending, name);
    }
  }

  lemma SameCount(o: Oracle, nodes: seq<Node>, keys: seq<Key>, jobs: seq<Placed>, pending: set<string>, name: string)
    requires |nodes| == |keys| && DistinctNames(nodes)
    requires forall i :: 0 <= i < |nodes| ==> Settled(o, nodes, keys, {}, jobs, pending, i)
    requires forall job :: job in jobs ==> RightlyPlaced(o, nodes, keys, job)
    requires name in pending ==> exists i :: 0 <= i < |nodes| && nodes[i].name == name
    ensures multiset(Names(jobs))[name] + multiset(pending)[name] == multiset(AllNames(nodes, |nodes|))[name]
  {
    if i :| 0 <= i < |nodes| && nodes[i].name == name {
      NodeEndsOnce(o, nodes, keys, jobs, pending, i);
    } else {
      NotPlaced(o, nodes, keys, jobs, name);
      OnlyNames(nodes, |nodes|, name);
    }
  }

  /**
    * do_bulk_mm: a node is pending exactly when its cluster has no matches; otherwise it is
    * scheduled, once, with a match of its cluster; and every node is one or the other.
    */
  method DoBulkMatch(o: Oracle, dag: Dag) returns (jobs: seq<Placed>, pending: set<string>)
    requires IsOracle(o) && DistinctNames(dag.nodes)
    ensures forall i :: 0 <= i < |dag.nodes| ==> Settled(o, dag.nodes, KeysOf(dag), {}, jobs, pending, i)
    ensures forall job :: job in jobs ==> RightlyPlaced(o, dag.nodes, KeysOf(dag), job)
    ensures multiset(Names(jobs)) + multiset(pending) == multiset(AllNames(dag.nodes, |dag.nodes|))
  {
    ghost var nodes, keys := dag.nodes, KeysOf(dag);
    var clusters := Clusterize(dag);
    var todo := clusters.Keys;
    jobs, pending := [], {};
    forall i | 0 <= i < |nodes|
      ensures keys[i] in todo
    {
      ClustersPartition(dag, clusters, i, keys[i]);
    }
    while todo != {}
      invariant todo <= clusters.Keys
      invariant forall i :: 0 <= i < |nodes| ==> Settled(o, nodes, keys, todo, jobs, pending, i)
      invariant forall job :: job in jobs ==> RightlyPlaced(o, nodes, keys, job)
      invariant forall name :: name in pending ==> exists i :: 0 <= i < |nodes| && nodes[i].name == name
      decreases |todo|
    {
      var key :| key in todo;
      assert IsCluster(nodes, keys, clusters, key, |nodes|);
      var more, pool, ws := ScheduleCluster(o, clusters[key]);
      ClusterIsRight(o, nodes, keys, clusters, key, more, pool, ws);
      ghost var left, placed := todo - {key}, jobs + more;
      ghost var waiting := if HasMatches(o, nodes, keys, key) then pending else pending + SetOf(clusters[key].names);
      forall i | 0 <= i < |nodes|
        ensures Settled(o, nodes, keys, left, placed, waiting, i)
      {
        ClusterSettles(o, nodes, keys, todo, key, jobs, pending, more, i);
      }
      if o.matches(clusters[key].ad) == [] {
        forall name | name in SetOf(clusters[key].names)
          ensures exists i :: 0 <= i < |nodes| && nodes[i].name == name
        {
          var i := MemberIsNode(nodes, keys, key, |nodes|, name);
        }
        pending := pending + SetOf(clusters[key].names);
      }
      jobs := jobs + more;
      todo := todo - {key};
    }
    Conserved(o, nodes, keys, jobs, pending);
  }
}
