/** Transitive revocation of authority (app/unified_fusion.py): a loop that keeps sweeping
    the graph until nothing changes, against reachability along `depends_on`, and what it
    leaves of the nodes: their dependencies, their authority and their marks. */
module Revocation {

  type Id = string

  datatype Node = Node(id: Id, dependsOn: set<Id>, authority: bool, compromised: bool)

  datatype Revoked = Revoked(revoked: set<Id>, suspended: set<Id>, updated: map<Id, Node>)

  type Nodes = map<Id, Node>

  /** The dictionary the source builds first: a repeated id keeps its last node. */
  function Index(graph: seq<Node>): Nodes {
    if graph == [] then map[]
    else Index(graph[..|graph| - 1])[graph[|graph| - 1].id := graph[|graph| - 1]]
  }

  // ---------------------------------------------------------------- reachability

  /** A path of dependencies inside the graph, ending at a compromised node. */
  ghost predicate Path(nodes: Nodes, compromised: set<Id>, p: seq<Id>) {
    && p != []
    && (forall i :: 0 <= i < |p| ==> p[i] in nodes)
    && (forall i :: 0 <= i < |p| - 1 ==> p[i + 1] in nodes[p[i]].dependsOn)
    && p[|p| - 1] in compromised
  }

  ghost predicate Reaches(nodes: Nodes, compromised: set<Id>, id: Id) {
    exists p :: Path(nodes, compromised, p) && p[0] == id
  }

  /** Nothing outside `s` depends on anything inside it. */
  ghost predicate Closed(nodes: Nodes, s: set<Id>) {
    forall id :: id in nodes && nodes[id].dependsOn * s != {} ==> id in s
  }

  lemma {:induction false} ClosedHoldsPaths(nodes: Nodes, compromised: set<Id>, s: set<Id>, p: seq<Id>)
    requires Closed(nodes, s) && compromised * nodes.Keys <= s && Path(nodes, compromised, p)
    ensures p[0] in s
    decreases p
  {
    if |p| > 1 {
      var q := p[1..];
      assert forall i :: 0 <= i < |q| ==> q[i] == p[i + 1];
      ClosedHoldsPaths(nodes, compromised, s, q);
      assert p[1] in nodes[p[0]].dependsOn * s;
    }
  }

  lemma ReachesStep(nodes: Nodes, compromised: set<Id>, id: Id, via: Id)
    requires id in nodes && via in nodes[id].dependsOn && Reaches(nodes, compromised, via)
    ensures Reaches(nodes, compromised, id)
  {
    var p :| Path(nodes, compromised, p) && p[0] == via;
    assert Path(nodes, compromised, [id] + p);
  }

  lemma ReachesHere(nodes: Nodes, compromised: set<Id>, id: Id)
    requires id in nodes && id in compromised
    ensures Reaches(nodes, compromised, id)
  {
    assert Path(nodes, compromised, [id]);
  }

  // ---------------------------------------------------------------- the sweep

  function Suspend(node: Node, compromised: set<Id>): Node {
    Node(node.id, node.dependsOn, false, node.compromised || node.id in compromised)
  }

  ghost predicate Ordered(nodes: Nodes, order: seq<Id>) {
    forall id :: id in nodes <==> id in order
  }

  /** The dictionary and its insertion order. */
  method BuildIndex(graph: seq<Node>) returns (nodes: Nodes, order: seq<Id>)
    ensures nodes == Index(graph) && Ordered(nodes, order)
  {
    nodes, order := map[], [];
    for i := 0 to |graph|
      invariant nodes == Index(graph[..i]) && Ordered(nodes, order)
    {
      assert graph[..i + 1][..i] == graph[..i];
      if graph[i].id !in nodes { order := order + [graph[i].id]; }
      nodes := nodes[graph[i].id := graph[i]];
    }
    assert graph[..|graph|] == graph;
  }

  ghost predicate AllReach(nodes: Nodes, compromised: set<Id>, s: set<Id>) {
    s <= nodes.Keys && forall id :: id in s ==> Reaches(nodes, compromised, id)
  }

  ghost predicate Swept(nodes: Nodes, order: seq<Id>, s: set<Id>) {
    forall j :: 0 <= j < |order| && order[j] in nodes ==> order[j] in s || nodes[order[j]].dependsOn * s == {}
  }

  /** The nested loop: sweeps in the dictionary's order, growing `revoked`, until a whole sweep
      changes nothing. */
  method Sweep(nodes: Nodes, order: seq<Id>, compromised: set<Id>) returns (revoked: set<Id>)
    requires Ordered(nodes, order)
    ensures compromised * nodes.Keys <= revoked && AllReach(nodes, compromised, revoked) && Closed(nodes, revoked)
  {
    revoked := compromised * nodes.Keys;
    forall id | id in revoked ensures Reaches(nodes, compromised, id) { ReachesHere(nodes, compromised, id); }
    var changed := true;
    while changed
      invariant compromised * nodes.Keys <= revoked && AllReach(nodes, compromised, revoked)
      invariant !changed ==> Swept(nodes, order, revoked)
      decreases nodes.Keys - revoked, changed
    {
      changed := false;
      ghost var start := revoked;
      for i := 0 to |order|
        invariant start <= revoked && AllReach(nodes, compromised, revoked)
        invariant changed <==> revoked != start
        invariant !changed ==> Swept(nodes, order[..i], revoked)
      {
        var id := order[i];
        assert id in order;
        if id !in revoked && nodes[id].dependsOn * revoked != {} {
          var via :| via in nodes[id].dependsOn * revoked;
          ReachesStep(nodes, compromised, id, via);
          revoked := revoked + {id};
          changed := true;
        }
      }
      assert order[..|order|] == order;
    }
  }

  function AfterRevocation(node: Node, revoked: set<Id>, compromised: set<Id>): Node {
    if node.id in revoked then Suspend(node, compromised) else node
  }

  /** The last loop: every revoked node loses its authority, the others are handed back. */
  method UpdateNodes(nodes: Nodes, order: seq<Id>, revoked: set<Id>, compromised: set<Id>)
      returns (updated: Nodes, suspended: set<Id>)
    requires Ordered(nodes, order) && revoked <= nodes.Keys
    requires forall id :: id in nodes ==> nodes[id].id == id
    ensures suspended == revoked && updated == map id | id in nodes :: AfterRevocation(nodes[id], revoked, compromised)
  {
    updated, suspended := map[], {};
    for i := 0 to |order|
      invariant updated.Keys == (set id | id in order[..i]) && suspended == updated.Keys * revoked
      invariant forall id :: id in updated ==>
        id in nodes && updated[id] == AfterRevocation(nodes[id], revoked, compromised)
    {
      var id := order[i];
      assert id in order;
      if id in revoked { suspended := suspended + {id}; }
      updated := updated[id := AfterRevocation(nodes[id], revoked, compromised)];
    }
    assert order[..|order|] == order;
    assert updated.Keys == nodes.Keys;
  }

  lemma {:induction false} IndexKeepsIds(graph: seq<Node>)
    ensures forall id :: id in Index(graph) ==> Index(graph)[id].id == id
    decreases graph
  {
    if graph != [] { IndexKeepsIds(graph[..|graph| - 1]); }
  }

  /** Exactly the nodes with a path to a compromised node lose their authority; the rest is
      handed back untouched. */
  method RevokeTransitiveAuthority(graph: seq<Node>, compromised: set<Id>) returns (result: Revoked)
    ensures forall id :: id in result.revoked <==> id in Index(graph) && Reaches(Index(graph), compromised, id)
    ensures result.suspended == result.revoked
    ensures result.updated.Keys == Index(graph).Keys
    ensures forall id :: id in Index(graph) ==>
      result.updated[id] == Node(id, Index(graph)[id].dependsOn, Index(graph)[id].authority && id !in result.revoked,
        Index(graph)[id].compromised || id in compromised)
  {
    IndexKeepsIds(graph);
    var nodes, order := BuildIndex(graph);
    var revoked := Sweep(nodes, order, compromised);
    forall id | id in nodes && Reaches(nodes, compromised, id) ensures id in revoked {
      var p :| Path(nodes, compromised, p) && p[0] == id;
      ClosedHoldsPaths(nodes, compromised, revoked, p);
    }
    var updated, suspended := UpdateNodes(nodes, order, revoked, compromised);
    forall id | id in nodes && id in compromised ensures id in revoked { ReachesHere(nodes, compromised, id); }
    return Revoked(revoked, suspended, updated);
  }

  // ---------------------------------------------------------------- what the answer means

  /** The answer as a specification: the method's contract determines it completely. */
  ghost function RevokedSet(nodes: Nodes, compromised: set<Id>): (s: set<Id>)
    ensures forall id :: id in s <==> id in nodes && Reaches(nodes, compromised, id)
  {
    set id | id in nodes && Reaches(nodes, compromised, id)
  }

  ghost function UpdatedNodes(nodes: Nodes, compromised: set<Id>): (u: Nodes)
    ensures u.Keys == nodes.Keys
  {
    map id | id in nodes :: if id in RevokedSet(nodes, compromised) then Suspend(nodes[id], compromised) else nodes[id]
  }

  /** It is the smallest closed set that holds the compromised nodes of the graph. */
  lemma RevokedIsLeast(nodes: Nodes, compromised: set<Id>, s: set<Id>)
    ensures Closed(nodes, RevokedSet(nodes, compromised)) && compromised * nodes.Keys <= RevokedSet(nodes, compromised)
    ensures Closed(nodes, s) && compromised * nodes.Keys <= s ==> RevokedSet(nodes, compromised) <= s
  {
    forall id | id in nodes && nodes[id].dependsOn * RevokedSet(nodes, compromised) != {}
      ensures Reaches(nodes, compromised, id)
    {
      var via :| via in nodes[id].dependsOn * RevokedSet(nodes, compromised);
      ReachesStep(nodes, compromised, id, via);
    }
    forall id | id in compromised * nodes.Keys ensures Reaches(nodes, compromised, id) {
      ReachesHere(nodes, compromised, id);
    }
    if Closed(nodes, s) && compromised * nodes.Keys <= s {
      forall id | id in RevokedSet(nodes, compromised) ensures id in s {
        var p :| Path(nodes, compromised, p) && p[0] == id;
        ClosedHoldsPaths(nodes, compromised, s, p);
      }
    }
  }

  /** Compromising two sets of nodes revokes what each of them revokes. */
  lemma RevokedDistributes(nodes: Nodes, a: set<Id>, b: set<Id>)
    ensures RevokedSet(nodes, a + b) == RevokedSet(nodes, a) + RevokedSet(nodes, b)
  {
    forall id | id in RevokedSet(nodes, a + b) ensures id in RevokedSet(nodes, a) + RevokedSet(nodes, b) {
      var p :| Path(nodes, a + b, p) && p[0] == id;
      assert Path(nodes, a, p) || Path(nodes, b, p);
    }
    forall id | id in RevokedSet(nodes, a) + RevokedSet(nodes, b) ensures id in RevokedSet(nodes, a + b) {
      if id in RevokedSet(nodes, a) {
        var p :| Path(nodes, a, p) && p[0] == id;
        assert Path(nodes, a + b, p);
      } else {
        var p :| Path(nodes, b, p) && p[0] == id;
        assert Path(nodes, a + b, p);
      }
    }
  }

  /** No node that keeps its authority depends, however indirectly, on a compromised one. */
  lemma AuthorityIsClean(nodes: Nodes, compromised: set<Id>, p: seq<Id>)
    ensures Path(nodes, compromised, p) ==> !UpdatedNodes(nodes, compromised)[p[0]].authority
  {
    if Path(nodes, compromised, p) {
      assert p[0] in RevokedSet(nodes, compromised);
    }
  }

  /** A revoked node loses its authority and nothing else; the mark goes to the compromised. */
  lemma OnlyAuthorityIsLost(nodes: Nodes, compromised: set<Id>, id: Id)
    requires id in nodes && nodes[id].id == id
    ensures UpdatedNodes(nodes, compromised)[id] == Node(id, nodes[id].dependsOn,
      nodes[id].authority && !Reaches(nodes, compromised, id), nodes[id].compromised || id in compromised)
  {
    if id in compromised { ReachesHere(nodes, compromised, id); }
  }

  /** Running the sweep again on its own result changes nothing. */
  lemma RevokeIdempotent(nodes: Nodes, compromised: set<Id>)
    requires forall id :: id in nodes ==> nodes[id].id == id
    ensures var u := UpdatedNodes(nodes, compromised);
      RevokedSet(u, compromised) == RevokedSet(nodes, compromised) && UpdatedNodes(u, compromised) == u
  {
    var u := UpdatedNodes(nodes, compromised);
    forall id | id in nodes ensures Reaches(u, compromised, id) <==> Reaches(nodes, compromised, id) {
      if Reaches(nodes, compromised, id) {
        var p :| Path(nodes, compromised, p) && p[0] == id;
        assert Path(u, compromised, p);
      }
      if Reaches(u, compromised, id) {
        var p :| Path(u, compromised, p) && p[0] == id;
        assert Path(nodes, compromised, p);
      }
    }
  }

  ghost predicate UniqueIds(graph: seq<Node>) {
    forall i, j :: 0 <= i < j < |graph| ==> graph[i].id != graph[j].id
  }

  lemma {:induction false} IndexOfUnique(graph: seq<Node>)
    requires UniqueIds(graph)
    ensures forall id :: id in Index(graph) ==> Index(graph)[id] in graph && Index(graph)[id].id == id
    ensures forall n :: n in graph ==> n.id in Index(graph) && Index(graph)[n.id] == n
  {
    if graph != [] { IndexOfUnique(graph[..|graph| - 1]); }
  }

  lemma OnceEach(graph: seq<Node>, i: nat, j: nat)
    requires i < j < |graph| && graph[i] == graph[j]
    ensures multiset(graph)[graph[i]] >= 2
  {
    assert graph == graph[..j] + graph[j..];
    assert graph[i] in graph[..j] && graph[j] in graph[j..];
  }

  lemma {:induction false} UniqueCountsOnce(graph: seq<Node>, n: Node)
    requires UniqueIds(graph)
    ensures multiset(graph)[n] <= 1
  {
    if graph != [] {
      var last := |graph| - 1;
      UniqueCountsOnce(graph[..last], n);
      assert graph == graph[..last] + [graph[last]];
      assert graph[last] !in graph[..last];
    }
  }

  /** With unique ids the order of the list does not matter: both lists index the same graph,
      and the method's answer depends on nothing else. */
  lemma OrderIsIrrelevant(graph: seq<Node>, other: seq<Node>)
    requires UniqueIds(graph) && multiset(graph) == multiset(other)
    ensures UniqueIds(other) && Index(graph) == Index(other)
  {
    IndexOfUnique(graph);
    forall n ensures n in graph <==> n in other {
      assert n in graph <==> n in multiset(graph);
      assert n in other <==> n in multiset(other);
    }
    forall i, j | 0 <= i < j < |other| ensures other[i].id != other[j].id {
      UniqueCountsOnce(graph, other[i]);
      assert other[i] in graph && other[j] in graph;
      if other[i] == other[j] { OnceEach(other, i, j); }
    }
    IndexOfUnique(other);
  }
}
