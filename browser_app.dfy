/** The browser page (app.js): the empty-term guard of onSearch, and the node
    and link arrays renderGraph hands to the force layout, with the nodes
    deduplicated by id through a JavaScript Map. */
module BrowserApp {
  import opened Text
  import opened Bindings
  import SparqlClient

  // ---------------------------------------------------------------------------
  // Search box
  // ---------------------------------------------------------------------------

  /** The search result list under the input box. Its markup is kept as the
      hits it lists. */
  class SearchPanel {
    var shown: seq<SearchHit>

    constructor ()
      ensures shown == []
    {
      shown := [];
    }

    /** onSearch: an input that is empty once trimmed clears the list and
        stops; otherwise the list shows the hits of the search, and a failed
        search (only logged) leaves the list as it was. */
    method OnSearch(endpoint: Endpoint, term: string)
      modifies this
      ensures AllJsWhitespace(term) ==> shown == []
      ensures !AllJsWhitespace(term) && SparqlClient.SearchEntities(endpoint, term).Success? ==>
        shown == SparqlClient.SearchEntities(endpoint, term).value
      ensures !AllJsWhitespace(term) && SparqlClient.SearchEntities(endpoint, term).Failure? ==>
        shown == old(shown)
    {
      if Trim(term) == [] {
        shown := [];
        return;
      }
      var hits := SparqlClient.SearchEntities(endpoint, term);
      if hits.Success? {
        shown := hits.value;
      }
    }
  }

  // ---------------------------------------------------------------------------
  // Graph data
  // ---------------------------------------------------------------------------

  /** A node object {id, label, central}. An id or label is undefined (None)
      when the relation's variable was unbound. */
  datatype GraphNode = GraphNode(id: Option<string>, caption: Option<string>, central: bool)

  /** A link object {source, target, label}. */
  datatype GraphLink = GraphLink(source: Option<string>, target: Option<string>, caption: Option<string>)

  /** The entity itself: its IRI, its label or else the IRI, marked central. */
  function CenterNode(uri: string, data: EntityView): GraphNode {
    GraphNode(Some(uri), Some(OrElse(Some(data.labelText), uri)), true)
  }

  function ObjectNode(r: OutRel): GraphNode {
    GraphNode(r.objectIri, r.objectLabel, false)
  }

  function SubjectNode(r: InRel): GraphNode {
    GraphNode(r.subjectIri, r.subjectLabel, false)
  }

  function OutLink(uri: string, r: OutRel): GraphLink {
    GraphLink(Some(uri), r.objectIri, r.predicateLabel)
  }

  function InLink(uri: string, r: InRel): GraphLink {
    GraphLink(r.subjectIri, Some(uri), r.predicateLabel)
  }

  /** The nodes and links pushed for a prefix of the relations, in order. */
  function OutNodes(rels: seq<OutRel>): (ns: seq<GraphNode>)
    ensures |ns| == |rels| && forall i :: 0 <= i < |rels| ==> ns[i] == ObjectNode(rels[i])
    decreases |rels|
  {
    if rels == [] then [] else OutNodes(rels[..|rels| - 1]) + [ObjectNode(rels[|rels| - 1])]
  }

  function InNodes(rels: seq<InRel>): (ns: seq<GraphNode>)
    ensures |ns| == |rels| && forall i :: 0 <= i < |rels| ==> ns[i] == SubjectNode(rels[i])
    decreases |rels|
  {
    if rels == [] then [] else InNodes(rels[..|rels| - 1]) + [SubjectNode(rels[|rels| - 1])]
  }

  function OutLinks(uri: string, rels: seq<OutRel>): (ls: seq<GraphLink>)
    ensures |ls| == |rels| && forall i :: 0 <= i < |rels| ==> ls[i] == OutLink(uri, rels[i])
    decreases |rels|
  {
    if rels == [] then [] else OutLinks(uri, rels[..|rels| - 1]) + [OutLink(uri, rels[|rels| - 1])]
  }

  function InLinks(uri: string, rels: seq<InRel>): (ls: seq<GraphLink>)
    ensures |ls| == |rels| && forall i :: 0 <= i < |rels| ==> ls[i] == InLink(uri, rels[i])
    decreases |rels|
  {
    if rels == [] then [] else InLinks(uri, rels[..|rels| - 1]) + [InLink(uri, rels[|rels| - 1])]
  }

  /** The `nodes` array before deduplication: the center, then one node per
      outgoing relation (its object), then one per incoming relation (its
      subject). */
  function PushedNodes(uri: string, data: EntityView): (nodes: seq<GraphNode>)
    ensures |nodes| == 1 + |data.outgoing| + |data.incoming|
    ensures nodes[0] == CenterNode(uri, data)
    ensures forall k :: 1 <= k < |nodes| ==> !nodes[k].central
  {
    [CenterNode(uri, data)] + OutNodes(data.outgoing) + InNodes(data.incoming)
  }

  /** Which node each relation pushes: after the entity, the object of each
      outgoing relation with the object's label, then the subject of each
      incoming relation with the subject's label, in relation order. */
  lemma PushedNodesLayout(uri: string, data: EntityView)
    ensures forall k :: 1 <= k <= |data.outgoing| ==>
      PushedNodes(uri, data)[k] == ObjectNode(data.outgoing[k - 1])
    ensures forall k :: 1 + |data.outgoing| <= k < |PushedNodes(uri, data)| ==>
      PushedNodes(uri, data)[k] == SubjectNode(data.incoming[k - 1 - |data.outgoing|])
  {
    var a, b := OutNodes(data.outgoing), InNodes(data.incoming);
    var nodes := PushedNodes(uri, data);
    assert nodes == [CenterNode(uri, data)] + a + b;
    forall k | 1 <= k <= |a|
      ensures nodes[k] == a[k - 1]
    {
    }
    forall k | 1 + |a| <= k < |nodes|
      ensures nodes[k] == b[k - 1 - |a|]
    {
    }
  }

  /** The `links` array: exactly one link per relation, the outgoing ones
      first, each from the entity to the object, then the incoming ones, each
      from the subject to the entity, every link labelled with its
      predicate's label. */
  function GraphLinks(uri: string, data: EntityView): (links: seq<GraphLink>)
    ensures |links| == |data.outgoing| + |data.incoming|
    ensures forall i :: 0 <= i < |data.outgoing| ==>
      links[i].source == Some(uri) && links[i].target == data.outgoing[i].objectIri
      && links[i].caption == data.outgoing[i].predicateLabel
    ensures forall k :: |data.outgoing| <= k < |links| ==>
      links[k].source == data.incoming[k - |data.outgoing|].subjectIri && links[k].target == Some(uri)
      && links[k].caption == data.incoming[k - |data.outgoing|].predicateLabel
  {
    OutLinks(uri, data.outgoing) + InLinks(uri, data.incoming)
  }

  // ---------------------------------------------------------------------------
  // Map semantics
  // ---------------------------------------------------------------------------

  function Ids(nodes: seq<GraphNode>): (ids: seq<Option<string>>)
    ensures |ids| == |nodes| && forall i :: 0 <= i < |nodes| ==> ids[i] == nodes[i].id
  {
    seq(|nodes|, i requires 0 <= i < |nodes| => nodes[i].id)
  }

  /** The keys of a Map after set(id, ...) for each id in turn: every id
      once, in the order of its first insertion. */
  function FirstOccurrences(ids: seq<Option<string>>): (keys: seq<Option<string>>)
    ensures forall i, j :: 0 <= i < j < |keys| ==> keys[i] != keys[j]
    ensures forall x :: x in keys <==> x in ids
    ensures ids != [] ==> keys != [] && keys[0] == ids[0]
    decreases |ids|
  {
    if ids == [] then []
    else
      var front := ids[..|ids| - 1];
      var x := ids[|ids| - 1];
      assert forall y :: y in ids <==> y in front || y == x by {
        assert ids == front + [x];
      }
      var keys := FirstOccurrences(front);
      if x in keys then keys else keys + [x]
  }

  /** The entries of that Map: each id bound to the node set last under it. */
  function MapAfter(nodes: seq<GraphNode>): (m: map<Option<string>, GraphNode>)
    ensures forall x :: x in m <==> x in Ids(nodes)
    ensures forall x :: x in m ==> m[x].id == x
    decreases |nodes|
  {
    if nodes == [] then map[]
    else
      var front := nodes[..|nodes| - 1];
      var last := nodes[|nodes| - 1];
      assert Ids(nodes) == Ids(front) + [last.id];
      MapAfter(front)[last.id := last]
  }

  /** Array.from(uniq.values()) once every node has been set. */
  function Unique(nodes: seq<GraphNode>): (uniq: seq<GraphNode>)
    ensures |uniq| == |FirstOccurrences(Ids(nodes))|
    ensures forall i :: 0 <= i < |uniq| ==> uniq[i] == MapAfter(nodes)[FirstOccurrences(Ids(nodes))[i]]
  {
    var keys := FirstOccurrences(Ids(nodes));
    seq(|keys|, i requires 0 <= i < |keys| => MapAfter(nodes)[keys[i]])
  }

  /** A JavaScript Map from node ids to nodes: its keys in insertion order
      and its entries. */
  class NodeMap {
    var keys: seq<Option<string>>
    var entries: map<Option<string>, GraphNode>

    constructor ()
      ensures keys == [] && entries == map[]
    {
      keys := [];
      entries := map[];
    }

    /** Map.prototype.set: a new key goes to the end of the insertion order;
        a key already present keeps its place and takes the new value. */
    method Set(k: Option<string>, v: GraphNode)
      modifies this
      ensures keys == if k in old(keys) then old(keys) else old(keys) + [k]
      ensures entries == old(entries)[k := v]
    {
      if k !in keys {
        keys := keys + [k];
      }
      entries := entries[k := v];
    }

    /** The values, in the insertion order of their keys. */
    function Values(): (vs: seq<GraphNode>)
      reads this
      requires forall k :: k in keys ==> k in entries
      ensures |vs| == |keys| && forall i :: 0 <= i < |keys| ==> vs[i] == entries[keys[i]]
    {
      var ks, es := keys, entries;
      seq(|ks|, i requires 0 <= i < |ks| => es[ks[i]])
    }
  }

  /** One more node set into the Map moves its state from that of the prefix
      to that of the longer prefix. */
  lemma FillStep(nodes: seq<GraphNode>, i: nat)
    requires i < |nodes|
    ensures FirstOccurrences(Ids(nodes[..i + 1]))
            == if nodes[i].id in FirstOccurrences(Ids(nodes[..i])) then FirstOccurrences(Ids(nodes[..i]))
               else FirstOccurrences(Ids(nodes[..i])) + [nodes[i].id]
    ensures MapAfter(nodes[..i + 1]) == MapAfter(nodes[..i])[nodes[i].id := nodes[i]]
  {
    assert nodes[..i + 1][..i] == nodes[..i];
    assert Ids(nodes[..i + 1])[..i] == Ids(nodes[..i]);
  }

  /** renderGraph up to the force layout: the deduplicated nodes and the
      links. */
  method RenderGraph(uri: string, data: EntityView) returns (uniqueNodes: seq<GraphNode>, links: seq<GraphLink>)
    ensures uniqueNodes == Unique(PushedNodes(uri, data))
    ensures links == GraphLinks(uri, data)
  {
    var nodes;
    nodes, links := PushNodesAndLinks(uri, data);
    uniqueNodes := UniqueById(nodes);
  }

  /** The two forEach loops: a node and a link pushed per relation. */
  method PushNodesAndLinks(uri: string, data: EntityView) returns (nodes: seq<GraphNode>, links: seq<GraphLink>)
    ensures nodes == PushedNodes(uri, data)
    ensures links == GraphLinks(uri, data)
  {
    nodes, links := PushOutgoing(uri, data.outgoing, [CenterNode(uri, data)], []);
    assert links == OutLinks(uri, data.outgoing);
    nodes, links := PushIncoming(uri, data.incoming, nodes, links);
  }

  /** outgoing.forEach: the object's node and a link to it. */
  method PushOutgoing(uri: string, rels: seq<OutRel>, nodes0: seq<GraphNode>, links0: seq<GraphLink>)
    returns (nodes: seq<GraphNode>, links: seq<GraphLink>)
    ensures nodes == nodes0 + OutNodes(rels)
    ensures links == links0 + OutLinks(uri, rels)
  {
    nodes, links := nodes0, links0;
    for i := 0 to |rels|
      invariant nodes == nodes0 + OutNodes(rels[..i])
      invariant links == links0 + OutLinks(uri, rels[..i])
    {
      OutStep(uri, rels, i);
      nodes := nodes + [ObjectNode(rels[i])];
      links := links + [OutLink(uri, rels[i])];
    }
    assert rels[..|rels|] == rels;
  }

  /** incoming.forEach: the subject's node and a link from it. */
  method PushIncoming(uri: string, rels: seq<InRel>, nodes0: seq<GraphNode>, links0: seq<GraphLink>)
    returns (nodes: seq<GraphNode>, links: seq<GraphLink>)
    ensures nodes == nodes0 + InNodes(rels)
    ensures links == links0 + InLinks(uri, rels)
  {
    nodes, links := nodes0, links0;
    for j := 0 to |rels|
      invariant nodes == nodes0 + InNodes(rels[..j])
      invariant links == links0 + InLinks(uri, rels[..j])
    {
      InStep(uri, rels, j);
      nodes := nodes + [SubjectNode(rels[j])];
      links := links + [InLink(uri, rels[j])];
    }
    assert rels[..|rels|] == rels;
  }

  lemma OutStep(uri: string, rels: seq<OutRel>, i: nat)
    requires i < |rels|
    ensures OutNodes(rels[..i + 1]) == OutNodes(rels[..i]) + [ObjectNode(rels[i])]
    ensures OutLinks(uri, rels[..i + 1]) == OutLinks(uri, rels[..i]) + [OutLink(uri, rels[i])]
  {
    assert rels[..i + 1][..i] == rels[..i];
  }

  lemma InStep(uri: string, rels: seq<InRel>, j: nat)
    requires j < |rels|
    ensures InNodes(rels[..j + 1]) == InNodes(rels[..j]) + [SubjectNode(rels[j])]
    ensures InLinks(uri, rels[..j + 1]) == InLinks(uri, rels[..j]) + [InLink(uri, rels[j])]
  {
    assert rels[..j + 1][..j] == rels[..j];
  }

  /** new Map, set(n.id, n) for every node in turn, then its values. */
  method UniqueById(nodes: seq<GraphNode>) returns (uniqueNodes: seq<GraphNode>)
    ensures uniqueNodes == Unique(nodes)
  {
    var uniq := new NodeMap();
    for k := 0 to |nodes|
      invariant uniq.keys == FirstOccurrences(Ids(nodes[..k]))
      invariant uniq.entries == MapAfter(nodes[..k])
    {
      FillStep(nodes, k);
      uniq.Set(nodes[k].id, nodes[k]);
    }
    assert nodes[..|nodes|] == nodes;
    uniqueNodes := uniq.Values();
  }

  // ---------------------------------------------------------------------------
  // What the graph data promises
  // ---------------------------------------------------------------------------

  /** The node set under an id is the last node pushed with that id. */
  lemma {:induction false} LastWins(nodes: seq<GraphNode>, k: nat)
    requires k < |nodes|
    requires forall j :: k < j < |nodes| ==> nodes[j].id != nodes[k].id
    ensures nodes[k].id in MapAfter(nodes) && MapAfter(nodes)[nodes[k].id] == nodes[k]
    decreases |nodes|
  {
    var n := |nodes| - 1;
    if k < n {
      var front := nodes[..n];
      LastWins(front, k);
    }
  }

  /** Whatever an id is bound to was pushed no earlier than any node with
      that id. */
  lemma {:induction false} BoundNoEarlier(nodes: seq<GraphNode>, i: nat)
    requires i < |nodes|
    ensures exists j :: i <= j < |nodes| && MapAfter(nodes)[nodes[i].id] == nodes[j]
    decreases |nodes|
  {
    var n := |nodes| - 1;
    if nodes[n].id == nodes[i].id {
      assert MapAfter(nodes)[nodes[i].id] == nodes[n];
    } else {
      var front := nodes[..n];
      BoundNoEarlier(front, i);
      var j :| i <= j < n && MapAfter(front)[front[i].id] == front[j];
      assert MapAfter(nodes)[nodes[i].id] == nodes[j];
    }
  }

  /** The ids of the deduplicated nodes are the Map's keys. */
  lemma UniqueIds(nodes: seq<GraphNode>)
    ensures Ids(Unique(nodes)) == FirstOccurrences(Ids(nodes))
  {
    var keys := FirstOccurrences(Ids(nodes));
    var m := MapAfter(nodes);
    var u := Unique(nodes);
    forall i | 0 <= i < |u|
      ensures u[i].id == keys[i]
    {
      assert keys[i] in Ids(nodes);
    }
  }

  /** The objects of the outgoing relations and the subjects of the
      incoming ones, in order. */
  function Objects(rels: seq<OutRel>): (xs: seq<Option<string>>)
    ensures |xs| == |rels| && forall i :: 0 <= i < |rels| ==> xs[i] == rels[i].objectIri
  {
    seq(|rels|, i requires 0 <= i < |rels| => rels[i].objectIri)
  }

  function Subjects(rels: seq<InRel>): (xs: seq<Option<string>>)
    ensures |xs| == |rels| && forall i :: 0 <= i < |rels| ==> xs[i] == rels[i].subjectIri
  {
    seq(|rels|, i requires 0 <= i < |rels| => rels[i].subjectIri)
  }

  /** The ids pushed, in order: the entity IRI, the objects, the subjects. */
  lemma PushedIds(uri: string, data: EntityView)
    ensures Ids(PushedNodes(uri, data)) == [Some(uri)] + Objects(data.outgoing) + Subjects(data.incoming)
  {
    var a, b := OutNodes(data.outgoing), InNodes(data.incoming);
    IdsAppend([CenterNode(uri, data)], a);
    IdsAppend([CenterNode(uri, data)] + a, b);
    assert Ids(a) == Objects(data.outgoing);
    assert Ids(b) == Subjects(data.incoming);
  }

  lemma IdsAppend(a: seq<GraphNode>, b: seq<GraphNode>)
    ensures Ids(a + b) == Ids(a) + Ids(b)
  {
  }

  /** The deduplicated nodes have pairwise distinct ids, and their ids are
      exactly the entity IRI, the objects of the outgoing relations and the
      subjects of the incoming ones. */
  lemma UniqueNodeIds(uri: string, data: EntityView)
    ensures forall i, j :: 0 <= i < j < |Ids(Unique(PushedNodes(uri, data)))| ==>
      Ids(Unique(PushedNodes(uri, data)))[i] != Ids(Unique(PushedNodes(uri, data)))[j]
    ensures forall x :: x in Ids(Unique(PushedNodes(uri, data))) <==>
      x == Some(uri) || x in Objects(data.outgoing) || x in Subjects(data.incoming)
  {
    UniqueIds(PushedNodes(uri, data));
    PushedIds(uri, data);
  }

  /** Every link starts and ends at the id of some deduplicated node. */
  lemma LinkEndsAreNodes(uri: string, data: EntityView, l: GraphLink)
    requires l in GraphLinks(uri, data)
    ensures l.source in Ids(Unique(PushedNodes(uri, data)))
    ensures l.target in Ids(Unique(PushedNodes(uri, data)))
  {
    var links := GraphLinks(uri, data);
    var k :| 0 <= k < |links| && links[k] == l;
    UniqueNodeIds(uri, data);
    if k < |data.outgoing| {
      assert Objects(data.outgoing)[k] == l.target;
    } else {
      assert Subjects(data.incoming)[k - |data.outgoing|] == l.source;
    }
  }

  /** Of nodes whose first alone is central, the first deduplicated node
      keeps the first id, and stays central exactly when no later node
      repeats that id. */
  lemma FirstNodeFate(nodes: seq<GraphNode>)
    requires nodes != [] && nodes[0].central
    requires forall k :: 1 <= k < |nodes| ==> !nodes[k].central
    ensures Unique(nodes) != [] && Unique(nodes)[0].id == nodes[0].id
    ensures Unique(nodes)[0].central <==> nodes[0].id !in Ids(nodes)[1..]
  {
    var ids := Ids(nodes);
    var keys := FirstOccurrences(ids);
    assert keys[0] == nodes[0].id;
    if nodes[0].id in ids[1..] {
      var k :| 1 <= k < |nodes| && ids[k] == nodes[0].id;
      BoundNoEarlier(nodes, k);
    } else {
      forall k | 0 < k < |nodes|
        ensures nodes[k].id != nodes[0].id
      {
        assert ids[1..][k - 1] == nodes[k].id;
      }
      LastWins(nodes, 0);
    }
  }

  /** The entity keeps the first place, but a relation whose object or
      subject is the entity itself overwrites its node: the first node is
      central exactly when no relation points back at the entity. */
  lemma CenterNodeFate(uri: string, data: EntityView)
    ensures Unique(PushedNodes(uri, data)) != []
    ensures Unique(PushedNodes(uri, data))[0].id == Some(uri)
    ensures Unique(PushedNodes(uri, data))[0].central <==>
      Some(uri) !in Objects(data.outgoing) && Some(uri) !in Subjects(data.incoming)
  {
    var nodes := PushedNodes(uri, data);
    FirstNodeFate(nodes);
    PushedTail(uri, data);
    var os, ss := Objects(data.outgoing), Subjects(data.incoming);
    assert Some(uri) in os + ss <==> Some(uri) in os || Some(uri) in ss;
  }

  lemma PushedTail(uri: string, data: EntityView)
    ensures PushedNodes(uri, data) != [] && PushedNodes(uri, data)[0].id == Some(uri)
    ensures Ids(PushedNodes(uri, data))[1..] == Objects(data.outgoing) + Subjects(data.incoming)
  {
    PushedIds(uri, data);
    var ids := Ids(PushedNodes(uri, data));
    assert ids == [Some(uri)] + (Objects(data.outgoing) + Subjects(data.incoming));
  }
}
