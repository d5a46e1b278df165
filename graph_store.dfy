/** The graph the grapher writes into, reduced to what `tx.merge` does to it.

    A node is identified by its primary label and the value of its primary key;
    merging it upserts that entry and replaces its properties. Merging a
    relationship upserts both end nodes and then the edge, which is identified
    by (source node, relationship type, target node). Nothing is ever removed. */
module GraphStore {

  /** Node or relationship properties; a property set to None is left out. */
  type Props = map<string, string>

  /** The identity of a node: (primary label, primary-key value); `kind` is the label. */
  datatype NodeKey = NodeKey(kind: string, key: string)

  /** A node as the script builds it: primary label (`kind`), primary-key value, properties. */
  datatype Node = Node(kind: string, key: string, props: Props) {
    function Id(): NodeKey { NodeKey(kind, key) }
  }

  /** The identity of a relationship. */
  datatype EdgeKey = EdgeKey(src: NodeKey, rel: string, dst: NodeKey)

  /** One `tx.merge` call: of a node, or of a relationship between two nodes. */
  datatype Op =
    | MergeNode(node: Node)
    | MergeRel(src: Node, rel: string, dst: Node, props: Props)
  {
    /** The nodes this merge upserts. */
    function Touched(): set<NodeKey>
    {
      match this
      case MergeNode(n) => {n.Id()}
      case MergeRel(a, _, b, _) => {a.Id(), b.Id()}
    }
  }

  /** The graph's contents. */
  datatype Store = Store(nodes: map<NodeKey, Props>, edges: map<EdgeKey, Props>)

  const Empty := Store(map[], map[])

  function Upsert(s: Store, n: Node): Store
  {
    s.(nodes := s.nodes[n.Id() := n.props])
  }

  /** The effect of one merge. */
  function Apply(s: Store, op: Op): Store
  {
    match op
    case MergeNode(n) => Upsert(s, n)
    case MergeRel(a, rel, b, p) =>
      var t := Upsert(Upsert(s, a), b);
      t.(edges := t.edges[EdgeKey(a.Id(), rel, b.Id()) := p])
  }

  /** The effect of merges in order. */
  function ApplyAll(s: Store, ops: seq<Op>): Store
    decreases |ops|
  {
    if ops == [] then s else Apply(ApplyAll(s, ops[..|ops| - 1]), ops[|ops| - 1])
  }

  /** The node identities a sequence of merges writes. */
  function NodeWrites(ops: seq<Op>): set<NodeKey>
  {
    set op, k | op in ops && k in op.Touched() :: k
  }

  /** The edge identities a sequence of merges writes. */
  function EdgeWrites(ops: seq<Op>): set<EdgeKey>
  {
    set op | op in ops && op.MergeRel? :: EdgeKey(op.src.Id(), op.rel, op.dst.Id())
  }

  /** The nodes the given edges connect. */
  function Endpoints(es: set<EdgeKey>): set<NodeKey>
  {
    (set e | e in es :: e.src) + (set e | e in es :: e.dst)
  }

  /** Every node the merges write is an end of an edge they write: none of
      them leaves a node without a relationship of its own. */
  predicate Anchored(ops: seq<Op>)
  {
    NodeWrites(ops) == Endpoints(EdgeWrites(ops))
  }

  /** Merging `a` then `b` is merging `a + b`. */
  lemma {:induction false} ApplyAllConcat(s: Store, a: seq<Op>, b: seq<Op>)
    ensures ApplyAll(s, a + b) == ApplyAll(ApplyAll(s, a), b)
    decreases |b|
  {
    if b == [] {
      assert a + b == a;
    } else {
      var n := |b| - 1;
      assert (a + b)[..|a + b| - 1] == a + b[..n];
      ApplyAllConcat(s, a, b[..n]);
    }
  }

  /** Merging only adds: the identities present afterwards are those present
      before plus those written. */
  lemma {:induction false} ApplyAllWrites(s: Store, ops: seq<Op>)
    ensures ApplyAll(s, ops).nodes.Keys == s.nodes.Keys + NodeWrites(ops)
    ensures ApplyAll(s, ops).edges.Keys == s.edges.Keys + EdgeWrites(ops)
    decreases |ops|
  {
    if ops != [] {
      var n := |ops| - 1;
      ApplyAllWrites(s, ops[..n]);
      WritesSnoc(ops);
      ApplyWrites(ApplyAll(s, ops[..n]), ops[n]);
    }
  }

  /** One merge adds exactly the identities it writes. */
  lemma ApplyWrites(s: Store, op: Op)
    ensures Apply(s, op).nodes.Keys == s.nodes.Keys + op.Touched()
    ensures Apply(s, op).edges.Keys == s.edges.Keys + if op.MergeRel? then {EdgeKey(op.src.Id(), op.rel, op.dst.Id())} else {}
  {
  }

  /** The writes of a non-empty sequence: those before its last merge, plus that merge's. */
  lemma WritesSnoc(ops: seq<Op>)
    requires ops != []
    ensures NodeWrites(ops) == NodeWrites(ops[..|ops| - 1]) + ops[|ops| - 1].Touched()
    ensures EdgeWrites(ops) == EdgeWrites(ops[..|ops| - 1])
      + if ops[|ops| - 1].MergeRel? then {EdgeKey(ops[|ops| - 1].src.Id(), ops[|ops| - 1].rel, ops[|ops| - 1].dst.Id())} else {}
  {
    var n := |ops| - 1;
    assert ops == ops[..n] + [ops[n]];
    WritesConcat(ops[..n], [ops[n]]);
    WritesOne(ops[n]);
  }

  /** The writes of a concatenation are the writes of its parts. */
  lemma WritesConcat(a: seq<Op>, b: seq<Op>)
    ensures NodeWrites(a + b) == NodeWrites(a) + NodeWrites(b)
    ensures EdgeWrites(a + b) == EdgeWrites(a) + EdgeWrites(b)
  {
    assert forall op :: op in a + b <==> op in a || op in b;
  }

  /** The writes of a single merge. */
  lemma WritesOne(op: Op)
    ensures NodeWrites([op]) == op.Touched()
    ensures EdgeWrites([op]) == if op.MergeRel? then {EdgeKey(op.src.Id(), op.rel, op.dst.Id())} else {}
  {
    assert forall o :: o in [op] <==> o == op;
  }

  /** The ends of two edges. */
  lemma EndpointsPair(e1: EdgeKey, e2: EdgeKey)
    ensures Endpoints({e1, e2}) == {e1.src, e1.dst, e2.src, e2.dst}
  {
    assert (set e | e in {e1, e2} :: e.src) == {e1.src, e2.src};
    assert (set e | e in {e1, e2} :: e.dst) == {e1.dst, e2.dst};
  }

  /** Merging a node, another node and an edge between them is anchored. */
  lemma StepAnchored(a: Node, b: Node, rel: string, p: Props)
    ensures NodeWrites([MergeNode(a), MergeNode(b), MergeRel(a, rel, b, p)]) == {a.Id(), b.Id()}
    ensures EdgeWrites([MergeNode(a), MergeNode(b), MergeRel(a, rel, b, p)]) == {EdgeKey(a.Id(), rel, b.Id())}
    ensures Anchored([MergeNode(a), MergeNode(b), MergeRel(a, rel, b, p)])
  {
    var ops := [MergeNode(a), MergeNode(b), MergeRel(a, rel, b, p)];
    assert ops == [MergeNode(a)] + [MergeNode(b)] + [MergeRel(a, rel, b, p)];
    WritesOne(MergeNode(a));
    WritesOne(MergeNode(b));
    WritesOne(MergeRel(a, rel, b, p));
    WritesConcat([MergeNode(a)], [MergeNode(b)]);
    WritesConcat([MergeNode(a)] + [MergeNode(b)], [MergeRel(a, rel, b, p)]);
    var es := {EdgeKey(a.Id(), rel, b.Id())};
    assert (set e | e in es :: e.src) == {a.Id()};
    assert (set e | e in es :: e.dst) == {b.Id()};
  }

  /** A node, another node and an edge between them after anchored merges:
      the edge is added and the whole stays anchored. */
  lemma StepAfter(prev: seq<Op>, a: Node, b: Node, rel: string, p: Props)
    requires Anchored(prev)
    ensures EdgeWrites(prev + [MergeNode(a), MergeNode(b), MergeRel(a, rel, b, p)])
         == EdgeWrites(prev) + {EdgeKey(a.Id(), rel, b.Id())}
    ensures Anchored(prev + [MergeNode(a), MergeNode(b), MergeRel(a, rel, b, p)])
  {
    var step := [MergeNode(a), MergeNode(b), MergeRel(a, rel, b, p)];
    StepAnchored(a, b, rel, p);
    WritesConcat(prev, step);
    AnchoredConcat(prev, step);
  }

  /** One more merge after a sequence. */
  lemma ApplyAllSnoc(s: Store, ops: seq<Op>, op: Op)
    ensures ApplyAll(s, ops + [op]) == Apply(ApplyAll(s, ops), op)
  {
    assert (ops + [op])[..|ops|] == ops;
  }

  /** Three merges in a row. */
  lemma ApplyAllThree(s: Store, a: Op, b: Op, c: Op)
    ensures ApplyAll(s, [a, b, c]) == Apply(Apply(Apply(s, a), b), c)
  {
    assert [a][..0] == [];
    assert ApplyAll(s, [a]) == Apply(s, a);
    assert [a, b][..1] == [a];
    assert ApplyAll(s, [a, b]) == Apply(Apply(s, a), b);
    assert [a, b, c][..2] == [a, b];
  }

  /** Four merges in a row. */
  lemma ApplyAllFour(s: Store, a: Op, b: Op, c: Op, d: Op)
    ensures ApplyAll(s, [a, b, c, d]) == Apply(Apply(Apply(Apply(s, a), b), c), d)
  {
    assert [a, b, c, d][..3] == [a, b, c];
    ApplyAllThree(s, a, b, c);
  }

  /** Anchored merge sequences stay anchored when concatenated. */
  lemma AnchoredConcat(a: seq<Op>, b: seq<Op>)
    requires Anchored(a) && Anchored(b)
    ensures Anchored(a + b)
  {
    WritesConcat(a, b);
    var ea, eb := EdgeWrites(a), EdgeWrites(b);
    assert Endpoints(ea + eb) == Endpoints(ea) + Endpoints(eb);
  }

  lemma UpdateUnion<K, V>(m: map<K, V>, e: map<K, V>, k: K, v: V)
    ensures (m + e)[k := v] == m + e[k := v]
  {
  }

  /** One merge on an overlaid store is the overlay of that merge. */
  lemma ApplyOverlay(s: Store, e: Store, op: Op)
    ensures Apply(Store(s.nodes + e.nodes, s.edges + e.edges), op)
         == Store(s.nodes + Apply(e, op).nodes, s.edges + Apply(e, op).edges)
  {
    match op
    case MergeNode(n) =>
      UpdateUnion(s.nodes, e.nodes, n.Id(), n.props);
    case MergeRel(a, rel, b, p) =>
      UpdateUnion(s.nodes, e.nodes, a.Id(), a.props);
      UpdateUnion(s.nodes, e.nodes[a.Id() := a.props], b.Id(), b.props);
      UpdateUnion(s.edges, e.edges, EdgeKey(a.Id(), rel, b.Id()), p);
  }

  /** Merging overlays the store with what the merges alone produce. */
  lemma {:induction false} ApplyAllOverlay(s: Store, ops: seq<Op>)
    ensures ApplyAll(s, ops) == Store(s.nodes + ApplyAll(Empty, ops).nodes, s.edges + ApplyAll(Empty, ops).edges)
    decreases |ops|
  {
    if ops == [] {
      assert s.nodes + map[] == s.nodes;
      assert s.edges + map[] == s.edges;
    } else {
      var n := |ops| - 1;
      ApplyAllOverlay(s, ops[..n]);
      ApplyOverlay(s, ApplyAll(Empty, ops[..n]), ops[n]);
    }
  }

  /** Merge is idempotent: merging the same sequence again changes nothing. */
  lemma Idempotent(s: Store, ops: seq<Op>)
    ensures ApplyAll(ApplyAll(s, ops), ops) == ApplyAll(s, ops)
  {
    var e := ApplyAll(Empty, ops);
    ApplyAllOverlay(s, ops);
    ApplyAllOverlay(ApplyAll(s, ops), ops);
    assert ApplyAll(s, ops).nodes == s.nodes + e.nodes;
    assert (s.nodes + e.nodes) + e.nodes == s.nodes + e.nodes;
    assert (s.edges + e.edges) + e.edges == s.edges + e.edges;
  }

  /** The graph database the script writes through. */
  class Graph {
    var nodes: map<NodeKey, Props>
    var edges: map<EdgeKey, Props>

    /** The contents as a value. */
    function State(): Store
      reads this
    {
      Store(nodes, edges)
    }

    /** `graph.delete_all()`: every node and relationship is removed. */
    method DeleteAll()
      modifies this
      ensures State() == Empty
    {
      nodes, edges := map[], map[];
    }

    /** `tx.merge(...)` followed by a commit. */
    method Merge(op: Op)
      modifies this
      ensures State() == Apply(old(State()), op)
    {
      match op
      case MergeNode(n) =>
        nodes := nodes[n.Id() := n.props];
      case MergeRel(a, rel, b, p) =>
        nodes := nodes[a.Id() := a.props][b.Id() := b.props];
        edges := edges[EdgeKey(a.Id(), rel, b.Id()) := p];
    }
  }
}
