/** The plan graph shared by the builder and the planner: a dictionary from
    operator nodes to the ordered names of their consumers, keyed by node
    name and remembering the order in which keys were first inserted. */
module Graphs {
  import opened Common

  /** A node's `operation_type`: absent for a base-table source, "filter",
      "transform", or the aggregate's function name (such as "count"). */
  datatype OpKind = Source | FilterOp | TransformOp | AggregateOp(fn: string)

  /** The `Node` record of the builder (dataflow.py). */
  datatype Node = Node(
    name: string,
    kind: OpKind,
    basetables: Option<seq<string>>,
    policy: bool,
    pred: Option<string>,
    operationOn: Option<string>,
    groupby: Option<string>)

  /** The dictionary's keys in insertion order, the node record stored under
      each name, and each node's out-list. */
  datatype Graph = Graph(order: seq<string>, nodes: map<string, Node>, out: map<string, seq<string>>)

  const Empty: Graph := Graph([], map[], map[])

  predicate HasName(g: Graph, x: string) {
    x in g.out
  }

  /** The out-list stored under `x`; empty when there is none. */
  function Out(g: Graph, x: string): seq<string> {
    if x in g.out then g.out[x] else []
  }

  /** The dictionary invariant: both maps have the same keys, each record is
      stored under its own name, and `order` lists every key exactly once. */
  predicate Consistent(g: Graph) {
    g.nodes.Keys == g.out.Keys &&
    (forall x :: x in g.nodes ==> g.nodes[x].name == x) &&
    (forall x :: x in g.order ==> x in g.out) &&
    (forall x :: x in g.out ==> x in g.order) &&
    NoDup(g.order)
  }

  /** No name is listed twice: the last one is new, and so on down the list. */
  predicate NoDup(s: seq<string>)
    decreases |s|
  {
    |s| == 0 || (s[|s| - 1] !in s[..|s| - 1] && NoDup(s[..|s| - 1]))
  }

  /** Appending a new name keeps a list free of repeats. */
  lemma NoDupSnoc(s: seq<string>, x: string)
    requires NoDup(s) && x !in s
    ensures NoDup(s + [x])
  {
    assert (s + [x])[..|s|] == s;
  }

  /** A list free of repeats holds different names at different positions. */
  lemma {:induction false} NoDupIndex(s: seq<string>, i: nat, j: nat)
    requires NoDup(s) && i < j < |s|
    ensures s[i] != s[j]
    decreases |s|
  {
    var init := s[..|s| - 1];
    if j == |s| - 1 {
      assert s[i] == init[i];
    } else {
      NoDupIndex(init, i, j);
    }
  }

  /** Every consumer named in an out-list is itself a node of the graph. */
  predicate Closed(g: Graph) {
    forall x, k :: x in g.out && 0 <= k < |g.out[x]| ==> g.out[x][k] in g.out
  }

  /** The shape every graph of the prototype keeps. */
  predicate WellFormed(g: Graph) {
    Consistent(g) && Closed(g)
  }

  /** `graph[node] = out`: the key keeps its place when present and goes last otherwise. */
  function Put(g: Graph, node: Node, out: seq<string>): Graph {
    Graph(if node.name in g.out then g.order else g.order + [node.name],
          g.nodes[node.name := node], g.out[node.name := out])
  }

  /** In a list free of repeats, no name occurs before its own position. */
  lemma NoDupAt(s: seq<string>, i: nat)
    requires NoDup(s) && i < |s|
    ensures s[i] !in s[..i]
  {
    forall k | 0 <= k < i ensures s[..i][k] != s[i] {
      NoDupIndex(s, k, i);
    }
  }

  /** Overwriting or adding one entry keeps the dictionary consistent. */
  lemma PutConsistent(g: Graph, node: Node, out: seq<string>)
    requires Consistent(g)
    ensures Consistent(Put(g, node, out))
  {
    if node.name !in g.out {
      NoDupSnoc(g.order, node.name);
    }
  }

  /** Overwriting or adding one entry keeps the dictionary well formed, as long
      as the new out-list names nodes of the result. */
  lemma PutWellFormed(g: Graph, node: Node, out: seq<string>)
    requires WellFormed(g)
    requires forall k :: 0 <= k < |out| ==> out[k] in g.out || out[k] == node.name
    ensures WellFormed(Put(g, node, out))
  {
    PutConsistent(g, node, out);
  }

  /** Every entry whose name is in `ups` gets `consumer` appended to its out-list. */
  function AppendWhere(g: Graph, ups: set<string>, consumer: string): Graph {
    g.(out := map x | x in g.out :: if x in ups then g.out[x] + [consumer] else g.out[x])
  }

  lemma AppendWhereConsistent(g: Graph, ups: set<string>, consumer: string)
    ensures AppendWhere(g, ups, consumer).out.Keys == g.out.Keys
    ensures Consistent(g) ==> Consistent(AppendWhere(g, ups, consumer))
  {
  }

  /** Appending a consumer that is a node keeps the graph well formed. */
  lemma AppendWhereWellFormed(g: Graph, ups: set<string>, consumer: string)
    requires WellFormed(g) && consumer in g.out
    ensures WellFormed(AppendWhere(g, ups, consumer))
  {
    var r := AppendWhere(g, ups, consumer);
    forall x, k | x in r.out && 0 <= k < |r.out[x]| ensures r.out[x][k] in r.out {
      if k < |g.out[x]| {
        assert r.out[x][k] == g.out[x][k];
      }
    }
  }

  /** Two appends of the same consumer, for disjoint name sets, are one append for their union. */
  lemma AppendWhereUnion(g: Graph, s: set<string>, t: string, consumer: string)
    requires t !in s
    ensures AppendWhere(AppendWhere(g, s, consumer), {t}, consumer) == AppendWhere(g, s + {t}, consumer)
  {
  }

  /** Appending to the one entry named `name` alone. */
  lemma AppendOne(g: Graph, name: string, consumer: string)
    ensures name in g.out ==>
      AppendWhere(g, {name}, consumer) == g.(out := g.out[name := g.out[name] + [consumer]])
    ensures name !in g.out ==> AppendWhere(g, {name}, consumer) == g
  {
    var r := AppendWhere(g, {name}, consumer);
    if name !in g.out {
      assert r.out == g.out;
    }
  }

  /** The inner `for node in graph.keys()` scan: append `consumer` to the
      out-list of the entry named `name`, reporting whether one was seen. */
  method AppendToNamed(g: Graph, name: string, consumer: string) returns (r: Graph, found: bool)
    requires Consistent(g)
    ensures r == AppendWhere(g, {name}, consumer)
    ensures found <==> HasName(g, name)
  {
    AppendOne(g, name, consumer);
    r := g;
    found := false;
    for i := 0 to |g.order|
      invariant found <==> name in g.order[..i]
      invariant r == if found then AppendWhere(g, {name}, consumer) else g
    {
      if g.order[i] == name {
        NoDupAt(g.order, i);
        r := r.(out := r.out[name := r.out[name] + [consumer]]);
        found := true;
      }
      assert g.order[..i + 1] == g.order[..i] + [g.order[i]];
    }
    assert g.order[..|g.order|] == g.order;
  }
}
