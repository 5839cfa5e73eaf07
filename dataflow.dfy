/** The dataflow graph builder: each Filter, Transform or Aggregate spec of an
    event chain adds its operator nodes and edges to a shared plan graph, and
    `Function.to_dataflow` folds the builder over the whole chain. */
module Dataflow {
  import opened Common
  import opened Strings
  import opened Graphs
  import Schema

  /** One operation of an event chain, as the policy and query catalogs declare it. */
  datatype Spec =
    | Filter(view: string, tables: seq<string>, predicates: seq<string>,
             affected: Option<seq<string>>, policy: bool)
    | Transform(view: string, tables: seq<string>, predicates: seq<string>,
                affected: Option<seq<string>>, policy: bool)
    | Aggregate(view: string, fn: string, tables: seq<string>, operationOn: string,
                aggPredicates: Option<seq<string>>, affected: Option<seq<string>>,
                groupby: Option<string>, policy: bool)

  /** What `to_dataflow` threads from one operation to the next: the graph and
      the intermediate views built so far. */
  datatype State = State(graph: Graph, views: seq<Node>)

  // ---------------------------------------------------------------------------
  // Input resolution (the `for tbl in self.tables` loops)
  // ---------------------------------------------------------------------------

  /** A base table's source node: no operation type, its own name as base table. */
  function SourceNode(t: string, policy: bool): Node {
    Node(t, Source, Some([t]), policy, None, None, None)
  }

  /** A view's name as an input is compared with it: Transform removes `$`
      from the view names, Filter and Aggregate compare them as they are. */
  function ViewKey(v: Node, strip: bool): string {
    if strip then Without(v.name, '$') else v.name
  }

  /** `intermediate_view_names.index(t)`, searching from position `k`. */
  function ViewFrom(views: seq<Node>, t: string, strip: bool, k: nat): (r: Option<nat>)
    ensures r.Some? ==> k <= r.value < |views| && ViewKey(views[r.value], strip) == t
    ensures r.Some? ==> forall j :: k <= j < r.value ==> ViewKey(views[j], strip) != t
    ensures r.None? ==> forall j :: k <= j < |views| ==> ViewKey(views[j], strip) != t
    decreases |views| - k
  {
    if k >= |views| then None
    else if ViewKey(views[k], strip) == t then Some(k)
    else ViewFrom(views, t, strip, k + 1)
  }

  /** The node an input name (already without `$`) stands for: a schema table
      first, else the first earlier view of that name, else nothing. */
  function InputNode(schema: Schema.Catalog, views: seq<Node>, t: string, strip: bool, policy: bool): (r: Option<Node>)
    ensures t in schema ==> r == Some(SourceNode(t, policy))
    ensures t !in schema ==> (r.Some? <==> exists j :: 0 <= j < |views| && ViewKey(views[j], strip) == t)
    ensures t !in schema && r.Some? ==> r.value in views && ViewKey(r.value, strip) == t
  {
    if t in schema then Some(SourceNode(t, policy))
    else match ViewFrom(views, t, strip, 0)
      case None => None
      case Some(j) => Some(views[j])
  }

  /** The nodes for all inputs, in order; the first input that resolves to
      nothing is reported. */
  function ResolveAll(schema: Schema.Catalog, views: seq<Node>, tables: seq<string>, strip: bool, policy: bool)
    : Result<seq<Node>>
    decreases |tables|
  {
    if tables == [] then Ok([])
    else
      var t := Without(tables[0], '$');
      match InputNode(schema, views, t, strip, policy)
      case None => Err(UnresolvedInput(t))
      case Some(n) => Prefixed([n], ResolveAll(schema, views, tables[1..], strip, policy))
  }

  /** `ns` followed by whatever the rest resolves to. */
  function Prefixed(ns: seq<Node>, rest: Result<seq<Node>>): Result<seq<Node>> {
    match rest
    case Err(e) => Err(e)
    case Ok(more) => Ok(ns + more)
  }

  lemma PrefixedTwice(a: seq<Node>, b: seq<Node>, rest: Result<seq<Node>>)
    ensures Prefixed(a, Prefixed(b, rest)) == Prefixed(a + b, rest)
  {
    if rest.Ok? {
      assert a + (b + rest.value) == (a + b) + rest.value;
    }
  }

  /** Every input, with `$` removed, must name a schema table or an earlier
      view, and resolution fails exactly when one does not; the nodes come
      out one per input, in input order. */
  lemma {:induction false} ResolveAllMeaning(schema: Schema.Catalog, views: seq<Node>, tables: seq<string>, strip: bool, policy: bool)
    ensures ResolveAll(schema, views, tables, strip, policy).Err? <==>
      exists k :: 0 <= k < |tables| && InputNode(schema, views, Without(tables[k], '$'), strip, policy).None?
    ensures ResolveAll(schema, views, tables, strip, policy).Ok? ==>
      var ns := ResolveAll(schema, views, tables, strip, policy).value;
      |ns| == |tables| &&
      forall k :: 0 <= k < |tables| ==> InputNode(schema, views, Without(tables[k], '$'), strip, policy) == Some(ns[k])
    decreases |tables|
  {
    if tables != [] {
      ResolveAllMeaning(schema, views, tables[1..], strip, policy);
      var r := ResolveAll(schema, views, tables, strip, policy);
      if InputNode(schema, views, Without(tables[0], '$'), strip, policy).Some? {
        forall k | 1 <= k < |tables| ensures tables[k] == tables[1..][k - 1] { }
      }
    }
  }

  /** `graph[tbl_node] = []` for one resolved input. A reused view is the same
      key, and its out-list is emptied. A base table gets a fresh `Node` object
      each time; when one of that name is already a key, the old key stays with
      its consumers, and every later scan by name reaches it as well, so the
      entry for that name keeps its out-list. */
  function Reset(g: Graph, n: Node): Graph {
    if n.kind.Source? && HasName(g, n.name) then g else Put(g, n, [])
  }

  /** `Reset` for each resolved input in turn. */
  function ResetAll(g: Graph, ns: seq<Node>): Graph {
    if ns == [] then g else Reset(ResetAll(g, ns[..|ns| - 1]), ns[|ns| - 1])
  }

  /** Resolving inputs adds a node for every input. A base table that already
      had a node keeps its consumers; a new node starts with none, and a reused
      view loses its earlier consumers. Every other entry keeps its out-list. */
  lemma {:induction false} ResetAllEffect(g: Graph, ns: seq<Node>, x: string)
    ensures HasName(ResetAll(g, ns), x) <==> HasName(g, x) || exists k :: 0 <= k < |ns| && ns[k].name == x
    ensures (forall k :: 0 <= k < |ns| ==> ns[k].name != x) ==> Out(ResetAll(g, ns), x) == Out(g, x)
    ensures HasName(g, x) && (forall k :: 0 <= k < |ns| && ns[k].name == x ==> ns[k].kind.Source?) ==>
      Out(ResetAll(g, ns), x) == Out(g, x)
    ensures ((exists k :: 0 <= k < |ns| && ns[k].name == x) &&
             (!HasName(g, x) || exists k :: 0 <= k < |ns| && ns[k].name == x && !ns[k].kind.Source?)) ==>
      Out(ResetAll(g, ns), x) == []
  {
    if ns != [] {
      var init := ns[..|ns| - 1];
      var last := ns[|ns| - 1];
      ResetAllEffect(g, init, x);
      forall k | 0 <= k < |init| ensures init[k] == ns[k] { }
      if exists k :: 0 <= k < |ns| && ns[k].name == x && !ns[k].kind.Source? {
        var k :| 0 <= k < |ns| && ns[k].name == x && !ns[k].kind.Source?;
        if k < |init| {
          assert init[k].name == x && !init[k].kind.Source?;
        }
      }
      if exists k :: 0 <= k < |ns| && ns[k].name == x {
        var k :| 0 <= k < |ns| && ns[k].name == x;
        if k < |init| {
          assert init[k].name == x;
        }
      }
    }
  }

  lemma {:induction false} ResetAllWellFormed(g: Graph, ns: seq<Node>)
    requires WellFormed(g)
    ensures WellFormed(ResetAll(g, ns))
  {
    if ns != [] {
      ResetAllWellFormed(g, ns[..|ns| - 1]);
      if !(ns[|ns| - 1].kind.Source? && HasName(ResetAll(g, ns[..|ns| - 1]), ns[|ns| - 1].name)) {
        PutWellFormed(ResetAll(g, ns[..|ns| - 1]), ns[|ns| - 1], []);
      }
    }
  }

  /** Resolution of all inputs as one step on the graph. */
  function Resolved(schema: Schema.Catalog, st: State, tables: seq<string>, strip: bool, policy: bool): Result<Graph> {
    match ResolveAll(schema, st.views, tables, strip, policy)
    case Err(e) => Err(e)
    case Ok(ns) => Ok(ResetAll(st.graph, ns))
  }

  /** The input loop shared by all three `to_dataflow` methods. */
  method ResolveInputs(schema: Schema.Catalog, st: State, tables: seq<string>, strip: bool, policy: bool)
    returns (r: Result<Graph>)
    ensures r == Resolved(schema, st, tables, strip, policy)
  {
    var g := st.graph;
    ghost var ns: seq<Node> := [];
    assert tables[0..] == tables;
    match ResolveAll(schema, st.views, tables, strip, policy) {
      case Ok(all) => assert [] + all == all;
      case Err(_) =>
    }
    for i := 0 to |tables|
      invariant Prefixed(ns, ResolveAll(schema, st.views, tables[i..], strip, policy))
        == ResolveAll(schema, st.views, tables, strip, policy)
      invariant g == ResetAll(st.graph, ns)
    {
      var t := Without(tables[i], '$');
      var node := InputNode(schema, st.views, t, strip, policy);
      assert tables[i..][0] == tables[i] && tables[i..][1..] == tables[i + 1..];
      if node.None? {
        return Err(UnresolvedInput(t));
      }
      PrefixedTwice(ns, [node.value], ResolveAll(schema, st.views, tables[i + 1..], strip, policy));
      g := Reset(g, node.value);
      assert (ns + [node.value])[..|ns|] == ns;
      ns := ns + [node.value];
    }
    assert tables[|tables|..] == [] && ns + [] == ns;
    return Ok(g);
  }

  // ---------------------------------------------------------------------------
  // Predicate chains (Filter and Transform)
  // ---------------------------------------------------------------------------

  predicate IsChain(spec: Spec) {
    spec.Filter? || spec.Transform?
  }

  /** `new_view_name + str(i)`, except that the last of `k` nodes takes the bare view name. */
  function ChainName(view: string, i: nat, k: nat): string {
    if i + 1 == k then view else view + NatToString(i)
  }

  /** The nodes of one chain have pairwise different names. */
  lemma ChainNamesDistinct(view: string, k: nat, i: nat, j: nat)
    requires i < j < k
    ensures ChainName(view, i, k) != ChainName(view, j, k)
  {
    var a, b := ChainName(view, i, k), ChainName(view, j, k);
    assert a == view + NatToString(i);
    if j + 1 != k && a == b {
      assert NatToString(i) == a[|view|..];
      assert NatToString(j) == b[|view|..];
      NatToStringInjective(i, j);
    }
  }

  /** The `i`-th node of a chain: it carries the `i`-th predicate. */
  function ChainNode(spec: Spec, i: nat): (n: Node)
    requires IsChain(spec) && i < |spec.predicates|
    ensures n.name == ChainName(spec.view, i, |spec.predicates|)
  {
    Node(ChainName(spec.view, i, |spec.predicates|), if spec.Filter? then FilterOp else TransformOp,
         spec.affected, spec.policy, Some(spec.predicates[i]), None, None)
  }

  /** `table, col = operand.split('.')`, then the table with `$` removed and
      whitespace stripped; any other number of parts fails. */
  function OperandTable(operand: string): (r: Result<string>)
    ensures r.Ok? <==> |Split(operand, ".")| == 2
    ensures r.Err? ==> r.error == MalformedText(operand, ".")
  {
    var parts := Split(operand, ".");
    if |parts| != 2 then Err(MalformedText(operand, "."))
    else Ok(Strip(Without(parts[0], '$')))
  }

  /** The table of an operand when it is dotted, and none otherwise. */
  function OperandTables(operand: string): (r: Result<set<string>>)
    ensures !Contains(operand, ".") ==> r == Ok({})
    ensures Contains(operand, ".") ==> r.Ok? == OperandTable(operand).Ok?
    ensures Contains(operand, ".") && r.Ok? ==> r.value == {OperandTable(operand).value}
  {
    if !Contains(operand, ".") then Ok({})
    else match OperandTable(operand)
      case Err(e) => Err(e)
      case Ok(t) => Ok({t})
  }

  /** The tables named by the dotted operands on either side of `IN`. */
  function DottedTables(left: string, right: string): (r: Result<set<string>>)
    ensures r.Ok? <==>
      (!Contains(left, ".") || OperandTable(left).Ok?) && (!Contains(right, ".") || OperandTable(right).Ok?)
    ensures r.Ok? ==> forall t ::
      t in r.value <==>
        (Contains(left, ".") && t == OperandTable(left).value) ||
        (Contains(right, ".") && t == OperandTable(right).value)
  {
    match OperandTables(left)
    case Err(e) => Err(e)
    case Ok(a) =>
      match OperandTables(right)
      case Err(e) => Err(e)
      case Ok(b) => Ok(a + b)
  }

  /** The tables a Filter predicate reads: `left, right = predicate.split('IN')`
      always, operand tables only for the first predicate of the chain. */
  function FilterUpstream(pred: string, first: bool): (r: Result<set<string>>)
    ensures r.Ok? ==> |Split(pred, "IN")| == 2
    ensures !Contains(pred, "IN") ==> r == Err(MalformedText(pred, "IN"))
    ensures !first ==> (r.Ok? <==> |Split(pred, "IN")| == 2)
    ensures !first && r.Ok? ==> r.value == {}
    ensures first && |Split(pred, "IN")| == 2 ==> r == DottedTables(Split(pred, "IN")[0], Split(pred, "IN")[1])
  {
    var parts := Split(pred, "IN");
    if |parts| != 2 then Err(MalformedText(pred, "IN"))
    else if first then DottedTables(parts[0], parts[1])
    else Ok({})
  }

  /** The tables a Transform predicate reads: the dotted operands of an `IN`
      predicate, else the left operand's table of a `=>` predicate, else none. */
  function TransformUpstream(pred: string): (r: Result<set<string>>)
    ensures !Contains(pred, "IN") && !Contains(pred, "=>") ==> r == Ok({})
    ensures Contains(pred, "IN") ==> r == FilterUpstream(pred, true)
    ensures !Contains(pred, "IN") && Contains(pred, "=>") ==>
      (r.Ok? <==> |Split(pred, "=>")| == 2 && OperandTable(Split(pred, "=>")[0]).Ok?)
    ensures !Contains(pred, "IN") && Contains(pred, "=>") && r.Ok? ==>
      r.value == {OperandTable(Split(pred, "=>")[0]).value}
  {
    if Contains(pred, "IN") then
      var parts := Split(pred, "IN");
      if |parts| != 2 then Err(MalformedText(pred, "IN"))
      else DottedTables(parts[0], parts[1])
    else if Contains(pred, "=>") then
      var parts := Split(pred, "=>");
      if |parts| != 2 then Err(MalformedText(pred, "=>"))
      else match OperandTable(parts[0])
        case Err(e) => Err(e)
        case Ok(t) => Ok({t})
    else Ok({})
  }

  /** The upstream tables named by the `i`-th predicate of a chain; `first`
      is whether no node precedes it (`prev is None`). */
  function PredicateUpstream(spec: Spec, i: nat, first: bool): Result<set<string>>
    requires IsChain(spec) && i < |spec.predicates|
  {
    if spec.Filter? then FilterUpstream(spec.predicates[i], first)
    else TransformUpstream(spec.predicates[i])
  }

  /** The `for tbl in upstream` loop as one step: every upstream name must
      name a node, and each node so named gets `consumer` appended. */
  function Link(g: Graph, ups: set<string>, consumer: string): Result<Graph> {
    if ups <= g.out.Keys then Ok(AppendWhere(g, ups, consumer))
    else Err(UnresolvedUpstream)
  }

  /** Linking fails exactly when some upstream name has no node; otherwise the
      consumer is appended to the out-list of every upstream node and of no other. */
  lemma LinkMeaning(g: Graph, ups: set<string>, consumer: string)
    ensures Link(g, ups, consumer).Err? <==> exists t :: t in ups && !HasName(g, t)
    ensures Link(g, ups, consumer).Ok? ==>
      var r := Link(g, ups, consumer).value;
      r.order == g.order && r.nodes == g.nodes && r.out.Keys == g.out.Keys &&
      (forall x :: x in ups ==> r.out[x] == g.out[x] + [consumer]) &&
      (forall x :: x in g.out && x !in ups ==> r.out[x] == g.out[x])
  {
  }

  lemma LinkMissing(g: Graph, ups: set<string>, t: string, consumer: string)
    requires t in ups && t !in g.out
    ensures Link(g, ups, consumer) == Err(UnresolvedUpstream)
  {
  }

  lemma LinkPresent(g: Graph, ups: set<string>, consumer: string)
    requires ups <= g.out.Keys
    ensures Link(g, ups, consumer) == Ok(AppendWhere(g, ups, consumer))
  {
  }

  /** One pass of the upstream loop: append `consumer` under `t`, on top of
      the appends already made for `done`. */
  method LinkOne(g: Graph, done: set<string>, cur: Graph, t: string, consumer: string)
    returns (next: Graph, found: bool)
    requires Consistent(g) && cur == AppendWhere(g, done, consumer) && t !in done
    ensures found <==> t in g.out
    ensures next == AppendWhere(g, done + {t}, consumer)
  {
    AppendWhereConsistent(g, done, consumer);
    next, found := AppendToNamed(cur, t, consumer);
    AppendWhereUnion(g, done, t, consumer);
  }

  /** The upstream loop: the set is walked in an arbitrary order, and the
      result is the same whatever the order. */
  method LinkUpstream(g: Graph, ups: set<string>, consumer: string) returns (r: Result<Graph>)
    requires Consistent(g)
    ensures r == Link(g, ups, consumer)
  {
    var rest := ups;
    var cur := g;
    while rest != {}
      invariant rest <= ups
      invariant ups - rest <= g.out.Keys
      invariant cur == AppendWhere(g, ups - rest, consumer)
      decreases |rest|
    {
      var t :| t in rest;
      TakeOne(ups, rest, t);
      var found;
      cur, found := LinkOne(g, ups - rest, cur, t, consumer);
      if !found {
        LinkMissing(g, ups, t, consumer);
        return Err(UnresolvedUpstream);
      }
      rest := rest - {t};
    }
    assert ups - rest == ups;
    LinkPresent(g, ups, consumer);
    return Ok(cur);
  }

  /** Moving one element from the remaining set to the handled ones. */
  lemma TakeOne<T>(all: set<T>, rest: set<T>, t: T)
    requires rest <= all && t in rest
    ensures t !in all - rest && t in all
    ensures (all - rest) + {t} == all - (rest - {t})
    ensures |rest - {t}| < |rest|
  {
  }

  /** A chain laid out before it is built: its nodes and each node's upstream
      tables (or the parse error for its predicate). */
  datatype Plan = Plan(nodes: seq<Node>, upstream: seq<Result<set<string>>>)

  predicate ValidPlan(p: Plan) {
    |p.nodes| == |p.upstream|
  }

  predicate DistinctNodes(p: Plan) {
    forall i, j :: 0 <= i < j < |p.nodes| ==> p.nodes[i].name != p.nodes[j].name
  }

  /** The plan of a Filter or Transform spec: one node per predicate. */
  function ChainPlan(spec: Spec): (p: Plan)
    requires IsChain(spec)
    ensures ValidPlan(p) && |p.nodes| == |spec.predicates|
    ensures forall i :: 0 <= i < |spec.predicates| ==> p.nodes[i] == ChainNode(spec, i)
    ensures forall i :: 0 <= i < |spec.predicates| ==> p.upstream[i] == PredicateUpstream(spec, i, i == 0)
  {
    Plan(seq(|spec.predicates|, i requires 0 <= i < |spec.predicates| => ChainNode(spec, i)),
         seq(|spec.predicates|, i requires 0 <= i < |spec.predicates| => PredicateUpstream(spec, i, i == 0)))
  }

  lemma ChainPlanDistinct(spec: Spec)
    requires IsChain(spec)
    ensures DistinctNodes(ChainPlan(spec))
  {
    var p := ChainPlan(spec);
    forall i, j | 0 <= i < j < |p.nodes| ensures p.nodes[i].name != p.nodes[j].name {
      ChainNamesDistinct(spec.view, |spec.predicates|, i, j);
    }
  }

  /** The name the `i`-th node links from besides its tables: the previous chain node. */
  function Predecessor(p: Plan, i: nat): set<string>
    requires i < |p.nodes|
  {
    if i == 0 then {} else {p.nodes[i - 1].name}
  }

  /** One iteration of the predicate loop, given the new node, its parsed
      upstream tables and the name of the node before it (if any). */
  function LinkStep(st: State, node: Node, upstream: Result<set<string>>, before: set<string>): Result<State> {
    var g := Put(st.graph, node, []);
    match upstream
    case Err(e) => Err(e)
    case Ok(ups) =>
      match Link(g, ups + before, node.name)
      case Err(e) => Err(e)
      case Ok(linked) => Ok(State(linked, st.views + [node]))
  }

  /** One iteration of the predicate loop. */
  function ChainStep(p: Plan, st: State, i: nat): Result<State>
    requires ValidPlan(p) && i < |p.nodes|
  {
    LinkStep(st, p.nodes[i], p.upstream[i], Predecessor(p, i))
  }

  /** The predicate loop from the `i`-th node on. */
  function Chain(p: Plan, st: State, i: nat): Result<State>
    requires ValidPlan(p)
    decreases |p.nodes| - i
  {
    if i >= |p.nodes| then Ok(st)
    else match ChainStep(p, st, i)
      case Err(e) => Err(e)
      case Ok(next) => Chain(p, next, i + 1)
  }

  /** A step keeps every name of the graph and adds its own node. */
  lemma StepNames(p: Plan, st: State, i: nat, x: string)
    requires ValidPlan(p) && i < |p.nodes| && ChainStep(p, st, i).Ok?
    requires HasName(st.graph, x) || x == p.nodes[i].name
    ensures HasName(ChainStep(p, st, i).value.graph, x)
  {
    var node := p.nodes[i];
    var g := Put(st.graph, node, []);
  }

  /** A step adds its own node to the keys and no other. */
  lemma StepKeys(p: Plan, st: State, i: nat)
    requires ValidPlan(p) && i < |p.nodes| && ChainStep(p, st, i).Ok?
    ensures ChainStep(p, st, i).value.graph.out.Keys == st.graph.out.Keys + {p.nodes[i].name}
  {
    var g := Put(st.graph, p.nodes[i], []);
    LinkMeaning(g, p.upstream[i].value + Predecessor(p, i), p.nodes[i].name);
  }

  /** A step keeps the graph well formed. */
  lemma StepWellFormed(p: Plan, st: State, i: nat)
    requires ValidPlan(p) && i < |p.nodes| && ChainStep(p, st, i).Ok? && WellFormed(st.graph)
    ensures WellFormed(ChainStep(p, st, i).value.graph)
  {
    var node := p.nodes[i];
    var g := Put(st.graph, node, []);
    PutWellFormed(st.graph, node, []);
    AppendWhereWellFormed(g, p.upstream[i].value + Predecessor(p, i), node.name);
  }

  lemma SliceCons<T>(s: seq<T>, i: nat)
    requires i < |s|
    ensures s[i..] == [s[i]] + s[i + 1..]
  {
  }

  /** A chain appends exactly its nodes to the views, in order. */
  lemma {:induction false} ChainViews(p: Plan, st: State, i: nat)
    requires ValidPlan(p) && i <= |p.nodes| && Chain(p, st, i).Ok?
    ensures Chain(p, st, i).value.views == st.views + p.nodes[i..]
    decreases |p.nodes| - i
  {
    if i < |p.nodes| {
      var next := ChainStep(p, st, i).value;
      ChainViews(p, next, i + 1);
      SliceCons(p.nodes, i);
      AppendAssoc(st.views, [p.nodes[i]], p.nodes[i + 1..]);
    }
  }

  /** The predicate loop loses no name, and every chain node ends up in the graph. */
  lemma {:induction false} ChainNodesPresent(p: Plan, st: State, i: nat, x: string)
    requires ValidPlan(p) && i <= |p.nodes| && Chain(p, st, i).Ok?
    requires HasName(st.graph, x) || exists j :: i <= j < |p.nodes| && p.nodes[j].name == x
    ensures HasName(Chain(p, st, i).value.graph, x)
    decreases |p.nodes| - i
  {
    if i < |p.nodes| {
      var next := ChainStep(p, st, i).value;
      if HasName(st.graph, x) || x == p.nodes[i].name {
        StepNames(p, st, i, x);
      }
      ChainNodesPresent(p, next, i + 1, x);
    }
  }

  /** The first step of a chain that succeeds, with the state it leaves. */
  lemma ChainFirst(p: Plan, st: State, i: nat, r: State) returns (next: State)
    requires ValidPlan(p) && i < |p.nodes| && Chain(p, st, i) == Ok(r) && WellFormed(st.graph)
    ensures Chain(p, next, i + 1) == Ok(r) && WellFormed(next.graph)
  {
    next := ChainStep(p, st, i).value;
    StepWellFormed(p, st, i);
  }

  /** The predicate loop keeps the graph well formed. */
  lemma {:induction false} ChainWellFormed(p: Plan, st: State, i: nat, r: State)
    requires ValidPlan(p) && i <= |p.nodes| && Chain(p, st, i) == Ok(r) && WellFormed(st.graph)
    ensures WellFormed(r.graph)
    decreases |p.nodes| - i
  {
    if i < |p.nodes| {
      var next := ChainFirst(p, st, i, r);
      ChainWellFormed(p, next, i + 1, r);
    }
  }

  /** The predicate loop adds exactly the chain's nodes to the keys. */
  lemma {:induction false} ChainKeys(p: Plan, st: State, i: nat)
    requires ValidPlan(p) && i <= |p.nodes| && Chain(p, st, i).Ok?
    ensures Chain(p, st, i).value.graph.out.Keys ==
      st.graph.out.Keys + (set j | i <= j < |p.nodes| :: p.nodes[j].name)
    decreases |p.nodes| - i
  {
    if i < |p.nodes| {
      ChainUnfold(p, st, i);
      var next := ChainStep(p, st, i).value;
      StepKeys(p, st, i);
      ChainKeys(p, next, i + 1);
      assert (set j | i <= j < |p.nodes| :: p.nodes[j].name) ==
        {p.nodes[i].name} + (set j | i + 1 <= j < |p.nodes| :: p.nodes[j].name);
    }
  }

  /** Later steps never drop a consumer from a node that is not one of their own. */
  lemma {:induction false} ChainKeepsConsumer(p: Plan, st: State, i: nat, x: string, c: string)
    requires ValidPlan(p) && i <= |p.nodes| && Chain(p, st, i).Ok?
    requires forall j :: i <= j < |p.nodes| ==> x != p.nodes[j].name
    requires c in Out(st.graph, x)
    ensures c in Out(Chain(p, st, i).value.graph, x)
    decreases |p.nodes| - i
  {
    if i < |p.nodes| {
      var node := p.nodes[i];
      var g := Put(st.graph, node, []);
      var ups := p.upstream[i].value + Predecessor(p, i);
      ChainKeepsConsumer(p, ChainStep(p, st, i).value, i + 1, x, c);
    }
  }

  /** The `i`-th step links its node from the previous chain node, and the link survives. */
  lemma ChainLinksPredecessor(p: Plan, st: State, i: nat)
    requires ValidPlan(p) && DistinctNodes(p) && 1 <= i < |p.nodes| && Chain(p, st, i).Ok?
    ensures p.nodes[i].name in Out(Chain(p, st, i).value.graph, p.nodes[i - 1].name)
  {
    var node := p.nodes[i];
    var prev := p.nodes[i - 1].name;
    var g := Put(st.graph, node, []);
    var ups := p.upstream[i].value + Predecessor(p, i);
    assert prev in ups;
    ChainKeepsConsumer(p, ChainStep(p, st, i).value, i + 1, prev, node.name);
  }

  /** One step of the loop, taken out of the fold. */
  lemma ChainUnfold(p: Plan, st: State, i: nat)
    requires ValidPlan(p) && i < |p.nodes| && Chain(p, st, i).Ok?
    ensures ChainStep(p, st, i).Ok? && Chain(p, st, i) == Chain(p, ChainStep(p, st, i).value, i + 1)
  {
  }

  /** Every chain node after the first consumes its immediate predecessor. */
  lemma {:induction false} ChainPredecessorEdges(p: Plan, st: State, i: nat)
    requires ValidPlan(p) && DistinctNodes(p) && i <= |p.nodes| && Chain(p, st, i).Ok?
    ensures forall j :: i < j < |p.nodes| ==> p.nodes[j].name in Out(Chain(p, st, i).value.graph, p.nodes[j - 1].name)
    decreases |p.nodes| - i
  {
    if i < |p.nodes| {
      ChainUnfold(p, st, i);
      var next := ChainStep(p, st, i).value;
      var last := Chain(p, next, i + 1).value.graph;
      ChainPredecessorEdges(p, next, i + 1);
      forall j | i < j < |p.nodes| ensures p.nodes[j].name in Out(last, p.nodes[j - 1].name) {
        if j == i + 1 {
          ChainLinksPredecessor(p, next, i + 1);
        }
      }
    }
  }


  // ---------------------------------------------------------------------------
  // Aggregates
  // ---------------------------------------------------------------------------

  /** The single node of an aggregate: named after the view, carrying the
      function, the aggregated column and the grouping column. */
  function AggregateNode(spec: Spec): Node
    requires spec.Aggregate?
  {
    Node(spec.view, AggregateOp(spec.fn), spec.affected, spec.policy, None, Some(spec.operationOn), spec.groupby)
  }

  /** The table an aggregate reads its column from: none when `operation_on`
      has no `.`, else the part before it; any other number of parts fails. */
  function AggregateSource(spec: Spec): (r: Result<Option<string>>)
    requires spec.Aggregate?
    ensures !Contains(spec.operationOn, ".") ==> r == Ok(None)
    ensures Contains(spec.operationOn, ".") ==> (r.Ok? <==> |Split(spec.operationOn, ".")| == 2)
    ensures r.Ok? && r.value.Some? ==> spec.operationOn == r.value.value + "." + Split(spec.operationOn, ".")[1]
  {
    if !Contains(spec.operationOn, ".") then Ok(None)
    else
      var parts := Split(spec.operationOn, ".");
      if |parts| != 2 then Err(MalformedText(spec.operationOn, "."))
      else
        JoinSplit(spec.operationOn, ".");
        Ok(Some(parts[0]))
  }

  /** The aggregate node is added, fed by every node named after its source
      table (none need exist), and appended to the views. */
  function AggregateLink(spec: Spec, st: State, source: Option<string>): State
    requires spec.Aggregate?
  {
    match source
    case None => st
    case Some(t) =>
      var node := AggregateNode(spec);
      State(AppendWhere(Put(st.graph, node, []), {t}, node.name), st.views + [node])
  }

  // ---------------------------------------------------------------------------
  // One operation, and the whole event chain
  // ---------------------------------------------------------------------------

  /** `to_dataflow` of one spec: resolve the inputs, then build the chain or
      the aggregate node. */
  function Build(schema: Schema.Catalog, st: State, spec: Spec): (r: Result<State>)
    ensures r.Ok? ==> Resolved(schema, st, spec.tables, spec.Transform?, spec.policy).Ok?
    ensures spec.Aggregate? && spec.aggPredicates.Some? ==> r.Err?
  {
    match Resolved(schema, st, spec.tables, spec.Transform?, spec.policy)
    case Err(e) => Err(e)
    case Ok(g) =>
      var resolved := State(g, st.views);
      if spec.Aggregate? then
        match AggregateSource(spec)
        case Err(e) => Err(e)
        case Ok(source) =>
          if spec.aggPredicates.Some? then Err(UnsupportedAggregatePredicates)
          else Ok(AggregateLink(spec, resolved, source))
      else Chain(ChainPlan(spec), resolved, 0)
  }

  /** `Function.to_dataflow` from a given state: each operation's graph and
      views feed the next. */
  function AssembleFrom(schema: Schema.Catalog, st: State, chain: seq<Spec>): Result<State>
    decreases |chain|
  {
    if chain == [] then Ok(st)
    else match Build(schema, st, chain[0])
      case Err(e) => Err(e)
      case Ok(next) => AssembleFrom(schema, next, chain[1..])
  }

  /** `Function.to_dataflow`: start from an empty graph and no views, return the final graph. */
  function Assemble(schema: Schema.Catalog, chain: seq<Spec>): Result<Graph> {
    match AssembleFrom(schema, State(Empty, []), chain)
    case Err(e) => Err(e)
    case Ok(st) => Ok(st.graph)
  }

  /** The state a spec's body starts from once its inputs are resolved. */
  function ResolvedState(schema: Schema.Catalog, st: State, spec: Spec): State
    requires Resolved(schema, st, spec.tables, spec.Transform?, spec.policy).Ok?
  {
    State(Resolved(schema, st, spec.tables, spec.Transform?, spec.policy).value, st.views)
  }

  lemma BuildIsChain(schema: Schema.Catalog, st: State, spec: Spec)
    requires IsChain(spec) && Build(schema, st, spec).Ok?
    ensures Build(schema, st, spec) == Chain(ChainPlan(spec), ResolvedState(schema, st, spec), 0)
  {
  }

  /** A Filter or Transform with `k` predicates appends exactly its `k` chain
      nodes to the views, in predicate order. */
  lemma BuildChainViews(schema: Schema.Catalog, st: State, spec: Spec)
    requires IsChain(spec) && Build(schema, st, spec).Ok?
    ensures Build(schema, st, spec).value.views ==
      st.views + seq(|spec.predicates|, j requires 0 <= j < |spec.predicates| => ChainNode(spec, j))
  {
    var p := ChainPlan(spec);
    BuildIsChain(schema, st, spec);
    ChainViews(p, ResolvedState(schema, st, spec), 0);
    assert p.nodes[0..] == p.nodes;
    assert p.nodes == seq(|spec.predicates|, j requires 0 <= j < |spec.predicates| => ChainNode(spec, j));
  }

  /** Every chain node, named `view0` ... `view{k-2}` and finally `view`, is in the graph. */
  lemma BuildChainNodes(schema: Schema.Catalog, st: State, spec: Spec, j: nat)
    requires IsChain(spec) && Build(schema, st, spec).Ok? && j < |spec.predicates|
    ensures HasName(Build(schema, st, spec).value.graph, ChainName(spec.view, j, |spec.predicates|))
  {
    var p := ChainPlan(spec);
    BuildIsChain(schema, st, spec);
    ChainNodesPresent(p, ResolvedState(schema, st, spec), 0, p.nodes[j].name);
  }

  /** The names of a chain's planned nodes are its chain names. */
  lemma ChainPlanNames(spec: Spec)
    requires IsChain(spec)
    ensures (set j | 0 <= j < |ChainPlan(spec).nodes| :: ChainPlan(spec).nodes[j].name) ==
      (set j | 0 <= j < |spec.predicates| :: ChainName(spec.view, j, |spec.predicates|))
  {
    var p := ChainPlan(spec);
    var planned := set j | 0 <= j < |p.nodes| :: p.nodes[j].name;
    var named := set j | 0 <= j < |spec.predicates| :: ChainName(spec.view, j, |spec.predicates|);
    forall x ensures x in planned <==> x in named {
      if x in planned {
        var j :| 0 <= j < |p.nodes| && p.nodes[j].name == x;
        assert ChainName(spec.view, j, |spec.predicates|) == x;
      }
      if x in named {
        var j :| 0 <= j < |spec.predicates| && ChainName(spec.view, j, |spec.predicates|) == x;
        assert p.nodes[j].name == x;
      }
    }
  }

  /** A Filter or Transform with `k` predicates adds exactly its `k` chain
      names to the resolved graph's keys, and no other; with no predicates it
      adds none. */
  lemma BuildChainKeys(schema: Schema.Catalog, st: State, spec: Spec)
    requires IsChain(spec) && Build(schema, st, spec).Ok?
    ensures Build(schema, st, spec).value.graph.out.Keys ==
      ResolvedState(schema, st, spec).graph.out.Keys +
      (set j | 0 <= j < |spec.predicates| :: ChainName(spec.view, j, |spec.predicates|))
  {
    var p := ChainPlan(spec);
    BuildIsChain(schema, st, spec);
    ChainKeys(p, ResolvedState(schema, st, spec), 0);
    ChainPlanNames(spec);
  }

  /** Every chain node after the first consumes its immediate predecessor. */
  lemma BuildChainEdges(schema: Schema.Catalog, st: State, spec: Spec, j: nat)
    requires IsChain(spec) && Build(schema, st, spec).Ok? && 0 < j < |spec.predicates|
    ensures ChainName(spec.view, j, |spec.predicates|)
      in Out(Build(schema, st, spec).value.graph, ChainName(spec.view, j - 1, |spec.predicates|))
  {
    var p := ChainPlan(spec);
    BuildIsChain(schema, st, spec);
    ChainPlanDistinct(spec);
    ChainPredecessorEdges(p, ResolvedState(schema, st, spec), 0);
    assert p.nodes[j].name in Out(Chain(p, ResolvedState(schema, st, spec), 0).value.graph, p.nodes[j - 1].name);
  }

  /** An aggregate never carries predicates. With a dotted `operation_on` it
      adds exactly one view and one key, its own node, appended to the source
      table's out-list and with an empty out-list of its own (unless the table
      has the view's name), and no other out-list changes; without one the
      graph and the views are those of the resolved inputs. */
  lemma BuildAggregateShape(schema: Schema.Catalog, st: State, spec: Spec)
    requires spec.Aggregate? && Build(schema, st, spec).Ok?
    ensures spec.aggPredicates.None?
    ensures AggregateSource(spec).value.None? ==> Build(schema, st, spec).value.views == st.views
    ensures AggregateSource(spec).value.Some? ==>
      Build(schema, st, spec).value.views == st.views + [AggregateNode(spec)] &&
      HasName(Build(schema, st, spec).value.graph, spec.view)
    ensures AggregateSource(spec).value.Some? ==>
      var t := AggregateSource(spec).value.value;
      var g0 := ResolvedState(schema, st, spec).graph;
      t in g0.out && t != spec.view ==>
        Build(schema, st, spec).value.graph.out[t] == g0.out[t] + [spec.view]
    ensures AggregateSource(spec).value.Some? ==>
      var t := AggregateSource(spec).value.value;
      Build(schema, st, spec).value.graph.nodes[spec.view] == AggregateNode(spec) &&
      Build(schema, st, spec).value.graph.out[spec.view] == (if t == spec.view then [spec.view] else [])
    ensures AggregateSource(spec).value.None? ==>
      Build(schema, st, spec).value.graph == ResolvedState(schema, st, spec).graph
    ensures AggregateSource(spec).value.Some? ==>
      Build(schema, st, spec).value.graph.out.Keys == ResolvedState(schema, st, spec).graph.out.Keys + {spec.view}
    ensures AggregateSource(spec).value.Some? ==>
      var t := AggregateSource(spec).value.value;
      var g0 := ResolvedState(schema, st, spec).graph;
      forall x :: x in g0.out && x != t && x != spec.view ==>
        Build(schema, st, spec).value.graph.out[x] == g0.out[x]
  {
    var resolved := State(Resolved(schema, st, spec.tables, spec.Transform?, spec.policy).value, st.views);
    var source := AggregateSource(spec).value;
    var r := AggregateLink(spec, resolved, source);
    assert Build(schema, st, spec) == Ok(r);
    if source.Some? {
      var t := source.value;
      var node := AggregateNode(spec);
      var g := Put(resolved.graph, node, []);
      assert r.graph == AppendWhere(g, {t}, node.name);
      assert spec.view in r.graph.out;
      if t in r.graph.out && t != spec.view {
        assert r.graph.out[t] == g.out[t] + [node.name];
      }
    }
  }

  lemma {:induction false} BuildWellFormed(schema: Schema.Catalog, st: State, spec: Spec)
    requires WellFormed(st.graph) && Build(schema, st, spec).Ok?
    ensures WellFormed(Build(schema, st, spec).value.graph)
  {
    var ns := ResolveAll(schema, st.views, spec.tables, spec.Transform?, spec.policy).value;
    ResetAllWellFormed(st.graph, ns);
    var resolved := State(ResetAll(st.graph, ns), st.views);
    if spec.Aggregate? {
      var source := AggregateSource(spec).value;
      if source.Some? {
        var node := AggregateNode(spec);
        PutWellFormed(resolved.graph, node, []);
        AppendWhereWellFormed(Put(resolved.graph, node, []), {source.value}, node.name);
      }
    } else {
      ChainWellFormed(ChainPlan(spec), resolved, 0, Chain(ChainPlan(spec), resolved, 0).value);
    }
  }

  lemma {:induction false} AssembleFromWellFormed(schema: Schema.Catalog, st: State, chain: seq<Spec>)
    requires WellFormed(st.graph) && AssembleFrom(schema, st, chain).Ok?
    ensures WellFormed(AssembleFrom(schema, st, chain).value.graph)
    decreases |chain|
  {
    if chain != [] {
      BuildWellFormed(schema, st, chain[0]);
      AssembleFromWellFormed(schema, Build(schema, st, chain[0]).value, chain[1..]);
    }
  }

  /** The graph of a whole event chain is a well-formed dictionary: every key
      listed once, every edge between nodes of the graph. */
  lemma AssembleWellFormed(schema: Schema.Catalog, chain: seq<Spec>)
    requires Assemble(schema, chain).Ok?
    ensures WellFormed(Assemble(schema, chain).value)
  {
    AssembleFromWellFormed(schema, State(Empty, []), chain);
  }

  /** Building a chain one operation longer is building the shorter chain and
      then that operation on its result. */
  lemma {:induction false} AssembleFromSnoc(schema: Schema.Catalog, st: State, chain: seq<Spec>, spec: Spec)
    ensures AssembleFrom(schema, st, chain + [spec]) ==
      match AssembleFrom(schema, st, chain)
      case Err(e) => Err(e)
      case Ok(mid) => Build(schema, mid, spec)
    decreases |chain|
  {
    if chain == [] {
      assert [] + [spec] == [spec];
      assert [spec][1..] == [];
    } else {
      assert (chain + [spec])[0] == chain[0];
      assert (chain + [spec])[1..] == chain[1..] + [spec];
      match Build(schema, st, chain[0])
      case Err(_) =>
      case Ok(next) => AssembleFromSnoc(schema, next, chain[1..], spec);
    }
  }

  // ---------------------------------------------------------------------------
  // The builder as the prototype runs it
  // ---------------------------------------------------------------------------

  /** The name of `prev`, if there is one. */
  function NameOf(prev: Option<Node>): set<string> {
    if prev.Some? then {prev.value.name} else {}
  }

  /** The node, the upstream parse and `prev` of the loop's `i`-th iteration
      are those the chain's plan lays out. */
  lemma PlannedStep(spec: Spec, i: nat, prev: Option<Node>)
    requires IsChain(spec) && i < |spec.predicates|
    requires prev == if i == 0 then None else Some(ChainPlan(spec).nodes[i - 1])
    ensures ChainNode(spec, i) == ChainPlan(spec).nodes[i]
    ensures PredicateUpstream(spec, i, prev.None?) == ChainPlan(spec).upstream[i]
    ensures NameOf(prev) == Predecessor(ChainPlan(spec), i)
  {
  }

  /** One iteration of the predicate loop: add the node, parse its upstream
      tables, link it from them and from `prev`. */
  method PredicateStep(st: State, node: Node, upstream: Result<set<string>>, prev: Option<Node>)
    returns (r: Result<State>)
    requires WellFormed(st.graph)
    ensures r == LinkStep(st, node, upstream, NameOf(prev))
  {
    var g := Put(st.graph, node, []);
    if upstream.Err? {
      return Err(upstream.error);
    }
    var views := st.views + [node];
    var ups := upstream.value;
    if prev.Some? {
      ups := ups + {prev.value.name};
    }
    assert ups == upstream.value + NameOf(prev);
    PutWellFormed(st.graph, node, []);
    var linked := LinkUpstream(g, ups, node.name);
    if linked.Err? {
      return Err(linked.error);
    }
    return Ok(State(linked.value, views));
  }

  /** The predicate loop of `Filter.to_dataflow` and `Transform.to_dataflow`,
      carrying `prev` from one predicate to the next. */
  method BuildChain(spec: Spec, st: State) returns (r: Result<State>)
    requires IsChain(spec) && WellFormed(st.graph)
    ensures r == Chain(ChainPlan(spec), st, 0)
  {
    ghost var p := ChainPlan(spec);
    var cur := st;
    var prev: Option<Node> := None;
    for i := 0 to |spec.predicates|
      invariant Chain(p, cur, i) == Chain(p, st, 0)
      invariant WellFormed(cur.graph)
      invariant prev == if i == 0 then None else Some(p.nodes[i - 1])
    {
      var node := ChainNode(spec, i);
      var upstream := PredicateUpstream(spec, i, prev.None?);
      PlannedStep(spec, i, prev);
      var next := PredicateStep(cur, node, upstream, prev);
      if next.Err? {
        return next;
      }
      StepWellFormed(p, cur, i);
      cur := next.value;
      prev := Some(node);
    }
    return Ok(cur);
  }

  /** The body of `Aggregate.to_dataflow` after its inputs are resolved. */
  method BuildAggregate(spec: Spec, st: State) returns (r: Result<State>)
    requires spec.Aggregate? && WellFormed(st.graph)
    ensures r == match AggregateSource(spec)
      case Err(e) => Err(e)
      case Ok(source) =>
        if spec.aggPredicates.Some? then Err(UnsupportedAggregatePredicates)
        else Ok(AggregateLink(spec, st, source))
  {
    var g := st.graph;
    var views := st.views;
    if Contains(spec.operationOn, ".") {
      var node := Node(spec.view, AggregateOp(spec.fn), spec.affected, spec.policy,
                       None, Some(spec.operationOn), spec.groupby);
      PutWellFormed(g, node, []);
      g := Put(g, node, []);
      var parts := Split(spec.operationOn, ".");
      if |parts| != 2 {
        return Err(MalformedText(spec.operationOn, "."));
      }
      var found;
      g, found := AppendToNamed(g, parts[0], node.name);
      views := views + [node];
    }
    if spec.aggPredicates.Some? {
      return Err(UnsupportedAggregatePredicates);
    }
    return Ok(State(g, views));
  }

  /** `to_dataflow` of one spec on the shared graph and view list. */
  method ToDataflow(schema: Schema.Catalog, st: State, spec: Spec) returns (r: Result<State>)
    requires WellFormed(st.graph)
    ensures r == Build(schema, st, spec)
  {
    var resolved := ResolveInputs(schema, st, spec.tables, spec.Transform?, spec.policy);
    if resolved.Err? {
      return Err(resolved.error);
    }
    ResetAllWellFormed(st.graph, ResolveAll(schema, st.views, spec.tables, spec.Transform?, spec.policy).value);
    if spec.Aggregate? {
      r := BuildAggregate(spec, State(resolved.value, st.views));
    } else {
      r := BuildChain(spec, State(resolved.value, st.views));
    }
  }

  /** `Function.to_dataflow`: thread the graph and the views through the event chain. */
  method FunctionToDataflow(schema: Schema.Catalog, chain: seq<Spec>) returns (r: Result<Graph>)
    ensures r == Assemble(schema, chain)
  {
    var st := State(Empty, []);
    for i := 0 to |chain|
      invariant AssembleFrom(schema, st, chain[i..]) == AssembleFrom(schema, State(Empty, []), chain)
      invariant WellFormed(st.graph)
    {
      assert chain[i..][0] == chain[i] && chain[i..][1..] == chain[i + 1..];
      var next := ToDataflow(schema, st, chain[i]);
      if next.Err? {
        return Err(next.error);
      }
      BuildWellFormed(schema, st, chain[i]);
      st := next.value;
    }
    assert chain[|chain|..] == [];
    return Ok(st.graph);
  }
}
