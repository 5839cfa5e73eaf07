/** `planning`: index the policy nodes by the base tables they guard, splice
    each table's policy chain between the table and its consumers in the
    query graph, then push policy nodes down until no move is left. */
module Planning {
  import opened Common
  import opened Graphs
  import opened Moves

  /** `basetable_to_policies`: the base tables in the order they were first
      listed, and the policy nodes listing each. */
  datatype Index = Index(tables: seq<string>, pols: map<string, seq<Node>>)

  const NoPolicies: Index := Index([], map[])

  /** The policy nodes indexed under `t`; none when `t` is not a key. */
  function Get(ix: Index, t: string): seq<Node> {
    if t in ix.pols then ix.pols[t] else []
  }

  /** The index invariant: `tables` lists each key once, and no entry is empty. */
  ghost predicate ValidIndex(ix: Index) {
    (forall t :: t in ix.pols <==> t in ix.tables) &&
    (forall i, j :: 0 <= i < j < |ix.tables| ==> ix.tables[i] != ix.tables[j]) &&
    (forall t :: t in ix.pols ==> ix.pols[t] != [])
  }

  /** A policy graph's node records in dictionary order. */
  function Records(p: Graph): (r: seq<Node>)
    requires Consistent(p)
    ensures |r| == |p.order|
    ensures forall k :: 0 <= k < |r| ==> r[k].name == p.order[k]
    ensures forall x :: x in p.nodes ==> p.nodes[x] in r
  {
    seq(|p.order|, k requires 0 <= k < |p.order| => p.nodes[p.order[k]])
  }

  predicate AllConsistent(ps: seq<Graph>) {
    forall i :: 0 <= i < |ps| ==> Consistent(ps[i])
  }

  /** Every policy graph's records, graph after graph. */
  function NodesOf(ps: seq<Graph>): seq<Node>
    requires AllConsistent(ps)
    decreases |ps|
  {
    if ps == [] then [] else Records(ps[0]) + NodesOf(ps[1..])
  }

  /** `basetable_to_policies[tbl].append(node)`, creating the entry on first use. */
  function AddTable(ix: Index, n: Node, t: string): Index {
    if t in ix.pols then Index(ix.tables, ix.pols[t := ix.pols[t] + [n]])
    else Index(ix.tables + [t], ix.pols[t := [n]])
  }

  /** Adding one table keeps the index valid and extends only that table's entry. */
  lemma AddTableEffect(ix: Index, n: Node, t0: string, t: string)
    requires ValidIndex(ix)
    ensures ValidIndex(AddTable(ix, n, t0))
    ensures Get(AddTable(ix, n, t0), t) == Get(ix, t) + (if t == t0 then [n] else [])
  {
    var r := AddTable(ix, n, t0);
    if t0 !in ix.pols {
      forall i, j | 0 <= i < j < |r.tables| ensures r.tables[i] != r.tables[j] {
        if j == |ix.tables| {
          assert r.tables[i] == ix.tables[i];
        }
      }
    }
  }

  /** The `for tbl in node.basetables` loop. */
  function AddTables(ix: Index, n: Node, ts: seq<string>): Index
    decreases |ts|
  {
    if ts == [] then ix else AddTables(AddTable(ix, n, ts[0]), n, ts[1..])
  }

  /** One copy of `n` for every time `t` occurs in `ts`. */
  function Copies(n: Node, ts: seq<string>, t: string): (r: seq<Node>)
    ensures forall k :: 0 <= k < |r| ==> r[k] == n
    ensures t !in ts ==> r == []
    ensures t in ts ==> r != []
    decreases |ts|
  {
    if ts == [] then [] else (if ts[0] == t then [n] else []) + Copies(n, ts[1..], t)
  }

  lemma {:induction false} AddTablesEffect(ix: Index, n: Node, ts: seq<string>, t: string)
    requires ValidIndex(ix)
    ensures ValidIndex(AddTables(ix, n, ts))
    ensures Get(AddTables(ix, n, ts), t) == Get(ix, t) + Copies(n, ts, t)
    decreases |ts|
  {
    if ts != [] {
      AddTableEffect(ix, n, ts[0], t);
      AddTablesEffect(AddTable(ix, n, ts[0]), n, ts[1..], t);
    }
  }

  /** Indexing one policy record: base-table sources are skipped, and an
      operator without a base-table list cannot be indexed. */
  function IndexNode(ix: Index, n: Node): Result<Index> {
    if n.kind.Source? then Ok(ix)
    else if n.basetables.None? then Err(MissingBaseTables(n.name))
    else Ok(AddTables(ix, n, n.basetables.value))
  }

  /** Indexing a run of records on top of `ix`, stopping at the first failure. */
  function IndexFrom(ix: Index, ns: seq<Node>): Result<Index>
    decreases |ns|
  {
    if ns == [] then Ok(ix)
    else
      match IndexNode(ix, ns[0])
      case Err(e) => Err(e)
      case Ok(next) => IndexFrom(next, ns[1..])
  }

  /** The policy index of a list of policy graphs. */
  function IndexOf(ps: seq<Graph>): Result<Index>
    requires AllConsistent(ps)
  {
    IndexFrom(NoPolicies, NodesOf(ps))
  }

  /** The reference listing: the records of `ns` that an index keeps under `t`,
      in order, once per time they list `t`. */
  function Listing(ns: seq<Node>, t: string): (r: seq<Node>)
    ensures forall k :: 0 <= k < |r| ==>
      !r[k].kind.Source? && r[k].basetables.Some? && t in r[k].basetables.value
    decreases |ns|
  {
    if ns == [] then []
    else
      var n := ns[0];
      (if !n.kind.Source? && n.basetables.Some? then Copies(n, n.basetables.value, t) else []) +
      Listing(ns[1..], t)
  }

  /** Indexing never loses or reorders a record: each table's entry is the reference listing. */
  lemma {:induction false} IndexFromListing(ix: Index, ns: seq<Node>, t: string)
    requires ValidIndex(ix) && IndexFrom(ix, ns).Ok?
    ensures ValidIndex(IndexFrom(ix, ns).value)
    ensures Get(IndexFrom(ix, ns).value, t) == Get(ix, t) + Listing(ns, t)
    decreases |ns|
  {
    if ns != [] {
      var n := ns[0];
      var next := IndexNode(ix, n).value;
      var mid := if !n.kind.Source? && n.basetables.Some? then Copies(n, n.basetables.value, t) else [];
      if !n.kind.Source? {
        AddTablesEffect(ix, n, n.basetables.value, t);
      }
      assert ValidIndex(next) && Get(next, t) == Get(ix, t) + mid;
      assert Listing(ns, t) == mid + Listing(ns[1..], t);
      IndexFromListing(next, ns[1..], t);
      assert IndexFrom(ix, ns) == IndexFrom(next, ns[1..]);
      AppendAssoc(Get(ix, t), mid, Listing(ns[1..], t));
    }
  }

  /** The index fails exactly when some operator record has no base-table list. */
  lemma {:induction false} IndexFromFails(ix: Index, ns: seq<Node>)
    ensures IndexFrom(ix, ns).Err? <==>
      exists k :: 0 <= k < |ns| && !ns[k].kind.Source? && ns[k].basetables.None?
    decreases |ns|
  {
    if ns != [] {
      var n := ns[0];
      if !(!n.kind.Source? && n.basetables.None?) {
        IndexFromFails(IndexNode(ix, n).value, ns[1..]);
        if exists k :: 0 <= k < |ns[1..]| && !ns[1..][k].kind.Source? && ns[1..][k].basetables.None? {
          var k :| 0 <= k < |ns[1..]| && !ns[1..][k].kind.Source? && ns[1..][k].basetables.None?;
          assert ns[k + 1] == ns[1..][k];
        }
        if exists k :: 0 <= k < |ns| && !ns[k].kind.Source? && ns[k].basetables.None? {
          var k :| 0 <= k < |ns| && !ns[k].kind.Source? && ns[k].basetables.None?;
          assert ns[1..][k - 1] == ns[k];
        }
      }
    }
  }

  /** What the planner's index holds: under each base table, the operator
      records of the policies that list it, in declaration order; base-table
      sources are never indexed. */
  lemma IndexOfMeaning(ps: seq<Graph>, t: string)
    requires AllConsistent(ps) && IndexOf(ps).Ok?
    ensures ValidIndex(IndexOf(ps).value)
    ensures Get(IndexOf(ps).value, t) == Listing(NodesOf(ps), t)
  {
    IndexFromListing(NoPolicies, NodesOf(ps), t);
  }

  /** The `for tbl in node.basetables` loop. */
  method AddNode(ix: Index, n: Node) returns (r: Result<Index>)
    ensures r == IndexNode(ix, n)
  {
    if n.kind.Source? {
      return Ok(ix);
    }
    if n.basetables.None? {
      return Err(MissingBaseTables(n.name));
    }
    var ts := n.basetables.value;
    var cur := ix;
    for i := 0 to |ts|
      invariant AddTables(cur, n, ts[i..]) == AddTables(ix, n, ts)
    {
      assert ts[i..][1..] == ts[i + 1..];
      var t := ts[i];
      if t in cur.pols {
        cur := Index(cur.tables, cur.pols[t := cur.pols[t] + [n]]);
      } else {
        cur := Index(cur.tables + [t], cur.pols[t := [n]]);
      }
    }
    return Ok(cur);
  }

  /** Indexing from position `j` of a run is indexing its `j`-th record, then
      the rest. */
  lemma IndexFromStep(ix: Index, rs: seq<Node>, j: nat, rest: seq<Node>)
    requires j < |rs|
    ensures IndexFrom(ix, rs[j..] + rest) ==
      match IndexNode(ix, rs[j])
      case Err(e) => Err(e)
      case Ok(next) => IndexFrom(next, rs[j + 1..] + rest)
  {
    assert (rs[j..] + rest)[0] == rs[j];
    assert (rs[j..] + rest)[1..] == rs[j + 1..] + rest;
  }

  /** The `for node, edges in policy.items()` loop over one policy graph;
      `rest` is what the outer loop still has to index. */
  method IndexPolicy(ix: Index, p: Graph, ghost rest: seq<Node>) returns (r: Result<Index>)
    requires Consistent(p)
    ensures r.Err? ==> r == IndexFrom(ix, Records(p) + rest)
    ensures r.Ok? ==> IndexFrom(r.value, rest) == IndexFrom(ix, Records(p) + rest)
  {
    var cur := ix;
    ghost var rs := Records(p);
    for j := 0 to |p.order|
      invariant IndexFrom(cur, rs[j..] + rest) == IndexFrom(ix, rs + rest)
    {
      IndexFromStep(cur, rs, j, rest);
      var next := AddNode(cur, p.nodes[p.order[j]]);
      if next.Err? {
        return next;
      }
      cur := next.value;
    }
    assert rs[|p.order|..] + rest == rest;
    return Ok(cur);
  }

  /** The policy-indexing loop of `planning`. */
  method IndexPolicies(ps: seq<Graph>) returns (r: Result<Index>)
    requires AllConsistent(ps)
    ensures r == IndexOf(ps)
  {
    var cur := NoPolicies;
    for i := 0 to |ps|
      invariant AllConsistent(ps[i..])
      invariant IndexFrom(cur, NodesOf(ps[i..])) == IndexOf(ps)
    {
      assert ps[i..][1..] == ps[i + 1..];
      var next := IndexPolicy(cur, ps[i], NodesOf(ps[i + 1..]));
      if next.Err? {
        return next;
      }
      cur := next.value;
    }
    return Ok(cur);
  }

  /** No two policy nodes of a chain share a name. */
  predicate DistinctNames(pols: seq<Node>) {
    forall i, j :: 0 <= i < j < |pols| ==> pols[i].name != pols[j].name
  }

  /** A chain that can be spliced under base table `t` without overwriting
      itself: distinct names, none of them `t`. */
  predicate ChainOk(t: string, pols: seq<Node>) {
    DistinctNames(pols) && forall j :: 0 <= j < |pols| ==> pols[j].name != t
  }

  /** The inner splice loop: each policy node of the chain, but the last,
      points to the next one. */
  function Links(g: Graph, pols: seq<Node>, k: nat): Graph
    requires k <= |pols|
    decreases k
  {
    if k <= 1 then g else Put(Links(g, pols, k - 1), pols[k - 2], [pols[k - 1].name])
  }

  lemma {:induction false} LinksConsistent(g: Graph, pols: seq<Node>, k: nat)
    requires k <= |pols| && Consistent(g)
    ensures Consistent(Links(g, pols, k))
    decreases k
  {
    if k > 1 {
      LinksConsistent(g, pols, k - 1);
      PutConsistent(Links(g, pols, k - 1), pols[k - 2], [pols[k - 1].name]);
    }
  }

  /** After the first `k` links: a chain node other than the `k`-th points to
      its successor, and every other entry is as it was. */
  lemma {:induction false} LinksEffect(g: Graph, pols: seq<Node>, k: nat, x: string)
    requires k <= |pols| && DistinctNames(pols)
    ensures HasName(Links(g, pols, k), x) <==>
      HasName(g, x) || exists j :: 0 <= j && j + 1 < k && pols[j].name == x
    ensures forall j :: 0 <= j && j + 1 < k && pols[j].name == x ==>
      Out(Links(g, pols, k), x) == [pols[j + 1].name]
    ensures (forall j :: 0 <= j && j + 1 < k ==> pols[j].name != x) ==>
      Out(Links(g, pols, k), x) == Out(g, x)
    decreases k
  {
    if k > 1 {
      LinksEffect(g, pols, k - 1, x);
    }
  }

  /** With no condition on the chain's names: the first `k` links keep every
      key, add the chain nodes that point onwards, and leave each entry either
      as it was or holding exactly one later chain node. */
  lemma {:induction false} LinksShape(g: Graph, pols: seq<Node>, k: nat)
    requires k <= |pols|
    ensures g.out.Keys <= Links(g, pols, k).out.Keys
    ensures forall j :: 0 <= j && j + 1 < k ==> pols[j].name in Links(g, pols, k).out
    ensures forall x :: x in Links(g, pols, k).out ==>
      (x in g.out && Links(g, pols, k).out[x] == g.out[x]) ||
      exists j :: 1 <= j < k && Links(g, pols, k).out[x] == [pols[j].name]
    decreases k
  {
    if k > 1 {
      LinksShape(g, pols, k - 1);
    }
  }

  /** Splicing the policy chain `pols` of base table `t` into the query:
      `t -> pols[0] -> ... -> pols[-1] -> t's original consumers`. */
  function Spliced(g: Graph, t: string, pols: seq<Node>): (r: Result<Graph>)
    ensures r.Err? <==> t !in g.nodes
  {
    if t !in g.nodes then Err(BaseTableNotInQuery(t))
    else if pols == [] then Ok(g)
    else
      var start := Put(g, g.nodes[t], [pols[0].name]);
      Ok(Put(Links(start, pols, |pols|), pols[|pols| - 1], Out(g, t)))
  }

  lemma SplicedConsistent(g: Graph, t: string, pols: seq<Node>)
    requires Consistent(g) && Spliced(g, t, pols).Ok?
    ensures Consistent(Spliced(g, t, pols).value)
  {
    if pols != [] {
      var start := Put(g, g.nodes[t], [pols[0].name]);
      PutConsistent(g, g.nodes[t], [pols[0].name]);
      LinksConsistent(start, pols, |pols|);
      PutConsistent(Links(start, pols, |pols|), pols[|pols| - 1], Out(g, t));
    }
  }

  /** The splice drops no consumer: the base table now feeds the first policy
      node, each policy node feeds the next, the last one feeds exactly the
      base table's original consumers, and no other entry changes. */
  lemma SplicedEffect(g: Graph, t: string, pols: seq<Node>, x: string)
    requires Consistent(g) && t in g.nodes && pols != [] && ChainOk(t, pols)
    ensures var r := Spliced(g, t, pols).value;
      (HasName(r, x) <==> HasName(g, x) || exists j :: 0 <= j < |pols| && pols[j].name == x) &&
      (x == t ==> Out(r, x) == [pols[0].name]) &&
      (forall j :: 0 <= j < |pols| - 1 && pols[j].name == x ==> Out(r, x) == [pols[j + 1].name]) &&
      (x == pols[|pols| - 1].name ==> Out(r, x) == Out(g, t)) &&
      (x != t && (forall j :: 0 <= j < |pols| ==> pols[j].name != x) ==> Out(r, x) == Out(g, x))
  {
    var start := Put(g, g.nodes[t], [pols[0].name]);
    assert g.nodes[t].name == t;
    LinksEffect(start, pols, |pols|, x);
  }

  /** Each consumer in an out-list of a splice result is a node of it, whatever
      names the chain repeats. */
  lemma SplicedEdge(g: Graph, t: string, pols: seq<Node>, x: string, k: nat)
    requires WellFormed(g) && t in g.nodes && pols != []
    requires x in Spliced(g, t, pols).value.out && k < |Spliced(g, t, pols).value.out[x]|
    ensures Spliced(g, t, pols).value.out[x][k] in Spliced(g, t, pols).value.out
  {
    var start := Put(g, g.nodes[t], [pols[0].name]);
    var links := Links(start, pols, |pols|);
    var last := pols[|pols| - 1];
    var r := Spliced(g, t, pols).value;
    assert r == Put(links, last, Out(g, t));
    LinksShape(start, pols, |pols|);
    assert g.nodes[t].name == t;
    var y := r.out[x][k];
    if x == last.name {
      assert y in g.out[t];
    } else if x in start.out && links.out[x] == start.out[x] {
      if x == t {
        assert y == pols[0].name;
        if 0 < |pols| - 1 {
          assert pols[0].name in links.out;
        }
      }
    } else {
      var j :| 1 <= j < |pols| && links.out[x] == [pols[j].name];
      assert y == pols[j].name;
      if j < |pols| - 1 {
        assert pols[j].name in links.out;
      }
    }
  }

  /** A splice keeps a well-formed query well formed. */
  lemma SplicedWellFormed(g: Graph, t: string, pols: seq<Node>)
    requires WellFormed(g) && t in g.nodes
    ensures WellFormed(Spliced(g, t, pols).value)
  {
    if pols != [] {
      var r := Spliced(g, t, pols).value;
      SplicedConsistent(g, t, pols);
      forall x, k | x in r.out && 0 <= k < |r.out[x]| ensures r.out[x][k] in r.out {
        SplicedEdge(g, t, pols, x, k);
      }
    }
  }

  /** The splice loop over the indexed base tables, in index order. */
  function SplicedFrom(g: Graph, ix: Index, ts: seq<string>): Result<Graph>
    decreases |ts|
  {
    if ts == [] then Ok(g)
    else
      match Spliced(g, ts[0], Get(ix, ts[0]))
      case Err(e) => Err(e)
      case Ok(next) => SplicedFrom(next, ix, ts[1..])
  }

  /** Splicing every indexed table keeps the query consistent, and well formed
      when it was. */
  lemma {:induction false} SplicedFromShape(g: Graph, ix: Index, ts: seq<string>)
    requires Consistent(g) && SplicedFrom(g, ix, ts).Ok?
    ensures Consistent(SplicedFrom(g, ix, ts).value)
    ensures WellFormed(g) ==> WellFormed(SplicedFrom(g, ix, ts).value)
    decreases |ts|
  {
    if ts != [] {
      var next := Spliced(g, ts[0], Get(ix, ts[0])).value;
      SplicedConsistent(g, ts[0], Get(ix, ts[0]));
      if WellFormed(g) {
        SplicedWellFormed(g, ts[0], Get(ix, ts[0]));
      }
      SplicedFromShape(next, ix, ts[1..]);
    }
  }

  /** The `for node, conn in query.items()` scan for the node named `name`. */
  method FindNode(g: Graph, name: string) returns (r: Option<Node>)
    requires Consistent(g)
    ensures r.Some? <==> name in g.nodes
    ensures r.Some? ==> r.value == g.nodes[name]
  {
    r := None;
    for i := 0 to |g.order|
      invariant r.Some? <==> name in g.order[..i]
      invariant r.Some? ==> r.value == g.nodes[name]
    {
      if g.order[i] == name {
        r := Some(g.nodes[name]);
      }
      TakeSnoc(g.order, i);
    }
    assert g.order[..|g.order|] == g.order;
  }

  /** One base table's splice. */
  method Splice(g: Graph, t: string, pols: seq<Node>) returns (r: Result<Graph>)
    requires Consistent(g)
    ensures r == Spliced(g, t, pols)
  {
    var base := FindNode(g, t);
    if base.None? {
      return Err(BaseTableNotInQuery(t));
    }
    var connected := g.out[t];
    if |pols| == 0 {
      return Ok(g);
    }
    var start := Put(g, base.value, [pols[0].name]);
    var q := start;
    var last := pols[0];
    for k := 1 to |pols|
      invariant q == Links(start, pols, k) && last == pols[k - 1]
    {
      q := Put(q, last, [pols[k].name]);
      last := pols[k];
    }
    return Ok(Put(q, last, connected));
  }

  /** The splice loop of `planning`. */
  method SpliceAll(g: Graph, ix: Index) returns (r: Result<Graph>)
    requires Consistent(g)
    ensures r == SplicedFrom(g, ix, ix.tables)
  {
    var cur := g;
    for i := 0 to |ix.tables|
      invariant Consistent(cur)
      invariant SplicedFrom(cur, ix, ix.tables[i..]) == SplicedFrom(g, ix, ix.tables)
    {
      var t := ix.tables[i];
      assert ix.tables[i..][1..] == ix.tables[i + 1..];
      var pols := if t in ix.pols then ix.pols[t] else [];
      var next := Splice(cur, t, pols);
      if next.Err? {
        return next;
      }
      SplicedConsistent(cur, t, pols);
      cur := next.value;
    }
    return Ok(cur);
  }

  /** The push-down loop: moves are made until `make_move` finds none;
      `fuel` bounds the number of moves. */
  function PushedDown(g: Graph, roots: seq<string>, fuel: nat, moveFuel: nat): Result<Graph>
    decreases fuel
  {
    if fuel == 0 then Err(OutOfFuel)
    else
      match MakeMove(g, roots, moveFuel)
      case Err(e) => Err(e)
      case Ok(None) => Ok(g)
      case Ok(Some(r)) => PushedDown(r, roots, fuel - 1, moveFuel)
  }

  /** The loop stops at a fixed point: `make_move` finds nothing, so no root
      of any rootset its search reaches from the base tables can move. */
  lemma {:induction false} PushedDownFixedPoint(g: Graph, roots: seq<string>, fuel: nat, moveFuel: nat)
    requires PushedDown(g, roots, fuel, moveFuel).Ok?
    ensures MakeMove(PushedDown(g, roots, fuel, moveFuel).value, roots, moveFuel) == Ok(None)
    ensures forall n: nat, s :: s in Level(PushedDown(g, roots, fuel, moveFuel).value, roots, n) ==>
      NoneMovable(PushedDown(g, roots, fuel, moveFuel).value, s)
    decreases fuel
  {
    var m := MakeMove(g, roots, moveFuel);
    if m.value.Some? {
      PushedDownFixedPoint(m.value.value, roots, fuel - 1, moveFuel);
    } else {
      MakeMoveNone(g, roots, moveFuel);
    }
  }

  /** Pushing down keeps a well-formed graph well formed. */
  lemma {:induction false} PushedDownWellFormed(g: Graph, roots: seq<string>, fuel: nat, moveFuel: nat)
    requires WellFormed(g) && PushedDown(g, roots, fuel, moveFuel).Ok?
    ensures WellFormed(PushedDown(g, roots, fuel, moveFuel).value)
    decreases fuel
  {
    var m := MakeMove(g, roots, moveFuel);
    if m.value.Some? {
      MakeMoveKeepsShape(g, roots, moveFuel, m.value.value);
      PushedDownWellFormed(m.value.value, roots, fuel - 1, moveFuel);
    }
  }

  /** The `while frontier` loop of `planning`. */
  method PushDown(g: Graph, roots: seq<string>, fuel: nat, moveFuel: nat) returns (r: Result<Graph>)
    requires Consistent(g)
    ensures r == PushedDown(g, roots, fuel, moveFuel)
  {
    var cur := g;
    var left := fuel;
    while left > 0
      invariant Consistent(cur)
      invariant PushedDown(cur, roots, left, moveFuel) == PushedDown(g, roots, fuel, moveFuel)
      decreases left
    {
      var m := MakeMoveSearch(cur, roots, moveFuel);
      if m.Err? {
        return Err(m.error);
      }
      if m.value.None? {
        return Ok(cur);
      }
      MakeMoveKeepsShape(cur, roots, moveFuel, m.value.value);
      cur := m.value.value;
      left := left - 1;
    }
    return Err(OutOfFuel);
  }

  /** `planning(queries, policies)`: the spliced first query, once the
      push-down loop has stopped. */
  function Planned(queries: seq<Graph>, ps: seq<Graph>, fuel: nat, moveFuel: nat): (r: Result<seq<Graph>>)
    requires AllConsistent(ps)
    ensures r.Ok? ==>
      |r.value| == 1 && queries != [] && IndexOf(ps).Ok? &&
      SplicedFrom(queries[0], IndexOf(ps).value, IndexOf(ps).value.tables) == Ok(r.value[0])
    ensures queries == [] && IndexOf(ps).Ok? ==> r == Err(NoQuery)
  {
    match IndexOf(ps)
    case Err(e) => Err(e)
    case Ok(ix) =>
      if queries == [] then Err(NoQuery)
      else
        match SplicedFrom(queries[0], ix, ix.tables)
        case Err(e) => Err(e)
        case Ok(q) =>
          match PushedDown(q, ix.tables, fuel, moveFuel)
          case Err(e) => Err(e)
          case Ok(_) => Ok([q])
  }

  /** Planning a well-formed query yields a well-formed graph. */
  lemma PlannedWellFormed(queries: seq<Graph>, ps: seq<Graph>, fuel: nat, moveFuel: nat)
    requires AllConsistent(ps) && Planned(queries, ps, fuel, moveFuel).Ok?
    requires WellFormed(queries[0])
    ensures WellFormed(Planned(queries, ps, fuel, moveFuel).value[0])
  {
    var ix := IndexOf(ps).value;
    SplicedFromShape(queries[0], ix, ix.tables);
  }

  /** `planning`. */
  method Planning(queries: seq<Graph>, ps: seq<Graph>, fuel: nat, moveFuel: nat) returns (r: Result<seq<Graph>>)
    requires AllConsistent(ps)
    requires queries != [] ==> Consistent(queries[0])
    ensures r == Planned(queries, ps, fuel, moveFuel)
  {
    var ix := IndexPolicies(ps);
    if ix.Err? {
      return Err(ix.error);
    }
    if |queries| == 0 {
      return Err(NoQuery);
    }
    var query := SpliceAll(queries[0], ix.value);
    if query.Err? {
      return Err(query.error);
    }
    SplicedFromShape(queries[0], ix.value, ix.value.tables);
    var fixed := PushDown(query.value, ix.value.tables, fuel, moveFuel);
    if fixed.Err? {
      return Err(fixed.error);
    }
    return Ok([query.value]);
  }
}
