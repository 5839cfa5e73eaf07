/** Pushing a policy node past its consumers: `swap_nodes`, `inject_node`
    and one `make_move` search over the plan graph. */
module Moves {
  import opened Common
  import opened Graphs
  import opened Oracle

  /** The comprehension of `swap_nodes` on one out-list: `a` becomes `b`. */
  function Rename(out: seq<string>, a: string, b: string): (r: seq<string>)
    ensures |r| == |out|
    ensures forall k :: 0 <= k < |r| && out[k] != a ==> r[k] == out[k]
    ensures forall k :: 0 <= k < |r| && out[k] == a ==> r[k] == b
  {
    seq(|out|, k requires 0 <= k < |out| => if out[k] == a then b else out[k])
  }

  /** An out-list without `a` is left as it is. */
  lemma RenameAbsent(out: seq<string>, a: string, b: string)
    requires a !in out
    ensures Rename(out, a, b) == out
  {
  }

  /** After the rewrite no `a` is left, unless `a` is `b` itself. */
  lemma RenameRemoves(out: seq<string>, a: string, b: string)
    requires a != b
    ensures a !in Rename(out, a, b)
  {
    var r := Rename(out, a, b);
    forall k | 0 <= k < |r| ensures r[k] != a {
    }
  }

  /** Every out-list of the graph rewritten. */
  function RenameAll(g: Graph, a: string, b: string): Graph {
    g.(out := map x | x in g.out :: Rename(g.out[x], a, b))
  }

  /** `swap_nodes(graph, a, b)`: whoever pointed to `a` now points to `b`,
      and `a` takes over `b`'s (rewritten) out-list; `b` must be a node. */
  function Swap(g: Graph, a: Node, b: string): (r: Result<Graph>)
    ensures r.Err? <==> b !in g.out
    ensures r.Err? ==> r.error == MissingNode(b)
  {
    var renamed := RenameAll(g, a.name, b);
    if b in renamed.out then Ok(Put(renamed, a, renamed.out[b])) else Err(MissingNode(b))
  }

  /** What a swap does to the entry under `x`: `a`'s entry becomes `b`'s
      out-list; any other entry keeps its length, and exactly its `a`s
      become `b`s. */
  lemma SwapEffect(g: Graph, a: Node, b: string, x: string)
    requires Swap(g, a, b).Ok?
    ensures var r := Swap(g, a, b).value;
      (HasName(r, x) <==> HasName(g, x) || x == a.name) &&
      (x == a.name ==> Out(r, x) == Rename(Out(g, b), a.name, b) && r.nodes[x] == a) &&
      (x != a.name ==> |Out(r, x)| == |Out(g, x)|) &&
      (x != a.name ==> forall k :: 0 <= k < |Out(g, x)| ==>
        Out(r, x)[k] == if Out(g, x)[k] == a.name then b else Out(g, x)[k]) &&
      (x != a.name && x in g.nodes ==> r.nodes[x] == g.nodes[x])
  {
  }

  /** A swap keeps the dictionary consistent. */
  lemma SwapConsistent(g: Graph, a: Node, b: string)
    requires Consistent(g) && Swap(g, a, b).Ok?
    ensures Consistent(Swap(g, a, b).value)
  {
    var renamed := RenameAll(g, a.name, b);
    assert Consistent(renamed);
    PutConsistent(renamed, a, renamed.out[b]);
  }

  /** A swap keeps the graph well formed. */
  lemma SwapWellFormed(g: Graph, a: Node, b: string)
    requires WellFormed(g) && Swap(g, a, b).Ok?
    ensures WellFormed(Swap(g, a, b).value)
  {
    var renamed := RenameAll(g, a.name, b);
    assert Consistent(renamed);
    forall x, k | x in renamed.out && 0 <= k < |renamed.out[x]| ensures renamed.out[x][k] in renamed.out {
      assert g.out[x][k] in g.out;
    }
    PutWellFormed(renamed, a, renamed.out[b]);
  }

  /** The out-lists of the keys in `ks` rewritten, the others untouched. */
  function RenameSome(g: Graph, a: string, b: string, ks: seq<string>): Graph {
    g.(out := map x | x in g.out :: if x in ks then Rename(g.out[x], a, b) else g.out[x])
  }

  /** Rewriting one more key. */
  lemma RenameSomeStep(g: Graph, a: string, b: string, ks: seq<string>, x: string)
    requires x in g.out && x !in ks
    ensures RenameSome(g, a, b, ks + [x]) ==
      RenameSome(g, a, b, ks).(out := RenameSome(g, a, b, ks).out[x := Rename(g.out[x], a, b)])
  {
  }

  /** Rewriting every key in dictionary order is the whole rewrite. */
  lemma RenameSomeAll(g: Graph, a: string, b: string)
    requires Consistent(g)
    ensures RenameSome(g, a, b, g.order) == RenameAll(g, a, b)
  {
  }

  /** One pass of the rewriting loop: the entry under `x`, rewritten only
      when it holds an `a`. */
  method RewriteEntry(g: Graph, a: string, b: string, ghost ks: seq<string>, cur: Graph, x: string)
    returns (next: Graph)
    requires x in g.out && x !in ks && cur == RenameSome(g, a, b, ks)
    ensures next == RenameSome(g, a, b, ks + [x])
  {
    RenameSomeStep(g, a, b, ks, x);
    if a in cur.out[x] {
      next := cur.(out := cur.out[x := Rename(cur.out[x], a, b)]);
    } else {
      RenameAbsent(cur.out[x], a, b);
      MapSameUpdate(cur.out, x);
      next := cur;
    }
  }

  /** The rewriting loop of `swap_nodes`, one key at a time in dictionary
      order, then `graph[a] = graph[b]`. */
  method SwapNodes(g: Graph, a: Node, b: string) returns (r: Result<Graph>)
    requires Consistent(g)
    ensures r == Swap(g, a, b)
  {
    var cur := g;
    assert RenameSome(g, a.name, b, g.order[..0]).out == g.out;
    for i := 0 to |g.order|
      invariant cur == RenameSome(g, a.name, b, g.order[..i])
    {
      NoDupAt(g.order, i);
      cur := RewriteEntry(g, a.name, b, g.order[..i], cur, g.order[i]);
      TakeSnoc(g.order, i);
    }
    assert g.order[..|g.order|] == g.order;
    RenameSomeAll(g, a.name, b);
    if b !in cur.out {
      return Err(MissingNode(b));
    }
    return Ok(Put(cur, a, cur.out[b]));
  }

  /** `inject_node(graph, a, b)`: `graph[a] = b`, and nothing else changes. */
  function InjectNode(g: Graph, a: Node, b: seq<string>): (r: Graph)
    ensures HasName(r, a.name) && Out(r, a.name) == b && a.name in r.nodes && r.nodes[a.name] == a
    ensures forall x :: x != a.name ==> (HasName(r, x) <==> HasName(g, x)) && Out(r, x) == Out(g, x)
    ensures forall x :: x != a.name && x in g.nodes ==> x in r.nodes && r.nodes[x] == g.nodes[x]
  {
    Put(g, a, b)
  }

  /** Every consumer in `cs` is a node that commutes with `node`. */
  predicate AllCommute(g: Graph, node: Node, cs: seq<string>) {
    forall k :: 0 <= k < |cs| ==> cs[k] in g.nodes && Commute(node, g.nodes[cs[k]]) == Ok(true)
  }

  /** The `num_commutative` counter over the consumers `cs`, stopping at the
      first consumer that is missing or that the oracle cannot judge. */
  function Count(g: Graph, node: Node, cs: seq<string>): (r: Result<nat>)
    ensures r.Ok? ==> r.value <= |cs|
    decreases |cs|
  {
    if cs == [] then Ok(0)
    else
      match Count(g, node, cs[..|cs| - 1])
      case Err(e) => Err(e)
      case Ok(n) =>
        var c := cs[|cs| - 1];
        if c !in g.nodes then Err(MissingNode(c))
        else
          match Commute(node, g.nodes[c])
          case Err(e) => Err(e)
          case Ok(v) => Ok(if v then n + 1 else n)
  }

  /** The counter reaches the number of consumers exactly when all of them commute. */
  lemma {:induction false} CountAll(g: Graph, node: Node, cs: seq<string>)
    ensures Count(g, node, cs) == Ok(|cs|) <==> AllCommute(g, node, cs)
    decreases |cs|
  {
    if cs != [] {
      var front := cs[..|cs| - 1];
      CountAll(g, node, front);
      if AllCommute(g, node, cs) {
        assert AllCommute(g, node, front) by {
          forall k | 0 <= k < |front| ensures front[k] in g.nodes && Commute(node, g.nodes[front[k]]) == Ok(true) {
            assert front[k] == cs[k];
          }
        }
      }
      if Count(g, node, cs) == Ok(|cs|) {
        forall k | 0 <= k < |cs| ensures cs[k] in g.nodes && Commute(node, g.nodes[cs[k]]) == Ok(true) {
          if k < |front| {
            assert front[k] == cs[k];
          }
        }
      }
    }
  }

  /** Once the counter fails on a prefix, it fails the same way on the whole list. */
  lemma {:induction false} CountErrKeeps(g: Graph, node: Node, cs: seq<string>, i: nat)
    requires i <= |cs| && Count(g, node, cs[..i]).Err?
    ensures Count(g, node, cs) == Count(g, node, cs[..i])
    decreases |cs| - i
  {
    if i < |cs| {
      assert cs[..i + 1][..i] == cs[..i];
      CountErrKeeps(g, node, cs, i + 1);
    } else {
      assert cs[..i] == cs;
    }
  }

  /** The counting loop of `make_move`. */
  method CountCommuting(g: Graph, node: Node, cs: seq<string>) returns (r: Result<nat>)
    ensures r == Count(g, node, cs)
  {
    var n := 0;
    for i := 0 to |cs|
      invariant Count(g, node, cs[..i]) == Ok(n)
    {
      var c := cs[i];
      assert cs[..i + 1][..i] == cs[..i];
      if c !in g.nodes {
        CountErrKeeps(g, node, cs, i + 1);
        return Err(MissingNode(c));
      }
      var v := Commute(node, g.nodes[c]);
      if v.Err? {
        CountErrKeeps(g, node, cs, i + 1);
        return Err(v.error);
      }
      if v.value {
        n := n + 1;
      }
    }
    assert cs[..|cs|] == cs;
    return Ok(n);
  }

  /** Whether the node named `root` can be pushed below its consumers. A root
      that is missing, a base table, or without consumers is skipped. */
  function Movable(g: Graph, root: string): Result<bool> {
    if root !in g.nodes || g.nodes[root].kind.Source? || Out(g, root) == [] then Ok(false)
    else
      match Count(g, g.nodes[root], Out(g, root))
      case Err(e) => Err(e)
      case Ok(n) => Ok(n == |Out(g, root)|)
  }

  /** A root moves exactly when it is an operator with consumers, all of which commute with it. */
  lemma MovableMeaning(g: Graph, root: string)
    ensures Movable(g, root) == Ok(true) <==>
      root in g.nodes && !g.nodes[root].kind.Source? && Out(g, root) != [] &&
      AllCommute(g, g.nodes[root], Out(g, root))
  {
    if root in g.nodes {
      CountAll(g, g.nodes[root], Out(g, root));
    }
  }

  /** The swap a movable root makes: with the last of its consumers. */
  function MoveOf(g: Graph, root: string): Result<Graph>
    requires root in g.nodes && Out(g, root) != []
  {
    Swap(g, g.nodes[root], Out(g, root)[|Out(g, root)| - 1])
  }

  /** `r` is the outcome of pushing some movable root below its last consumer. */
  ghost predicate IsMove(g: Graph, r: Graph) {
    exists root :: Movable(g, root) == Ok(true) && MoveOf(g, root) == Ok(r)
  }

  /** One rootset of the frontier: every root is judged in turn, and the
      swap of the last movable one is kept. */
  function Scan(g: Graph, rs: seq<string>): Result<Option<Graph>>
    decreases |rs|
  {
    if rs == [] then Ok(None)
    else
      match Scan(g, rs[..|rs| - 1])
      case Err(e) => Err(e)
      case Ok(found) =>
        var root := rs[|rs| - 1];
        match Movable(g, root)
        case Err(e) => Err(e)
        case Ok(m) =>
          if !m then Ok(found)
          else
            match MoveOf(g, root)
            case Err(e) => Err(e)
            case Ok(r) => Ok(Some(r))
  }

  /** Whatever a rootset's scan keeps is a move of the graph. */
  lemma {:induction false} ScanSound(g: Graph, rs: seq<string>)
    ensures Scan(g, rs).Ok? && Scan(g, rs).value.Some? ==> IsMove(g, Scan(g, rs).value.value)
    decreases |rs|
  {
    if rs != [] {
      ScanSound(g, rs[..|rs| - 1]);
    }
  }

  /** No root of the rootset can move. */
  predicate NoneMovable(g: Graph, rs: seq<string>) {
    forall i :: 0 <= i < |rs| ==> Movable(g, rs[i]) == Ok(false)
  }

  /** A scan keeps nothing exactly when every root is judged and none can move. */
  lemma {:induction false} ScanNone(g: Graph, rs: seq<string>)
    ensures Scan(g, rs) == Ok(None) <==> NoneMovable(g, rs)
    decreases |rs|
  {
    if rs != [] {
      var init := rs[..|rs| - 1];
      ScanNone(g, init);
      assert forall i :: 0 <= i < |init| ==> init[i] == rs[i];
      if NoneMovable(g, rs) {
        assert NoneMovable(g, init);
      }
    }
  }

  /** The `i`-th root can move, `r` is its swap, and no later root of the set can move. */
  predicate LastMove(g: Graph, rs: seq<string>, i: nat, r: Graph) {
    i < |rs| && Movable(g, rs[i]) == Ok(true) && MoveOf(g, rs[i]) == Ok(r) && NoneMovable(g, rs[i + 1..])
  }

  /** A rootset with no movable root stays so when an immovable root is added. */
  lemma NoneMovableSnoc(g: Graph, rs: seq<string>, x: string)
    requires NoneMovable(g, rs) && Movable(g, x) == Ok(false)
    ensures NoneMovable(g, rs + [x])
  {
    forall i | 0 <= i < |rs + [x]| ensures Movable(g, (rs + [x])[i]) == Ok(false) {
      if i < |rs| {
        assert (rs + [x])[i] == rs[i];
      }
    }
  }

  /** The last movable root stays the last one when an immovable root is added. */
  lemma LastMoveSnoc(g: Graph, rs: seq<string>, x: string, i: nat, r: Graph)
    requires LastMove(g, rs, i, r) && Movable(g, x) == Ok(false)
    ensures LastMove(g, rs + [x], i, r)
  {
    NoneMovableSnoc(g, rs[i + 1..], x);
    assert (rs + [x])[i + 1..] == rs[i + 1..] + [x];
    assert (rs + [x])[i] == rs[i];
  }

  /** The swap a scan keeps comes from its last root when that root can move,
      and from the rest of the rootset otherwise. */
  lemma ScanSnoc(g: Graph, rs: seq<string>, r: Graph)
    requires Scan(g, rs) == Ok(Some(r))
    ensures rs != []
    ensures Movable(g, rs[|rs| - 1]) == Ok(true) ==> MoveOf(g, rs[|rs| - 1]) == Ok(r)
    ensures Movable(g, rs[|rs| - 1]) != Ok(true) ==>
      Movable(g, rs[|rs| - 1]) == Ok(false) && Scan(g, rs[..|rs| - 1]) == Ok(Some(r))
  {
  }

  /** A scan that keeps a swap keeps the one of the last movable root: the
      loop has no `break`, so later movable roots overwrite earlier ones. */
  lemma {:induction false} ScanLast(g: Graph, rs: seq<string>, r: Graph) returns (i: nat)
    requires Scan(g, rs) == Ok(Some(r))
    ensures LastMove(g, rs, i, r)
    decreases |rs|
  {
    ScanSnoc(g, rs, r);
    var init := rs[..|rs| - 1];
    var last := rs[|rs| - 1];
    if Movable(g, last) == Ok(true) {
      i := |rs| - 1;
      assert rs[i + 1..] == [];
    } else {
      i := ScanLast(g, init, r);
      LastMoveSnoc(g, init, last, i, r);
      assert init + [last] == rs;
    }
  }

  /** The next rootsets: the out-list of every root of the set that is a node,
      in root order; a root that is not a node adds none. */
  function Children(g: Graph, rs: seq<string>): (r: seq<seq<string>>)
    ensures |r| <= |rs|
    ensures forall s :: s in r <==> exists i :: 0 <= i < |rs| && rs[i] in g.out && s == g.out[rs[i]]
    decreases |rs|
  {
    if rs == [] then []
    else
      var init := rs[..|rs| - 1];
      var last := rs[|rs| - 1];
      var r := Children(g, init) + (if last in g.out then [g.out[last]] else []);
      assert forall i :: 0 <= i < |init| ==> init[i] == rs[i];
      r
  }

  /** The `while inner_frontier` loop, breadth first over rootsets; `fuel`
      bounds the number of rootsets examined. */
  function MoveFrom(g: Graph, frontier: seq<seq<string>>, fuel: nat): Result<Option<Graph>>
    decreases fuel
  {
    if frontier == [] then Ok(None)
    else if fuel == 0 then Err(OutOfFuel)
    else
      match Scan(g, frontier[0])
      case Err(e) => Err(e)
      case Ok(Some(r)) => Ok(Some(r))
      case Ok(None) => MoveFrom(g, frontier[1..] + Children(g, frontier[0]), fuel - 1)
  }

  /** `make_move(graph, roots)`. */
  function MakeMove(g: Graph, roots: seq<string>, fuel: nat): Result<Option<Graph>> {
    MoveFrom(g, [roots], fuel)
  }

  /** A move is made only by a root all of whose consumers commute with it. */
  lemma {:induction false} MoveFromSound(g: Graph, frontier: seq<seq<string>>, fuel: nat)
    ensures MoveFrom(g, frontier, fuel).Ok? && MoveFrom(g, frontier, fuel).value.Some? ==>
      IsMove(g, MoveFrom(g, frontier, fuel).value.value)
    decreases fuel
  {
    if frontier != [] && fuel > 0 {
      ScanSound(g, frontier[0]);
      MoveFromSound(g, frontier[1..] + Children(g, frontier[0]), fuel - 1);
    }
  }

  /** The rootsets the frontier reaches from `roots` after `n` extensions. */
  ghost function Level(g: Graph, roots: seq<string>, n: nat): set<seq<string>>
  {
    if n == 0 then {roots}
    else set s, c | s in Level(g, roots, n - 1) && c in Children(g, s) :: c
  }

  /** A set of rootsets none of whose roots can move, closed under `Children`. */
  ghost predicate Explored(g: Graph, done: set<seq<string>>) {
    forall s :: s in done ==> NoneMovable(g, s) && forall c :: c in Children(g, s) ==> c in done
  }

  /** A search that ends with nothing has explored, without finding a movable
      root, a closed set of rootsets holding its whole frontier. Running out
      of fuel is `OutOfFuel`, never `None`. */
  lemma {:induction false} MoveFromNone(g: Graph, frontier: seq<seq<string>>, fuel: nat)
    requires MoveFrom(g, frontier, fuel) == Ok(None)
    ensures exists done :: Explored(g, done) && forall k :: 0 <= k < |frontier| ==> frontier[k] in done
    decreases fuel
  {
    if frontier == [] {
      assert Explored(g, {});
    } else {
      var first := frontier[0];
      ScanNone(g, first);
      var next := frontier[1..] + Children(g, first);
      MoveFromNone(g, next, fuel - 1);
      var done :| Explored(g, done) && forall k :: 0 <= k < |next| ==> next[k] in done;
      forall c | c in Children(g, first) ensures c in done {
        var k :| 0 <= k < |Children(g, first)| && Children(g, first)[k] == c;
        assert next[|frontier| - 1 + k] == c;
      }
      var more := done + {first};
      assert Explored(g, more);
      forall k | 0 <= k < |frontier| ensures frontier[k] in more {
        if k > 0 {
          assert frontier[k] == next[k - 1];
        }
      }
    }
  }

  lemma {:induction false} LevelExplored(g: Graph, roots: seq<string>, done: set<seq<string>>, n: nat)
    requires Explored(g, done) && roots in done
    ensures Level(g, roots, n) <= done
  {
    if n > 0 {
      LevelExplored(g, roots, done, n - 1);
    }
  }

  /** `make_move` returns None only when no root of any rootset the search
      reaches, at any depth, can move. */
  lemma MakeMoveNone(g: Graph, roots: seq<string>, fuel: nat)
    requires MakeMove(g, roots, fuel) == Ok(None)
    ensures forall n: nat, s :: s in Level(g, roots, n) ==> NoneMovable(g, s)
  {
    MoveFromNone(g, [roots], fuel);
    var done :| Explored(g, done) && forall k :: 0 <= k < |[roots]| ==> [roots][k] in done;
    assert roots == [roots][0];
    forall n: nat, s | s in Level(g, roots, n) ensures NoneMovable(g, s) {
      LevelExplored(g, roots, done, n);
    }
  }

  /** The conditions of a move, spelled out: the root is an operator node,
      it has consumers, all of them commute with it, and the graph returned
      is its swap with the last of them. */
  lemma MakeMoveSound(g: Graph, roots: seq<string>, fuel: nat, r: Graph)
    requires MakeMove(g, roots, fuel) == Ok(Some(r))
    ensures exists root ::
      (root in g.nodes && !g.nodes[root].kind.Source? && Out(g, root) != [] &&
       AllCommute(g, g.nodes[root], Out(g, root)) && MoveOf(g, root) == Ok(r))
  {
    MoveFromSound(g, [roots], fuel);
    var root :| Movable(g, root) == Ok(true) && MoveOf(g, root) == Ok(r);
    MovableMeaning(g, root);
  }

  /** Once a scan fails on a prefix, it fails the same way on the whole rootset. */
  lemma {:induction false} ScanErrKeeps(g: Graph, rs: seq<string>, i: nat)
    requires i <= |rs| && Scan(g, rs[..i]).Err?
    ensures Scan(g, rs) == Scan(g, rs[..i])
    decreases |rs| - i
  {
    if i < |rs| {
      assert rs[..i + 1][..i] == rs[..i];
      ScanErrKeeps(g, rs, i + 1);
    } else {
      assert rs[..i] == rs;
    }
  }

  /** A move keeps the dictionary consistent, and a well-formed graph well formed. */
  lemma MakeMoveKeepsShape(g: Graph, roots: seq<string>, fuel: nat, r: Graph)
    requires MakeMove(g, roots, fuel) == Ok(Some(r))
    ensures Consistent(g) ==> Consistent(r)
    ensures WellFormed(g) ==> WellFormed(r)
  {
    MoveFromSound(g, [roots], fuel);
    var root :| Movable(g, root) == Ok(true) && MoveOf(g, root) == Ok(r);
    MovableMeaning(g, root);
    var last := Out(g, root)[|Out(g, root)| - 1];
    if Consistent(g) {
      SwapConsistent(g, g.nodes[root], last);
    }
    if WellFormed(g) {
      SwapWellFormed(g, g.nodes[root], last);
    }
  }

  /** The scan of one rootset. */
  method ScanRootset(g: Graph, rs: seq<string>) returns (r: Result<Option<Graph>>)
    requires Consistent(g)
    ensures r == Scan(g, rs)
  {
    var found: Option<Graph> := None;
    for i := 0 to |rs|
      invariant Scan(g, rs[..i]) == Ok(found)
    {
      var root := rs[i];
      assert rs[..i + 1][..i] == rs[..i];
      assert rs[..i + 1][i] == root;
      if root !in g.nodes || g.nodes[root].kind.Source? || Out(g, root) == [] {
        continue;
      }
      var connected := g.out[root];
      var n := CountCommuting(g, g.nodes[root], connected);
      if n.Err? {
        ScanErrKeeps(g, rs, i + 1);
        return Err(n.error);
      }
      if n.value == |connected| {
        var swapped := SwapNodes(g, g.nodes[root], connected[|connected| - 1]);
        if swapped.Err? {
          ScanErrKeeps(g, rs, i + 1);
          return Err(swapped.error);
        }
        found := Some(swapped.value);
      }
    }
    assert rs[..|rs|] == rs;
    return Ok(found);
  }

  /** The next rootsets of a scanned set. */
  method ChildrenOf(g: Graph, rs: seq<string>) returns (r: seq<seq<string>>)
    ensures r == Children(g, rs)
  {
    r := [];
    for i := 0 to |rs|
      invariant r == Children(g, rs[..i])
    {
      assert rs[..i + 1][..i] == rs[..i];
      if rs[i] in g.out {
        r := r + [g.out[rs[i]]];
      }
    }
    assert rs[..|rs|] == rs;
  }

  /** `make_move`: a breadth-first search for a movable root, starting from `roots`. */
  method MakeMoveSearch(g: Graph, roots: seq<string>, fuel: nat) returns (r: Result<Option<Graph>>)
    requires Consistent(g)
    ensures r == MakeMove(g, roots, fuel)
  {
    var frontier := [roots];
    var left := fuel;
    while frontier != []
      invariant MoveFrom(g, frontier, left) == MakeMove(g, roots, fuel)
      decreases left
    {
      if left == 0 {
        return Err(OutOfFuel);
      }
      var rootset := frontier[0];
      frontier := frontier[1..];
      var found := ScanRootset(g, rootset);
      if found.Err? {
        return Err(found.error);
      }
      if found.value.Some? {
        return found;
      }
      var next := ChildrenOf(g, rootset);
      frontier := frontier + next;
      left := left - 1;
    }
    return Ok(None);
  }
}
