# Policy-placement planning prototype, modelled in Dafny

The prototype compiles privacy policies and queries, both written as chains of
Filter, Transform and Aggregate specifications, into *plan graphs*. A plan
graph is a dictionary from operator nodes to the ordered list of the nodes
that consume their output. The prototype then places the policy operators
inside the query graph. This project models three parts of it, each in the
form the Python code has:

- **The schema loader** (`load_schema`): reads `CREATE TABLE` header lines
  and backtick-quoted column lines into a table → columns catalog. Module
  `Schema`; the loop is the method `Schema.LoadSchema`.
- **The dataflow builder** (`Filter/Transform/Aggregate.to_dataflow`,
  `Function.to_dataflow`).
  - It resolves the input names against the schema and the views built so far.
  - It expands a k-predicate Filter or Transform into a chain of k nodes.
  - It reads upstream tables out of the predicate text and appends each new
    node to its upstream nodes' out-lists.
  - Modules `Graphs` (the dictionary) and `Dataflow`. The loops are methods,
    each proved equal to a specification function. The lemmas state the
    properties of those functions.
- **The planner** (`check_commutativity`, `swap_nodes`, `inject_node`,
  `make_move`, `planning`).
  - `Oracle` is the pure commutativity decision table.
  - `Moves` holds the swap and the breadth-first search for a policy node
    that commutes with all of its consumers.
  - `Planning` indexes policy nodes by base table, splices each table's
    policy chain between the table and its consumers, and runs the
    push-down loop.

`Common` holds the `Result`/`Option` types and the error variants. Every
Python exception the core can raise is an `Err` value: `NotImplementedError`,
a failed tuple unpack of `split`, a `KeyError`, an `IndexError`, the
`TypeError` of iterating over a missing `basetables` list, and the
`UnboundLocalError` of the as-written aggregate rule
(`Oracle.AggregateRuleAsWritten`).
`Strings` models the handful of Python string operations the core uses:
`in`, `split`, `replace`, `strip` and `str(n)`.

The dictionary is keyed by node name. `Graph.order` keeps the insertion order,
`Graph.nodes` the record stored under each name and `Graph.out` the
out-lists. The Python code mutates the shared dictionary in place. Here each
operation takes a graph and returns the new one.

Where the code and its description disagree, the model follows the code:

- Filter and Transform take their upstream tables from the predicate text,
  not from the spec's input list (planning-prototype/dataflow.py:38-48 and
  126-140).
- `planning` returns the spliced query, not the pushed-down graph
  (planning-prototype/planning.py:221-224).
- A Filter or Transform with an empty predicate list creates no node of its
  own: only its inputs are resolved (planning-prototype/dataflow.py:30-50).
  `Dataflow.BuildChainKeys` states that the new keys are exactly the chain
  names, none when there are no predicates.
- A base table named by a later operation gets a second node object in
  Python, while the first keeps its consumers
  (planning-prototype/dataflow.py:21-22, 109-110, 184-185). The model reuses the entry
  of that name; see "## Left out".

Where the planner's code cannot run as written, the model follows the evident
intent, and "## Left out" lists each such place.

## Model

| member | source | states |
|---|---|---|
| Strings.Split | planning-prototype/dataflow.py:38 | `split(sep)` yields one piece exactly when `sep` does not occur, and then the whole text |
| Strings.JoinSplit | planning-prototype/dataflow.py:38 | joining the pieces of a split with the separator gives back the text |
| Strings.SplitPartsFree | planning-prototype/dataflow.py:38 | no piece of a split contains the separator |
| Strings.SplitSingle | planning-prototype/planning.py:17 | `a.b` with no `.` in `a` or `b` splits into exactly `[a, b]` |
| Strings.Without | planning-prototype/dataflow.py:18 | `replace(c, '')` leaves no `c`, and leaves a text without `c` unchanged |
| Strings.NatToStringInjective | planning-prototype/dataflow.py:33-34 | distinct indices print differently, so chain node names never collide |
| Schema.HeaderName | planning-prototype/prototype.py:22-23 | a header yields a table name exactly when it contains `TABLE` |
| Schema.ColumnName | planning-prototype/prototype.py:26-27 | a column name never contains a backtick |
| Schema.Classify | planning-prototype/prototype.py:21-30 | a line is a header iff it contains `CREATE`; a column line iff it is not a header and its stripped form starts with a backtick; otherwise ignored |
| Schema.LoadSchema | planning-prototype/prototype.py:19-32 | the line loop computes exactly the catalog of the line-by-line fold |
| Schema.RunKeepsRecentKnown | planning-prototype/prototype.py:19-28 | the most recent table is always a key of the catalog |
| Schema.HeaderStartsTable | planning-prototype/prototype.py:21-24 | a header without `TABLE` fails; otherwise it makes its table the most recent one, resets its columns to empty and leaves every other table alone |
| Schema.ColumnExtendsRecent | planning-prototype/prototype.py:25-28 | a column line before any header fails; otherwise it appends its name to the most recent table only |
| Schema.IgnoredLinesChangeNothing | planning-prototype/prototype.py:29-30 | lines that are neither headers nor column lines leave the state unchanged |
| Schema.ColumnsInFileOrder | planning-prototype/prototype.py:25-28 | a run of column lines appends their names to the recent table in file order |
| Schema.SingleTable | planning-prototype/prototype.py:20-28 | a header followed by column lines gives a one-table catalog listing exactly those columns in order |
| Schema.ColumnBeforeAnyHeaderFails | planning-prototype/prototype.py:19-28 | a column line preceded only by ignored lines makes the load fail at that line |
| Schema.IgnoredPrefixThenColumn | planning-prototype/prototype.py:19-30 | the same, for classified lines starting at any line number |
| Graphs.PutConsistent | planning-prototype/dataflow.py:36 | `graph[node] = out` keeps the dictionary consistent: one record per name, each key listed once in insertion order |
| Graphs.PutWellFormed | planning-prototype/dataflow.py:23-26 | overwriting or adding an entry whose out-list names nodes keeps every out-list inside the graph |
| Graphs.AppendWhereWellFormed | planning-prototype/dataflow.py:58-63 | appending a consumer that is a node keeps the graph well formed |
| Graphs.AppendWhereUnion | planning-prototype/dataflow.py:58-63 | appending for a set and then for one more name equals appending for the union, so set order does not matter |
| Graphs.AppendToNamed | planning-prototype/dataflow.py:60-64 | the scan over the keys appends the consumer to the entry with that name and reports whether one exists |
| Dataflow.ViewFrom | planning-prototype/dataflow.py:20-25 | `index` finds the first view with the name, or reports that none has it |
| Dataflow.InputNode | planning-prototype/dataflow.py:17-28 | a schema table resolves to a fresh source node; otherwise an earlier view with that name is reused; otherwise nothing |
| Dataflow.ResolveAllMeaning | planning-prototype/dataflow.py:17-28 | resolution fails iff some input, `$` removed, resolves to nothing; otherwise it gives one node per input in order |
| Dataflow.ResetAllEffect | planning-prototype/dataflow.py:17-28 | every input gets a node; a base table that already had a node keeps its consumers, a new node starts with none, a reused view loses its consumers, and no other entry changes |
| Dataflow.ResetAllWellFormed | planning-prototype/dataflow.py:17-28 | resolving inputs keeps the graph well formed |
| Dataflow.ResolveInputs | planning-prototype/dataflow.py:104-115 | the input loop computes exactly the resolution function; the Transform variant strips `$` from view names |
| Dataflow.ChainNamesDistinct | planning-prototype/dataflow.py:31-34 | the k names of a chain are pairwise different |
| Dataflow.ChainNode | planning-prototype/dataflow.py:31-35 | the i-th chain node is named `view + str(i)`, the last one the bare view name |
| Dataflow.OperandTable | planning-prototype/dataflow.py:41-42 | an operand yields a table exactly when it splits on `.` into two parts |
| Dataflow.OperandTables | planning-prototype/dataflow.py:40-48 | an operand without `.` contributes no table; a dotted one contributes its table or fails |
| Dataflow.DottedTables | planning-prototype/dataflow.py:40-48 | a table is upstream exactly when it is the table of a dotted operand on either side; the parse fails exactly when a dotted operand does not split into two parts |
| Dataflow.FilterUpstream | planning-prototype/dataflow.py:38-48 | a predicate that does not split on `IN` into two parts fails; only the first predicate contributes tables |
| Dataflow.TransformUpstream | planning-prototype/dataflow.py:126-140 | `IN` predicates contribute both operands' tables; `=>` predicates the left operand's table; others none |
| Dataflow.LinkMeaning | planning-prototype/dataflow.py:58-67 | linking fails iff an upstream name has no node; otherwise exactly the upstream out-lists get the new node appended |
| Dataflow.LinkOne | planning-prototype/dataflow.py:59-64 | one pass of the upstream loop appends under one more name and reports whether it exists |
| Dataflow.LinkUpstream | planning-prototype/dataflow.py:58-67 | the upstream loop, in any set order, computes exactly the link function |
| Dataflow.ChainPlan | planning-prototype/dataflow.py:30-48 | a k-predicate spec plans k nodes, each with its upstream parse |
| Dataflow.ChainPlanDistinct | planning-prototype/dataflow.py:31-34 | the planned chain nodes have distinct names |
| Dataflow.StepNames | planning-prototype/dataflow.py:36-67 | a predicate step keeps every node and adds its own |
| Dataflow.StepWellFormed | planning-prototype/dataflow.py:36-67 | a predicate step keeps the graph well formed |
| Dataflow.ChainViews | planning-prototype/dataflow.py:50 | the chain appends exactly its nodes to the views, in predicate order |
| Dataflow.ChainNodesPresent | planning-prototype/dataflow.py:36 | every chain node, and every node present before, is in the final graph |
| Dataflow.StepKeys | planning-prototype/dataflow.py:35 | one iteration adds its own node to the keys and no other |
| Dataflow.ChainKeys | planning-prototype/dataflow.py:30-67 | the predicate loop adds exactly the chain's node names to the keys |
| Dataflow.ChainWellFormed | planning-prototype/dataflow.py:30-67 | the predicate loop keeps the graph well formed |
| Dataflow.ChainKeepsConsumer | planning-prototype/dataflow.py:58-67 | a consumer already listed under a non-chain node stays listed |
| Dataflow.ChainLinksPredecessor | planning-prototype/dataflow.py:52-56 | after step i, node i is a consumer of node i-1 |
| Dataflow.ChainPredecessorEdges | planning-prototype/dataflow.py:52-67 | every chain node after the first is a consumer of its predecessor in the final graph |
| Dataflow.AggregateSource | planning-prototype/dataflow.py:192-198 | no `.` in `operation_on` means no node; one `.` yields the table before it; several fail |
| Dataflow.Build | planning-prototype/dataflow.py:15-69 | a successful build has resolved its inputs; an Aggregate with a predicate list always fails |
| Dataflow.BuildChainViews | planning-prototype/dataflow.py:30-50 | a k-predicate build appends exactly its k chain nodes to the views |
| Dataflow.BuildChainNodes | planning-prototype/dataflow.py:31-36 | each chain name is a node of the built graph |
| Dataflow.BuildChainKeys | planning-prototype/dataflow.py:15-69 | a Filter or Transform with `k` predicates adds exactly its `k` chain names to the keys of the resolved graph, and none when `k` is 0 |
| Dataflow.BuildChainEdges | planning-prototype/dataflow.py:52-56 | each chain node after the first consumes its predecessor in the built graph |
| Dataflow.BuildAggregateShape | planning-prototype/dataflow.py:192-207 | a successful Aggregate has no predicates; with a dotted `operation_on` it adds exactly one view and one key, both named after the spec, holding the aggregate's node with an empty out-list, or `[view]` when the source table has the view's own name; the source table's out-list becomes its old one plus the new view, and no other out-list changes; otherwise graph and views are those of the resolved inputs |
| Dataflow.BuildWellFormed | planning-prototype/dataflow.py:15-69 | a build keeps the graph well formed |
| Dataflow.AssembleFromWellFormed | planning-prototype/dataflow.py:248-257 | folding builds over a chain keeps the graph well formed |
| Dataflow.AssembleWellFormed | planning-prototype/dataflow.py:248-257 | the graph of a function chain is well formed |
| Dataflow.AssembleFromSnoc | planning-prototype/dataflow.py:252-255 | each operation's outputs are threaded into the next: a longer chain is one more build on the shorter chain's result |
| Dataflow.PredicateStep | planning-prototype/dataflow.py:36-67 | one loop iteration computes exactly the specified step, the predecessor included |
| Dataflow.BuildChain | planning-prototype/dataflow.py:30-67 | the predicate loop computes exactly the chain fold |
| Dataflow.BuildAggregate | planning-prototype/dataflow.py:192-207 | the aggregate body fails on a malformed `operation_on` and on any predicate list, and otherwise adds the aggregate node |
| Dataflow.ToDataflow | planning-prototype/dataflow.py:15-69 | dispatch over the three kinds computes exactly the build function |
| Dataflow.FunctionToDataflow | planning-prototype/dataflow.py:248-257 | the chain loop computes exactly the assembled graph |
| Oracle.Column | planning-prototype/planning.py:16-24 | no `.` gives no column; one `.` gives the `.`-free text after it; more fail the two-way unpack |
| Oracle.ColumnOfQualified | planning-prototype/planning.py:16-17 | the column of `table.col` is `col` |
| Oracle.Rule | planning-prototype/planning.py:26-31 | the rule fails exactly when either text fails to unpack |
| Oracle.RuleSymmetric | planning-prototype/planning.py:66-85 | the rule's verdict does not depend on the order of the two texts |
| Oracle.RuleSameColumn | planning-prototype/planning.py:26-27 | two qualified texts on the same column do not commute |
| Oracle.RuleUserColumn | planning-prototype/planning.py:28-29 | a UID text qualified by a person column does not commute with anything |
| Oracle.RuleUnqualified | planning-prototype/planning.py:30-31 | two texts without `.` commute |
| Oracle.RuleOn | planning-prototype/planning.py:13-14 | a missing predicate fails; otherwise the rule decides |
| Oracle.Commute | planning-prototype/planning.py:8-88 | a verdict involves no base-table source, and an aggregate commutes only with a transform |
| Oracle.CommuteSymmetric | planning-prototype/planning.py:38-85 | the oracle gives the same answer for both orders of a pair |
| Oracle.CommuteTable | planning-prototype/planning.py:8-88 | Filter/Filter commute; Aggregate with Filter or Aggregate, either way round, does not; other pairings fail |
| Oracle.CommuteTransform | planning-prototype/planning.py:38-85 | a transform against a filter or an aggregate is judged by the rule on their texts, in either order |
| Oracle.AggregateRuleAsWritten | planning-prototype/planning.py:55-64 | as written, an aggregate text without `.` next to a UID text reads an unbound column |
| Oracle.AggregateRuleDiffers | planning-prototype/planning.py:55-62 | for a UID table qualified by a person column, the code as written fails where the corrected rule says "do not commute" |
| Oracle.AggregateRuleCounterexample | planning-prototype/planning.py:58-62 | the concrete input `UID IN X.contactID` against `count` |
| Oracle.AggregateRuleCorrected | planning-prototype/planning.py:55-65 | with the aggregate column unset, the rule is always defined and refuses exactly a UID text on a person column |
| Moves.Rename | planning-prototype/planning.py:95-96 | the rewritten out-list has the same length, every `a` becomes `b` and nothing else changes |
| Moves.RenameAbsent | planning-prototype/planning.py:95-96 | an out-list without `a` is unchanged |
| Moves.RenameRemoves | planning-prototype/planning.py:95-96 | no `a` remains after the rewrite |
| Moves.Swap | planning-prototype/planning.py:91-99 | a swap fails exactly when `b` is not a node |
| Moves.SwapEffect | planning-prototype/planning.py:91-99 | `a`'s entry becomes `b`'s rewritten out-list; every other entry keeps its length and has exactly its `a`s replaced by `b` |
| Moves.SwapConsistent | planning-prototype/planning.py:91-99 | a swap keeps the dictionary consistent |
| Moves.SwapWellFormed | planning-prototype/planning.py:91-99 | a swap keeps the graph well formed |
| Moves.RewriteEntry | planning-prototype/planning.py:94-96 | one pass rewrites only the entry it visits |
| Moves.SwapNodes | planning-prototype/planning.py:91-99 | the key-by-key loop computes exactly the swap |
| Moves.InjectNode | planning-prototype/planning.py:102-104 | `a` gets out-list `b` and its record; no other entry changes |
| Moves.Count | planning-prototype/planning.py:147-153 | the counter never exceeds the number of consumers |
| Moves.CountAll | planning-prototype/planning.py:147-155 | the counter equals the number of consumers iff every consumer is a node that commutes with the root |
| Moves.CountCommuting | planning-prototype/planning.py:147-153 | the counting loop computes exactly the counter |
| Moves.MovableMeaning | planning-prototype/planning.py:124-155 | a root moves iff it is a present non-source node with consumers, all of which commute with it |
| Moves.ScanSound | planning-prototype/planning.py:122-158 | whatever a rootset scan keeps is the swap of a movable root |
| Moves.Children | planning-prototype/planning.py:160-163 | the next rootsets are exactly the out-lists of the roots that are nodes, at most one per root |
| Moves.ScanNone | planning-prototype/planning.py:122-159 | a rootset's scan keeps nothing exactly when every root is judged and none can move |
| Moves.ScanLast | planning-prototype/planning.py:122-157 | a kept swap is that of the last movable root of the rootset, since the loop has no `break` |
| Moves.MoveFromNone | planning-prototype/planning.py:119-167 | a search that returns None has explored, without a movable root, a set of rootsets holding its frontier and closed under the next rootsets; running out of fuel is an error, never None |
| Moves.MakeMoveNone | planning-prototype/planning.py:107-167 | `make_move` returns None only when no root of any rootset reachable from the base tables, at any depth, can move |
| Moves.MoveFromSound | planning-prototype/planning.py:119-167 | a graph returned by the search is the swap of a movable root |
| Moves.MakeMoveSound | planning-prototype/planning.py:107-167 | a move happens only for an operator root with consumers that all commute with it, swapped with its last consumer |
| Moves.MakeMoveKeepsShape | planning-prototype/planning.py:157 | a move keeps the dictionary consistent and the graph well formed |
| Moves.ScanRootset | planning-prototype/planning.py:122-159 | the root loop computes exactly the scan |
| Moves.ChildrenOf | planning-prototype/planning.py:160-163 | the frontier extension computes exactly the next rootsets |
| Moves.MakeMoveSearch | planning-prototype/planning.py:107-167 | the worklist loop computes exactly `make_move` |
| Planning.Records | planning-prototype/planning.py:175 | one record per key, in dictionary order, each stored under its own name, and every record of the graph appears |
| Planning.AddTableEffect | planning-prototype/planning.py:178-180 | adding a node under a table extends only that table's entry and keeps the index valid |
| Planning.Copies | planning-prototype/planning.py:177-180 | a node is listed under a table once per time it names it, and only if it names it |
| Planning.AddTablesEffect | planning-prototype/planning.py:177-180 | a node's table loop adds it under each of its tables once per occurrence |
| Planning.Listing | planning-prototype/planning.py:176-177 | the reference listing holds only operator nodes that name the table |
| Planning.IndexFromListing | planning-prototype/planning.py:173-180 | indexing keeps the index valid, and each table's entry grows by exactly its reference listing |
| Planning.IndexFromFails | planning-prototype/planning.py:176-177 | indexing fails iff some operator record has no base-table list |
| Planning.IndexOfMeaning | planning-prototype/planning.py:173-180 | under each table the index holds the operator nodes listing it, in declaration order |
| Planning.AddNode | planning-prototype/planning.py:176-180 | the base-table loop computes exactly the indexing of one record |
| Planning.IndexPolicy | planning-prototype/planning.py:175-180 | the loop over one policy's records continues the index fold |
| Planning.IndexPolicies | planning-prototype/planning.py:173-180 | the policy loop computes exactly the index |
| Planning.LinksConsistent | planning-prototype/planning.py:196-198 | the chain links keep the dictionary consistent |
| Planning.LinksEffect | planning-prototype/planning.py:196-198 | each linked policy node points to its successor; every other entry is unchanged |
| Planning.LinksShape | planning-prototype/planning.py:196-198 | for any chain, repeated names included, the links keep every key, add each chain node that points onwards, and leave every entry either unchanged or holding exactly one later chain node |
| Planning.Spliced | planning-prototype/planning.py:185-199 | a splice fails exactly when the base table has no node in the query |
| Planning.SplicedConsistent | planning-prototype/planning.py:185-199 | a splice keeps the dictionary consistent |
| Planning.SplicedEffect | planning-prototype/planning.py:193-199 | the splice drops no consumer: table → first policy → … → last policy → the table's original consumers, nothing else changed |
| Planning.SplicedWellFormed | planning-prototype/planning.py:185-199 | a splice keeps a well-formed query well formed, for any chain, including one that repeats a policy node |
| Planning.SplicedFromShape | planning-prototype/planning.py:185-199 | splicing every table keeps the query consistent, and well formed when it was, whatever names the chains repeat |
| Planning.FindNode | planning-prototype/planning.py:188-191 | the scan finds the record named `name` exactly when there is one |
| Planning.Splice | planning-prototype/planning.py:186-199 | one table's splice code computes exactly the splice |
| Planning.SpliceAll | planning-prototype/planning.py:185-199 | the table loop computes exactly the splice fold |
| Planning.PushedDownFixedPoint | planning-prototype/planning.py:212-219 | the push-down stops only where `make_move` returns None, so no root of any rootset its search reaches from the base tables can move |
| Planning.PushedDownWellFormed | planning-prototype/planning.py:212-219 | pushing down keeps a well-formed graph well formed |
| Planning.PushDown | planning-prototype/planning.py:210-219 | the frontier loop computes exactly the push-down |
| Planning.Planned | planning-prototype/planning.py:170-224 | a plan is the one-element list holding the spliced first query; no query means failure |
| Planning.PlannedWellFormed | planning-prototype/planning.py:170-224 | planning a well-formed query yields a well-formed graph |
| Planning.Planning | planning-prototype/planning.py:170-224 | the planner's code computes exactly the plan |

## Left out

- I/O is not modelled.
  - `load_schema` takes its lines as a sequence. The file `open` and
    `readlines` (planning-prototype/prototype.py:17-18) are left out.
  - All `print` tracing is left out.
  - `main`, `argparse`, `load_policies`/`load_queries` and `visualize` are
    left out.
- planning-prototype/benchmarks.py is a static catalog of specifications, and
  benchmarks/piazza/manual-graph.rs drives an external dataflow engine.
  Neither is part of this model.
- `Node.check_commutativity` (planning-prototype/dataflow.py:85-88) is dead
  code: it has no `self` and no result.
- The Aggregate predicate loop after its unconditional `raise`
  (planning-prototype/dataflow.py:208-234) is unreachable.
- Nodes are keyed by name, where Python keys them by object identity.
  - The model therefore cannot represent two distinct nodes that share a name
    (planning-prototype/dataflow.py:22-23).
  - `Dataflow.Reset`, `Dataflow.ResetAll`, `Dataflow.ResetAllEffect`,
    `Dataflow.InputNode`: a base table named again by a later operation is
    a second key in Python (`Node` has no `__eq__`/`__hash__`,
    planning-prototype/dataflow.py:21-22, 72), appended last in insertion
    order with an empty out-list. The model keeps the one entry of that name
    with its out-list and its place in the order. Because every link scans
    the keys by name and appends to all of them, the first node's out-list
    is exactly the model's entry, and the second node's list is a suffix of
    it. Example: in the HotCRP query, `Paper_PaperReview` links `PaperReview`
    to `Paper_PaperReview0`, then `R_submitted` resolves `PaperReview` again.
    Python ends with `PaperReview -> [Paper_PaperReview0, R_submitted]` on
    the first node and `PaperReview -> [R_submitted]` on the second. The
    model has the first of these and not the second key.
  - `Planning.Spliced` consequently guards every consumer of such a table.
    `planning` keeps the last key with the base table's name
    (planning-prototype/planning.py:188-191) and hangs the policy chain
    under it only. In the HotCRP example the chain goes between the second
    `PaperReview` node and `R_submitted`, while the first node still feeds
    `Paper_PaperReview0` and `R_submitted` directly, with no policy in
    between. The model splices the one merged entry, so both consumers sit
    below the chain.
  - A reused view is emptied in both; if a base table shares its name with
    that view, Python empties only the view's key and the model empties the
    one entry of that name.
  - Name scans over `graph.keys()` become map lookups, except where the scan
    is itself the modelled loop.
- The shared dictionary is updated in place in Python; here each operation
  returns the new graph.
  - The model does not capture list aliasing through shallow copies. In
    `make_move` and the push-down loop, `swap_nodes` rewrites out-lists that
    the copies share with the query (planning-prototype/planning.py:96,
    214). In the model each swap works on its own copy. As a result,
    `Planning.Planned` returns the spliced query without those rewrites of
    consumer lists, which Python would leave visible in the returned query.
- The order in which Python iterates an upstream `set` is not modelled.
  `Dataflow.LinkUpstream` picks any element, and `Graphs.AppendWhereUnion`
  shows that the result does not depend on the order.
- `Strings.IsSpace` covers the ASCII characters `str.isspace()` accepts
  (space, `\t`, `\n`, `\v`, `\f`, `\r` and U+001C to U+001F). The
  non-ASCII whitespace that `str.strip()` and `str.split()` also remove
  (U+0085, U+00A0 and the other Unicode spaces) is not modelled.
- `Moves.MakeMove`: a `fuel` bound on the number of rootsets examined ends
  the search with `OutOfFuel`. The source loops forever on a cyclic graph.
- `Planning.PushedDown`: a `fuel` bound on the number of moves ends the loop
  with `OutOfFuel`. The source loops until `make_move` finds nothing.
- The planner cannot run as written. The model follows the evident intent at
  each of these points:
  - `Oracle.Commute` dispatches on the kinds of plan nodes. The source tests
    `type(op) == Filter` etc. against the specification classes, which the
    `Node` objects passed by `make_move` never are (planning.py:8 vs 151).
    It also reads `.predicates`, which `Node` lacks.
  - `Oracle.Text` compares a filter or transform on its predicate and an
    aggregate on its `operation_on`. Aggregate nodes carry no predicate.
  - `Moves.Scan` swaps on a copy of the graph. The source passes the bound
    method `graph.copy` itself, without calling it (planning.py:157).
  - `Moves.Children` extends the frontier with each root's own out-list. The
    source uses the stale `rootnode` of the last root (planning.py:161-163).
  - `Moves.Children`, `Moves.MoveFrom`: the frontier holds root names and the
    search continues below the base tables. The source appends
    `graph[rootnode]`, a list of `Node` objects (planning.py:163), and then
    compares `node.name == root` against a `Node`, which never holds
    (planning.py:128). Every later root therefore takes the "couldn't find"
    branch (planning.py:133-135). The first rootset holds only base-table
    names, whose nodes have no operation type and are skipped
    (planning.py:137-139). As written, `make_move` returns None on every
    call, `check_commutativity` is never reached, and `planning` returns
    `[query]` after one call. The model searches by name, so
    `Planning.Planned` can fail with `MalformedText`, `MissingPredicate` or
    `OutOfFuel` where the source returns `[query]`.
  - `Moves.Movable` skips a root without consumers. As written, such a root
    counts as movable and is swapped with a leftover loop variable.
  - `Planning.Spliced` fails with `BaseTableNotInQuery` when the query has no
    node for an indexed base table. As written, the code stores the chain
    under a `None` key, and `make_move` later crashes on it.
- `Planning.SplicedEffect` holds per table and requires the chain's names to
  be distinct and different from the table. A policy node that lists two
  base tables is spliced under both. The later splice overwrites its
  out-list, which the model reproduces but does not claim to be harmless.
  Well-formedness (`Planning.SplicedWellFormed`, `Planning.PlannedWellFormed`)
  needs no such condition and holds for every chain.
- `Planning.Planned` computes the push-down only for its failures and its
  termination. The code returns the spliced query, not the pushed-down graph.
  No claim is made that the placement is optimal.

## Findings

| source | as written | input that shows it | evidently intended | confidence | as-written member | corrected member |
|---|---|---|---|---|---|---|
| planning-prototype/planning.py:58 | the Transform/Aggregate branch sets `col_filter = None` when the aggregate text has no `.`, so `col_agg` is never bound and the UID test at line 62 reads an unbound name | transform text `UID IN X.contactID`, aggregate text `count` | `col_agg = None`, so the pair is judged "do not commute" because the transform names a person column next to UID | high; not executed | Oracle.AggregateRuleCounterexample | Oracle.AggregateRuleCorrected |
