/** Failure-carrying results shared by the schema loader, the graph builder and
    the planner, and a few facts about sequences and maps their loops rely on. */
module Common {

  datatype Option<+T> = None | Some(value: T)

  /** Every way the prototype can fail. The source raises Python exceptions
      (NotImplementedError, ValueError from tuple unpacking, KeyError, IndexError,
      TypeError from iterating a missing base-table list, UnboundLocalError from
      reading a column variable never bound); each becomes one variant here.
      `OutOfFuel` and `BaseTableNotInQuery` stand where the source would loop
      forever or store a `None` key. */
  datatype Error =
    | UnresolvedInput(name: string)     // an input name is neither a schema table nor an earlier view
    | UnresolvedUpstream                // an upstream name matches no graph node
    | MalformedText(text: string, sep: string)  // a split did not give exactly two parts
    | UnsupportedAggregatePredicates    // an Aggregate spec with a predicate list
    | UnsupportedPairing                // the commutativity table has no row for the pair
    | MissingPredicate                  // a Filter/Transform node without predicate text
    | UnboundAggregateColumn            // reading a column variable the code never bound
    | MissingNode(name: string)         // a graph lookup by name found nothing
    | MissingBaseTables(name: string)   // a policy node whose base-table list is absent
    | NoQuery                           // the query list is empty
    | BaseTableNotInQuery(name: string) // an indexed base table has no node in the query graph
    | OutOfFuel                         // a search loop ran past its iteration bound
    | NoTableKeyword(line: nat)         // a CREATE line without TABLE
    | ColumnBeforeTable(line: nat)      // a column line before any CREATE line

  datatype Result<+T> = Ok(value: T) | Err(error: Error)

  /** A prefix grown by one element. */
  lemma TakeSnoc<T>(s: seq<T>, i: nat)
    requires i < |s|
    ensures s[..i + 1] == s[..i] + [s[i]]
  {
  }

  lemma AppendAssoc<T>(a: seq<T>, b: seq<T>, c: seq<T>)
    ensures (a + b) + c == a + (b + c)
  {
  }

  /** Storing back the value already under a key changes nothing. */
  lemma MapSameUpdate<K, V>(m: map<K, V>, k: K)
    requires k in m
    ensures m[k := m[k]] == m
  {
  }
}
