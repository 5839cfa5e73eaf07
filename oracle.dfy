/** The commutativity oracle of the planner: may two neighbouring operators
    of a plan graph trade places? A decision table over operator kinds, with
    a column and user-id rule whenever a transform is involved. */
module Oracle {
  import opened Common
  import opened Strings
  import opened Graphs

  /** PERSON_ID_COLS: the columns that identify a person. */
  const PersonIdColumns: set<string> := {"contactID"}

  /** The column a predicate or operand text names: the part after its one
      `.`, nothing when there is no `.`, and a failed two-way unpack when
      there are several. */
  function Column(text: string): (r: Result<Option<string>>)
    ensures r.Ok? && r.value.None? <==> !Contains(text, ".")
    ensures r.Ok? && r.value.Some? ==>
      !Contains(r.value.value, ".") &&
      text == Split(text, ".")[0] + "." + r.value.value
    ensures r.Err? ==> r.error == MalformedText(text, ".")
  {
    var parts := Split(text, ".");
    if |parts| == 1 then Ok(None)
    else if |parts| == 2 then
      JoinSplit(text, ".");
      SplitPartsFree(text, ".");
      assert Join(parts, ".") == parts[0] + "." + Join(parts[1..], ".");
      Ok(Some(parts[1]))
    else Err(MalformedText(text, "."))
  }

  /** A qualified name `table.column` whose parts hold no `.` names that column. */
  lemma ColumnOfQualified(table: string, col: string)
    requires !Contains(table, ".") && !Contains(col, ".")
    ensures Column(table + "." + col) == Ok(Some(col))
  {
    SplitSingle(table, '.', col);
  }

  /** The rule for a transform (text `t`) against a filter or an aggregate
      (text `other`): they do not commute when both name the same column, nor
      when either text mentions UID while either column identifies a person.
      The transform's text is unpacked first, as in every branch of the source. */
  function Rule(t: string, other: string): (r: Result<bool>)
    ensures r.Err? <==> Column(t).Err? || Column(other).Err?
  {
    match Column(t)
    case Err(e) => Err(e)
    case Ok(ct) =>
      match Column(other)
      case Err(e) => Err(e)
      case Ok(co) =>
        if ct.Some? && co.Some? && ct == co then Ok(false)
        else if (Contains(t, "UID") || Contains(other, "UID")) &&
                ((co.Some? && co.value in PersonIdColumns) || (ct.Some? && ct.value in PersonIdColumns))
        then Ok(false)
        else Ok(true)
  }

  /** The rule's verdict does not depend on which text is passed first. */
  lemma RuleSymmetric(t: string, other: string)
    requires Rule(t, other).Ok?
    ensures Rule(other, t) == Rule(t, other)
  {
  }

  /** Two qualified names on the same column never commute. */
  lemma RuleSameColumn(t1: string, t2: string, col: string)
    requires !Contains(t1, ".") && !Contains(t2, ".") && !Contains(col, ".")
    ensures Rule(t1 + "." + col, t2 + "." + col) == Ok(false)
  {
    ColumnOfQualified(t1, col);
    ColumnOfQualified(t2, col);
  }

  /** A text that mentions UID and names a person column never commutes with a
      well-formed text, on either side of the rule. */
  lemma RuleUserPerson(t: string, other: string)
    requires Column(t).Ok? && Column(t).value.Some? && Column(t).value.value in PersonIdColumns
    requires Contains(t, "UID") && Column(other).Ok?
    ensures Rule(t, other) == Ok(false) && Rule(other, t) == Ok(false)
  {
  }

  /** `table.contactID` names the person column and still mentions UID when `table` does. */
  lemma UserColumnText(table: string)
    requires !Contains(table, ".") && Contains(table, "UID")
    ensures Column(table + "." + "contactID") == Ok(Some("contactID"))
    ensures Contains(table + "." + "contactID", "UID")
  {
    NotContainsChar("contactID", '.');
    ColumnOfQualified(table, "contactID");
    ContainsPrefix(table, "." + "contactID", "UID");
    assert table + "." + "contactID" == table + ("." + "contactID");
  }

  /** A text mentioning UID next to a person column never commutes, whatever the other text. */
  lemma RuleUserColumn(table: string, other: string)
    requires !Contains(table, ".") && Column(other).Ok?
    requires Contains(table, "UID")
    ensures Rule(table + "." + "contactID", other) == Ok(false)
    ensures Rule(other, table + "." + "contactID") == Ok(false)
  {
    UserColumnText(table);
    RuleUserPerson(table + "." + "contactID", other);
  }

  /** Two texts without any `.` always commute. */
  lemma RuleUnqualified(t: string, other: string)
    requires !Contains(t, ".") && !Contains(other, ".")
    ensures Rule(t, other) == Ok(true)
  {
  }

  /** Both texts must be present before the rule can be applied. */
  function RuleOn(t: Option<string>, other: Option<string>): (r: Result<bool>)
    ensures t.None? || other.None? ==> r == Err(MissingPredicate)
    ensures t.Some? && other.Some? ==> r == Rule(t.value, other.value)
  {
    if t.Some? && other.Some? then Rule(t.value, other.value) else Err(MissingPredicate)
  }

  /** The text an operator is compared on: a filter's or a transform's
      predicate, an aggregate's `operation_on`. */
  function Text(n: Node): Option<string> {
    if n.kind.AggregateOp? then n.operationOn else n.pred
  }

  /** `check_commutativity(op1, op2)`, dispatching on the operator kinds of
      the two nodes. */
  function Commute(a: Node, b: Node): (r: Result<bool>)
    ensures r.Ok? ==> !a.kind.Source? && !b.kind.Source?
    ensures r.Ok? && r.value ==> !a.kind.AggregateOp? || b.kind.TransformOp?
  {
    match (a.kind, b.kind)
    case (FilterOp, FilterOp) => Ok(true)
    case (AggregateOp(_), FilterOp) => Ok(false)
    case (TransformOp, FilterOp) => RuleOn(Text(a), Text(b))
    case (FilterOp, AggregateOp(_)) => Ok(false)
    case (AggregateOp(_), AggregateOp(_)) => Ok(false)
    case (TransformOp, AggregateOp(_)) => RuleOn(Text(a), Text(b))
    case (AggregateOp(_), TransformOp) => RuleOn(Text(b), Text(a))
    case (FilterOp, TransformOp) => RuleOn(Text(b), Text(a))
    case _ => Err(UnsupportedPairing)
  }

  /** The oracle is symmetric: swapping the two operators gives the same answer. */
  lemma CommuteSymmetric(a: Node, b: Node)
    ensures Commute(a, b) == Commute(b, a)
  {
  }

  /** The fixed verdicts of the table, and the pairings it does not cover. */
  lemma CommuteTable(a: Node, b: Node)
    ensures a.kind.FilterOp? && b.kind.FilterOp? ==> Commute(a, b) == Ok(true)
    ensures a.kind.AggregateOp? && (b.kind.FilterOp? || b.kind.AggregateOp?) ==> Commute(a, b) == Ok(false)
    ensures a.kind.FilterOp? && b.kind.AggregateOp? ==> Commute(a, b) == Ok(false)
    ensures a.kind.Source? || b.kind.Source? ==> Commute(a, b) == Err(UnsupportedPairing)
    ensures a.kind.TransformOp? && b.kind.TransformOp? ==> Commute(a, b) == Err(UnsupportedPairing)
  {
  }

  /** A transform and a filter or aggregate are judged by the rule on their texts. */
  lemma CommuteTransform(a: Node, b: Node)
    requires a.kind.TransformOp? && (b.kind.FilterOp? || b.kind.AggregateOp?)
    ensures Commute(a, b) == RuleOn(a.pred, Text(b))
    ensures Commute(b, a) == RuleOn(a.pred, Text(b))
  {
  }

  /** The transform-against-aggregate branch as written: when the aggregate's
      text has no `.`, its column variable is never bound, so the user-id test
      reads an unbound name whenever UID occurs in either text. */
  function AggregateRuleAsWritten(t: string, agg: string): (r: Result<bool>)
    ensures Contains(agg, ".") ==> r == Rule(t, agg)
    ensures !Contains(agg, ".") && Column(t).Ok? && (Contains(t, "UID") || Contains(agg, "UID")) ==>
      r == Err(UnboundAggregateColumn)
  {
    if Contains(agg, ".") then Rule(t, agg)
    else
      match Column(t)
      case Err(e) => Err(e)
      case Ok(_) =>
        if Contains(t, "UID") || Contains(agg, "UID") then Err(UnboundAggregateColumn)
        else Ok(true)
  }

  /** A transform on a person column of a table whose text mentions UID,
      beside an unqualified aggregate: as written the branch fails, where the
      intended answer is "do not commute". */
  lemma AggregateRuleDiffers(table: string, agg: string)
    requires !Contains(table, ".") && Contains(table, "UID") && !Contains(agg, ".")
    ensures AggregateRuleAsWritten(table + "." + "contactID", agg) == Err(UnboundAggregateColumn)
    ensures Rule(table + "." + "contactID", agg) == Ok(false)
  {
    RuleUserColumn(table, agg);
  }

  /** The concrete instance: `UID IN X.contactID` against `count`. */
  lemma AggregateRuleCounterexample()
    ensures AggregateRuleAsWritten("UID IN X" + "." + "contactID", "count") == Err(UnboundAggregateColumn)
    ensures Rule("UID IN X" + "." + "contactID", "count") == Ok(false)
  {
    NotContainsChar("UID IN X", '.');
    NotContainsChar("count", '.');
    assert MatchesAt("UID IN X", "UID", 0);
    ContainsIff("UID IN X", "UID");
    AggregateRuleDiffers("UID IN X", "count");
  }

  /** With the aggregate's column unset when its text has no `.`, the rule
      is defined whenever the transform's text unpacks, and then refuses
      exactly a user-id transform on a person column. */
  lemma AggregateRuleCorrected(t: string, agg: string)
    requires !Contains(agg, ".") && Column(t).Ok?
    ensures Rule(t, agg).Ok?
    ensures !Rule(t, agg).value <==>
      (Contains(t, "UID") || Contains(agg, "UID")) &&
      Column(t).value == Some("contactID")
  {
  }
}
