/** The schema loader: a line-by-line reader of `CREATE TABLE` headers and
    backtick-quoted column lines into a table -> ordered columns catalog.
    The lines are given as a sequence; opening and reading the file is not modelled. */
module Schema {
  import opened Common
  import opened Strings

  /** Table name -> column names in file order. */
  type Catalog = map<string, seq<string>>

  /** The loop's two variables: the catalog built so far and the table that
      column lines currently extend (None before the first header). */
  datatype LoaderState = LoaderState(tables: Catalog, recent: Option<string>)

  const Initial := LoaderState(map[], None)

  /** A header is any line containing `CREATE`. */
  predicate IsHeader(line: string) {
    Contains(line, "CREATE")
  }

  /** A column line is non-blank and its stripped form begins with a backtick. */
  predicate IsColumnLine(line: string) {
    var t := Strip(line);
    |t| > 0 && t[0] == '`'
  }

  /** The text after the first `TABLE`, with `(`, backticks and newlines removed, stripped;
      None when the line has no `TABLE` (indexing `[1]` fails in the source). */
  function HeaderName(line: string): (name: Option<string>)
    ensures name.Some? <==> Contains(line, "TABLE")
  {
    var parts := Split(line, "TABLE");
    if |parts| < 2 then None
    else Some(Strip(Without(Without(Without(parts[1], '('), '`'), '\n')))
  }

  /** The first whitespace-separated word of the line, with backticks removed. */
  function ColumnName(line: string): (col: string)
    ensures '`' !in col
  {
    Without(FirstWord(line), '`')
  }

  /** What the loop body makes of one line. */
  datatype LineKind = Header(table: Option<string>) | Column(name: string) | Ignored

  /** The `CREATE` test is made first, so a backtick line containing `CREATE` is a header. */
  function Classify(line: string): (kind: LineKind)
    ensures kind.Header? <==> IsHeader(line)
    ensures kind.Column? <==> !IsHeader(line) && IsColumnLine(line)
    ensures kind.Header? ==> kind.table == HeaderName(line)
    ensures kind.Column? ==> kind.name == ColumnName(line)
  {
    if IsHeader(line) then Header(HeaderName(line))
    else if IsColumnLine(line) then Column(ColumnName(line))
    else Ignored
  }

  function ClassifyAll(lines: seq<string>): (kinds: seq<LineKind>)
    ensures |kinds| == |lines|
    ensures forall k :: 0 <= k < |lines| ==> kinds[k] == Classify(lines[k])
  {
    if lines == [] then [] else [Classify(lines[0])] + ClassifyAll(lines[1..])
  }

  /** One iteration of the loop over lines; `n` is the line's position in the file. */
  function Step(st: LoaderState, kind: LineKind, n: nat): Result<LoaderState> {
    match kind
    case Header(None) => Err(NoTableKeyword(n))
    case Header(Some(t)) => Ok(LoaderState(st.tables[t := []], Some(t)))
    case Column(c) =>
      if st.recent.Some? && st.recent.value in st.tables
      then Ok(st.(tables := st.tables[st.recent.value := st.tables[st.recent.value] + [c]]))
      else Err(ColumnBeforeTable(n))
    case Ignored => Ok(st)
  }

  /** The remaining iterations from state `st`, the first of `kinds` being line `n`. */
  function Run(st: LoaderState, kinds: seq<LineKind>, n: nat): Result<LoaderState>
    decreases |kinds|
  {
    if kinds == [] then Ok(st)
    else
      match Step(st, kinds[0], n)
      case Err(e) => Err(e)
      case Ok(next) => Run(next, kinds[1..], n + 1)
  }

  function LoadSchemaSpec(lines: seq<string>): Result<Catalog> {
    match Run(Initial, ClassifyAll(lines), 0)
    case Err(e) => Err(e)
    case Ok(st) => Ok(st.tables)
  }

  /** The loader loop, updating the catalog and the most recent table line by line. */
  method LoadSchema(lines: seq<string>) returns (r: Result<Catalog>)
    ensures r == LoadSchemaSpec(lines)
  {
    var tables: Catalog := map[];
    var recent: Option<string> := None;
    ghost var kinds := ClassifyAll(lines);
    for i := 0 to |lines|
      invariant Run(LoaderState(tables, recent), kinds[i..], i) == Run(Initial, kinds, 0)
    {
      var line := lines[i];
      assert kinds[i..][0] == Classify(line) && kinds[i..][1..] == kinds[i + 1..];
      if IsHeader(line) {
        var name := HeaderName(line);
        if name.None? {
          return Err(NoTableKeyword(i));
        }
        recent := name;
        tables := tables[name.value := []];
      } else if IsColumnLine(line) {
        if recent.None? || recent.value !in tables {
          return Err(ColumnBeforeTable(i));
        }
        tables := tables[recent.value := tables[recent.value] + [ColumnName(line)]];
      }
    }
    r := Ok(tables);
  }

  /** The table column lines extend is always one the catalog holds. */
  predicate RecentKnown(st: LoaderState) {
    st.recent.Some? ==> st.recent.value in st.tables
  }

  lemma {:induction false} RunKeepsRecentKnown(st: LoaderState, kinds: seq<LineKind>, n: nat)
    requires RecentKnown(st)
    ensures Run(st, kinds, n).Ok? ==> RecentKnown(Run(st, kinds, n).value)
    decreases |kinds|
  {
    if kinds != [] {
      match Step(st, kinds[0], n)
      case Err(_) =>
      case Ok(next) => RunKeepsRecentKnown(next, kinds[1..], n + 1);
    }
  }

  lemma CatalogPut(m: Catalog, t: string, cols: seq<string>)
    ensures m[t := cols].Keys == m.Keys + {t}
    ensures forall k :: k in m && k != t ==> m[t := cols][k] == m[k]
  {
  }

  /** A header line starts a table with no columns (dropping any columns an earlier
      header of the same name collected), makes it the most recent one and touches
      no other table; without `TABLE` it fails. */
  lemma HeaderStartsTable(st: LoaderState, line: string, n: nat)
    requires IsHeader(line)
    ensures Contains(line, "TABLE") <==> Step(st, Classify(line), n).Ok?
    ensures !Contains(line, "TABLE") ==> Step(st, Classify(line), n) == Err(NoTableKeyword(n))
    ensures Step(st, Classify(line), n).Ok? ==>
      var t := HeaderName(line).value;
      var next := Step(st, Classify(line), n).value;
      && next.recent == Some(t)
      && next.tables.Keys == st.tables.Keys + {t}
      && next.tables[t] == []
      && forall k :: k in st.tables && k != t ==> next.tables[k] == st.tables[k]
  {
    var kind := Classify(line);
    if Contains(line, "TABLE") {
      var t := HeaderName(line).value;
      assert kind == Header(Some(t));
      var next := LoaderState(st.tables[t := []], Some(t));
      assert Step(st, kind, n) == Ok(next);
      CatalogPut(st.tables, t, []);
    } else {
      assert kind == Header(None);
    }
  }

  /** A column line appends its name to the most recent table only; before any header it fails. */
  lemma ColumnExtendsRecent(st: LoaderState, line: string, n: nat)
    requires !IsHeader(line) && IsColumnLine(line) && RecentKnown(st)
    ensures st.recent.None? <==> Step(st, Classify(line), n) == Err(ColumnBeforeTable(n))
    ensures st.recent.Some? ==>
      var t := st.recent.value;
      var next := Step(st, Classify(line), n).value;
      && Step(st, Classify(line), n).Ok?
      && next.recent == st.recent
      && next.tables.Keys == st.tables.Keys
      && next.tables[t] == st.tables[t] + [ColumnName(line)]
      && forall k :: k in st.tables && k != t ==> next.tables[k] == st.tables[k]
  {
    var kind := Classify(line);
    assert kind == Column(ColumnName(line));
    if st.recent.Some? {
      var t := st.recent.value;
      var next := st.(tables := st.tables[t := st.tables[t] + [ColumnName(line)]]);
      assert Step(st, kind, n) == Ok(next);
      CatalogPut(st.tables, t, st.tables[t] + [ColumnName(line)]);
    }
  }

  /** Lines that are neither headers nor column lines leave the whole state unchanged. */
  lemma {:induction false} IgnoredLinesChangeNothing(st: LoaderState, lines: seq<string>, n: nat)
    requires forall k :: 0 <= k < |lines| ==> !IsHeader(lines[k]) && !IsColumnLine(lines[k])
    ensures Run(st, ClassifyAll(lines), n) == Ok(st)
    decreases |lines|
  {
    if lines != [] {
      assert ClassifyAll(lines)[1..] == ClassifyAll(lines[1..]);
      IgnoredLinesChangeNothing(st, lines[1..], n + 1);
    }
  }

  function ColumnNames(kinds: seq<LineKind>): (cols: seq<string>)
    requires forall k :: 0 <= k < |kinds| ==> kinds[k].Column?
    ensures |cols| == |kinds|
    ensures forall k :: 0 <= k < |kinds| ==> cols[k] == kinds[k].name
  {
    if kinds == [] then [] else [kinds[0].name] + ColumnNames(kinds[1..])
  }

  lemma AppendColumns(tables: Catalog, t: string, old_cols: seq<string>, c: string, rest: seq<string>)
    ensures tables[t := old_cols + [c]][t := (old_cols + [c]) + rest] == tables[t := old_cols + ([c] + rest)]
  {
    assert (old_cols + [c]) + rest == old_cols + ([c] + rest);
  }

  /** A run of column lines appends their names, in file order, to the most recent table. */
  lemma {:induction false} ColumnsInFileOrder(st: LoaderState, kinds: seq<LineKind>, n: nat)
    requires st.recent.Some? && st.recent.value in st.tables
    requires forall k :: 0 <= k < |kinds| ==> kinds[k].Column?
    ensures Run(st, kinds, n)
      == Ok(st.(tables := st.tables[st.recent.value := st.tables[st.recent.value] + ColumnNames(kinds)]))
    decreases |kinds|
  {
    var t := st.recent.value;
    var old_cols := st.tables[t];
    if kinds == [] {
      assert old_cols + [] == old_cols;
      assert st.tables[t := old_cols] == st.tables;
    } else {
      var c := kinds[0].name;
      var next := st.(tables := st.tables[t := old_cols + [c]]);
      ColumnsInFileOrder(next, kinds[1..], n + 1);
      AppendColumns(st.tables, t, old_cols, c, ColumnNames(kinds[1..]));
    }
  }

  /** A file made of one header naming `t` followed only by column lines yields
      exactly that table, with the column names in file order. */
  lemma SingleTable(kinds: seq<LineKind>, t: string)
    requires |kinds| >= 1 && kinds[0] == Header(Some(t))
    requires forall k :: 1 <= k < |kinds| ==> kinds[k].Column?
    ensures Run(Initial, kinds, 0).Ok?
    ensures Run(Initial, kinds, 0).value.tables.Keys == {t}
    ensures var cols := Run(Initial, kinds, 0).value.tables[t];
      |cols| == |kinds| - 1 && forall k :: 1 <= k < |kinds| ==> cols[k - 1] == kinds[k].name
  {
    var st := LoaderState(map[t := []], Some(t));
    assert Step(Initial, kinds[0], 0) == Ok(st);
    ColumnsInFileOrder(st, kinds[1..], 1);
    SingletonPut(t, ColumnNames(kinds[1..]));
  }

  lemma SingletonPut(t: string, cols: seq<string>)
    ensures map[t := []][t := [] + cols] == map[t := cols]
  {
    assert [] + cols == cols;
  }

  /** When the first header-or-column line is a column line, the load fails at that line. */
  lemma ColumnBeforeAnyHeaderFails(lines: seq<string>, k: nat)
    requires k < |lines| && !IsHeader(lines[k]) && IsColumnLine(lines[k])
    requires forall j :: 0 <= j < k ==> !IsHeader(lines[j]) && !IsColumnLine(lines[j])
    ensures LoadSchemaSpec(lines) == Err(ColumnBeforeTable(k))
  {
    var kinds := ClassifyAll(lines);
    IgnoredPrefixThenColumn(kinds, 0, k);
  }

  lemma {:induction false} IgnoredPrefixThenColumn(kinds: seq<LineKind>, n: nat, k: nat)
    requires k < |kinds| && kinds[k].Column?
    requires forall j :: 0 <= j < k ==> kinds[j].Ignored?
    ensures Run(Initial, kinds, n) == Err(ColumnBeforeTable(n + k))
    decreases k
  {
    if k > 0 {
      IgnoredPrefixThenColumn(kinds[1..], n + 1, k - 1);
    }
  }
}
