/**
  Sorting and filtering a query by wrapping it (src-tauri/src/db/query_transform.rs).
  The conditions are written as text; they are proved to read back to the
  conditions the request means, on the parsed path and in the string fallback.
*/
module QueryTransform {
  import opened Text
  import opened Quoting
  import opened WhereClause
  import opened Wrappers

  datatype SortState = SortState(column: string, direction: string)

  datatype Request = Request(
    baseSql: string, sort: Option<SortState>, globalFilter: string, nullFilter: Option<string>,
    columnFilters: map<string, string>, columns: seq<string>)

  predicate Blank(s: string) { Trim(s) == "" }

  predicate HasGlobal(request: Request) {
    !Blank(request.globalFilter) && request.columns != []
  }

  predicate HasColumnFilters(request: Request) {
    exists column :: column in request.columnFilters && !Blank(request.columnFilters[column])
  }

  predicate HasTransform(request: Request) {
    request.sort.Some? || HasGlobal(request) || request.nullFilter.Some? || HasColumnFilters(request)
  }

  /** The entries of the hash map of column filters in some iteration order. */
  type Entries = seq<(string, string)>

  ghost predicate IsIteration(entries: Entries, m: map<string, string>) {
    && (forall i :: 0 <= i < |entries| ==> entries[i].0 in m && m[entries[i].0] == entries[i].1)
    && (forall column :: column in m ==> (column, m[column]) in entries)
    && (forall i, j :: 0 <= i < j < |entries| ==> entries[i].0 != entries[j].0)
  }

  function ExtractOperator(value: string): (r: Option<string>)
    ensures r.Some? ==> r.value in OPERATORS && StartsWith(value, r.value)
    ensures r == None ==> forall op :: op in OPERATORS ==> !StartsWith(value, op)
  {
    if StartsWith(value, ">=") then Some(OPERATORS[0])
    else if StartsWith(value, "<=") then Some(OPERATORS[1])
    else if StartsWith(value, "!=") then Some(OPERATORS[2])
    else if StartsWith(value, ">") then Some(OPERATORS[3])
    else if StartsWith(value, "<") then Some(OPERATORS[4])
    else if StartsWith(value, "=") then Some(OPERATORS[5])
    else None
  }

  predicate Descending(direction: string) {
    |direction| == 4 && direction[0] in "dD" && direction[1] in "eE" && direction[2] in "sS" && direction[3] in "cC"
  }

  function SortDirection(direction: string): string {
    if Descending(direction) then "DESC" else "ASC"
  }

  function TrimSqlTerminator(sql: string): string {
    TrimEnd(TrimSemicolons(TrimEnd(sql)))
  }

  function TrimSemicolons(s: string): string {
    if s != "" && s[|s| - 1] == ';' then TrimSemicolons(s[..|s| - 1]) else s
  }

  // ----- the conditions a request means -----

  function ColumnCondition(column: string, value: string): Expr {
    var trimmed := Trim(value);
    match ExtractOperator(trimmed)
    case Some(op) => Compare(Segments(column), op, Trim(trimmed[|op|..]))
    case None => ILike(Segments(column), Wildcard(trimmed))
  }

  function ColumnConditions(entries: Entries): seq<Expr> {
    if entries == [] then []
    else
      (if Blank(entries[0].1) then [] else [ColumnCondition(entries[0].0, entries[0].1)])
      + ColumnConditions(entries[1..])
  }

  function Wildcard(filter: string): string { "%" + filter + "%" }

  function GlobalConditions(columns: seq<string>, pattern: string): (r: seq<Expr>)
    ensures |r| == |columns|
  {
    if columns == [] then [] else [ILike(Segments(columns[0]), pattern)] + GlobalConditions(columns[1..], pattern)
  }

  /** A null filter wins over a global filter, which wins over column filters. */
  function Meant(request: Request, entries: Entries): seq<Expr>
  {
    match request.nullFilter
    case Some(column) => [IsNull(Segments(column))]
    case None =>
      if HasGlobal(request) then
        [GlobalCondition(request.columns, Trim(request.globalFilter))]
      else ColumnConditions(entries)
  }

  /** Every column the request filters on has at least one non-blank segment. */
  ghost predicate ColumnsNamed(request: Request) {
    match request.nullFilter
    case Some(column) => Segments(column) != []
    case None =>
      if HasGlobal(request) then forall c :: c in request.columns ==> Segments(c) != []
      else forall c :: c in request.columnFilters && !Blank(request.columnFilters[c]) ==> Segments(c) != []
  }

  // ----- the conditions as the code writes them -----

  function ILikeSnippet(column: string, filter: string): string {
    "CAST(" + QuotedIdentifier(column) + " AS TEXT) ILIKE '" + ("%" + EscapeStringLiteral(filter) + "%") + "'"
  }

  function CompareSnippet(column: string, op: string, trimmed: string): string
    requires |op| <= |trimmed|
  {
    QuotedIdentifier(column) + " " + op + " '" + EscapeStringLiteral(Trim(trimmed[|op|..])) + "'"
  }

  function ColumnSnippet(column: string, value: string): string {
    var trimmed := Trim(value);
    match ExtractOperator(trimmed)
    case Some(op) => CompareSnippet(column, op, trimmed)
    case None => ILikeSnippet(column, trimmed)
  }

  function GlobalSnippets(columns: seq<string>, filter: string): (r: seq<string>)
    ensures |r| == |columns|
  {
    if columns == [] then [] else [ILikeSnippet(columns[0], filter)] + GlobalSnippets(columns[1..], filter)
  }

  lemma {:induction false} DoubleAppend(a: string, b: string, q: char)
    ensures Double(a + b, q) == Double(a, q) + Double(b, q)
  {
    if a == "" {
      assert a + b == b;
    } else {
      assert (a + b)[1..] == a[1..] + b;
      DoubleAppend(a[1..], b, q);
    }
  }

  lemma EscapePattern(filter: string)
    ensures EscapeStringLiteral(Wildcard(filter)) == "%" + EscapeStringLiteral(filter) + "%"
  {
    DoubleAppend("%" + filter, "%", SQUOTE);
    DoubleAppend("%", filter, SQUOTE);
    assert Double("%", SQUOTE) == "%";
  }

  lemma ILikeSnippetReads(column: string, filter: string)
    requires Segments(column) != []
    ensures ReadsAs(ILikeSnippet(column, filter), ILike(Segments(column), Wildcard(filter)))
  {
    EscapePattern(filter);
    ILikeReads(Segments(column), Wildcard(filter));
    assert ILikeSnippet(column, filter) == ILikeText(Segments(column), Wildcard(filter));
  }

  lemma ColumnSnippetReads(column: string, value: string)
    requires Segments(column) != []
    ensures ReadsAs(ColumnSnippet(column, value), ColumnCondition(column, value))
  {
    var trimmed := Trim(value);
    if ExtractOperator(trimmed).Some? {
      var op := ExtractOperator(trimmed).value;
      var operand := Trim(trimmed[|op|..]);
      CompareReads(Segments(column), op, operand);
      assert ColumnSnippet(column, value) == CompareText(Segments(column), op, operand);
      assert ColumnCondition(column, value) == Compare(Segments(column), op, operand);
    } else {
      ILikeSnippetReads(column, trimmed);
    }
  }

  lemma AllReadCons(text: string, e: Expr, texts: seq<string>, es: seq<Expr>)
    requires ReadsAs(text, e) && AllRead(texts, es)
    ensures AllRead([text] + texts, [e] + es)
  {
    forall i | 0 <= i < |es| + 1 ensures ReadsAs(([text] + texts)[i], ([e] + es)[i]) {
      if i > 0 {
        assert ([text] + texts)[i] == texts[i - 1] && ([e] + es)[i] == es[i - 1];
      }
    }
  }

  lemma {:induction false} GlobalSnippetsRead(columns: seq<string>, filter: string)
    requires forall c :: c in columns ==> Segments(c) != []
    ensures AllRead(GlobalSnippets(columns, filter), GlobalConditions(columns, Wildcard(filter)))
  {
    if columns != [] {
      assert columns[0] in columns;
      ILikeSnippetReads(columns[0], filter);
      GlobalSnippetsRead(columns[1..], filter);
      AllReadCons(ILikeSnippet(columns[0], filter), ILike(Segments(columns[0]), Wildcard(filter)),
                  GlobalSnippets(columns[1..], filter), GlobalConditions(columns[1..], Wildcard(filter)));
    }
  }

  lemma OneReads(text: string, e: Expr)
    requires ReadsAs(text, e)
    ensures AllRead([text], [e])
  {
  }

  function GlobalCondition(columns: seq<string>, filter: string): Expr
    requires columns != []
  {
    var es := GlobalConditions(columns, Wildcard(filter));
    Nested(OrFold(es[0], es[1..]))
  }

  function GlobalSnippet(columns: seq<string>, filter: string): string {
    "(" + Join(GlobalSnippets(columns, filter), " OR ") + ")"
  }

  lemma GlobalSnippetReads(columns: seq<string>, filter: string)
    requires columns != [] && forall c :: c in columns ==> Segments(c) != []
    ensures AllRead([GlobalSnippet(columns, filter)], [GlobalCondition(columns, filter)])
  {
    GlobalSnippetsRead(columns, filter);
    OrGroupReads(GlobalSnippets(columns, filter), GlobalConditions(columns, Wildcard(filter)));
    OneReads(GlobalSnippet(columns, filter), GlobalCondition(columns, filter));
  }

  lemma NullSnippetReads(column: string)
    requires Segments(column) != []
    ensures AllRead([QuotedIdentifier(column) + " IS NULL"], [IsNull(Segments(column))])
  {
    NullReads(Segments(column));
    OneReads(NullText(Segments(column)), IsNull(Segments(column)));
  }

  function ColumnSnippets(entries: Entries): seq<string> {
    if entries == [] then []
    else
      (if Blank(entries[0].1) then [] else [ColumnSnippet(entries[0].0, entries[0].1)])
      + ColumnSnippets(entries[1..])
  }

  lemma ColumnSnippetsStep(conditions: seq<string>, entries: Entries)
    requires entries != []
    ensures Blank(entries[0].1) ==> conditions + ColumnSnippets(entries) == conditions + ColumnSnippets(entries[1..])
    ensures !Blank(entries[0].1) ==>
              conditions + ColumnSnippets(entries) ==
              (conditions + [ColumnSnippet(entries[0].0, entries[0].1)]) + ColumnSnippets(entries[1..])
  {
    if Blank(entries[0].1) {
      assert ColumnSnippets(entries) == ColumnSnippets(entries[1..]);
    } else {
      Assoc(conditions, [ColumnSnippet(entries[0].0, entries[0].1)], ColumnSnippets(entries[1..]));
    }
  }

  lemma {:induction false} ColumnSnippetsRead(entries: Entries)
    requires forall i :: 0 <= i < |entries| && !Blank(entries[i].1) ==> Segments(entries[i].0) != []
    ensures AllRead(ColumnSnippets(entries), ColumnConditions(entries))
  {
    if entries != [] {
      ColumnSnippetsRead(entries[1..]);
      if !Blank(entries[0].1) {
        ColumnSnippetReads(entries[0].0, entries[0].1);
        AllReadCons(ColumnSnippet(entries[0].0, entries[0].1), ColumnCondition(entries[0].0, entries[0].1),
                    ColumnSnippets(entries[1..]), ColumnConditions(entries[1..]));
      }
    }
  }

  /** The condition texts the code collects. */
  function ConditionSql(request: Request, entries: Entries): seq<string>
  {
    match request.nullFilter
    case Some(column) => [QuotedIdentifier(column) + " IS NULL"]
    case None =>
      if HasGlobal(request) then [GlobalSnippet(request.columns, Trim(request.globalFilter))]
      else ColumnSnippets(entries)
  }

  /** When every column is named, each condition text reads back to the condition
      the request means: no column name and no filter value can change the
      structure of the query. */
  lemma ConditionsReadBack(request: Request, entries: Entries)
    requires IsIteration(entries, request.columnFilters) && ColumnsNamed(request)
    ensures AllRead(ConditionSql(request, entries), Meant(request, entries))
  {
    if request.nullFilter.Some? {
      NullSnippetReads(request.nullFilter.value);
    } else if HasGlobal(request) {
      GlobalSnippetReads(request.columns, Trim(request.globalFilter));
    } else {
      ColumnSnippetsRead(entries);
    }
  }

  method BuildFilterConditionSql(request: Request, entries: Entries) returns (conditions: seq<string>)
    ensures conditions == ConditionSql(request, entries)
  {
    if request.nullFilter.Some? {
      conditions := [QuotedIdentifier(request.nullFilter.value) + " IS NULL"];
    } else if HasGlobal(request) {
      conditions := [GlobalSnippet(request.columns, Trim(request.globalFilter))];
    } else {
      conditions := CollectColumnConditions(entries);
    }
  }

  /** The loop over the column filters. */
  method CollectColumnConditions(entries: Entries) returns (conditions: seq<string>)
    ensures conditions == ColumnSnippets(entries)
  {
    conditions := [];
    ghost var rest := entries;
    for i := 0 to |entries|
      invariant rest == entries[i..]
      invariant conditions + ColumnSnippets(rest) == ColumnSnippets(entries)
    {
      assert rest[0] == entries[i] && rest[1..] == entries[i + 1..];
      ColumnSnippetsStep(conditions, rest);
      if !Blank(entries[i].1) {
        conditions := conditions + [ColumnSnippet(entries[i].0, entries[i].1)];
      }
      rest := rest[1..];
    }
  }

  // ----- the query text and the parsed query -----

  function OrderText(sort: SortState): string {
    QuotedIdentifier(sort.column) + " " + SortDirection(sort.direction)
  }

  /** When the column has no name, only the direction is written, and it is read as
      the name of a column. */
  function OrderMeant(sort: SortState): Order {
    if Segments(sort.column) == [] then Order([SortDirection(sort.direction)], false)
    else Order(Segments(sort.column), Descending(sort.direction))
  }

  function WhereText(conditions: seq<string>): string {
    if conditions == [] then "" else " WHERE " + Join(conditions, " AND ")
  }

  /** What the string fallback writes behind the wrapped base query. */
  function FallbackTail(request: Request, entries: Entries): string
  {
    WhereText(ConditionSql(request, entries)) + OrderTail(request.sort)
  }

  const WRAPPER_OPEN: string := "SELECT * FROM ("
  const WRAPPER_CLOSE: string := ") AS _daitalk_q"

  method FallbackEffectiveSql(request: Request, entries: Entries) returns (sql: string)
    ensures sql == "SELECT * FROM (" + TrimSqlTerminator(request.baseSql) + ") AS _daitalk_q"
                   + FallbackTail(request, entries)
  {
    sql := WRAPPER_OPEN + TrimSqlTerminator(request.baseSql) + WRAPPER_CLOSE;
    ghost var wrapped := sql;
    var conditions := BuildFilterConditionSql(request, entries);
    if conditions != [] {
      sql := sql + " WHERE ";
      sql := sql + Join(conditions, " AND ");
      Assoc(wrapped, " WHERE ", Join(conditions, " AND "));
    }
    if request.sort.Some? {
      ghost var where := if conditions == [] then "" else " WHERE " + Join(conditions, " AND ");
      assert sql == wrapped + where;
      sql := sql + (" ORDER BY " + OrderText(request.sort.value));
      Assoc(wrapped, where, " ORDER BY " + OrderText(request.sort.value));
    }
  }

  /** `parse_where_expr` over the condition texts; a text that does not parse is
      dropped. */
  function ParsedConditions(texts: seq<string>): seq<Expr> {
    if texts == [] then []
    else (match ParseWhere(texts[0]) case Some(e) => [e] case None => []) + ParsedConditions(texts[1..])
  }

  function CombineWithAnd(es: seq<Expr>): Option<Expr> {
    if es == [] then None else Some(AndFold(es[0], es[1..]))
  }

  /** The text of the paths that write text, or the parsed wrapper with a filter and
      an order put into it. */
  datatype Effective<Q> =
    | Text(sql: string)
    | Wrapped(query: Q, where: Option<Expr>, orderBy: Option<Order>)

  function FallbackText(request: Request, entries: Entries): string {
    WRAPPER_OPEN + TrimSqlTerminator(request.baseSql) + WRAPPER_CLOSE + FallbackTail(request, entries)
  }

  /** The wrapper around the base query as it is printed, parsed a second time. */
  function WrappedQuery<Q>(baseSql: string, parse: string -> Option<Q>, print_: Q -> string): Option<Q> {
    match parse(baseSql)
    case None => None
    case Some(query) => parse(WRAPPER_OPEN + print_(query) + WRAPPER_CLOSE)
  }

  /** `parse` and `print_` are the SQL parser and its printer; `isSelect` tells
      whether a query's body is a SELECT. */
  method BuildEffectiveSql<Q>(request: Request, entries: Entries, parse: string -> Option<Q>, print_: Q -> string,
                              isSelect: Q -> bool)
    returns (r: Effective<Q>)
    ensures Blank(request.baseSql) ==> r == Text("")
    ensures !Blank(request.baseSql) && !HasTransform(request) ==> r == Text(TrimSqlTerminator(request.baseSql))
    ensures !Blank(request.baseSql) && HasTransform(request) ==>
              var wrapped := WrappedQuery(request.baseSql, parse, print_);
              if wrapped.None? || (request.sort.Some? && ReadOrder(OrderText(request.sort.value)) == None)
              then r == Text(FallbackText(request, entries))
              else && r.Wrapped? && r.query == wrapped.value
                   && r.where == (if isSelect(wrapped.value)
                                  then CombineWithAnd(ParsedConditions(ConditionSql(request, entries)))
                                  else None)
                   && r.orderBy == (if request.sort.None? then None else ReadOrder(OrderText(request.sort.value)))
    ensures r.Wrapped? && isSelect(r.query) && IsIteration(entries, request.columnFilters) && ColumnsNamed(request) ==>
              r.where == CombineWithAnd(Meant(request, entries))
  {
    hide ConditionSql, Meant, ColumnsNamed, IsIteration, Segments, OrderText, ReadOrder, FallbackTail, HasTransform,
         Blank;
    if Blank(request.baseSql) {
      return Text("");
    }
    if !HasTransform(request) {
      return Text(TrimSqlTerminator(request.baseSql));
    }
    var baseQuery := parse(request.baseSql);
    if baseQuery.None? {
      var sql := FallbackEffectiveSql(request, entries);
      return Text(sql);
    }
    var wrapped := parse(WRAPPER_OPEN + print_(baseQuery.value) + WRAPPER_CLOSE);
    if wrapped.None? {
      var sql := FallbackEffectiveSql(request, entries);
      return Text(sql);
    }
    var where: Option<Expr> := None;
    if isSelect(wrapped.value) {
      var snippets := BuildFilterConditionSql(request, entries);
      var conditions := ParsedConditions(snippets);
      if conditions != [] {
        where := CombineWithAnd(conditions);
      }
      if IsIteration(entries, request.columnFilters) && ColumnsNamed(request) {
        ConditionsReadBack(request, entries);
        ParsedConditionsAll(snippets, Meant(request, entries));
      }
    }
    var orderBy: Option<Order> := None;
    if request.sort.Some? {
      orderBy := ReadOrder(OrderText(request.sort.value));
      if orderBy.None? {
        var sql := FallbackEffectiveSql(request, entries);
        return Text(sql);
      }
    }
    return Wrapped(wrapped.value, where, orderBy);
  }

  // ----- both paths read as the same filter and order -----

  lemma DirectionReads(path: seq<string>, chain: string, direction: string)
    requires direction == "DESC" || direction == "ASC"
    requires LexChain(chain + (" " + direction)) == Some((path, " " + direction))
    ensures ReadOrder(chain + " " + direction) == Some(Order(path, direction == "DESC"))
  {
    Assoc(chain, " ", direction);
    assert (" " + direction)[1] == direction[0];
  }

  /** The text of a sort always reads as an order: with a named column as that
      column and direction, otherwise as a column named like the direction. */
  lemma OrderReads(sort: SortState)
    ensures ReadOrder(OrderText(sort)) == Some(OrderMeant(sort))
  {
    if Segments(sort.column) == [] {
      QuotedIdentifierLexes(sort.column, "");
      assert OrderText(sort) == " " + SortDirection(sort.direction);
      assert OrderText(sort)[1..] == SortDirection(sort.direction);
    } else {
      var direction := SortDirection(sort.direction);
      QuotedIdentifierLexes(sort.column, " " + direction);
      DirectionReads(Segments(sort.column), QuotedIdentifier(sort.column), direction);
    }
  }

  lemma SnippetParses(text: string, e: Expr)
    requires ReadsAs(text, e)
    ensures ParseWhere(text) == Some(e)
  {
    assert ReadsBefore(text, e, "") && text + "" == text;
    assert ReadAnd(text) == ReadAndTail(e, "") == Some((e, ""));
    assert ReadOr(text) == ReadOrTail(e, "") == Some((e, ""));
  }

  lemma {:induction false} ParsedConditionsAll(texts: seq<string>, es: seq<Expr>)
    requires AllRead(texts, es)
    ensures ParsedConditions(texts) == es
  {
    if es != [] {
      SnippetParses(texts[0], es[0]);
      ParsedConditionsAll(texts[1..], es[1..]);
      assert [es[0]] + es[1..] == es;
    }
  }

  function OrderTail(sort: Option<SortState>): string {
    if sort.None? then "" else " ORDER BY " + OrderText(sort.value)
  }

  lemma OrderByStart(item: string)
    ensures var tail := " ORDER BY " + item;
            && StartsWith(tail, " ORDER BY ") && tail[10..] == item && Boundary(tail)
            && !StartsWith(tail, " AND ") && !StartsWith(tail, " OR ") && !StartsWith(tail, " WHERE ")
  {
    var tail := " ORDER BY " + item;
    assert tail[1] == 'O' && tail[3] == 'D';
    Differs(tail, " AND ", 1);
    Differs(tail, " OR ", 3);
    Differs(tail, " WHERE ", 1);
  }

  lemma OrderTailReads(where: Option<Expr>, sort: Option<SortState>)
    ensures var tail := OrderTail(sort);
            && ReadOrderTail(where, tail) == Some((where, if sort.None? then None else Some(OrderMeant(sort.value))))
            && Boundary(tail) && !StartsWith(tail, " AND ") && !StartsWith(tail, " OR ") && !StartsWith(tail, " WHERE ")
  {
    if sort.Some? {
      OrderByStart(OrderText(sort.value));
      OrderReads(sort.value);
    }
  }

  /** The text the fallback writes behind the wrapper reads as exactly the filter
      and the order that the parsed path puts into the query. */
  lemma FallbackTailReads(request: Request, entries: Entries)
    requires IsIteration(entries, request.columnFilters) && ColumnsNamed(request)
    ensures ReadTail(FallbackTail(request, entries)) ==
              Some((CombineWithAnd(Meant(request, entries)),
                    if request.sort.None? then None else Some(OrderMeant(request.sort.value))))
  {
    var texts, es := ConditionSql(request, entries), Meant(request, entries);
    ConditionsReadBack(request, entries);
    OrderTailReads(CombineWithAnd(es), request.sort);
    TailReads(texts, es, OrderTail(request.sort));
  }

  lemma TailReads(texts: seq<string>, es: seq<Expr>, tail: string)
    requires AllRead(texts, es) && Boundary(tail)
    requires !StartsWith(tail, " AND ") && !StartsWith(tail, " OR ") && !StartsWith(tail, " WHERE ")
    ensures ReadTail(WhereText(texts) + tail) == ReadOrderTail(CombineWithAnd(es), tail)
  {
    if es == [] {
      assert "" + tail == tail;
    } else {
      AndJoinReads(texts, es, tail);
      Assoc(" WHERE ", Join(texts, " AND "), tail);
      StartsWithAppend(" WHERE ", Join(texts, " AND ") + tail);
    }
  }
}
