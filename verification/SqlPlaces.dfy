/**
  Where the analyzer finds names and where it looks for more
  (src-tauri/src/intelligence/sql_analyzer.rs), told from what is found: by which
  nodes a table, a column or a flag is named, and which children of a node are visited.
*/
module SqlPlaces {
  import opened SqlAst
  import opened SqlNodes
  import opened Text
  import opened Wrappers

  // ----- what names what -----

  /** A table is named by an insert, a table factor or a `TABLE` body. */
  lemma TableIsNamedBy(n: Node, name: string)
    ensures TableMark(name) in Own(n) <==>
            || (n.OnStatement? && n.statement.Insert? && name == Join(n.statement.tableName, "."))
            || (n.OnFactor? && n.factor.Table? && name == Join(n.factor.name, "."))
            || (n.OnBody? && n.body.TableBody? && n.body.tableName.Some? && name != ""
                && name == match n.body.schemaName
                           case None => n.body.tableName.value
                           case Some(schemaName) => schemaName + "." + n.body.tableName.value)
  {
  }

  /** A column is named by an identifier, a wildcard, the key of a composite, a `USING`
      column or an assignment. */
  lemma ColumnIsNamedBy(n: Node, name: string)
    ensures ColumnMark(name) in Own(n) <==>
            || (n.OnExpr? && n.expr.Identifier? && name == n.expr.ident)
            || (n.OnExpr? && n.expr.CompoundIdentifier? && name == Join(n.expr.parts, "."))
            || (n.OnExpr? && n.expr.CompositeAccess? && name == n.expr.key)
            || (n.OnItem? && n.item.Wildcard? && name == "*")
            || (n.OnItem? && n.item.QualifiedWildcard? && name == Join(n.item.name, ".") + ".*")
            || (n.OnArg? && n.arg.ArgWildcard? && name == "*")
            || (n.OnArg? && n.arg.ArgQualifiedWildcard? && name == Join(n.arg.name, ".") + ".*")
            || (n.OnColumn? && name == n.column)
            || (n.OnAssignment? && n.assignment.id != [] && name == Join(n.assignment.id, "."))
  {
  }

  lemma FlagsAreSetBy(n: Node)
    ensures JoinMark in Own(n) <==>
            (n.OnTable? && n.table.joins != []) || (n.OnFactor? && n.factor.NestedJoin?)
    ensures SubqueryMark in Own(n) <==>
            || (n.OnExpr? && (n.expr.InSubquery? || n.expr.SubqueryExpr?))
            || (n.OnBody? && n.body.QueryBody?) || (n.OnFactor? && n.factor.Derived?)
    ensures CteMark in Own(n) <==> n.OnWith? && n.with.With?
    ensures AggregateMark in Own(n) <==>
            || n.OnHaving? || (n.OnGroupBy? && (n.groupBy.GroupByAll? || n.groupBy.exprs != []))
            || (n.OnFunction? && IsAggregate(n.call.name))
  {
    hide IsAggregate;
  }

  /** The thirteen aggregates, in any mixture of cases. */
  lemma AggregateNames(name: string)
    requires forall i :: 0 <= i < |name| ==> name[i] < 128 as char
    ensures IsAggregate([name]) <==>
            AsciiUpper(name) in ["COUNT", "SUM", "AVG", "MIN", "MAX", "STDDEV", "STDDEV_POP", "STDDEV_SAMP", "VARIANCE",
                                 "VAR_POP", "VAR_SAMP", "ARRAY_AGG", "STRING_AGG"]
  {
    hide AsciiUpper, Upper;
    UpperIsAscii(name);
  }

  lemma {:induction false} UpperIsAscii(s: string)
    requires forall i :: 0 <= i < |s| ==> s[i] < 128 as char
    ensures Upper(s) == AsciiUpper(s)
  {
    if s != "" {
      UpperIsAscii(s[1..]);
    }
  }

  lemma {:induction false} UpperAppend(a: string, b: string)
    ensures Upper(a + b) == Upper(a) + Upper(b)
  {
    if a == "" {
      assert a + b == b;
    } else {
      UpperAppend(a[1..], b);
      assert (a + b)[1..] == a[1..] + b;
      Assoc(UpperChar(a[0]), Upper(a[1..]), Upper(b));
    }
  }

  lemma AlikeInside(a: string, x: string, y: string, b: string)
    requires Upper(x) == Upper(y)
    ensures IsAggregate([a + x + b]) <==> IsAggregate([a + y + b])
  {
    hide Upper;
    UpperAppend(a, x);
    UpperAppend(a, y);
    UpperAppend(a + x, b);
    UpperAppend(a + y, b);
  }

  /** The dotless i counts as I, the long s as S, and both ligatures of s and t as ST. */
  lemma OtherCapitals(a: string, b: string)
    ensures IsAggregate([a + "\U{131}" + b]) <==> IsAggregate([a + "I" + b])
    ensures IsAggregate([a + "\U{17F}" + b]) <==> IsAggregate([a + "S" + b])
    ensures IsAggregate([a + "\U{FB05}" + b]) <==> IsAggregate([a + "ST" + b])
    ensures IsAggregate([a + "\U{FB06}" + b]) <==> IsAggregate([a + "ST" + b])
  {
    hide IsAggregate;
    OneCapital('\U{131}');
    OneCapital('I');
    OneCapital('\U{17F}');
    OneCapital('S');
    OneCapital('T');
    OneCapital('\U{FB05}');
    OneCapital('\U{FB06}');
    assert "ST" == "S" + "T";
    UpperAppend("S", "T");
    AlikeInside(a, "\U{131}", "I", b);
    AlikeInside(a, "\U{17F}", "S", b);
    AlikeInside(a, "\U{FB05}", "ST", b);
    AlikeInside(a, "\U{FB06}", "ST", b);
  }

  lemma OneCapital(c: char)
    ensures Upper([c]) == UpperChar(c)
  {
    assert [c][1..] == "";
  }

  /** A name with a schema in front is never taken for an aggregate. */
  lemma QualifiedIsNoAggregate(name: Name)
    requires |name| > 1
    ensures !IsAggregate(name)
  {
    hide Upper;
    DotStays(name[0], Join(name[1..], "."));
    var upper := Upper(NormalizeName(name));
    forall k | 0 <= k < |AGGREGATES|
      ensures upper != AGGREGATES[k]
    {
      assert forall i :: 0 <= i < |AGGREGATES[k]| ==> AGGREGATES[k][i] != '.';
    }
  }

  lemma {:induction false} DotStays(a: string, b: string)
    ensures '.' in Upper(a + "." + b)
  {
    if a == "" {
      assert (a + "." + b)[0] == '.';
      assert UpperChar('.') == ".";
    } else {
      DotStays(a[1..], b);
      assert (a + "." + b)[1..] == a[1..] + "." + b;
    }
  }

  // ----- where it looks -----

  predicate Given<T(==)>(field: Option<T>, x: T) {
    field == Some(x)
  }

  lemma InEach<T>(xs: seq<T>, on: T -> Node, n: Node)
    ensures n in Each(xs, on) <==> exists x :: x in xs && on(x) == n
  {
    if x :| x in xs && on(x) == n {
      var i :| 0 <= i < |xs| && xs[i] == x;
      assert Each(xs, on)[i] == n;
    }
    if n in Each(xs, on) {
      var i :| 0 <= i < |xs| && Each(xs, on)[i] == n;
      assert xs[i] in xs;
    }
  }

  lemma InExprs(es: seq<Expr>, n: Node)
    ensures n in Exprs(es) <==> n.OnExpr? && n.expr in es
  {
    InEach(es, e => OnExpr(e), n);
  }

  lemma InItems(items: seq<SelectItem>, n: Node)
    ensures n in Items(items) <==> n.OnItem? && n.item in items
  {
    InEach(items, i => OnItem(i), n);
  }

  lemma InTables(ts: seq<TableWithJoins>, n: Node)
    ensures n in Tables(ts) <==> n.OnTable? && n.table in ts
  {
    InEach(ts, t => OnTable(t), n);
  }

  lemma InArgs(args: seq<FunctionArg>, n: Node)
    ensures n in Args(args) <==> n.OnArg? && n.arg in args
  {
    InEach(args, a => OnArg(a), n);
  }

  /** Below an expression: its operands, its subquery, or its call. */
  lemma ExprLooksInto(e: Expr, n: Node)
    ensures n in Inner(OnExpr(e)) <==>
            || (n.OnExpr? && e.Binary? && (n.expr == e.left || n.expr == e.right))
            || (n.OnExpr? && (e.Unary? || e.InUnnest? || e.Between? || e.InList? || e.InSubquery? || e.Substring?
                              || e.CompositeAccess?)
                && n.expr == e.expr)
            || (n.OnExpr? && e.Between? && (n.expr == e.low || n.expr == e.high))
            || (n.OnExpr? && e.InList? && n.expr in e.list)
            || (n.OnExpr? && e.ExprList? && n.expr in e.exprs)
            || (n.OnExpr? && e.Substring? && (Given(e.substringFrom, n.expr) || Given(e.substringFor, n.expr)))
            || (n.OnExpr? && e.Case? && (n.expr in e.conditions || n.expr in e.results))
            || (n.OnExpr? && e.Case? && (Given(e.operand, n.expr) || Given(e.elseResult, n.expr)))
            || (n.OnQuery? && (e.InSubquery? || e.SubqueryExpr?) && n.query == e.subquery)
            || (n.OnFunction? && e.Call? && n.call == e.call)
  {
    hide Exprs;
    match e
    case InList(_, list) => InExprs(list, n);
    case ExprList(exprs) => InExprs(exprs, n);
    case Case(_, conditions, results, _) => InExprs(conditions, n); InExprs(results, n);
    case _ =>
  }

  /** Below a select: every clause. */
  lemma SelectLooksInto(s: Select, n: Node)
    ensures n in Inner(OnSelect(s)) <==>
            || (n.OnItem? && n.item in s.projection) || (n.OnTable? && n.table in s.from)
            || n == OnGroupBy(s.groupBy) || (n.OnHaving? && Given(s.having, n.condition))
            || (n.OnExpr? && (n.expr in s.lateralViews || n.expr in s.clusterBy || n.expr in s.distributeBy
                              || n.expr in s.sortBy || Given(s.selection, n.expr) || Given(s.qualify, n.expr)))
  {
    hide Exprs, Items, Tables;
    InItems(s.projection, n);
    InTables(s.from, n);
    InExprs(s.lateralViews, n);
    InExprs(s.clusterBy, n);
    InExprs(s.distributeBy, n);
    InExprs(s.sortBy, n);
  }

  /** Below a query: its CTEs, its body, its order and its limits. */
  lemma QueryLooksInto(q: Query, n: Node)
    ensures n in Inner(OnQuery(q)) <==>
            || n == OnWith(q.with) || n == OnBody(q.body)
            || (n.OnExpr? && (n.expr in q.limitBy || n.expr in q.orderBy || Given(q.limit, n.expr)
                              || Given(q.offset, n.expr) || Given(q.fetch, n.expr)))
  {
    hide Exprs;
    InExprs(q.limitBy, n);
    InExprs(q.orderBy, n);
  }

  /** Below a statement; nothing below DDL and the others. */
  lemma StatementLooksInto(s: Statement, n: Node)
    ensures n in Inner(OnStatement(s)) <==>
            || (s.QueryStatement? && n == OnQuery(s.query)) || (s.Insert? && n.OnQuery? && Given(s.source, n.query))
            || (n.OnTable? && ((s.Update? && (n.table == s.table || Given(s.updateFrom, n.table)))
                               || (s.Delete? && n.table in s.from)))
            || (s.Update? && n.OnAssignment? && n.assignment in s.assignments)
            || (s.Delete? && n == OnUsing(s.using))
            || ((s.Update? || s.Delete?)
                && (n == OnReturning(s.returning) || (n.OnExpr? && Given(s.selection, n.expr))))
            || (s.Delete? && n.OnExpr? && (n.expr in s.orderBy || Given(s.limit, n.expr)))
  {
    hide Exprs, Tables, Each;
    match s
    case Update(_, _, _, assignments, _) => InEach(assignments, a => OnAssignment(a), n);
    case Delete(from, _, _, _, orderBy, _, _) => InTables(from, n); InExprs(orderBy, n);
    case _ =>
  }

  /** Below a function call: its arguments, its filter and its order. */
  lemma FunctionLooksInto(f: Function, n: Node)
    ensures n in Inner(OnFunction(f)) <==>
            || (n.OnArg? && n.arg in f.args)
            || (n.OnExpr? && (Given(f.filter, n.expr) || n.expr in f.orderBy))
  {
    hide Exprs, Args;
    InArgs(f.args, n);
    InExprs(f.orderBy, n);
  }

  /** Below a table and its joins: the relations, and what they are joined on. */
  lemma TableLooksInto(t: TableWithJoins, n: Node)
    ensures n in Inner(OnTable(t)) <==> n == OnFactor(t.relation) || (n.OnJoin? && n.join in t.joins)
    ensures forall join ::
              n in Inner(OnJoin(join)) <==> n == OnFactor(join.relation) || n == OnConstraint(join.constraint)
    ensures forall on :: n in Inner(OnConstraint(On(on))) <==> n == OnExpr(on)
    ensures forall attrs :: n in Inner(OnConstraint(Using(attrs))) <==> n.OnColumn? && n.column in attrs
  {
    hide Each;
    InEach(t.joins, j => OnJoin(j), n);
    forall attrs
      ensures n in Inner(OnConstraint(Using(attrs))) <==> n.OnColumn? && n.column in attrs
    {
      InEach(attrs, c => OnColumn(c), n);
    }
  }

  /** Below a table factor: the subquery, the functions' operands, the joined or turned table. */
  lemma FactorLooksInto(f: TableFactor, n: Node)
    ensures n in Inner(OnFactor(f)) <==>
            || (f.Derived? && n == OnQuery(f.subquery)) || (f.NestedJoin? && n == OnTable(f.table))
            || (f.Pivot? && n == OnFactor(f.pivoted)) || (f.Unpivot? && n == OnFactor(f.unpivoted))
            || (f.FunctionTable? && n.OnArg? && n.arg in f.args)
            || (n.OnExpr? && ((f.TableFunction? && n.expr == f.expr) || (f.Unnest? && n.expr in f.arrayExprs)
                              || (f.Pivot? && n.expr == f.aggregate)))
  {
    hide Exprs, Args;
    match f
    case FunctionTable(args) => InArgs(args, n);
    case Unnest(arrayExprs) => InExprs(arrayExprs, n);
    case _ =>
  }

  /** Below a set expression, a row of values, and the list of CTEs. */
  lemma BodyLooksInto(body: SetExpr, row: ValuesRow, with: With, n: Node)
    ensures n in Inner(OnBody(body)) <==>
            || (body.SelectBody? && n == OnSelect(body.select)) || (body.QueryBody? && n == OnQuery(body.query))
            || (body.SetOperation? && (n == OnBody(body.left) || n == OnBody(body.right)))
            || (body.ValuesBody? && n.OnRow? && n.row in body.rows)
            || (body.StatementBody? && n == OnStatement(body.statement))
    ensures n in Inner(OnRow(row)) <==> n.OnExpr? && n.expr in row.exprs
    ensures n in Inner(OnWith(with)) <==> with.With? && n.OnQuery? && n.query in with.ctes
  {
    hide Exprs, Each;
    InExprs(row.exprs, n);
    if body.ValuesBody? {
      InEach(body.rows, r => OnRow(r), n);
    }
    if with.With? {
      InEach(with.ctes, q => OnQuery(q), n);
    }
  }

  /** Below the small parts: an item's or argument's expression, what is grouped by, filtered
      by HAVING, assigned or returned, and the tables of USING. */
  lemma PartLooksInto(n: Node, inner: Node)
    requires n.OnItem? || n.OnArg? || n.OnGroupBy? || n.OnHaving? || n.OnAssignment? || n.OnReturning? || n.OnUsing?
    ensures inner in Inner(n) <==>
            || (n.OnItem? && n.item.ItemExpr? && inner == OnExpr(n.item.expr))
            || (n.OnArg? && n.arg.ArgExpr? && inner == OnExpr(n.arg.expr))
            || (n.OnGroupBy? && n.groupBy.GroupByExprs? && inner.OnExpr? && inner.expr in n.groupBy.exprs)
            || (n.OnHaving? && inner == OnExpr(n.condition))
            || (n.OnAssignment? && inner == OnExpr(n.assignment.value))
            || (n.OnReturning? && n.returning.Returning? && inner.OnItem? && inner.item in n.returning.items)
            || (n.OnUsing? && n.using.UsingTables? && inner.OnTable? && inner.table in n.using.tables)
  {
    hide Exprs, Items, Tables;
    match n
    case OnGroupBy(groupBy) => if groupBy.GroupByExprs? { InExprs(groupBy.exprs, inner); }
    case OnReturning(returning) => if returning.Returning? { InItems(returning.items, inner); }
    case OnUsing(using) => if using.UsingTables? { InTables(using.tables, inner); }
    case _ =>
  }

  // ----- what it passes over -----

  /** The parts a node skips. */
  lemma SkippedBy(n: Node, part: Part)
    ensures part in SkippedParts(n) <==>
            || (n.OnStatement? && !n.statement.QueryStatement? && !n.statement.Update? && part in n.statement.skipped)
            || (n.OnQuery? && part in n.query.skipped) || (n.OnSelect? && part in n.select.skipped)
            || (n.OnItem? && !n.item.ItemExpr? && part in n.item.skipped)
            || (n.OnFactor? && (n.factor.Table? || n.factor.Pivot? || n.factor.Unpivot?) && part in n.factor.skipped)
            || (n.OnExpr? && n.expr.InUnnest? && part == PartExpr(n.expr.arrayExpr))
            || (n.OnExpr? && n.expr.OtherExpr? && part in n.expr.skipped)
            || (n.OnFunction? && part in n.call.skipped)
  {
  }

  /** A skipped part holds the one node it stands for. */
  lemma SkippedStandsFor(part: Part, n: Node)
    ensures n in Parts(OnSkipped(part)) <==>
            match part
            case PartExpr(expr) => n == OnExpr(expr)
            case PartQuery(query) => n == OnQuery(query)
            case PartStatement(statement) => n == OnStatement(statement)
            case PartTable(name) => n == OnFactor(Table(name, []))
            case PartColumn(column) => n == OnColumn(column)
            case PartItem(item) => n == OnItem(item)
            case PartArg(arg) => n == OnArg(arg)
            case PartAssignment(assignment) => n == OnAssignment(assignment)
  {
    assert Parts(OnSkipped(part)) == [OnPart(part)];
  }
}
