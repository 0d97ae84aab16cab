/**
  The analyzer's mutating traversal (src-tauri/src/intelligence/sql_analyzer.rs):
  every function adds to one `QueryAnalysis`. Each is proved to add exactly what is
  shown at the nodes that occur below its argument, in the sense of `SqlNodes`,
  whatever was there before.
*/
module SqlAnalyzer {
  import opened SqlAst
  import opened SqlNodes
  import opened Wrappers

  class QueryAnalysis {
    const statementType: StatementType
    var sourceTables: seq<string>
    var hasJoins: bool
    var hasSubqueries: bool
    var hasCte: bool
    var isAggregate: bool
    var referencedColumns: seq<string>
    ghost var marks: iset<Mark>

    /** The fields tell exactly what was found so far. */
    ghost predicate Valid()
      reads this
    {
      && (forall name :: name in sourceTables <==> TableMark(name) in marks)
      && (forall name :: name in referencedColumns <==> ColumnMark(name) in marks)
      && (hasJoins <==> JoinMark in marks)
      && (hasSubqueries <==> SubqueryMark in marks)
      && (hasCte <==> CteMark in marks)
      && (isAggregate <==> AggregateMark in marks)
    }

    /** `QueryAnalysis::empty`. */
    constructor (statementType: StatementType)
      ensures Valid() && marks == iset{} && this.statementType == statementType
      ensures sourceTables == [] && referencedColumns == []
      ensures !hasJoins && !hasSubqueries && !hasCte && !isAggregate
    {
      this.statementType := statementType;
      sourceTables, referencedColumns := [], [];
      hasJoins, hasSubqueries, hasCte, isAggregate := false, false, false, false;
      marks := iset{};
    }

    method PushTable(name: string)
      requires Valid()
      modifies this
      ensures Valid() && marks == old(marks) + iset{TableMark(name)}
    {
      sourceTables := sourceTables + [name];
      marks := marks + iset{TableMark(name)};
    }

    method PushColumn(name: string)
      requires Valid()
      modifies this
      ensures Valid() && marks == old(marks) + iset{ColumnMark(name)}
    {
      referencedColumns := referencedColumns + [name];
      marks := marks + iset{ColumnMark(name)};
    }

    method SetJoins()
      requires Valid()
      modifies this
      ensures Valid() && marks == old(marks) + iset{JoinMark}
    {
      hasJoins := true;
      marks := marks + iset{JoinMark};
    }

    method SetSubqueries()
      requires Valid()
      modifies this
      ensures Valid() && marks == old(marks) + iset{SubqueryMark}
    {
      hasSubqueries := true;
      marks := marks + iset{SubqueryMark};
    }

    method SetCte()
      requires Valid()
      modifies this
      ensures Valid() && marks == old(marks) + iset{CteMark}
    {
      hasCte := true;
      marks := marks + iset{CteMark};
    }

    method SetAggregate()
      requires Valid()
      modifies this
      ensures Valid() && marks == old(marks) + iset{AggregateMark}
    {
      isAggregate := true;
      marks := marks + iset{AggregateMark};
    }
  }

  // ----- adding up what is shown -----

  /** A further piece of the children has been visited. */
  lemma Then(start: iset<Mark>, done: seq<Node>, piece: seq<Node>)
    ensures start + AllMarks(done) + AllMarks(piece) == start + AllMarks(done + piece)
  {
    hide AllMarks;
    AllAppend(done, piece);
  }

  /** A further node of a list has been visited. */
  lemma Visited(start: iset<Mark>, nodes: seq<Node>, i: nat)
    requires i < |nodes|
    ensures start + AllMarks(nodes[..i]) + Marks(nodes[i]) == start + AllMarks(nodes[..i + 1])
  {
    hide AllMarks, Marks;
    AllOfOne(nodes[i]);
    Then(start, nodes[..i], [nodes[i]]);
    assert nodes[..i] + [nodes[i]] == nodes[..i + 1];
  }

  /** The node itself and all its children have been visited. */
  lemma Whole(start: iset<Mark>, n: Node)
    requires !n.OnSkipped?
    ensures start + Own(n) + AllMarks(Inner(n)) == start + Marks(n)
  {
    hide AllMarks, Marks, Own, Inner;
    Unfold(n);
  }

  /** The children of a node that is nothing by itself have been visited. */
  lemma OnlyParts(start: iset<Mark>, n: Node)
    requires !n.OnSkipped? && Own(n) == iset{}
    ensures start + AllMarks(Inner(n)) == start + Marks(n)
  {
    hide AllMarks, Marks, Own, Inner;
    Unfold(n);
  }

  /** The one child of such a node has been visited. */
  lemma OnlyPart(start: iset<Mark>, n: Node, part: Node)
    requires !n.OnSkipped? && Own(n) == iset{} && Inner(n) == [part]
    ensures start + Marks(part) == start + Marks(n)
  {
    hide AllMarks, Marks, Own, Inner;
    OnlyParts(start, n);
    AllOfOne(part);
  }

  /** A node without children has been visited. */
  lemma NoParts(start: iset<Mark>, n: Node)
    requires !n.OnSkipped? && Inner(n) == []
    ensures start + Own(n) == start + Marks(n)
  {
    hide AllMarks, Marks, Own, Inner;
    Unfold(n);
    AllOfNone();
  }

  /** Nothing at all has been visited. */
  lemma Nothing(start: iset<Mark>)
    ensures start == start + AllMarks([])
  {
    hide AllMarks;
    AllOfNone();
  }

  /** What a node is itself may be added between its children. */
  lemma InBetween(start: iset<Mark>, done: iset<Mark>, own: iset<Mark>)
    ensures start + done + own == start + own + done
  {
  }

  /** The two children of a node that is nothing by itself have been visited. */
  lemma TwoParts(start: iset<Mark>, n: Node, first: Node, second: Node)
    requires !n.OnSkipped? && Own(n) == iset{} && Inner(n) == [first, second]
    ensures start + Marks(first) + Marks(second) == start + Marks(n)
  {
    hide AllMarks, Marks, Own, Inner;
    OnlyParts(start, n);
    AllOfOne(first);
    AllOfOne(second);
    Then(start, [first], [second]);
    assert [first] + [second] == [first, second];
  }

  /** Its three children have been visited. */
  lemma ThreeParts(start: iset<Mark>, n: Node, first: Node, second: Node, third: Node)
    requires !n.OnSkipped? && Own(n) == iset{} && Inner(n) == [first, second, third]
    ensures start + Marks(first) + Marks(second) + Marks(third) == start + Marks(n)
  {
    hide AllMarks, Marks, Own, Inner;
    OnlyParts(start, n);
    AllOfOne(first);
    AllOfOne(second);
    AllOfOne(third);
    Then(start, [first], [second]);
    Then(start, [first] + [second], [third]);
    assert [first] + [second] + [third] == [first, second, third];
  }

  // ----- expressions -----

  method CollectExpr(e: Expr, a: QueryAnalysis)
    requires a.Valid()
    modifies a
    ensures a.Valid() && a.marks == old(a.marks) + Marks(OnExpr(e))
    decreases e, 1
  {
    hide Marks, AllMarks, NormalizeName;
    match e
    case Identifier(ident) =>
      NoParts(a.marks, OnExpr(e));
      a.PushColumn(ident);
    case CompoundIdentifier(parts) =>
      NoParts(a.marks, OnExpr(e));
      a.PushColumn(NormalizeName(parts));
    case Binary(_, _) => CollectFew(e, a);
    case Unary(expr) =>
      OnlyPart(a.marks, OnExpr(e), OnExpr(expr));
      CollectExpr(expr, a);
    case InUnnest(expr, _) =>
      OnlyPart(a.marks, OnExpr(e), OnExpr(expr));
      CollectExpr(expr, a);
    case Between(_, _, _) => CollectFew(e, a);
    case InList(_, _) => CollectMore(e, a);
    case InSubquery(_, _) => CollectSubquery(e, a);
    case SubqueryExpr(_) => CollectSubquery(e, a);
    case Case(_, _, _, _) => CollectCase(e, a);
    case Call(call) =>
      OnlyPart(a.marks, OnExpr(e), OnFunction(call));
      CollectFunction(call, a);
    case Substring(_, _, _) => CollectMore(e, a);
    case ExprList(exprs) =>
      OnlyParts(a.marks, OnExpr(e));
      CollectExprs(exprs, a);
    case CompositeAccess(expr, key) =>
      AllOfOne(OnExpr(expr));
      InBetween(a.marks, Marks(OnExpr(expr)), Own(OnExpr(e)));
      Whole(a.marks, OnExpr(e));
      CollectExpr(expr, a);
      a.PushColumn(key);
    case OtherExpr(_) =>
      Nothing(a.marks);
      OnlyParts(a.marks, OnExpr(e));
  }

  /** The arms of `collect_expr` that visit two or three expressions. */
  method CollectFew(e: Expr, a: QueryAnalysis)
    requires a.Valid() && (e.Binary? || e.Between?)
    modifies a
    ensures a.Valid() && a.marks == old(a.marks) + Marks(OnExpr(e))
    decreases e, 0
  {
    hide Marks, AllMarks, NormalizeName;
    ghost var start := a.marks;
    if e.Binary? {
      CollectExpr(e.left, a);
      CollectExpr(e.right, a);
      TwoParts(start, OnExpr(e), OnExpr(e.left), OnExpr(e.right));
    } else {
      CollectExpr(e.expr, a);
      CollectExpr(e.low, a);
      CollectExpr(e.high, a);
      ThreeParts(start, OnExpr(e), OnExpr(e.expr), OnExpr(e.low), OnExpr(e.high));
    }
  }

  /** The arms of `collect_expr` that visit an expression and a list or options. */
  method CollectMore(e: Expr, a: QueryAnalysis)
    requires a.Valid() && (e.InList? || e.Substring?)
    modifies a
    ensures a.Valid() && a.marks == old(a.marks) + Marks(OnExpr(e))
    decreases e, 0
  {
    hide Marks, AllMarks, NormalizeName;
    ghost var start := a.marks;
    CollectExpr(e.expr, a);
    AllOfOne(OnExpr(e.expr));
    if e.InList? {
      CollectExprs(e.list, a);
      Then(start, [OnExpr(e.expr)], Exprs(e.list));
    } else {
      CollectOption(e.substringFrom, a);
      Then(start, [OnExpr(e.expr)], Maybe(e.substringFrom));
      CollectOption(e.substringFor, a);
      Then(start, [OnExpr(e.expr)] + Maybe(e.substringFrom), Maybe(e.substringFor));
    }
    OnlyParts(start, OnExpr(e));
  }

  /** The arms of `collect_expr` with a subquery. */
  method CollectSubquery(e: Expr, a: QueryAnalysis)
    requires a.Valid() && (e.InSubquery? || e.SubqueryExpr?)
    modifies a
    ensures a.Valid() && a.marks == old(a.marks) + Marks(OnExpr(e))
    decreases e, 0
  {
    hide Marks, AllMarks, NormalizeName;
    match e
    case InSubquery(expr, subquery) =>
      ghost var start := a.marks;
      CollectExpr(expr, a);
      a.SetSubqueries();
      InBetween(start, Marks(OnExpr(expr)), iset{SubqueryMark});
      start := start + iset{SubqueryMark};
      AnalyzeSelectQuery(subquery, a);
      AllOfOne(OnExpr(expr));
      AllOfOne(OnQuery(subquery));
      Then(start, [OnExpr(expr)], [OnQuery(subquery)]);
      assert [OnExpr(expr)] + [OnQuery(subquery)] == Inner(OnExpr(e));
      Whole(old(a.marks), OnExpr(e));
    case SubqueryExpr(subquery) =>
      Whole(a.marks, OnExpr(e));
      AllOfOne(OnQuery(subquery));
      a.SetSubqueries();
      AnalyzeSelectQuery(subquery, a);
  }

  /** The `CASE` arm of `collect_expr`. */
  method CollectCase(e: Expr, a: QueryAnalysis)
    requires a.Valid() && e.Case?
    modifies a
    ensures a.Valid() && a.marks == old(a.marks) + Marks(OnExpr(e))
    decreases e, 0
  {
    hide Marks, AllMarks, NormalizeName;
    ghost var start := a.marks;
    CollectOption(e.operand, a);
    ghost var done := Maybe(e.operand);
    CollectExprs(e.conditions, a);
    Then(start, done, Exprs(e.conditions));
    done := done + Exprs(e.conditions);
    CollectExprs(e.results, a);
    Then(start, done, Exprs(e.results));
    done := done + Exprs(e.results);
    CollectOption(e.elseResult, a);
    Then(start, done, Maybe(e.elseResult));
    done := done + Maybe(e.elseResult);
    OnlyParts(start, OnExpr(e));
  }

  method CollectOption(e: Option<Expr>, a: QueryAnalysis)
    requires a.Valid()
    modifies a
    ensures a.Valid() && a.marks == old(a.marks) + AllMarks(Maybe(e))
    decreases e
  {
    hide Marks, AllMarks, NormalizeName;
    if e.Some? {
      AllOfOne(OnExpr(e.value));
      CollectExpr(e.value, a);
    } else {
      Nothing(a.marks);
    }
  }

  method CollectExprs(es: seq<Expr>, a: QueryAnalysis)
    requires a.Valid()
    modifies a
    ensures a.Valid() && a.marks == old(a.marks) + AllMarks(Exprs(es))
    decreases es
  {
    hide Marks, AllMarks, NormalizeName;
    ghost var start, nodes := a.marks, Exprs(es);
    Nothing(start);
    for i := 0 to |es|
      invariant a.Valid() && a.marks == start + AllMarks(nodes[..i])
    {
      CollectExpr(es[i], a);
      Visited(start, nodes, i);
    }
    assert nodes[..|es|] == nodes;
  }

  method CollectFunction(f: Function, a: QueryAnalysis)
    requires a.Valid()
    modifies a
    ensures a.Valid() && a.marks == old(a.marks) + Marks(OnFunction(f))
    decreases f
  {
    hide Marks, AllMarks, NormalizeName;
    ghost var start := a.marks + Own(OnFunction(f));
    Whole(a.marks, OnFunction(f));
    if IsAggregate(f.name) {
      a.SetAggregate();
    }
    CollectArgs(f.args, a);
    ghost var done := Args(f.args);
    CollectOption(f.filter, a);
    Then(start, done, Maybe(f.filter));
    done := done + Maybe(f.filter);
    CollectExprs(f.orderBy, a);
    Then(start, done, Exprs(f.orderBy));
    done := done + Exprs(f.orderBy);
  }

  method CollectFunctionArg(arg: FunctionArg, a: QueryAnalysis)
    requires a.Valid()
    modifies a
    ensures a.Valid() && a.marks == old(a.marks) + Marks(OnArg(arg))
    decreases arg
  {
    hide Marks, AllMarks, NormalizeName;
    match arg
    case ArgExpr(expr) =>
      OnlyPart(a.marks, OnArg(arg), OnExpr(expr));
      CollectExpr(expr, a);
    case ArgQualifiedWildcard(name) =>
      NoParts(a.marks, OnArg(arg));
      a.PushColumn(NormalizeName(name) + ".*");
    case ArgWildcard =>
      NoParts(a.marks, OnArg(arg));
      a.PushColumn("*");
  }

  method CollectArgs(args: seq<FunctionArg>, a: QueryAnalysis)
    requires a.Valid()
    modifies a
    ensures a.Valid() && a.marks == old(a.marks) + AllMarks(Args(args))
    decreases args
  {
    hide Marks, AllMarks, NormalizeName;
    ghost var start, nodes := a.marks, Args(args);
    Nothing(start);
    for i := 0 to |args|
      invariant a.Valid() && a.marks == start + AllMarks(nodes[..i])
    {
      CollectFunctionArg(args[i], a);
      Visited(start, nodes, i);
    }
    assert nodes[..|args|] == nodes;
  }

  method CollectSelectItem(item: SelectItem, a: QueryAnalysis)
    requires a.Valid()
    modifies a
    ensures a.Valid() && a.marks == old(a.marks) + Marks(OnItem(item))
    decreases item
  {
    hide Marks, AllMarks, NormalizeName;
    match item
    case ItemExpr(expr) =>
      OnlyPart(a.marks, OnItem(item), OnExpr(expr));
      CollectExpr(expr, a);
    case QualifiedWildcard(name, _) =>
      NoParts(a.marks, OnItem(item));
      a.PushColumn(NormalizeName(name) + ".*");
    case Wildcard(_) =>
      NoParts(a.marks, OnItem(item));
      a.PushColumn("*");
  }

  method CollectSelectItems(items: seq<SelectItem>, a: QueryAnalysis)
    requires a.Valid()
    modifies a
    ensures a.Valid() && a.marks == old(a.marks) + AllMarks(Items(items))
    decreases items
  {
    hide Marks, AllMarks, NormalizeName;
    ghost var start, nodes := a.marks, Items(items);
    Nothing(start);
    for i := 0 to |items|
      invariant a.Valid() && a.marks == start + AllMarks(nodes[..i])
    {
      CollectSelectItem(items[i], a);
      Visited(start, nodes, i);
    }
    assert nodes[..|items|] == nodes;
  }

  // ----- queries -----

  method AnalyzeSelectQuery(q: Query, a: QueryAnalysis)
    requires a.Valid()
    modifies a
    ensures a.Valid() && a.marks == old(a.marks) + Marks(OnQuery(q))
    decreases q
  {
    hide Marks, AllMarks, NormalizeName;
    ghost var start := a.marks;
    CollectWith(q.with, a);
    ghost var done := [OnWith(q.with)];
    AllOfOne(OnWith(q.with));
    AnalyzeSetExpr(q.body, a);
    AllOfOne(OnBody(q.body));
    Then(start, done, [OnBody(q.body)]);
    done := done + [OnBody(q.body)];
    CollectOption(q.limit, a);
    Then(start, done, Maybe(q.limit));
    done := done + Maybe(q.limit);
    CollectExprs(q.limitBy, a);
    Then(start, done, Exprs(q.limitBy));
    done := done + Exprs(q.limitBy);
    CollectOption(q.offset, a);
    Then(start, done, Maybe(q.offset));
    done := done + Maybe(q.offset);
    CollectExprs(q.orderBy, a);
    Then(start, done, Exprs(q.orderBy));
    done := done + Exprs(q.orderBy);
    CollectOption(q.fetch, a);
    Then(start, done, Maybe(q.fetch));
    done := done + Maybe(q.fetch);
    OnlyParts(start, OnQuery(q));
  }

  method CollectWith(with: With, a: QueryAnalysis)
    requires a.Valid()
    modifies a
    ensures a.Valid() && a.marks == old(a.marks) + Marks(OnWith(with))
    decreases with
  {
    hide Marks, AllMarks, NormalizeName;
    match with
    case NoWith =>
      Nothing(a.marks);
      OnlyParts(a.marks, OnWith(with));
    case With(ctes) =>
      Whole(a.marks, OnWith(with));
      a.SetCte();
      AnalyzeQueries(ctes, a);
  }

  method AnalyzeQueries(qs: seq<Query>, a: QueryAnalysis)
    requires a.Valid()
    modifies a
    ensures a.Valid() && a.marks == old(a.marks) + AllMarks(Each(qs, q => OnQuery(q)))
    decreases qs
  {
    hide Marks, AllMarks, NormalizeName;
    ghost var start, nodes := a.marks, Each(qs, q => OnQuery(q));
    Nothing(start);
    for i := 0 to |qs|
      invariant a.Valid() && a.marks == start + AllMarks(nodes[..i])
    {
      AnalyzeSelectQuery(qs[i], a);
      Visited(start, nodes, i);
    }
    assert nodes[..|qs|] == nodes;
  }

  method AnalyzeSetExpr(body: SetExpr, a: QueryAnalysis)
    requires a.Valid()
    modifies a
    ensures a.Valid() && a.marks == old(a.marks) + Marks(OnBody(body))
    decreases body
  {
    hide Marks, AllMarks, NormalizeName;
    match body
    case SelectBody(select) =>
      OnlyPart(a.marks, OnBody(body), OnSelect(select));
      AnalyzeSelect(select, a);
    case QueryBody(query) =>
      Whole(a.marks, OnBody(body));
      AllOfOne(OnQuery(query));
      a.SetSubqueries();
      AnalyzeSelectQuery(query, a);
    case SetOperation(left, right) =>
      TwoParts(a.marks, OnBody(body), OnBody(left), OnBody(right));
      AnalyzeSetExpr(left, a);
      AnalyzeSetExpr(right, a);
    case ValuesBody(rows) =>
      OnlyParts(a.marks, OnBody(body));
      CollectRows(rows, a);
    case StatementBody(statement) =>
      OnlyPart(a.marks, OnBody(body), OnStatement(statement));
      AnalyzeStatement(statement, a);
    case TableBody(schemaName, tableName) =>
      NoParts(a.marks, OnBody(body));
      var name := TableBodyName(schemaName, tableName);
      if name != "" {
        a.PushTable(name);
      }
  }

  method CollectRow(row: ValuesRow, a: QueryAnalysis)
    requires a.Valid()
    modifies a
    ensures a.Valid() && a.marks == old(a.marks) + Marks(OnRow(row))
    decreases row
  {
    hide Marks, AllMarks, NormalizeName;
    OnlyParts(a.marks, OnRow(row));
    CollectExprs(row.exprs, a);
  }

  method CollectRows(rows: seq<ValuesRow>, a: QueryAnalysis)
    requires a.Valid()
    modifies a
    ensures a.Valid() && a.marks == old(a.marks) + AllMarks(Each(rows, r => OnRow(r)))
    decreases rows
  {
    hide Marks, AllMarks, NormalizeName;
    ghost var start, nodes := a.marks, Each(rows, r => OnRow(r));
    Nothing(start);
    for i := 0 to |rows|
      invariant a.Valid() && a.marks == start + AllMarks(nodes[..i])
    {
      CollectRow(rows[i], a);
      Visited(start, nodes, i);
    }
    assert nodes[..|rows|] == nodes;
  }

  method AnalyzeSelect(s: Select, a: QueryAnalysis)
    requires a.Valid()
    modifies a
    ensures a.Valid() && a.marks == old(a.marks) + Marks(OnSelect(s))
    decreases s
  {
    hide Marks, AllMarks, NormalizeName;
    ghost var start := a.marks;
    CollectSelectItems(s.projection, a);
    ghost var done := Items(s.projection);
    CollectTables(s.from, a);
    Then(start, done, Tables(s.from));
    done := done + Tables(s.from);
    CollectExprs(s.lateralViews, a);
    Then(start, done, Exprs(s.lateralViews));
    done := done + Exprs(s.lateralViews);
    CollectOption(s.selection, a);
    Then(start, done, Maybe(s.selection));
    done := done + Maybe(s.selection);
    CollectGroupBy(s.groupBy, a);
    AllOfOne(OnGroupBy(s.groupBy));
    Then(start, done, [OnGroupBy(s.groupBy)]);
    done := done + [OnGroupBy(s.groupBy)];
    CollectExprs(s.clusterBy, a);
    Then(start, done, Exprs(s.clusterBy));
    done := done + Exprs(s.clusterBy);
    CollectExprs(s.distributeBy, a);
    Then(start, done, Exprs(s.distributeBy));
    done := done + Exprs(s.distributeBy);
    CollectExprs(s.sortBy, a);
    Then(start, done, Exprs(s.sortBy));
    done := done + Exprs(s.sortBy);
    CollectHaving(s.having, a);
    Then(start, done, MaybeHaving(s.having));
    done := done + MaybeHaving(s.having);
    CollectOption(s.qualify, a);
    Then(start, done, Maybe(s.qualify));
    done := done + Maybe(s.qualify);
    OnlyParts(start, OnSelect(s));
  }

  method CollectGroupBy(groupBy: GroupBy, a: QueryAnalysis)
    requires a.Valid()
    modifies a
    ensures a.Valid() && a.marks == old(a.marks) + Marks(OnGroupBy(groupBy))
    decreases groupBy
  {
    hide Marks, AllMarks, NormalizeName;
    match groupBy
    case GroupByExprs(exprs) =>
      Whole(a.marks, OnGroupBy(groupBy));
      if exprs != [] {
        a.SetAggregate();
      }
      CollectExprs(exprs, a);
    case GroupByAll =>
      NoParts(a.marks, OnGroupBy(groupBy));
      a.SetAggregate();
  }

  method CollectHaving(having: Option<Expr>, a: QueryAnalysis)
    requires a.Valid()
    modifies a
    ensures a.Valid() && a.marks == old(a.marks) + AllMarks(MaybeHaving(having))
    decreases having
  {
    hide Marks, AllMarks, NormalizeName;
    if having.Some? {
      AllOfOne(OnHaving(having.value));
      AllOfOne(OnExpr(having.value));
      Whole(a.marks, OnHaving(having.value));
      a.SetAggregate();
      CollectExpr(having.value, a);
    } else {
      Nothing(a.marks);
    }
  }

  // ----- tables -----

  method CollectTableWithJoins(t: TableWithJoins, a: QueryAnalysis)
    requires a.Valid()
    modifies a
    ensures a.Valid() && a.marks == old(a.marks) + Marks(OnTable(t))
    decreases t
  {
    hide Marks, AllMarks, NormalizeName;
    ghost var start := a.marks;
    CollectTableFactor(t.relation, a);
    AllOfOne(OnFactor(t.relation));
    if t.joins != [] {
      a.SetJoins();
    }
    InBetween(start, AllMarks([OnFactor(t.relation)]), Own(OnTable(t)));
    CollectJoins(t.joins, a);
    Then(start + Own(OnTable(t)), [OnFactor(t.relation)], Each(t.joins, j => OnJoin(j)));
    Whole(start, OnTable(t));
  }

  method CollectTables(ts: seq<TableWithJoins>, a: QueryAnalysis)
    requires a.Valid()
    modifies a
    ensures a.Valid() && a.marks == old(a.marks) + AllMarks(Tables(ts))
    decreases ts
  {
    hide Marks, AllMarks, NormalizeName;
    ghost var start, nodes := a.marks, Tables(ts);
    Nothing(start);
    for i := 0 to |ts|
      invariant a.Valid() && a.marks == start + AllMarks(nodes[..i])
    {
      CollectTableWithJoins(ts[i], a);
      Visited(start, nodes, i);
    }
    assert nodes[..|ts|] == nodes;
  }

  method CollectJoin(j: JoinedTable, a: QueryAnalysis)
    requires a.Valid()
    modifies a
    ensures a.Valid() && a.marks == old(a.marks) + Marks(OnJoin(j))
    decreases j
  {
    hide Marks, AllMarks, NormalizeName;
    TwoParts(a.marks, OnJoin(j), OnFactor(j.relation), OnConstraint(j.constraint));
    CollectTableFactor(j.relation, a);
    CollectJoinConstraint(j.constraint, a);
  }

  method CollectJoins(js: seq<JoinedTable>, a: QueryAnalysis)
    requires a.Valid()
    modifies a
    ensures a.Valid() && a.marks == old(a.marks) + AllMarks(Each(js, j => OnJoin(j)))
    decreases js
  {
    hide Marks, AllMarks, NormalizeName;
    ghost var start, nodes := a.marks, Each(js, j => OnJoin(j));
    Nothing(start);
    for i := 0 to |js|
      invariant a.Valid() && a.marks == start + AllMarks(nodes[..i])
    {
      CollectJoin(js[i], a);
      Visited(start, nodes, i);
    }
    assert nodes[..|js|] == nodes;
  }

  method CollectJoinConstraint(constraint: JoinConstraint, a: QueryAnalysis)
    requires a.Valid()
    modifies a
    ensures a.Valid() && a.marks == old(a.marks) + Marks(OnConstraint(constraint))
    decreases constraint
  {
    hide Marks, AllMarks, NormalizeName;
    match constraint
    case On(expr) =>
      OnlyPart(a.marks, OnConstraint(constraint), OnExpr(expr));
      CollectExpr(expr, a);
    case Using(attrs) =>
      OnlyParts(a.marks, OnConstraint(constraint));
      CollectColumns(attrs, a);
    case NoConstraint =>
      Nothing(a.marks);
      OnlyParts(a.marks, OnConstraint(constraint));
  }

  method CollectColumns(names: seq<string>, a: QueryAnalysis)
    requires a.Valid()
    modifies a
    ensures a.Valid() && a.marks == old(a.marks) + AllMarks(Each(names, c => OnColumn(c)))
    decreases names
  {
    hide Marks, AllMarks, NormalizeName;
    ghost var start, nodes := a.marks, Each(names, c => OnColumn(c));
    Nothing(start);
    for i := 0 to |names|
      invariant a.Valid() && a.marks == start + AllMarks(nodes[..i])
    {
      NoParts(a.marks, OnColumn(names[i]));
      a.PushColumn(names[i]);
      Visited(start, nodes, i);
    }
    assert nodes[..|names|] == nodes;
  }

  method CollectTableFactor(f: TableFactor, a: QueryAnalysis)
    requires a.Valid()
    modifies a
    ensures a.Valid() && a.marks == old(a.marks) + Marks(OnFactor(f))
    decreases f
  {
    hide Marks, AllMarks, NormalizeName;
    match f
    case Table(name, _) =>
      NoParts(a.marks, OnFactor(f));
      a.PushTable(NormalizeName(name));
    case Derived(subquery) =>
      Whole(a.marks, OnFactor(f));
      AllOfOne(OnQuery(subquery));
      a.SetSubqueries();
      AnalyzeSelectQuery(subquery, a);
    case TableFunction(expr) =>
      OnlyPart(a.marks, OnFactor(f), OnExpr(expr));
      CollectExpr(expr, a);
    case FunctionTable(args) =>
      OnlyParts(a.marks, OnFactor(f));
      CollectArgs(args, a);
    case Unnest(arrayExprs) =>
      OnlyParts(a.marks, OnFactor(f));
      CollectExprs(arrayExprs, a);
    case NestedJoin(table) =>
      Whole(a.marks, OnFactor(f));
      AllOfOne(OnTable(table));
      a.SetJoins();
      CollectTableWithJoins(table, a);
    case Pivot(pivoted, aggregate, _) =>
      TwoParts(a.marks, OnFactor(f), OnFactor(pivoted), OnExpr(aggregate));
      CollectTableFactor(pivoted, a);
      CollectExpr(aggregate, a);
    case Unpivot(unpivoted, _) =>
      OnlyPart(a.marks, OnFactor(f), OnFactor(unpivoted));
      CollectTableFactor(unpivoted, a);
  }

  // ----- statements -----

  method CollectAssignment(assignment: Assignment, a: QueryAnalysis)
    requires a.Valid()
    modifies a
    ensures a.Valid() && a.marks == old(a.marks) + Marks(OnAssignment(assignment))
    decreases assignment
  {
    hide Marks, AllMarks, NormalizeName;
    Whole(a.marks, OnAssignment(assignment));
    AllOfOne(OnExpr(assignment.value));
    if assignment.id != [] {
      a.PushColumn(NormalizeName(assignment.id));
    }
    CollectExpr(assignment.value, a);
  }

  method CollectAssignments(assignments: seq<Assignment>, a: QueryAnalysis)
    requires a.Valid()
    modifies a
    ensures a.Valid() && a.marks == old(a.marks) + AllMarks(Each(assignments, x => OnAssignment(x)))
    decreases assignments
  {
    hide Marks, AllMarks, NormalizeName;
    ghost var start, nodes := a.marks, Each(assignments, x => OnAssignment(x));
    Nothing(start);
    for i := 0 to |assignments|
      invariant a.Valid() && a.marks == start + AllMarks(nodes[..i])
    {
      CollectAssignment(assignments[i], a);
      Visited(start, nodes, i);
    }
    assert nodes[..|assignments|] == nodes;
  }

  method CollectReturning(returning: Returning, a: QueryAnalysis)
    requires a.Valid()
    modifies a
    ensures a.Valid() && a.marks == old(a.marks) + Marks(OnReturning(returning))
    decreases returning
  {
    hide Marks, AllMarks, NormalizeName;
    OnlyParts(a.marks, OnReturning(returning));
    match returning
    case NoReturning => Nothing(a.marks);
    case Returning(items) => CollectSelectItems(items, a);
  }

  method CollectUsing(using: UsingTables, a: QueryAnalysis)
    requires a.Valid()
    modifies a
    ensures a.Valid() && a.marks == old(a.marks) + Marks(OnUsing(using))
    decreases using
  {
    hide Marks, AllMarks, NormalizeName;
    OnlyParts(a.marks, OnUsing(using));
    match using
    case NoUsing => Nothing(a.marks);
    case UsingTables(tables) => CollectTables(tables, a);
  }

  method CollectMaybeTable(t: Option<TableWithJoins>, a: QueryAnalysis)
    requires a.Valid()
    modifies a
    ensures a.Valid() && a.marks == old(a.marks) + AllMarks(MaybeTable(t))
    decreases t
  {
    hide Marks, AllMarks, NormalizeName;
    if t.Some? {
      AllOfOne(OnTable(t.value));
      CollectTableWithJoins(t.value, a);
    } else {
      Nothing(a.marks);
    }
  }

  /** The `UPDATE` arm of `analyze_statement`. */
  method CollectUpdate(u: Statement, a: QueryAnalysis)
    requires a.Valid() && u.Update?
    modifies a
    ensures a.Valid() && a.marks == old(a.marks) + Marks(OnStatement(u))
    decreases u, 0
  {
    hide Marks, AllMarks, NormalizeName;
    ghost var start := a.marks;
    CollectTableWithJoins(u.table, a);
    ghost var done := [OnTable(u.table)];
    AllOfOne(OnTable(u.table));
    CollectMaybeTable(u.updateFrom, a);
    Then(start, done, MaybeTable(u.updateFrom));
    done := done + MaybeTable(u.updateFrom);
    CollectOption(u.selection, a);
    Then(start, done, Maybe(u.selection));
    done := done + Maybe(u.selection);
    CollectAssignments(u.assignments, a);
    Then(start, done, Each(u.assignments, x => OnAssignment(x)));
    done := done + Each(u.assignments, x => OnAssignment(x));
    CollectReturning(u.returning, a);
    AllOfOne(OnReturning(u.returning));
    Then(start, done, [OnReturning(u.returning)]);
    done := done + [OnReturning(u.returning)];
    OnlyParts(start, OnStatement(u));
  }

  /** The `DELETE` arm of `analyze_statement`. */
  method CollectDelete(d: Statement, a: QueryAnalysis)
    requires a.Valid() && d.Delete?
    modifies a
    ensures a.Valid() && a.marks == old(a.marks) + Marks(OnStatement(d))
    decreases d, 0
  {
    hide Marks, AllMarks, NormalizeName;
    ghost var start := a.marks;
    CollectTables(d.from, a);
    ghost var done := Tables(d.from);
    CollectUsing(d.using, a);
    AllOfOne(OnUsing(d.using));
    Then(start, done, [OnUsing(d.using)]);
    done := done + [OnUsing(d.using)];
    CollectOption(d.selection, a);
    Then(start, done, Maybe(d.selection));
    done := done + Maybe(d.selection);
    CollectReturning(d.returning, a);
    AllOfOne(OnReturning(d.returning));
    Then(start, done, [OnReturning(d.returning)]);
    done := done + [OnReturning(d.returning)];
    CollectExprs(d.orderBy, a);
    Then(start, done, Exprs(d.orderBy));
    done := done + Exprs(d.orderBy);
    CollectOption(d.limit, a);
    Then(start, done, Maybe(d.limit));
    done := done + Maybe(d.limit);
    OnlyParts(start, OnStatement(d));
  }

  method AnalyzeStatement(statement: Statement, a: QueryAnalysis)
    requires a.Valid()
    modifies a
    ensures a.Valid() && a.marks == old(a.marks) + Marks(OnStatement(statement))
    decreases statement, 1
  {
    hide Marks, AllMarks, NormalizeName;
    match statement
    case QueryStatement(query) =>
      OnlyPart(a.marks, OnStatement(statement), OnQuery(query));
      AnalyzeSelectQuery(query, a);
    case Insert(tableName, source, _) =>
      Whole(a.marks, OnStatement(statement));
      a.PushTable(NormalizeName(tableName));
      if source.Some? {
        AllOfOne(OnQuery(source.value));
        AnalyzeSelectQuery(source.value, a);
      } else {
        Nothing(a.marks);
      }
    case Update(_, _, _, _, _) => CollectUpdate(statement, a);
    case Delete(_, _, _, _, _, _, _) => CollectDelete(statement, a);
    case DdlStatement(_) =>
      Nothing(a.marks);
      OnlyParts(a.marks, OnStatement(statement));
    case OtherStatement(_) =>
      Nothing(a.marks);
      OnlyParts(a.marks, OnStatement(statement));
  }

  // ----- the finished analysis -----

  /** Rust's ordering of strings, by code point. */
  predicate StringLess(a: string, b: string) {
    if a == "" then b != ""
    else b != "" && (a[0] < b[0] || (a[0] == b[0] && StringLess(a[1..], b[1..])))
  }

  /** The first difference decides; a proper beginning comes first. */
  lemma {:induction false} StringLessIff(a: string, b: string)
    ensures StringLess(a, b) <==>
            exists k :: 0 <= k <= |a| && k < |b| && a[..k] == b[..k] && (k == |a| || a[k] < b[k])
  {
    if a == "" {
      assert b != "" ==> a[..0] == b[..0];
    } else if b != "" && a[0] == b[0] {
      StringLessIff(a[1..], b[1..]);
      if StringLess(a, b) {
        var k :| 0 <= k <= |a[1..]| && k < |b[1..]| && a[1..][..k] == b[1..][..k]
                 && (k == |a[1..]| || a[1..][k] < b[1..][k]);
        SameBeginning(a, b, k);
      }
      if k :| 0 <= k <= |a| && k < |b| && a[..k] == b[..k] && (k == |a| || a[k] < b[k]) {
        SameBeginning(a, b, k - 1);
      }
    } else if b != "" {
      assert a[0] < b[0] ==> a[..0] == b[..0];
      forall k | 0 < k <= |a| && k < |b|
        ensures a[..k] != b[..k]
      {
        assert a[..k][0] == a[0] && b[..k][0] == b[0];
      }
    }
  }

  lemma SameBeginning(a: string, b: string, k: nat)
    requires a != "" && b != "" && a[0] == b[0] && k < |a| && k < |b|
    ensures a[1..][..k] == b[1..][..k] <==> a[..k + 1] == b[..k + 1]
  {
    assert a[..k + 1] == [a[0]] + a[1..][..k] && b[..k + 1] == [b[0]] + b[1..][..k];
  }

  lemma {:induction false} StringLessTransitive(a: string, b: string, c: string)
    requires StringLess(a, b) && StringLess(b, c)
    ensures StringLess(a, c)
  {
    if a != "" && a[0] == b[0] == c[0] {
      StringLessTransitive(a[1..], b[1..], c[1..]);
    }
  }

  lemma {:induction false} StringTotal(a: string, b: string)
    ensures StringLess(a, b) || a == b || StringLess(b, a)
  {
    if a != "" && b != "" && a[0] == b[0] {
      StringTotal(a[1..], b[1..]);
      assert a == [a[0]] + a[1..] && b == [b[0]] + b[1..];
    }
  }

  lemma {:induction false} StringIrreflexive(a: string)
    ensures !StringLess(a, a)
  {
    if a != "" {
      StringIrreflexive(a[1..]);
    }
  }

  function InsertString(x: string, xs: seq<string>): seq<string> {
    if xs == [] || !StringLess(xs[0], x) then [x] + xs else [xs[0]] + InsertString(x, xs[1..])
  }

  /** `Vec::sort`. */
  function SortStrings(xs: seq<string>): seq<string> {
    if xs == [] then [] else InsertString(xs[0], SortStrings(xs[1..]))
  }

  /** `Vec::dedup`: removes consecutive repetitions. */
  function Dedup(xs: seq<string>): seq<string> {
    if |xs| < 2 then xs
    else if xs[0] == xs[1] then Dedup(xs[1..])
    else [xs[0]] + Dedup(xs[1..])
  }

  function Elements(xs: seq<string>): set<string> { set x | x in xs }

  /** Sorted without repetition. */
  predicate StrictlySorted(xs: seq<string>) {
    |xs| >= 2 ==> StringLess(xs[0], xs[1]) && StrictlySorted(xs[1..])
  }

  predicate Sorted(xs: seq<string>) {
    |xs| >= 2 ==> !StringLess(xs[1], xs[0]) && Sorted(xs[1..])
  }

  lemma ElementsCons(x: string, xs: seq<string>)
    ensures Elements([x] + xs) == {x} + Elements(xs)
  {
  }

  lemma {:induction false} InsertFacts(x: string, xs: seq<string>)
    requires Sorted(xs)
    ensures Sorted(InsertString(x, xs)) && Elements(InsertString(x, xs)) == {x} + Elements(xs)
    ensures InsertString(x, xs)[0] == x || (xs != [] && InsertString(x, xs)[0] == xs[0])
  {
    if xs == [] || !StringLess(xs[0], x) {
      ElementsCons(x, xs);
    } else {
      InsertFacts(x, xs[1..]);
      var r := InsertString(x, xs[1..]);
      ElementsCons(xs[0], r);
      ElementsCons(xs[0], xs[1..]);
      assert xs == [xs[0]] + xs[1..];
      Asymmetric(xs[0], x);
      assert ([xs[0]] + r)[1..] == r;
    }
  }

  lemma Asymmetric(a: string, b: string)
    requires StringLess(a, b)
    ensures !StringLess(b, a)
  {
    if StringLess(b, a) {
      StringLessTransitive(a, b, a);
      StringIrreflexive(a);
    }
  }

  lemma {:induction false} SortFacts(xs: seq<string>)
    ensures Sorted(SortStrings(xs)) && Elements(SortStrings(xs)) == Elements(xs)
  {
    if xs != [] {
      SortFacts(xs[1..]);
      InsertFacts(xs[0], SortStrings(xs[1..]));
      ElementsCons(xs[0], xs[1..]);
      assert xs == [xs[0]] + xs[1..];
    }
  }

  lemma {:induction false} DedupFacts(xs: seq<string>)
    requires Sorted(xs)
    ensures StrictlySorted(Dedup(xs)) && Elements(Dedup(xs)) == Elements(xs)
    ensures xs != [] ==> Dedup(xs) != [] && Dedup(xs)[0] == xs[0]
  {
    if |xs| >= 2 {
      DedupFacts(xs[1..]);
      ElementsCons(xs[0], xs[1..]);
      assert xs == [xs[0]] + xs[1..];
      var r := Dedup(xs[1..]);
      if xs[0] == xs[1] {
        assert xs[0] in xs[1..];
      } else {
        StringTotal(xs[0], xs[1]);
        ElementsCons(xs[0], r);
        assert ([xs[0]] + r)[1..] == r;
      }
    }
  }

  /** Every name comes before all behind it. */
  predicate InOrder(xs: seq<string>) {
    forall i, j :: 0 <= i < j < |xs| ==> StringLess(xs[i], xs[j])
  }

  lemma {:induction false} SortedIsInOrder(xs: seq<string>)
    requires StrictlySorted(xs)
    ensures InOrder(xs)
  {
    if |xs| >= 2 {
      SortedIsInOrder(xs[1..]);
      forall i, j | 0 <= i < j < |xs|
        ensures StringLess(xs[i], xs[j])
      {
        if i > 0 {
          assert xs[i] == xs[1..][i - 1] && xs[j] == xs[1..][j - 1];
        } else if j > 1 {
          assert xs[1] == xs[1..][0] && xs[j] == xs[1..][j - 1];
          StringLessTransitive(xs[0], xs[1], xs[j]);
        }
      }
    }
  }

  /** `finalize_analysis` and the traversal together: for a text that parses, the
      analysis describes its first statement. A name is listed exactly when a table
      or column of that name occurs in the statement outside the skipped places; the
      lists are sorted and hold no repetition; a flag is set exactly when such a node
      occurs. */
  method AnalyzeQuery(parsed: Option<seq<Statement>>) returns (analysis: QueryAnalysis)
    ensures fresh(analysis)
    ensures InOrder(analysis.sourceTables) && InOrder(analysis.referencedColumns)
    ensures parsed.Some? && parsed.value != [] ==>
              var root := OnStatement(parsed.value[0]);
              && (analysis.statementType == SelectType <==> parsed.value[0].QueryStatement?)
              && (analysis.statementType == InsertType <==> parsed.value[0].Insert?)
              && (analysis.statementType == UpdateType <==> parsed.value[0].Update?)
              && (analysis.statementType == DeleteType <==> parsed.value[0].Delete?)
              && (analysis.statementType == DdlType <==> parsed.value[0].DdlStatement?)
              && (forall name :: name in analysis.sourceTables <==> Shown(root, TableMark(name)))
              && (forall name :: name in analysis.referencedColumns <==> Shown(root, ColumnMark(name)))
              && (analysis.hasJoins <==> Shown(root, JoinMark))
              && (analysis.hasSubqueries <==> Shown(root, SubqueryMark))
              && (analysis.hasCte <==> Shown(root, CteMark))
              && (analysis.isAggregate <==> Shown(root, AggregateMark))
    ensures parsed.None? || parsed.value == [] ==>
              && analysis.statementType == OtherType
              && analysis.sourceTables == [] && analysis.referencedColumns == []
              && !analysis.hasJoins && !analysis.hasSubqueries && !analysis.hasCte && !analysis.isAggregate
  {
    hide Shown, InOrder, Sorted, SortStrings, Dedup, Elements;
    if parsed.None? || parsed.value == [] {
      analysis := new QueryAnalysis(OtherType);
      NothingSorted();
    } else {
      var statement := parsed.value[0];
      analysis := new QueryAnalysis(TypeOf(statement));
      AnalyzeStatement(statement, analysis);
      assert analysis.marks == Marks(OnStatement(statement));
      SortedNames(analysis.sourceTables);
      SortedNames(analysis.referencedColumns);
      analysis.sourceTables := Dedup(SortStrings(analysis.sourceTables));
      analysis.referencedColumns := Dedup(SortStrings(analysis.referencedColumns));
    }
  }

  lemma NothingSorted()
    ensures InOrder([])
  {
  }

  lemma SortedNames(names: seq<string>)
    ensures InOrder(Dedup(SortStrings(names)))
    ensures forall name :: name in Dedup(SortStrings(names)) <==> name in names
  {
    hide StrictlySorted, Sorted, InOrder, SortStrings, Dedup;
    SortFacts(names);
    DedupFacts(SortStrings(names));
    SortedIsInOrder(Dedup(SortStrings(names)));
    assert forall name :: name in Elements(names) <==> name in names;
    assert forall name :: name in Elements(Dedup(SortStrings(names))) <==> name in Dedup(SortStrings(names));
  }
}
