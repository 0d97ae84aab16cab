/**
  The syntax tree as a tree of nodes, without regard to what an analysis does with
  it: `Parts` lists every child of every node, and `Own` says what one node by
  itself is: a table's name, a column's name, a join, a subquery and so on. A child
  in a place the collector's patterns pass over stands below an `OnSkipped` node.
*/
module SqlNodes {
  import opened SqlAst
  import opened Text
  import opened Wrappers

  datatype Node =
    | OnStatement(statement: Statement)
    | OnQuery(query: Query)
    | OnWith(with: With)
    | OnBody(body: SetExpr)
    | OnRow(row: ValuesRow)
    | OnSelect(select: Select)
    | OnItem(item: SelectItem)
    | OnGroupBy(groupBy: GroupBy)
    | OnHaving(condition: Expr)
    | OnTable(table: TableWithJoins)
    | OnJoin(join: JoinedTable)
    | OnConstraint(constraint: JoinConstraint)
    | OnColumn(column: string)
    | OnFactor(factor: TableFactor)
    | OnExpr(expr: Expr)
    | OnSkipped(part: Part)
    | OnFunction(call: Function)
    | OnArg(arg: FunctionArg)
    | OnAssignment(assignment: Assignment)
    | OnReturning(returning: Returning)
    | OnUsing(using: UsingTables)

  datatype Mark =
    TableMark(name: string) | ColumnMark(name: string) | JoinMark | SubqueryMark | CteMark | AggregateMark

  function NormalizeName(name: Name): string { Join(name, ".") }

  /** Upper case, as far as it can produce the letters of an aggregate's name. */
  function UpperChar(c: char): string {
    if 'a' <= c <= 'z' then [(c as int - 32) as char]
    else if c == '\U{131}' then "I"
    else if c == '\U{17F}' then "S"
    else if c == '\U{FB05}' || c == '\U{FB06}' then "ST"
    else [c]
  }

  function Upper(s: string): string {
    if s == "" then "" else UpperChar(s[0]) + Upper(s[1..])
  }

  const AGGREGATES: seq<string> := [
    "COUNT", "SUM", "AVG", "MIN", "MAX", "STDDEV", "STDDEV_POP", "STDDEV_SAMP", "VARIANCE", "VAR_POP", "VAR_SAMP",
    "ARRAY_AGG", "STRING_AGG"]

  predicate IsAggregate(name: Name) { Upper(NormalizeName(name)) in AGGREGATES }

  function TableBodyName(schemaName: Option<string>, tableName: Option<string>): string {
    if tableName.None? then ""
    else if schemaName.Some? then schemaName.value + "." + tableName.value
    else tableName.value
  }

  // ----- the children of a node -----

  function Each<T>(xs: seq<T>, on: T -> Node): seq<Node> {
    seq(|xs|, i requires 0 <= i < |xs| => on(xs[i]))
  }

  function Exprs(es: seq<Expr>): seq<Node> { Each(es, e => OnExpr(e)) }

  function Items(items: seq<SelectItem>): seq<Node> { Each(items, i => OnItem(i)) }

  function Args(args: seq<FunctionArg>): seq<Node> { Each(args, a => OnArg(a)) }

  function Tables(ts: seq<TableWithJoins>): seq<Node> { Each(ts, t => OnTable(t)) }

  function Maybe(e: Option<Expr>): seq<Node> {
    if e.Some? then [OnExpr(e.value)] else []
  }

  function MaybeHaving(e: Option<Expr>): seq<Node> {
    if e.Some? then [OnHaving(e.value)] else []
  }

  function MaybeTable(t: Option<TableWithJoins>): seq<Node> {
    if t.Some? then [OnTable(t.value)] else []
  }

  function MaybeQuery(q: Option<Query>): seq<Node> {
    if q.Some? then [OnQuery(q.value)] else []
  }

  function ExprParts(e: Expr): seq<Node> {
    match e
    case Identifier(_) => []
    case CompoundIdentifier(_) => []
    case Binary(left, right) => [OnExpr(left), OnExpr(right)]
    case Unary(expr) => [OnExpr(expr)]
    case InUnnest(expr, _) => [OnExpr(expr)]
    case Between(expr, low, high) => [OnExpr(expr), OnExpr(low), OnExpr(high)]
    case InList(expr, list) => [OnExpr(expr)] + Exprs(list)
    case InSubquery(expr, subquery) => [OnExpr(expr), OnQuery(subquery)]
    case SubqueryExpr(subquery) => [OnQuery(subquery)]
    case Case(operand, conditions, results, elseResult) =>
      Maybe(operand) + Exprs(conditions) + Exprs(results) + Maybe(elseResult)
    case Call(call) => [OnFunction(call)]
    case Substring(expr, substringFrom, substringFor) => [OnExpr(expr)] + Maybe(substringFrom) + Maybe(substringFor)
    case ExprList(exprs) => Exprs(exprs)
    case CompositeAccess(expr, _) => [OnExpr(expr)]
    case OtherExpr(_) => []
  }

  function BodyParts(body: SetExpr): seq<Node> {
    match body
    case SelectBody(select) => [OnSelect(select)]
    case QueryBody(query) => [OnQuery(query)]
    case SetOperation(left, right) => [OnBody(left), OnBody(right)]
    case ValuesBody(rows) => Each(rows, r => OnRow(r))
    case StatementBody(statement) => [OnStatement(statement)]
    case TableBody(_, _) => []
  }

  function SelectParts(s: Select): seq<Node> {
    Items(s.projection) + Tables(s.from) + Exprs(s.lateralViews) + Maybe(s.selection) + [OnGroupBy(s.groupBy)]
    + Exprs(s.clusterBy) + Exprs(s.distributeBy) + Exprs(s.sortBy) + MaybeHaving(s.having) + Maybe(s.qualify)
  }

  function QueryParts(q: Query): seq<Node> {
    [OnWith(q.with)] + [OnBody(q.body)] + Maybe(q.limit) + Exprs(q.limitBy) + Maybe(q.offset) + Exprs(q.orderBy)
    + Maybe(q.fetch)
  }

  function FactorParts(f: TableFactor): seq<Node> {
    match f
    case Table(_, _) => []
    case Derived(subquery) => [OnQuery(subquery)]
    case TableFunction(expr) => [OnExpr(expr)]
    case FunctionTable(args) => Args(args)
    case Unnest(arrayExprs) => Exprs(arrayExprs)
    case NestedJoin(table) => [OnTable(table)]
    case Pivot(pivoted, aggregate, _) => [OnFactor(pivoted), OnExpr(aggregate)]
    case Unpivot(unpivoted, _) => [OnFactor(unpivoted)]
  }

  function ConstraintParts(constraint: JoinConstraint): seq<Node> {
    match constraint
    case On(expr) => [OnExpr(expr)]
    case Using(attrs) => Each(attrs, c => OnColumn(c))
    case NoConstraint => []
  }

  function StatementParts(statement: Statement): seq<Node> {
    match statement
    case QueryStatement(query) => [OnQuery(query)]
    case Insert(_, source, _) => MaybeQuery(source)
    case Update(table, updateFrom, selection, assignments, returning) =>
      [OnTable(table)] + MaybeTable(updateFrom) + Maybe(selection) + Each(assignments, a => OnAssignment(a))
      + [OnReturning(returning)]
    case Delete(from, using, selection, returning, orderBy, limit, _) =>
      Tables(from) + [OnUsing(using)] + Maybe(selection) + [OnReturning(returning)] + Exprs(orderBy) + Maybe(limit)
    case DdlStatement(_) => []
    case OtherStatement(_) => []
  }

  /** The children outside skipped places. */
  function Inner(n: Node): seq<Node> {
    match n
    case OnStatement(statement) => StatementParts(statement)
    case OnQuery(query) => QueryParts(query)
    case OnWith(with) => if with.With? then Each(with.ctes, q => OnQuery(q)) else []
    case OnBody(body) => BodyParts(body)
    case OnRow(row) => Exprs(row.exprs)
    case OnSelect(select) => SelectParts(select)
    case OnItem(item) => if item.ItemExpr? then [OnExpr(item.expr)] else []
    case OnGroupBy(groupBy) => if groupBy.GroupByExprs? then Exprs(groupBy.exprs) else []
    case OnHaving(condition) => [OnExpr(condition)]
    case OnTable(table) => [OnFactor(table.relation)] + Each(table.joins, j => OnJoin(j))
    case OnJoin(join) => [OnFactor(join.relation), OnConstraint(join.constraint)]
    case OnConstraint(constraint) => ConstraintParts(constraint)
    case OnColumn(_) => []
    case OnFactor(factor) => FactorParts(factor)
    case OnExpr(expr) => ExprParts(expr)
    case OnSkipped(part) => [OnPart(part)]
    case OnFunction(f) => Args(f.args) + Maybe(f.filter) + Exprs(f.orderBy)
    case OnArg(arg) => if arg.ArgExpr? then [OnExpr(arg.expr)] else []
    case OnAssignment(assignment) => [OnExpr(assignment.value)]
    case OnReturning(returning) => if returning.Returning? then Items(returning.items) else []
    case OnUsing(using) => if using.UsingTables? then Tables(using.tables) else []
  }

  function OnPart(part: Part): Node {
    match part
    case PartExpr(expr) => OnExpr(expr)
    case PartQuery(query) => OnQuery(query)
    case PartStatement(statement) => OnStatement(statement)
    case PartTable(name) => OnFactor(Table(name, []))
    case PartColumn(column) => OnColumn(column)
    case PartItem(item) => OnItem(item)
    case PartArg(arg) => OnArg(arg)
    case PartAssignment(assignment) => OnAssignment(assignment)
  }

  /** What stands in skipped places of a node. */
  function SkippedParts(n: Node): seq<Part> {
    match n
    case OnStatement(s) => if s.QueryStatement? || s.Update? then [] else s.skipped
    case OnQuery(query) => query.skipped
    case OnSelect(select) => select.skipped
    case OnItem(item) => if item.ItemExpr? then [] else item.skipped
    case OnFactor(f) => if f.Table? || f.Pivot? || f.Unpivot? then f.skipped else []
    case OnExpr(e) => if e.InUnnest? then [PartExpr(e.arrayExpr)] else if e.OtherExpr? then e.skipped else []
    case OnFunction(f) => f.skipped
    case _ => []
  }

  function Parts(n: Node): seq<Node> {
    Inner(n) + Each(SkippedParts(n), p => OnSkipped(p))
  }

  // ----- what one node is -----

  ghost function If(condition: bool, mark: Mark): iset<Mark> {
    if condition then iset{mark} else iset{}
  }

  ghost function OwnOfExpr(e: Expr): iset<Mark> {
    match e
    case Identifier(ident) => iset{ColumnMark(ident)}
    case CompoundIdentifier(parts) => iset{ColumnMark(NormalizeName(parts))}
    case CompositeAccess(_, key) => iset{ColumnMark(key)}
    case _ => If(e.InSubquery? || e.SubqueryExpr?, SubqueryMark)
  }

  ghost function OwnOfBody(body: SetExpr): iset<Mark> {
    match body
    case TableBody(schemaName, tableName) =>
      If(TableBodyName(schemaName, tableName) != "", TableMark(TableBodyName(schemaName, tableName)))
    case _ => If(body.QueryBody?, SubqueryMark)
  }

  ghost function OwnOfFactor(f: TableFactor): iset<Mark> {
    match f
    case Table(name, _) => iset{TableMark(NormalizeName(name))}
    case Derived(_) => iset{SubqueryMark}
    case _ => If(f.NestedJoin?, JoinMark)
  }

  ghost function OwnOfItem(item: SelectItem): iset<Mark> {
    match item
    case ItemExpr(_) => iset{}
    case QualifiedWildcard(name, _) => iset{ColumnMark(NormalizeName(name) + ".*")}
    case Wildcard(_) => iset{ColumnMark("*")}
  }

  ghost function OwnOfArg(arg: FunctionArg): iset<Mark> {
    match arg
    case ArgExpr(_) => iset{}
    case ArgQualifiedWildcard(name) => iset{ColumnMark(NormalizeName(name) + ".*")}
    case ArgWildcard => iset{ColumnMark("*")}
  }

  ghost function Own(n: Node): iset<Mark> {
    match n
    case OnStatement(statement) =>
      if statement.Insert? then iset{TableMark(NormalizeName(statement.tableName))} else iset{}
    case OnWith(with) => If(with.With?, CteMark)
    case OnBody(body) => OwnOfBody(body)
    case OnItem(item) => OwnOfItem(item)
    case OnGroupBy(groupBy) => If(groupBy.GroupByAll? || groupBy.exprs != [], AggregateMark)
    case OnHaving(_) => iset{AggregateMark}
    case OnTable(table) => If(table.joins != [], JoinMark)
    case OnColumn(column) => iset{ColumnMark(column)}
    case OnFactor(factor) => OwnOfFactor(factor)
    case OnExpr(expr) => OwnOfExpr(expr)
    case OnFunction(f) => If(IsAggregate(f.name), AggregateMark)
    case OnArg(arg) => OwnOfArg(arg)
    case OnAssignment(assignment) => If(assignment.id != [], ColumnMark(NormalizeName(assignment.id)))
    case _ => iset{}
  }

  // ----- occurring in a tree -----

  /** A way down from `root` to `n`, from child to child. */
  ghost predicate IsPath(p: seq<Node>, root: Node, n: Node) {
    && p != [] && p[0] == root
    && if |p| == 1 then root == n else p[1] in Parts(root) && IsPath(p[1..], p[1], n)
  }

  ghost predicate Unskipped(p: seq<Node>) {
    forall i :: 0 <= i < |p| ==> !p[i].OnSkipped?
  }

  /** `n` is a node of the tree below `root`. */
  ghost predicate Contains(root: Node, n: Node) {
    exists p :: IsPath(p, root, n)
  }

  /** `n` is a node of that tree outside every skipped place. */
  ghost predicate Occurs(root: Node, n: Node) {
    exists p :: IsPath(p, root, n) && Unskipped(p)
  }

  /** Some node occurring below `root` is what the mark says. */
  ghost predicate Shown(root: Node, mark: Mark) {
    exists n :: Occurs(root, n) && mark in Own(n)
  }

  ghost function Marks(root: Node): iset<Mark> {
    iset mark | Shown(root, mark)
  }

  ghost predicate ShownBelow(roots: seq<Node>, mark: Mark) {
    exists r :: r in roots && Shown(r, mark)
  }

  ghost function AllMarks(roots: seq<Node>): iset<Mark> {
    iset mark | ShownBelow(roots, mark)
  }

  lemma OccursItself(root: Node)
    requires !root.OnSkipped?
    ensures Occurs(root, root)
  {
    assert IsPath([root], root, root) && Unskipped([root]);
  }

  lemma OccursBelow(root: Node, child: Node, n: Node)
    requires !root.OnSkipped? && child in Parts(root) && Occurs(child, n)
    ensures Occurs(root, n)
  {
    hide Parts;
    var p :| IsPath(p, child, n) && Unskipped(p);
    var q := [root] + p;
    assert q[1..] == p && q[1] == p[0];
    assert IsPath(q, root, n) && Unskipped(q);
  }

  lemma OccursVia(root: Node, n: Node) returns (child: Node)
    requires Occurs(root, n) && n != root
    ensures child in Parts(root) && Occurs(child, n)
  {
    hide Parts;
    var p :| IsPath(p, root, n) && Unskipped(p);
    child := p[1];
    assert IsPath(p[1..], child, n) && Unskipped(p[1..]);
  }

  /** What is shown below a node is what it is itself and what is shown below its
      children. */
  lemma UnfoldParts(n: Node)
    requires !n.OnSkipped?
    ensures Marks(n) == Own(n) + AllMarks(Parts(n))
  {
    hide Own, Parts, Occurs;
    OccursItself(n);
    forall mark
      ensures Shown(n, mark) <==> mark in Own(n) + AllMarks(Parts(n))
    {
      if Shown(n, mark) {
        var m :| Occurs(n, m) && mark in Own(m);
        if m != n {
          var c := OccursVia(n, m);
          assert Shown(c, mark);
        }
      }
      if mark in AllMarks(Parts(n)) {
        var c :| c in Parts(n) && Shown(c, mark);
        var m :| Occurs(c, m) && mark in Own(m);
        OccursBelow(n, c, m);
      }
    }
  }

  lemma SkippedShowsNothing(n: Node, mark: Mark)
    requires n.OnSkipped?
    ensures !Shown(n, mark)
  {
    hide Own, Parts;
    forall m
      ensures !Occurs(n, m)
    {
      forall p: seq<Node> | IsPath(p, n, m)
        ensures !Unskipped(p)
      {
        assert p[0].OnSkipped?;
      }
    }
  }

  lemma AllSkipped(ns: seq<Node>)
    requires forall n :: n in ns ==> n.OnSkipped?
    ensures AllMarks(ns) == iset{}
  {
    hide Shown;
    forall mark, n | n in ns
      ensures !Shown(n, mark)
    {
      SkippedShowsNothing(n, mark);
    }
  }

  /** The children in skipped places show nothing. */
  lemma Unfold(n: Node)
    requires !n.OnSkipped?
    ensures Marks(n) == Own(n) + AllMarks(Inner(n))
  {
    hide Own, Inner, AllMarks, Marks;
    var skipped := Each(SkippedParts(n), p => OnSkipped(p));
    UnfoldParts(n);
    AllAppend(Inner(n), skipped);
    AllSkipped(skipped);
  }

  lemma AllOfNone()
    ensures AllMarks([]) == iset{}
  {
  }

  lemma AllOfOne(n: Node)
    ensures AllMarks([n]) == Marks(n)
  {
    hide Shown;
    assert forall r :: r in [n] <==> r == n;
  }

  lemma AllAppend(ns: seq<Node>, ms: seq<Node>)
    ensures AllMarks(ns + ms) == AllMarks(ns) + AllMarks(ms)
  {
    hide Shown;
  }

  // ----- what the skipped places hide -----

  /** Some node below `root`, wherever it stands, is what the mark says. */
  ghost predicate Held(root: Node, mark: Mark) {
    exists n :: Contains(root, n) && mark in Own(n)
  }

  lemma {:induction false} PathBack(p: seq<Node>, root: Node, n: Node, k: nat)
    requires IsPath(p, root, n) && k < |p|
    ensures Contains(p[k], n)
  {
    hide Parts;
    if k > 0 {
      PathBack(p[1..], p[1], n, k - 1);
    }
  }

  lemma {:induction false} PathFront(p: seq<Node>, root: Node, n: Node, k: nat)
    requires IsPath(p, root, n) && k < |p|
    ensures IsPath(p[..k + 1], root, p[k])
  {
    hide Parts;
    if k > 0 {
      PathFront(p[1..], p[1], n, k - 1);
      assert p[..k + 1][1..] == p[1..][..k];
    }
  }

  /** A node of the tree that does not occur outside the skipped places lies in one. */
  lemma MissedLiesInSkipped(root: Node, n: Node)
    requires Contains(root, n)
    ensures Occurs(root, n) || exists hidden: Node :: hidden.OnSkipped? && Contains(root, hidden) && Contains(hidden, n)
  {
    hide Parts;
    var p: seq<Node> :| IsPath(p, root, n);
    if !Unskipped(p) {
      var k :| 0 <= k < |p| && p[k].OnSkipped?;
      PathBack(p, root, n, k);
      PathFront(p, root, n, k);
      assert Contains(root, p[k]);
    }
  }

  lemma {:induction false} PathJoin(p: seq<Node>, root: Node, middle: Node, q: seq<Node>, n: Node)
    requires IsPath(p, root, middle) && IsPath(q, middle, n)
    ensures IsPath(p + q[1..], root, n)
  {
    hide Parts;
    if |p| == 1 {
      assert p + q[1..] == q;
    } else {
      PathJoin(p[1..], p[1], middle, q, n);
      assert (p + q[1..])[1..] == p[1..] + q[1..];
    }
  }

  lemma ContainsBelow(root: Node, middle: Node, n: Node)
    requires Contains(root, middle) && Contains(middle, n)
    ensures Contains(root, n)
  {
    var p :| IsPath(p, root, middle);
    var q :| IsPath(q, middle, n);
    PathJoin(p, root, middle, q, n);
  }

  /** Everything in a skipped place below `root` is shown elsewhere too. */
  ghost predicate SkippedShownElsewhere(root: Node) {
    forall hidden: Node, mark :: hidden.OnSkipped? && Contains(root, hidden) && Held(hidden, mark) ==> Shown(root, mark)
  }

  /** Exactly when a tree is seen whole: when its skipped places hold nothing that
      is not shown elsewhere. */
  lemma SeenWholeIff(root: Node)
    ensures (forall mark :: Held(root, mark) ==> Shown(root, mark)) <==> SkippedShownElsewhere(root)
  {
    hide Own, Contains, Occurs;
    if SkippedShownElsewhere(root) {
      forall mark | Held(root, mark)
        ensures Shown(root, mark)
      {
        var n :| Contains(root, n) && mark in Own(n);
        MissedLiesInSkipped(root, n);
        if !Occurs(root, n) {
          var hidden: Node :| hidden.OnSkipped? && Contains(root, hidden) && Contains(hidden, n);
          assert Held(hidden, mark);
        }
      }
    }
    forall hidden: Node, mark | Contains(root, hidden) && Held(hidden, mark)
      ensures Held(root, mark)
    {
      var n :| Contains(hidden, n) && mark in Own(n);
      ContainsBelow(root, hidden, n);
    }
  }

  // ----- three columns that are missed -----

  lemma ShowsOnlyItself(n: Node)
    requires !n.OnSkipped? && Inner(n) == []
    ensures Marks(n) == Own(n)
  {
    hide Own, Inner, Shown;
    Unfold(n);
    AllOfNone();
  }

  lemma ShowsItsOnlyChild(n: Node, child: Node)
    requires !n.OnSkipped? && Own(n) == iset{} && Inner(n) == [child]
    ensures Marks(n) == Marks(child)
  {
    hide Own, Inner, Shown;
    Unfold(n);
    AllOfOne(child);
  }

  lemma ContainsChild(root: Node, child: Node, n: Node)
    requires child in Parts(root) && Contains(child, n)
    ensures Contains(root, n)
  {
    hide Parts;
    var p :| IsPath(p, child, n);
    var q := [root] + p;
    assert q[1..] == p && q[1] == p[0];
    assert IsPath(q, root, n);
  }

  lemma PartOfSkipped(part: Part)
    ensures OnPart(part) in Parts(OnSkipped(part))
  {
    assert Inner(OnSkipped(part))[0] == OnPart(part);
  }

  lemma SkippedIsHeld(root: Node, part: Part)
    requires part in SkippedParts(root)
    ensures Contains(root, OnPart(part))
  {
    hide SkippedParts;
    var k :| 0 <= k < |SkippedParts(root)| && SkippedParts(root)[k] == part;
    assert Each(SkippedParts(root), p => OnSkipped(p))[k] == OnSkipped(part);
    assert IsPath([OnPart(part)], OnPart(part), OnPart(part));
    PartOfSkipped(part);
    ContainsChild(OnSkipped(part), OnPart(part), OnPart(part));
    ContainsChild(root, OnSkipped(part), OnPart(part));
  }

  ghost predicate Missed(root: Node, column: string) {
    Held(root, ColumnMark(column)) && !Shown(root, ColumnMark(column))
  }

  lemma ColumnHeld(root: Node, column: string)
    requires PartExpr(Identifier(column)) in SkippedParts(root)
    ensures Held(root, ColumnMark(column))
  {
    hide SkippedParts, Contains;
    SkippedIsHeld(root, PartExpr(Identifier(column)));
    assert ColumnMark(column) in Own(OnExpr(Identifier(column)));
  }

  lemma NotShown(root: Node, mark: Mark)
    requires mark !in Marks(root)
    ensures !Shown(root, mark)
  {
    hide Shown;
  }

  /** `x IN UNNEST(y)`: the column `y` is not shown. */
  lemma UnnestedColumnIsMissed(x: string, y: string)
    requires x != y
    ensures Missed(OnExpr(InUnnest(Identifier(x), Identifier(y))), y)
  {
    hide Shown, Held, Marks;
    var root := OnExpr(InUnnest(Identifier(x), Identifier(y)));
    ColumnHeld(root, y);
    ShowsItsOnlyChild(root, OnExpr(Identifier(x)));
    ShowsOnlyItself(OnExpr(Identifier(x)));
    NotShown(root, ColumnMark(y));
  }

  /** `TRIM(y)`: the operand is not shown. */
  lemma TrimmedColumnIsMissed(y: string)
    ensures Missed(OnExpr(OtherExpr([PartExpr(Identifier(y))])), y)
  {
    hide Shown, Held, Marks;
    var root := OnExpr(OtherExpr([PartExpr(Identifier(y))]));
    ColumnHeld(root, y);
    ShowsOnlyItself(root);
    NotShown(root, ColumnMark(y));
  }

  /** `f(*) OVER (PARTITION BY y)`: the column of the window is not shown. */
  lemma WindowColumnIsMissed(name: Name, y: string)
    requires y != "*"
    ensures Missed(OnExpr(Call(Function(name, [ArgWildcard], None, [], [PartExpr(Identifier(y))]))), y)
  {
    hide Shown, Held, Marks, IsAggregate, Contains, Args, Exprs;
    var f := Function(name, [ArgWildcard], None, [], [PartExpr(Identifier(y))]);
    var root := OnExpr(Call(f));
    ColumnHeld(OnFunction(f), y);
    HeldByChild(root, OnFunction(f), ColumnMark(y));
    ShowsItsOnlyChild(root, OnFunction(f));
    WildcardCallShows(f, y);
    NotShown(root, ColumnMark(y));
  }

  lemma WildcardCallShows(f: Function, y: string)
    requires f.args == [ArgWildcard] && f.filter.None? && f.orderBy == [] && y != "*"
    ensures ColumnMark(y) !in Marks(OnFunction(f))
  {
    hide Marks, AllMarks, IsAggregate, Inner;
    WindowedInner(f);
    Unfold(OnFunction(f));
    AllOfOne(OnArg(ArgWildcard));
    WildcardArgShows();
  }

  lemma WildcardArgShows()
    ensures Marks(OnArg(ArgWildcard)) == iset{ColumnMark("*")}
  {
    hide Marks;
    ShowsOnlyItself(OnArg(ArgWildcard));
  }

  lemma WindowedInner(f: Function)
    requires f.args == [ArgWildcard] && f.filter.None? && f.orderBy == []
    ensures Inner(OnFunction(f)) == [OnArg(ArgWildcard)]
  {
    assert Args(f.args)[0] == OnArg(ArgWildcard);
    assert Args(f.args) == [OnArg(ArgWildcard)];
    assert |Exprs(f.orderBy)| == 0;
  }

  lemma HeldByChild(root: Node, child: Node, mark: Mark)
    requires child in Inner(root) && Held(child, mark)
    ensures Held(root, mark)
  {
    hide Inner, Own, SkippedParts, Contains;
    var n :| Contains(child, n) && mark in Own(n);
    assert child in Parts(root);
    ContainsChild(root, child, n);
  }
}
