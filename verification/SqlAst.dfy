/**
  The SQL syntax tree as the analyzer meets it. Constructors that the analyzer
  treats alike are one constructor here; their comments name them. What its patterns
  pass over is kept as `skipped` parts, with examples in the comments.
*/
module SqlAst {
  import opened Text
  import opened Wrappers

  /** The values of an identifier chain. */
  type Name = seq<string>

  datatype Expr =
    | Identifier(ident: string)
    | CompoundIdentifier(parts: Name)
    // BinaryOp, Like, ILike, SimilarTo, RLike, AnyOp, AllOp, IsDistinctFrom,
    // IsNotDistinctFrom, Position, JsonAccess
    | Binary(left: Expr, right: Expr)
    // UnaryOp, Nested, Cast, TryCast, SafeCast, AtTimeZone, the IsNull family,
    // Extract, Ceil, Floor, Collate
    | Unary(expr: Expr)
    | InUnnest(expr: Expr, arrayExpr: Expr)
    | Between(expr: Expr, low: Expr, high: Expr)
    | InList(expr: Expr, list: seq<Expr>)
    | InSubquery(expr: Expr, subquery: Query)
    // Exists, Subquery, ArraySubquery
    | SubqueryExpr(subquery: Query)
    | Case(operand: Option<Expr>, conditions: seq<Expr>, results: seq<Expr>, elseResult: Option<Expr>)
    | Call(call: Function)
    | Substring(expr: Expr, substringFrom: Option<Expr>, substringFor: Option<Expr>)
    // Tuple, Array
    | ExprList(exprs: seq<Expr>)
    | CompositeAccess(expr: Expr, key: string)
    // every other expression: Trim, Overlay, Interval, array subscripts, grouping sets
    | OtherExpr(skipped: seq<Part>)

  // skipped: the window of OVER
  datatype Function = Function(name: Name, args: seq<FunctionArg>, filter: Option<Expr>, orderBy: seq<Expr>,
                               skipped: seq<Part>)

  datatype FunctionArg = ArgExpr(expr: Expr) | ArgQualifiedWildcard(name: Name) | ArgWildcard

  // UnnamedExpr and ExprWithAlias are one; skipped: EXCEPT and REPLACE
  datatype SelectItem =
    | ItemExpr(expr: Expr)
    | QualifiedWildcard(name: Name, skipped: seq<Part>)
    | Wildcard(skipped: seq<Part>)

  // skipped: FOR UPDATE OF
  datatype Query = Query(
    with: With, body: SetExpr, limit: Option<Expr>, limitBy: seq<Expr>, offset: Option<Expr>,
    orderBy: seq<Expr>, fetch: Option<Expr>, skipped: seq<Part>)

  datatype With = NoWith | With(ctes: seq<Query>)

  datatype ValuesRow = ValuesRow(exprs: seq<Expr>)

  datatype SetExpr =
    | SelectBody(select: Select)
    | QueryBody(query: Query)
    | SetOperation(left: SetExpr, right: SetExpr)
    | ValuesBody(rows: seq<ValuesRow>)
    // Insert, Update
    | StatementBody(statement: Statement)
    | TableBody(schemaName: Option<string>, tableName: Option<string>)

  datatype GroupBy = GroupByExprs(exprs: seq<Expr>) | GroupByAll

  // skipped: DISTINCT ON, TOP, INTO, WINDOW
  datatype Select = Select(
    projection: seq<SelectItem>, from: seq<TableWithJoins>, lateralViews: seq<Expr>, selection: Option<Expr>,
    groupBy: GroupBy, clusterBy: seq<Expr>, distributeBy: seq<Expr>, sortBy: seq<Expr>, having: Option<Expr>,
    qualify: Option<Expr>, skipped: seq<Part>)

  datatype TableWithJoins = TableWithJoins(relation: TableFactor, joins: seq<JoinedTable>)

  // A cross join and the two applies have no constraint.
  datatype JoinedTable = JoinedTable(relation: TableFactor, constraint: JoinConstraint)

  datatype JoinConstraint = On(expr: Expr) | Using(attrs: seq<string>) | NoConstraint

  datatype TableFactor =
    // skipped: arguments, hints
    | Table(name: Name, skipped: seq<Part>)
    | Derived(subquery: Query)
    // TableFunction, JsonTable
    | TableFunction(expr: Expr)
    | FunctionTable(args: seq<FunctionArg>)
    | Unnest(arrayExprs: seq<Expr>)
    | NestedJoin(table: TableWithJoins)
    // skipped: the columns turned
    | Pivot(pivoted: TableFactor, aggregate: Expr, skipped: seq<Part>)
    | Unpivot(unpivoted: TableFactor, skipped: seq<Part>)

  datatype Assignment = Assignment(id: Name, value: Expr)

  datatype Returning = NoReturning | Returning(items: seq<SelectItem>)

  datatype UsingTables = NoUsing | UsingTables(tables: seq<TableWithJoins>)

  datatype Statement =
    | QueryStatement(query: Query)
    // skipped: columns, ON CONFLICT, RETURNING
    | Insert(tableName: Name, source: Option<Query>, skipped: seq<Part>)
    | Update(table: TableWithJoins, updateFrom: Option<TableWithJoins>, selection: Option<Expr>,
             assignments: seq<Assignment>, returning: Returning)
    | Delete(from: seq<TableWithJoins>, using: UsingTables, selection: Option<Expr>,
             returning: Returning, orderBy: seq<Expr>, limit: Option<Expr>, skipped: seq<Part>)
    // CREATE TABLE / VIEW / SCHEMA / INDEX / VIRTUAL TABLE, ALTER TABLE, DROP
    | DdlStatement(skipped: seq<Part>)
    | OtherStatement(skipped: seq<Part>)

  datatype Part =
    | PartExpr(expr: Expr)
    | PartQuery(query: Query)
    | PartStatement(statement: Statement)
    | PartTable(name: Name)
    | PartColumn(column: string)
    | PartItem(item: SelectItem)
    | PartArg(arg: FunctionArg)
    | PartAssignment(assignment: Assignment)

  datatype StatementType = SelectType | InsertType | UpdateType | DeleteType | DdlType | OtherType

  function TypeOf(statement: Statement): StatementType {
    match statement
    case QueryStatement(_) => SelectType
    case Insert(_, _, _) => InsertType
    case Update(_, _, _, _, _) => UpdateType
    case Delete(_, _, _, _, _, _, _) => DeleteType
    case DdlStatement(_) => DdlType
    case OtherStatement(_) => OtherType
  }
}
