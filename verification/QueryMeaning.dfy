/**
  What an effective query denotes: the base query's rows that pass the filter,
  in an order the sort allows. SQL's three truth values are used; a row passes
  when the filter is true, not when it is unknown.
*/
module QueryMeaning {
  import opened Text
  import opened Quoting
  import opened WhereClause
  import opened QueryTransform
  import opened Wrappers

  datatype Truth = True | False | Unknown

  function Eval(e: Expr, atom: Expr -> Truth): Truth {
    match e
    case Nested(inner) => Eval(inner, atom)
    case And(l, r) =>
      var a, b := Eval(l, atom), Eval(r, atom);
      if a == False || b == False then False else if a == True && b == True then True else Unknown
    case Or(l, r) =>
      var a, b := Eval(l, atom), Eval(r, atom);
      if a == True || b == True then True else if a == False && b == False then False else Unknown
    case _ => atom(e)
  }

  predicate Passes(where: Option<Expr>, atom: Expr -> Truth) {
    where.None? || Eval(where.value, atom) == True
  }

  /** The rows of the base query that pass the filter. `holds` is the truth of an
      atomic condition on a row. */
  function Kept<Row>(rows: seq<Row>, where: Option<Expr>, holds: (Expr, Row) -> Truth): seq<Row> {
    if rows == [] then []
    else (if Passes(where, e => holds(e, rows[0])) then [rows[0]] else []) + Kept(rows[1..], where, holds)
  }

  /** `out` is a result the query may return: its rows are the kept rows, and no
      row stands before one the sort puts strictly earlier. */
  ghost predicate Denotes<Row>(where: Option<Expr>, orderBy: Option<Order>, rows: seq<Row>,
                               holds: (Expr, Row) -> Truth, le: (seq<string>, Row, Row) -> bool, out: seq<Row>)
  {
    && multiset(out) == multiset(Kept(rows, where, holds))
    && (orderBy.Some? ==>
          forall i, j :: 0 <= i < j < |out| ==>
            if orderBy.value.descending then le(orderBy.value.path, out[j], out[i])
            else le(orderBy.value.path, out[i], out[j]))
  }

  // ----- AND and OR chains -----

  predicate AllTrue(es: seq<Expr>, atom: Expr -> Truth) {
    es == [] || (Eval(es[0], atom) == True && AllTrue(es[1..], atom))
  }

  predicate AnyTrue(es: seq<Expr>, atom: Expr -> Truth) {
    es != [] && (Eval(es[0], atom) == True || AnyTrue(es[1..], atom))
  }

  lemma {:induction false} AndFoldTrue(first: Expr, es: seq<Expr>, atom: Expr -> Truth)
    ensures Eval(AndFold(first, es), atom) == True <==> Eval(first, atom) == True && AllTrue(es, atom)
    decreases |es|
  {
    if es != [] {
      AndFoldTrue(And(first, es[0]), es[1..], atom);
    }
  }

  lemma {:induction false} OrFoldTrue(first: Expr, es: seq<Expr>, atom: Expr -> Truth)
    ensures Eval(OrFold(first, es), atom) == True <==> Eval(first, atom) == True || AnyTrue(es, atom)
    decreases |es|
  {
    if es != [] {
      OrFoldTrue(Or(first, es[0]), es[1..], atom);
    }
  }

  lemma CombinedPasses(es: seq<Expr>, atom: Expr -> Truth)
    ensures Passes(CombineWithAnd(es), atom) <==> AllTrue(es, atom)
  {
    if es != [] {
      AndFoldTrue(es[0], es[1..], atom);
    }
  }

  // ----- the filter a request means, without reference to an iteration order -----

  /** A row passes the column filters: every filter that is not blank is true of it. */
  ghost predicate PassesEveryColumnFilter(m: map<string, string>, atom: Expr -> Truth) {
    forall column :: column in m && !Blank(m[column]) ==> Eval(ColumnCondition(column, m[column]), atom) == True
  }

  /** Some column, read as text, matches the pattern. */
  predicate AnyColumnLike(columns: seq<string>, pattern: string, atom: Expr -> Truth) {
    columns != [] && (atom(ILike(Segments(columns[0]), pattern)) == True || AnyColumnLike(columns[1..], pattern, atom))
  }

  ghost predicate Selected(request: Request, atom: Expr -> Truth) {
    match request.nullFilter
    case Some(column) => atom(IsNull(Segments(column))) == True
    case None =>
      if HasGlobal(request) then AnyColumnLike(request.columns, Wildcard(Trim(request.globalFilter)), atom)
      else PassesEveryColumnFilter(request.columnFilters, atom)
  }

  ghost predicate PassesEveryEntry(entries: Entries, atom: Expr -> Truth) {
    forall i :: 0 <= i < |entries| && !Blank(entries[i].1) ==>
      Eval(ColumnCondition(entries[i].0, entries[i].1), atom) == True
  }

  lemma {:induction false} EntriesPass(entries: Entries, atom: Expr -> Truth)
    ensures AllTrue(ColumnConditions(entries), atom) <==> PassesEveryEntry(entries, atom)
  {
    if entries != [] {
      var rest := entries[1..];
      EntriesPass(rest, atom);
      assert forall i :: 0 <= i < |rest| ==> rest[i] == entries[i + 1];
      if !Blank(entries[0].1) {
        assert ColumnConditions(entries)[1..] == ColumnConditions(rest);
      } else {
        assert ColumnConditions(entries) == ColumnConditions(rest);
      }
      if PassesEveryEntry(rest, atom)
         && (Blank(entries[0].1) || Eval(ColumnCondition(entries[0].0, entries[0].1), atom) == True) {
        forall i | 0 <= i < |entries| && !Blank(entries[i].1)
          ensures Eval(ColumnCondition(entries[i].0, entries[i].1), atom) == True
        {
          if i > 0 { assert entries[i] == rest[i - 1]; }
        }
      }
    }
  }

  lemma IterationPasses(entries: Entries, m: map<string, string>, atom: Expr -> Truth)
    requires IsIteration(entries, m)
    ensures PassesEveryEntry(entries, atom) <==> PassesEveryColumnFilter(m, atom)
  {
    if PassesEveryEntry(entries, atom) {
      forall column | column in m && !Blank(m[column]) ensures Eval(ColumnCondition(column, m[column]), atom) == True {
        var i :| 0 <= i < |entries| && entries[i] == (column, m[column]);
      }
    }
  }

  lemma {:induction false} ColumnsLike(columns: seq<string>, pattern: string, atom: Expr -> Truth)
    ensures AnyTrue(GlobalConditions(columns, pattern), atom) <==> AnyColumnLike(columns, pattern, atom)
  {
    if columns != [] {
      ColumnsLike(columns[1..], pattern, atom);
      var first := ILike(Segments(columns[0]), pattern);
      AnyTrueCons(first, GlobalConditions(columns[1..], pattern), atom);
    }
  }

  lemma AnyTrueCons(e: Expr, es: seq<Expr>, atom: Expr -> Truth)
    ensures AnyTrue([e] + es, atom) <==> Eval(e, atom) == True || AnyTrue(es, atom)
  {
    assert ([e] + es)[1..] == es;
  }

  lemma GlobalPasses(columns: seq<string>, filter: string, atom: Expr -> Truth)
    requires columns != []
    ensures Eval(GlobalCondition(columns, filter), atom) == True <==> AnyColumnLike(columns, Wildcard(filter), atom)
  {
    FoldPasses(GlobalConditions(columns, Wildcard(filter)), atom);
    ColumnsLike(columns, Wildcard(filter), atom);
  }

  lemma FoldPasses(es: seq<Expr>, atom: Expr -> Truth)
    requires es != []
    ensures Eval(Nested(OrFold(es[0], es[1..])), atom) == True <==> AnyTrue(es, atom)
  {
    OrFoldTrue(es[0], es[1..], atom);
  }

  /** The filter built from any iteration order of the column-filter map passes
      exactly the rows the request selects. */
  lemma FilterMeansSelected(request: Request, entries: Entries, atom: Expr -> Truth)
    requires IsIteration(entries, request.columnFilters)
    ensures Passes(CombineWithAnd(Meant(request, entries)), atom) <==> Selected(request, atom)
  {
    var es := Meant(request, entries);
    CombinedPasses(es, atom);
    if request.nullFilter.Some? {
      assert AllTrue(es[1..], atom);
    } else if HasGlobal(request) {
      assert AllTrue(es[1..], atom);
      GlobalPasses(request.columns, Trim(request.globalFilter), atom);
    } else {
      EntriesPass(entries, atom);
      IterationPasses(entries, request.columnFilters, atom);
    }
  }

  lemma {:induction false} KeptIndependent<Row>(request: Request, a: Entries, b: Entries, rows: seq<Row>,
                                                holds: (Expr, Row) -> Truth)
    requires IsIteration(a, request.columnFilters) && IsIteration(b, request.columnFilters)
    ensures Kept(rows, CombineWithAnd(Meant(request, a)), holds) == Kept(rows, CombineWithAnd(Meant(request, b)), holds)
    decreases |rows|
  {
    if rows != [] {
      FilterMeansSelected(request, a, e => holds(e, rows[0]));
      FilterMeansSelected(request, b, e => holds(e, rows[0]));
      KeptIndependent(request, a, b, rows[1..], holds);
    }
  }

  function OrderOf(request: Request): Option<Order> {
    if request.sort.None? then None else Some(OrderMeant(request.sort.value))
  }

  /** The parsed path and the string fallback denote the same relation over the
      base query's rows, each with its own iteration order of the column-filter
      map: the text the fallback writes behind the wrapper is read as a filter and
      an order with exactly the results of the parsed path's query. */
  lemma PathsDenoteTheSame<Row>(request: Request, a: Entries, b: Entries, rows: seq<Row>,
                                holds: (Expr, Row) -> Truth, le: (seq<string>, Row, Row) -> bool, out: seq<Row>)
    requires IsIteration(a, request.columnFilters) && IsIteration(b, request.columnFilters)
    requires ColumnsNamed(request)
    ensures ReadTail(FallbackTail(request, b)).Some?
    ensures var (where, orderBy) := ReadTail(FallbackTail(request, b)).value;
            Denotes(CombineWithAnd(Meant(request, a)), OrderOf(request), rows, holds, le, out) <==>
            Denotes(where, orderBy, rows, holds, le, out)
  {
    FallbackTailReads(request, b);
    KeptIndependent(request, a, b, rows, holds);
    SameKeptSameDenotes(CombineWithAnd(Meant(request, a)), CombineWithAnd(Meant(request, b)), OrderOf(request), rows,
        holds, le, out);
  }

  lemma SameKeptSameDenotes<Row>(w: Option<Expr>, w': Option<Expr>, orderBy: Option<Order>, rows: seq<Row>,
                                 holds: (Expr, Row) -> Truth, le: (seq<string>, Row, Row) -> bool, out: seq<Row>)
    requires Kept(rows, w, holds) == Kept(rows, w', holds)
    ensures Denotes(w, orderBy, rows, holds, le, out) <==> Denotes(w', orderBy, rows, holds, le, out)
  {
  }
}
