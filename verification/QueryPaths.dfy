/**
  Exactly when the two paths of src-tauri/src/db/query_transform.rs agree: when
  every column the request filters on has a name. For the other requests, what each
  path produces.
*/
module QueryPaths {
  import opened Text
  import opened Wrappers
  import opened Quoting
  import opened WhereClause
  import opened QueryTransform
  import opened QueryMeaning

  // ----- texts that do not parse -----

  ghost predicate FailsBefore(text: string, rest: string) {
    ReadPrimary(text + rest) == None
  }

  /** No condition starts with `text`, whatever follows. */
  ghost predicate Fails(text: string) {
    forall rest :: FailsBefore(text, rest)
  }

  /** `text` is read as the condition, or cannot be read at all. */
  ghost predicate Settles(text: string, outcome: Option<Expr>) {
    match outcome
    case Some(e) => ReadsAs(text, e)
    case None => Fails(text)
  }

  ghost predicate AllSettle(texts: seq<string>, outcomes: seq<Option<Expr>>) {
    |texts| == |outcomes| && forall i :: 0 <= i < |texts| ==> Settles(texts[i], outcomes[i])
  }

  function Somes(outcomes: seq<Option<Expr>>): seq<Expr> {
    if outcomes == [] then []
    else (match outcomes[0] case Some(e) => [e] case None => []) + Somes(outcomes[1..])
  }

  lemma SpaceFails(text: string)
    requires text != "" && text[0] == ' '
    ensures Fails(text)
  {
    forall rest
      ensures FailsBefore(text, rest)
    {
      var s := text + rest;
      assert s[0] == ' ';
      Differs(s, "(", 0);
      Differs(s, "CAST(", 0);
    }
  }

  lemma EmptyCastFails(text: string)
    requires |text| > 5 && text[0] == 'C' && text[5] == ' '
    ensures Fails(text)
  {
    forall rest
      ensures FailsBefore(text, rest)
    {
      var s := text + rest;
      assert s[0] == 'C' && s[5] == ' ' && s[5..][0] == ' ';
      Differs(s, "(", 0);
      assert LexChain(s) == None && LexChain(s[5..]) == None;
    }
  }

  lemma UnnamedIsEmpty(column: string)
    requires Segments(column) == []
    ensures QuotedIdentifier(column) == ""
  {
    QuotedIdentifierLexes(column, "");
  }

  lemma UnnamedNullFails(column: string)
    requires Segments(column) == []
    ensures Fails(QuotedIdentifier(column) + " IS NULL")
  {
    UnnamedIsEmpty(column);
    SpaceFails(QuotedIdentifier(column) + " IS NULL");
  }

  lemma CastStart(name: string, escaped: string)
    requires name == ""
    ensures var s := "CAST(" + name + " AS TEXT) ILIKE '" + escaped + "'"; |s| > 5 && s[0] == 'C' && s[5] == ' '
  {
  }

  lemma ComparisonStart(name: string, op: string, escaped: string)
    requires name == ""
    ensures var s := name + " " + op + " '" + escaped + "'"; s != "" && s[0] == ' '
  {
  }

  lemma UnnamedILikeFails(column: string, filter: string)
    requires Segments(column) == []
    ensures Fails(ILikeSnippet(column, filter))
  {
    hide Fails, Segments, QuotedIdentifier, EscapeStringLiteral;
    UnnamedIsEmpty(column);
    CastStart(QuotedIdentifier(column), "%" + EscapeStringLiteral(filter) + "%");
    EmptyCastFails(ILikeSnippet(column, filter));
  }

  lemma UnnamedColumnFails(column: string, value: string)
    requires Segments(column) == []
    ensures Fails(ColumnSnippet(column, value))
  {
    hide Fails, Segments, QuotedIdentifier, EscapeStringLiteral, ExtractOperator, Trim, ILikeSnippet;
    UnnamedIsEmpty(column);
    var trimmed := Trim(value);
    if ExtractOperator(trimmed).Some? {
      var op := ExtractOperator(trimmed).value;
      ComparisonStart(QuotedIdentifier(column), op, EscapeStringLiteral(Trim(trimmed[|op|..])));
      SpaceFails(ColumnSnippet(column, value));
    } else {
      UnnamedILikeFails(column, Trim(value));
    }
  }

  // ----- chains with a text that does not parse -----

  lemma {:induction false} AndChainFails(first: Expr, texts: seq<string>, outcomes: seq<Option<Expr>>, rest: string)
    requires AllSettle(texts, outcomes) && None in outcomes && Boundary(rest)
    ensures ReadAndTail(first, Chained(texts, " AND ", rest)) == None
    decreases |texts|
  {
    var tail := Chained(texts[1..], " AND ", rest);
    ChainedBoundary(texts[1..], " AND ", rest);
    StartsWithAppend(" AND ", texts[0] + tail);
    assert Settles(texts[0], outcomes[0]);
    if outcomes[0].Some? {
      assert ReadsBefore(texts[0], outcomes[0].value, tail);
      AndChainFails(And(first, outcomes[0].value), texts[1..], outcomes[1..], rest);
    } else {
      assert FailsBefore(texts[0], tail);
    }
  }

  lemma AndJoinFails(texts: seq<string>, outcomes: seq<Option<Expr>>, rest: string)
    requires AllSettle(texts, outcomes) && None in outcomes && Boundary(rest)
    ensures ReadOr(Join(texts, " AND ") + rest) == None
  {
    var tail := Chained(texts[1..], " AND ", rest);
    JoinChained(texts, " AND ", rest);
    ChainedBoundary(texts[1..], " AND ", rest);
    assert Settles(texts[0], outcomes[0]);
    if outcomes[0].Some? {
      assert ReadsBefore(texts[0], outcomes[0].value, tail);
      AndChainFails(outcomes[0].value, texts[1..], outcomes[1..], rest);
    } else {
      assert FailsBefore(texts[0], tail);
    }
  }

  lemma {:induction false} OrChainFails(first: Expr, texts: seq<string>, outcomes: seq<Option<Expr>>, rest: string)
    requires AllSettle(texts, outcomes) && None in outcomes && Boundary(rest) && !StartsWith(rest, " AND ")
    ensures ReadOrTail(first, Chained(texts, " OR ", rest)) == None
    decreases |texts|
  {
    var tail := Chained(texts[1..], " OR ", rest);
    ChainedBoundary(texts[1..], " OR ", rest);
    StartsWithAppend(" OR ", texts[0] + tail);
    assert Settles(texts[0], outcomes[0]);
    if outcomes[0].Some? {
      assert ReadsBefore(texts[0], outcomes[0].value, tail);
      NotAnd(texts[1..], rest);
      assert ReadAnd(texts[0] + tail) == Some((outcomes[0].value, tail));
      OrChainFails(Or(first, outcomes[0].value), texts[1..], outcomes[1..], rest);
    } else {
      assert FailsBefore(texts[0], tail);
    }
  }

  lemma OrJoinFails(texts: seq<string>, outcomes: seq<Option<Expr>>, rest: string)
    requires AllSettle(texts, outcomes) && None in outcomes && Boundary(rest) && !StartsWith(rest, " AND ")
    ensures ReadOr(Join(texts, " OR ") + rest) == None
  {
    var tail := Chained(texts[1..], " OR ", rest);
    JoinChained(texts, " OR ", rest);
    ChainedBoundary(texts[1..], " OR ", rest);
    assert Settles(texts[0], outcomes[0]);
    if outcomes[0].Some? {
      assert ReadsBefore(texts[0], outcomes[0].value, tail);
      NotAnd(texts[1..], rest);
      assert ReadAnd(texts[0] + tail) == Some((outcomes[0].value, tail));
      OrChainFails(outcomes[0].value, texts[1..], outcomes[1..], rest);
    } else {
      assert FailsBefore(texts[0], tail);
    }
  }

  // ----- what becomes of each condition text -----

  function ILikeOutcome(column: string, filter: string): Option<Expr> {
    if Segments(column) == [] then None else Some(ILike(Segments(column), Wildcard(filter)))
  }

  function ColumnOutcome(column: string, value: string): Option<Expr> {
    if Segments(column) == [] then None else Some(ColumnCondition(column, value))
  }

  function ILikeOutcomes(columns: seq<string>, filter: string): (r: seq<Option<Expr>>)
    ensures |r| == |columns|
  {
    if columns == [] then [] else [ILikeOutcome(columns[0], filter)] + ILikeOutcomes(columns[1..], filter)
  }

  function ColumnOutcomes(entries: Entries): seq<Option<Expr>> {
    if entries == [] then []
    else
      (if Blank(entries[0].1) then [] else [ColumnOutcome(entries[0].0, entries[0].1)])
      + ColumnOutcomes(entries[1..])
  }

  /** A condition text is lost when its column has no name; the global filter is
      one text, lost as a whole. */
  function Outcomes(request: Request, entries: Entries): seq<Option<Expr>> {
    match request.nullFilter
    case Some(column) => [if Segments(column) == [] then None else Some(IsNull(Segments(column)))]
    case None =>
      if HasGlobal(request) then
        [if exists c :: c in request.columns && Segments(c) == [] then None
         else Some(GlobalCondition(request.columns, Trim(request.globalFilter)))]
      else ColumnOutcomes(entries)
  }

  lemma AllSettleCons(text: string, outcome: Option<Expr>, texts: seq<string>, outcomes: seq<Option<Expr>>)
    requires Settles(text, outcome) && AllSettle(texts, outcomes)
    ensures AllSettle([text] + texts, [outcome] + outcomes)
  {
  }

  lemma {:induction false} GlobalSnippetsSettle(columns: seq<string>, filter: string)
    ensures AllSettle(GlobalSnippets(columns, filter), ILikeOutcomes(columns, filter))
    ensures None in ILikeOutcomes(columns, filter) <==> exists c :: c in columns && Segments(c) == []
  {
    if columns != [] {
      GlobalSnippetsSettle(columns[1..], filter);
      if Segments(columns[0]) == [] {
        UnnamedILikeFails(columns[0], filter);
      } else {
        ILikeSnippetReads(columns[0], filter);
      }
      AllSettleCons(ILikeSnippet(columns[0], filter), ILikeOutcome(columns[0], filter),
                    GlobalSnippets(columns[1..], filter), ILikeOutcomes(columns[1..], filter));
    }
  }

  lemma ColumnSettles(column: string, value: string)
    ensures Settles(ColumnSnippet(column, value), ColumnOutcome(column, value))
  {
    hide Fails, ReadsAs, Segments, ColumnSnippet, ColumnCondition;
    if Segments(column) == [] {
      UnnamedColumnFails(column, value);
    } else {
      ColumnSnippetReads(column, value);
    }
  }

  lemma {:induction false} ColumnSnippetsSettle(entries: Entries)
    ensures AllSettle(ColumnSnippets(entries), ColumnOutcomes(entries))
    ensures None in ColumnOutcomes(entries)
       <==> exists i :: 0 <= i < |entries| && !Blank(entries[i].1) && Segments(entries[i].0) == []
  {
    hide Settles, Segments, ColumnSnippet, Blank, ColumnCondition;
    if entries != [] {
      var rest := entries[1..];
      ColumnSnippetsSettle(rest);
      assert forall i :: 0 <= i < |rest| ==> rest[i] == entries[i + 1];
      assert forall i :: 0 < i < |entries| ==> entries[i] == rest[i - 1];
      if !Blank(entries[0].1) {
        ColumnSettles(entries[0].0, entries[0].1);
        AllSettleCons(ColumnSnippet(entries[0].0, entries[0].1), ColumnOutcome(entries[0].0, entries[0].1),
                      ColumnSnippets(rest), ColumnOutcomes(rest));
      }
    }
  }

  lemma UnnamedGlobalFails(columns: seq<string>, filter: string)
    requires exists c :: c in columns && Segments(c) == []
    ensures Fails(GlobalSnippet(columns, filter))
  {
    var texts := GlobalSnippets(columns, filter);
    GlobalSnippetsSettle(columns, filter);
    forall rest
      ensures FailsBefore(GlobalSnippet(columns, filter), rest)
    {
      var behind := ")" + rest;
      assert behind[0] == ')';
      Differs(behind, " AND ", 0);
      OrJoinFails(texts, ILikeOutcomes(columns, filter), behind);
      Parenthesized(Join(texts, " OR "), rest);
    }
  }

  lemma ConditionsSettle(request: Request, entries: Entries)
    requires IsIteration(entries, request.columnFilters)
    ensures AllSettle(ConditionSql(request, entries), Outcomes(request, entries))
    ensures None in Outcomes(request, entries) <==> !ColumnsNamed(request)
  {
    hide Settles, Segments, Blank, ColumnOutcomes, ColumnSnippets, GlobalSnippet, GlobalCondition, QuotedIdentifier;
    if request.nullFilter.Some? {
      NullSettles(request.nullFilter.value);
    } else if HasGlobal(request) {
      GlobalSettles(request.columns, Trim(request.globalFilter));
    } else {
      ColumnSnippetsSettle(entries);
      IterationNamed(request.columnFilters, entries);
    }
  }

  lemma NullSettles(column: string)
    ensures Settles(QuotedIdentifier(column) + " IS NULL",
                    if Segments(column) == [] then None else Some(IsNull(Segments(column))))
  {
    hide Fails, ReadsAs, Segments, QuotedIdentifier;
    if Segments(column) == [] {
      UnnamedNullFails(column);
    } else {
      NullSnippetReads(column);
      assert ReadsAs(([QuotedIdentifier(column) + " IS NULL"])[0], ([IsNull(Segments(column))])[0]);
    }
  }

  lemma GlobalSettles(columns: seq<string>, filter: string)
    requires columns != []
    ensures Settles(GlobalSnippet(columns, filter),
                    if exists c :: c in columns && Segments(c) == [] then None
                    else Some(GlobalCondition(columns, filter)))
  {
    hide Fails, ReadsAs, Segments, GlobalSnippet, GlobalCondition;
    if exists c :: c in columns && Segments(c) == [] {
      UnnamedGlobalFails(columns, filter);
    } else {
      GlobalSnippetReads(columns, filter);
      assert ReadsAs(([GlobalSnippet(columns, filter)])[0], ([GlobalCondition(columns, filter)])[0]);
    }
  }

  lemma IterationNamed(m: map<string, string>, entries: Entries)
    requires IsIteration(entries, m)
    ensures (exists i :: 0 <= i < |entries| && !Blank(entries[i].1) && Segments(entries[i].0) == [])
       <==> exists column :: column in m && !Blank(m[column]) && Segments(column) == []
  {
    if column :| column in m && !Blank(m[column]) && Segments(column) == [] {
      var i :| 0 <= i < |entries| && entries[i] == (column, m[column]);
      assert !Blank(entries[i].1) && Segments(entries[i].0) == [];
    }
  }

  // ----- the fallback's text -----

  lemma OrderTailEdges(sort: Option<SortState>)
    ensures Boundary(OrderTail(sort)) && !StartsWith(OrderTail(sort), " AND ")
    ensures !StartsWith(OrderTail(sort), " OR ") && !StartsWith(OrderTail(sort), " WHERE ")
  {
    if sort.Some? {
      OrderByStart(OrderText(sort.value));
    }
  }

  /** The text the fallback writes behind the wrapper can be read if and only if
      every column it filters on has a name, whatever the sort. */
  lemma FallbackReadsIffNamed(request: Request, entries: Entries)
    requires IsIteration(entries, request.columnFilters)
    ensures ReadTail(FallbackTail(request, entries)).Some? <==> ColumnsNamed(request)
  {
    hide ConditionSql, Meant, ColumnsNamed, AllSettle, Outcomes, ReadOrder, Boundary, OrderText, CombineWithAnd,
         IsIteration;
    if ColumnsNamed(request) {
      FallbackTailReads(request, entries);
    } else {
      ConditionsSettle(request, entries);
      OrderTailEdges(request.sort);
      TailFails(ConditionSql(request, entries), Outcomes(request, entries), OrderTail(request.sort));
    }
  }

  lemma TailFails(texts: seq<string>, outcomes: seq<Option<Expr>>, tail: string)
    requires AllSettle(texts, outcomes) && None in outcomes && Boundary(tail)
    ensures ReadTail(WhereText(texts) + tail) == None
  {
    hide ReadOr, Settles, Boundary;
    AndJoinFails(texts, outcomes, tail);
    Assoc(" WHERE ", Join(texts, " AND "), tail);
    StartsWithAppend(" WHERE ", Join(texts, " AND ") + tail);
  }

  // ----- the parsed path -----

  lemma FailsToParse(text: string)
    requires Fails(text)
    ensures ParseWhere(text) == None
  {
    assert FailsBefore(text, "") && text + "" == text;
    assert ReadAnd(text) == None;
    assert ReadOr(text) == None;
  }

  /** The text of a column filter parses if and only if its column has a name. */
  lemma ColumnFilterParsesIffNamed(column: string, value: string)
    ensures ParseWhere(ColumnSnippet(column, value)).Some? <==> Segments(column) != []
  {
    hide Segments, ColumnSnippet, ParseWhere, ReadsAs, Fails;
    ColumnSettles(column, value);
    if Segments(column) != [] {
      SnippetParses(ColumnSnippet(column, value), ColumnCondition(column, value));
    } else {
      FailsToParse(ColumnSnippet(column, value));
    }
  }

  lemma {:induction false} ParsedAreSomes(texts: seq<string>, outcomes: seq<Option<Expr>>)
    requires AllSettle(texts, outcomes)
    ensures ParsedConditions(texts) == Somes(outcomes)
  {
    if texts != [] {
      assert Settles(texts[0], outcomes[0]);
      ParsedAreSomes(texts[1..], outcomes[1..]);
      if outcomes[0].Some? {
        SnippetParses(texts[0], outcomes[0].value);
      } else {
        FailsToParse(texts[0]);
      }
    }
  }

  /** The parsed path keeps exactly the conditions on named columns, in order. */
  lemma ParsedKeepsNamed(request: Request, entries: Entries)
    requires IsIteration(entries, request.columnFilters)
    ensures ParsedConditions(ConditionSql(request, entries)) == Somes(Outcomes(request, entries))
    ensures ColumnsNamed(request) ==> Somes(Outcomes(request, entries)) == Meant(request, entries)
  {
    ConditionsSettle(request, entries);
    ParsedAreSomes(ConditionSql(request, entries), Outcomes(request, entries));
    if ColumnsNamed(request) {
      ConditionsReadBack(request, entries);
      ParsedConditionsAll(ConditionSql(request, entries), Meant(request, entries));
    }
  }

  // ----- both paths -----

  /** The fallback's text, with iteration order `b`, is a query, and it denotes what
      the parsed path's query, with iteration order `a`, denotes. */
  ghost predicate Agree<Row>(request: Request, a: Entries, b: Entries, rows: seq<Row>, holds: (Expr, Row) -> Truth,
                             le: (seq<string>, Row, Row) -> bool, out: seq<Row>)
  {
    var parsed := CombineWithAnd(ParsedConditions(ConditionSql(request, a)));
    match ReadTail(FallbackTail(request, b))
    case None => false
    case Some((where, orderBy)) =>
      && orderBy == (if request.sort.None? then None else ReadOrder(OrderText(request.sort.value)))
      && (Denotes(parsed, orderBy, rows, holds, le, out) <==> Denotes(where, orderBy, rows, holds, le, out))
  }

  /** The two paths denote the same filtered, sorted relation if and only if every
      column the request filters on has a name, whatever the sort. */
  lemma PathsAgreeIffNamed<Row>(request: Request, a: Entries, b: Entries, rows: seq<Row>, holds: (Expr, Row) -> Truth,
                                le: (seq<string>, Row, Row) -> bool, out: seq<Row>)
    requires IsIteration(a, request.columnFilters) && IsIteration(b, request.columnFilters)
    ensures Agree(request, a, b, rows, holds, le, out) <==> ColumnsNamed(request)
  {
    hide Denotes, ReadTail, FallbackTail, ReadOrder, OrderMeant, OrderText;
    FallbackReadsIffNamed(request, b);
    if ColumnsNamed(request) {
      PathsDenoteTheSame(request, a, b, rows, holds, le, out);
      FallbackTailReads(request, b);
      ParsedKeepsNamed(request, a);
      if request.sort.Some? {
        OrderReads(request.sort.value);
      }
    }
  }

  /** A sort on a column without a name, such as "": both paths sort by a column
      named like the direction. */
  lemma UnnamedSortIsKeyword(request: Request, entries: Entries, sort: SortState)
    requires IsIteration(entries, request.columnFilters) && ColumnsNamed(request)
    requires request.sort == Some(sort) && Segments(sort.column) == []
    ensures var keyword := Order([SortDirection(sort.direction)], false);
            && ReadOrder(OrderText(sort)) == Some(keyword)
            && ReadTail(FallbackTail(request, entries)) ==
               Some((CombineWithAnd(Meant(request, entries)), Some(keyword)))
  {
    hide FallbackTail, ReadTail, ReadOrder, OrderText, Segments, SortDirection, IsIteration, ColumnsNamed, Meant;
    OrderReads(sort);
    FallbackTailReads(request, entries);
  }

  /** One filter on a column without a name: the fallback's text is no query, and
      the parsed path returns every row. */
  lemma UnnamedFilterParts(request: Request, entries: Entries)
    requires request.sort == None && request.nullFilter == None && request.globalFilter == ""
    requires request.columnFilters == map["" := "x"] && entries == [("", "x")]
    ensures ReadTail(FallbackTail(request, entries)) == None
    ensures CombineWithAnd(ParsedConditions(ConditionSql(request, entries))) == None
  {
    hide Segments, Blank, FallbackTail, ReadTail, ConditionSql, ParsedConditions;
    UnnamedColumn();
    assert entries[0] == ("", "x") && entries[1..] == [];
    assert IsIteration(entries, request.columnFilters);
    assert "" in request.columnFilters && !Blank(request.columnFilters[""]);
    assert ColumnOutcomes(entries) == [None] + ColumnOutcomes([]) == [None];
    FallbackReadsIffNamed(request, entries);
    ParsedKeepsNamed(request, entries);
  }

  lemma UnnamedColumn()
    ensures Segments("") == [] && !Blank("x") && Blank("")
  {
    assert Trim("") == "" && Trim("x") == "x";
  }
}
