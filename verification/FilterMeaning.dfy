/**
  What a user's filters and sort select, told from what is typed
  (src-tauri/src/db/query_transform.rs): which of the six operators a filter is, when it
  is a text to look for, and which of the three kinds of filter is in force.
*/
module FilterMeaning {
  import opened Text
  import opened Wrappers
  import opened Quoting
  import opened WhereClause
  import opened QueryTransform
  import opened QueryMeaning

  predicate IsOperator(op: string) {
    op in [">=", "<=", "!=", ">", "<", "="]
  }

  /** The operator of a filter is the longest of the six that starts its text. */
  lemma OperatorIsLongest(text: string, op: string)
    ensures ExtractOperator(text) == Some(op) <==>
            && IsOperator(op) && StartsWith(text, op)
            && forall other :: IsOperator(other) && StartsWith(text, other) ==> |other| <= |op|
  {
    if IsOperator(op) && StartsWith(text, op) {
      SameLength(text, op);
    }
    if ExtractOperator(text).Some? {
      SameLength(text, ExtractOperator(text).value);
    }
  }

  lemma SameLength(text: string, op: string)
    requires StartsWith(text, op)
    ensures forall other :: StartsWith(text, other) && |other| == |op| ==> other == op
  {
  }

  /** It is none exactly when none of the six does. */
  lemma NoOperator(text: string)
    ensures ExtractOperator(text) == None <==> forall op :: IsOperator(op) ==> !StartsWith(text, op)
  {
    if ExtractOperator(text).Some? {
      OperatorIsLongest(text, ExtractOperator(text).value);
    }
  }

  // ----- one column filter -----

  lemma OperatorEdges(op: string)
    requires IsOperator(op)
    ensures op != "" && !IsSpace(op[0]) && !IsSpace(op[|op| - 1])
  {
  }

  lemma TypedTrimmed(op: string, v: string)
    requires IsOperator(op)
    ensures Trim(op + v) == op + TrimEnd(v)
  {
    hide IsSpace, TrimEnd;
    OperatorEdges(op);
    assert TrimStart(op + v) == op + v;
    TrimEndAppend(op, v);
  }

  lemma SecondCharacter(op: string, v: string, other: string)
    requires |op| == 1 && |other| == 2 ==> StartsWith(op + v, other)
    ensures |op| == 1 && |other| == 2 ==> v != "" && other[0] == op[0] && other[1] == v[0]
  {
    if |op| == 1 && |other| == 2 {
      assert (op + v)[..2][0] == op[0] && (op + v)[..2][1] == v[0];
    }
  }

  lemma TypedOperator(op: string, v: string)
    requires IsOperator(op) && (op == ">" || op == "<" ==> v == "" || v[0] != '=')
    ensures ExtractOperator(op + v) == Some(op)
  {
    assert StartsWith(op + v, op) by { StartsWithAppend(op, v); }
    forall other | IsOperator(other) && StartsWith(op + v, other)
      ensures |other| <= |op|
    {
      SecondCharacter(op, v, other);
    }
    OperatorIsLongest(op + v, op);
  }

  /** A filter typed as one of the six operators and an operand, with any white space
      around and between: its text reads as that comparison with the trimmed operand. */
  lemma OperatorFilterReads(column: string, op: string, v: string)
    requires IsOperator(op) && (op == ">" || op == "<" ==> v == "" || v[0] != '=')
    ensures ColumnCondition(column, op + v) == Compare(Segments(column), op, Trim(v))
    ensures Segments(column) != [] ==>
              ReadsAs(ColumnSnippet(column, op + v), Compare(Segments(column), op, Trim(v)))
  {
    hide Segments, Trim, TrimEnd, ExtractOperator, ReadsAs, ColumnSnippet;
    TypedTrimmed(op, v);
    NoNewEquals(op, v);
    TypedOperator(op, TrimEnd(v));
    assert (op + TrimEnd(v))[|op|..] == TrimEnd(v);
    TrimBehind(v);
    if Segments(column) != [] {
      ColumnSnippetReads(column, op + v);
    }
  }

  lemma NoNewEquals(op: string, v: string)
    requires op == ">" || op == "<" ==> v == "" || v[0] != '='
    ensures op == ">" || op == "<" ==> TrimEnd(v) == "" || TrimEnd(v)[0] != '='
  {
  }

  /** Any other filter is looked for as it stands, trimmed, anywhere in the column. */
  lemma TextFilterReads(column: string, value: string)
    requires forall op :: IsOperator(op) ==> !StartsWith(Trim(value), op)
    ensures ColumnCondition(column, value) == ILike(Segments(column), "%" + Trim(value) + "%")
    ensures Segments(column) != [] ==>
              ReadsAs(ColumnSnippet(column, value), ILike(Segments(column), "%" + Trim(value) + "%"))
  {
    hide Segments, Trim, ReadsAs, ColumnSnippet, ExtractOperator;
    NoOperator(Trim(value));
    if Segments(column) != [] {
      ColumnSnippetReads(column, value);
    }
  }

  // ----- the whole request -----

  lemma {:induction false} SomeColumnLike(columns: seq<string>, pattern: string, atom: Expr -> Truth)
    ensures AnyColumnLike(columns, pattern, atom) <==>
            exists i :: 0 <= i < |columns| && atom(ILike(Segments(columns[i]), pattern)) == True
  {
    hide Segments;
    if columns != [] {
      var rest := columns[1..];
      SomeColumnLike(rest, pattern, atom);
      if i :| 0 <= i < |columns| && atom(ILike(Segments(columns[i]), pattern)) == True {
        if i > 0 {
          assert rest[i - 1] == columns[i];
        }
      }
      if i :| 0 <= i < |rest| && atom(ILike(Segments(rest[i]), pattern)) == True {
        assert columns[i + 1] == rest[i];
      }
    }
  }

  /** What a request selects: a null filter alone if there is one; else the rows in
      which some column holds the global filter, if it is not blank and there are
      columns; else the rows that pass every column filter that is not blank. */
  lemma SelectedMeans(request: Request, atom: Expr -> Truth)
    ensures Selected(request, atom) <==>
            if request.nullFilter.Some? then atom(IsNull(Segments(request.nullFilter.value))) == True
            else if Trim(request.globalFilter) != "" && request.columns != [] then
              exists i :: 0 <= i < |request.columns| &&
                atom(ILike(Segments(request.columns[i]), "%" + Trim(request.globalFilter) + "%")) == True
            else
              forall column ::
                column in request.columnFilters && Trim(request.columnFilters[column]) != "" ==>
                  atom(ColumnCondition(column, request.columnFilters[column])) == True
  {
    hide Segments, Trim;
    SomeColumnLike(request.columns, "%" + Trim(request.globalFilter) + "%", atom);
    forall column | column in request.columnFilters
      ensures Eval(ColumnCondition(column, request.columnFilters[column]), atom)
              == atom(ColumnCondition(column, request.columnFilters[column]))
    {
    }
  }

  /** The base query goes through untouched exactly when there is no sort and every row is
      selected, whatever the conditions on it come to. */
  lemma UntouchedIff(request: Request)
    ensures !HasTransform(request) <==> request.sort.None? && forall atom :: Selected(request, atom)
  {
    hide Selected, Segments, Trim, ColumnCondition;
    forall atom: Expr -> Truth | !HasTransform(request)
      ensures Selected(request, atom)
    {
      SelectedMeans(request, atom);
    }
    if HasTransform(request) && request.sort.None? {
      var never: Expr -> Truth := _ => False;
      SelectedMeans(request, never);
      assert !Selected(request, never);
    }
  }

  /** Both paths wrap the base query, the one as it is typed, the other as it is printed. */
  lemma BothWrap<Q>(request: Request, entries: Entries, parse: string -> Option<Q>, print_: Q -> string)
    ensures FallbackText(request, entries) ==
            "SELECT * FROM (" + TrimSqlTerminator(request.baseSql) + ") AS _daitalk_q" + FallbackTail(request, entries)
    ensures parse(request.baseSql).Some? ==>
              WrappedQuery(request.baseSql, parse, print_) ==
              parse("SELECT * FROM (" + print_(parse(request.baseSql).value) + ") AS _daitalk_q")
  {
    hide TrimSqlTerminator, FallbackTail;
  }

  /** The sort is descending for "desc" in any letter case, else ascending. */
  lemma SortIsDescending(direction: string)
    ensures Descending(direction) <==> AsciiUpper(direction) == "DESC"
    ensures SortDirection(direction) == if AsciiUpper(direction) == "DESC" then "DESC" else "ASC"
  {
    UpperAt(direction);
    if Descending(direction) {
      var u := AsciiUpper(direction);
      assert u == [u[0], u[1], u[2], u[3]];
    }
  }

  // ----- the base query -----

  predicate AllSemicolons(s: string) { forall i :: 0 <= i < |s| ==> s[i] == ';' }

  lemma {:induction false} SemicolonsTaken(s: string)
    ensures var r := TrimSemicolons(s);
            |r| <= |s| && r == s[..|r|] && AllSemicolons(s[|r|..]) && (r != "" ==> r[|r| - 1] != ';')
  {
    if s != "" && s[|s| - 1] == ';' {
      var init := s[..|s| - 1];
      SemicolonsTaken(init);
      var r := TrimSemicolons(s);
      assert s[|r|..] == init[|r|..] + [';'];
    }
  }

  /** The base query without white space, semicolons and white space at its end, each
      as far as it goes. */
  lemma TerminatorIs(sql: string) returns (inner: string, semicolons: string, after: string)
    ensures sql == TrimSqlTerminator(sql) + inner + semicolons + after
    ensures AllWhiteSpace(inner) && AllSemicolons(semicolons) && AllWhiteSpace(after)
    ensures TrimSqlTerminator(sql) != "" ==>
              !IsWhiteSpace(TrimSqlTerminator(sql)[|TrimSqlTerminator(sql)| - 1] as int)
    ensures inner == "" && TrimSqlTerminator(sql) != "" ==>
              TrimSqlTerminator(sql)[|TrimSqlTerminator(sql)| - 1] != ';'
  {
    hide TrimEnd, TrimSemicolons, AllSemicolons, AllWhiteSpace, IsWhiteSpace, IsSpace;
    var first := TrimEnd(sql);
    var second := TrimSemicolons(first);
    var third := TrimEnd(second);
    EndTaken(sql);
    SemicolonsTaken(first);
    EndTaken(second);
    after, semicolons, inner := sql[|first|..], first[|second|..], second[|third|..];
    assert sql == first + after && first == second + semicolons && second == third + inner;
    if third != "" {
      SpaceByCode(third[|third| - 1]);
    }
    if inner == "" {
      assert second == third;
    }
  }
}
