/**
  The fragment of SQL the query transform writes behind its wrapper: conditions
  over delimited identifiers, AND / OR chains and an ORDER BY item. The reader
  stands for the part of the SQL parser the transform relies on; `AND` binds
  tighter than `OR` and both associate to the left.
*/
module WhereClause {
  import opened Text
  import opened Quoting
  import opened Wrappers

  datatype Expr =
    | IsNull(path: seq<string>)
    | ILike(path: seq<string>, pattern: string)
    | Compare(path: seq<string>, op: string, operand: string)
    | Nested(inner: Expr)
    | And(left: Expr, right: Expr)
    | Or(left: Expr, right: Expr)

  datatype Order = Order(path: seq<string>, descending: bool)

  /** The operators of `extract_operator`, in the order it tries them. */
  const OPERATORS: seq<string> := [">=", "<=", "!=", ">", "<", "="]

  // ----- reader -----

  function ReadComparison(path: seq<string>, s: string, ops: seq<string>): (r: Option<(Expr, string)>)
    ensures r.Some? ==> |r.value.1| <= |s|
  {
    if ops == [] then None
    else if StartsWith(s, " " + ops[0] + " '") then
      match LexQuoted(s[|ops[0]| + 3..], SQUOTE)
      case None => None
      case Some((v, rest)) => Some((Compare(path, ops[0], v), rest))
    else ReadComparison(path, s, ops[1..])
  }

  function ReadPrimary(s: string): (r: Option<(Expr, string)>)
    ensures r.Some? ==> |r.value.1| < |s|
    decreases |s|, 0
  {
    if StartsWith(s, "(") then
      match ReadOr(s[1..])
      case None => None
      case Some((e, rest)) => if StartsWith(rest, ")") then Some((Nested(e), rest[1..])) else None
    else if StartsWith(s, "CAST(") then
      match LexChain(s[5..])
      case None => None
      case Some((path, rest)) =>
        if !StartsWith(rest, " AS TEXT) ILIKE '") then None
        else match LexQuoted(rest[17..], SQUOTE)
          case None => None
          case Some((pattern, rest')) => Some((ILike(path, pattern), rest'))
    else
      match LexChain(s)
      case None => None
      case Some((path, rest)) =>
        if StartsWith(rest, " IS NULL") then Some((IsNull(path), rest[8..]))
        else ReadComparison(path, rest, OPERATORS)
  }

  function ReadAnd(s: string): (r: Option<(Expr, string)>)
    ensures r.Some? ==> |r.value.1| < |s|
    decreases |s|, 1
  {
    match ReadPrimary(s)
    case None => None
    case Some((e, rest)) => ReadAndTail(e, rest)
  }

  function ReadAndTail(left: Expr, s: string): (r: Option<(Expr, string)>)
    ensures r.Some? ==> |r.value.1| <= |s|
    decreases |s|, 0
  {
    if !StartsWith(s, " AND ") then Some((left, s))
    else match ReadPrimary(s[5..])
      case None => None
      case Some((e, rest)) => ReadAndTail(And(left, e), rest)
  }

  function ReadOr(s: string): (r: Option<(Expr, string)>)
    ensures r.Some? ==> |r.value.1| < |s|
    decreases |s|, 2
  {
    match ReadAnd(s)
    case None => None
    case Some((e, rest)) => ReadOrTail(e, rest)
  }

  function ReadOrTail(left: Expr, s: string): (r: Option<(Expr, string)>)
    ensures r.Some? ==> |r.value.1| <= |s|
    decreases |s|, 0
  {
    if !StartsWith(s, " OR ") then Some((left, s))
    else match ReadAnd(s[4..])
      case None => None
      case Some((e, rest)) => ReadOrTail(Or(left, e), rest)
  }

  /** `parse_where_expr`: one expression and nothing behind it. */
  function ParseWhere(s: string): Option<Expr> {
    match ReadOr(s)
    case None => None
    case Some((e, rest)) => if rest == "" then Some(e) else None
  }

  /** One column and its direction. A direction alone is read as a column of that
      name, ascending: the parser reserves no keyword where an expression is due. */
  function ReadOrder(s: string): Option<Order> {
    if s == " DESC" || s == " ASC" then Some(Order([s[1..]], false))
    else match LexChain(s)
    case None => None
    case Some((path, rest)) =>
      if rest == " " + "DESC" then Some(Order(path, true))
      else if rest == " " + "ASC" then Some(Order(path, false))
      else None
  }

  /** Reads what follows the wrapped base query: an optional WHERE clause, then
      an optional ORDER BY item, then the end of the text. */
  function ReadTail(s: string): Option<(Option<Expr>, Option<Order>)> {
    if StartsWith(s, " WHERE ") then
      match ReadOr(s[7..])
      case None => None
      case Some((e, rest)) => ReadOrderTail(Some(e), rest)
    else ReadOrderTail(None, s)
  }

  function ReadOrderTail(where: Option<Expr>, s: string): Option<(Option<Expr>, Option<Order>)> {
    if s == "" then Some((where, None))
    else if !StartsWith(s, " ORDER BY ") then None
    else match ReadOrder(s[10..])
      case None => None
      case Some(order) => Some((where, Some(order)))
  }

  // ----- printed conditions -----

  function NullText(path: seq<string>): string {
    Join(DelimitAll(path), ".") + " IS NULL"
  }

  function ILikeText(path: seq<string>, pattern: string): string {
    "CAST(" + Join(DelimitAll(path), ".") + " AS TEXT) ILIKE '" + EscapeStringLiteral(pattern) + "'"
  }

  function CompareText(path: seq<string>, op: string, operand: string): string {
    Join(DelimitAll(path), ".") + " " + op + " '" + EscapeStringLiteral(operand) + "'"
  }

  /** What may follow a condition: the end, a space or a closing parenthesis. */
  predicate Boundary(rest: string) {
    rest == "" || rest[0] == ' ' || rest[0] == ')'
  }

  /** `text` is read as the condition `e` and nothing more, whatever follows. */
  ghost predicate ReadsAs(text: string, e: Expr) {
    forall rest :: ReadsBefore(text, e, rest)
  }

  ghost predicate ReadsBefore(text: string, e: Expr, rest: string) {
    Boundary(rest) ==> ReadPrimary(text + rest) == Some((e, rest))
  }

  lemma Assoc5(a: string, b: string, c: string, d: string, e: string)
    ensures a + b + c + d + e == a + (b + (c + (d + e)))
  {
  }

  lemma ChainStart(path: seq<string>, tail: string)
    requires path != []
    ensures Join(DelimitAll(path), ".") + tail != "" && (Join(DelimitAll(path), ".") + tail)[0] == DQUOTE
  {
  }

  lemma NullReads(path: seq<string>)
    requires path != []
    ensures ReadsAs(NullText(path), IsNull(path))
  {
    forall rest | Boundary(rest) ensures ReadsBefore(NullText(path), IsNull(path), rest) {
      Assoc(Join(DelimitAll(path), "."), " IS NULL", rest);
      ChainStart(path, " IS NULL" + rest);
      LexChainPrinted(path, " IS NULL" + rest);
      StartsWithAppend(" IS NULL", rest);
    }
  }

  lemma LiteralReads(head: string, value: string, rest: string)
    requires Boundary(rest)
    ensures StartsWith(head + (EscapeStringLiteral(value) + ("'" + rest)), head)
    ensures LexQuoted((head + (EscapeStringLiteral(value) + ("'" + rest)))[|head|..], SQUOTE) == Some((value, rest))
  {
    StartsWithAppend(head, EscapeStringLiteral(value) + ("'" + rest));
    Assoc(EscapeStringLiteral(value), "'", rest);
    EscapedLiteralLexes(value, rest);
  }

  lemma ILikeReads(path: seq<string>, pattern: string)
    requires path != []
    ensures ReadsAs(ILikeText(path, pattern), ILike(path, pattern))
  {
    forall rest | Boundary(rest) ensures ReadsBefore(ILikeText(path, pattern), ILike(path, pattern), rest) {
      var chain := Join(DelimitAll(path), ".");
      var head := " AS TEXT) ILIKE '";
      var tail := head + (EscapeStringLiteral(pattern) + ("'" + rest));
      var s := ILikeText(path, pattern) + rest;
      assert s == "CAST(" + (chain + tail) by {
        Assoc("CAST(" + chain + head + EscapeStringLiteral(pattern), "'", rest);
        Assoc5("CAST(", chain, head, EscapeStringLiteral(pattern), "'" + rest);
      }
      StartsWithAppend("CAST(", chain + tail);
      assert tail[0] == ' ';
      LexChainPrinted(path, tail);
      LiteralReads(head, pattern, rest);
      assert s[0] == 'C';
    }
  }

  predicate OperatorText(op: string) {
    (|op| == 1 || |op| == 2) && forall i :: 0 <= i < |op| ==> op[i] != ' '
  }

  lemma OtherOperator(op: string, other: string, tail: string)
    requires OperatorText(op) && OperatorText(other) && op != other
    ensures !StartsWith(" " + op + " '" + tail, " " + other + " '")
  {
    var s, p := " " + op + " '" + tail, " " + other + " '";
    if |op| == |other| {
      var i :| 0 <= i < |op| && op[i] != other[i];
      assert s[i + 1] == op[i] && p[i + 1] == other[i];
      Differs(s, p, i + 1);
    } else if |op| < |other| {
      assert s[2] == ' ' && p[2] == other[1];
      Differs(s, p, 2);
    } else {
      assert s[2] == op[1] && p[2] == ' ';
      Differs(s, p, 2);
    }
  }

  lemma {:induction false} ComparisonReads(path: seq<string>, op: string, operand: string, rest: string,
                                           ops: seq<string>)
    requires op in ops && forall o :: o in ops ==> OperatorText(o)
    requires Boundary(rest)
    ensures var tail := (" " + op + " '") + (EscapeStringLiteral(operand) + ("'" + rest));
            ReadComparison(path, tail, ops) == Some((Compare(path, op, operand), rest))
  {
    if op == ops[0] {
      LiteralReads(" " + op + " '", operand, rest);
      assert |" " + op + " '"| == |op| + 3;
    } else {
      assert ops[0] in ops && op in ops[1..];
      OtherOperator(op, ops[0], EscapeStringLiteral(operand) + ("'" + rest));
      ComparisonReads(path, op, operand, rest, ops[1..]);
    }
  }

  lemma CompareTextSplit(chain: string, op: string, escaped: string, rest: string)
    ensures chain + " " + op + " '" + escaped + "'" + rest == chain + ((" " + op + " '") + (escaped + ("'" + rest)))
  {
    Assoc5(chain, " " + op + " '", escaped, "'", rest);
    assert chain + " " + op + " '" == chain + (" " + op + " '");
  }

  lemma OperatorsAreText()
    ensures forall o :: o in OPERATORS ==> OperatorText(o) && o[0] != 'I'
  {
  }

  lemma CompareReadsBefore(path: seq<string>, op: string, operand: string, rest: string)
    requires path != [] && OperatorText(op) && op[0] != 'I' && op in OPERATORS
    requires Boundary(rest)
    ensures ReadPrimary(CompareText(path, op, operand) + rest) == Some((Compare(path, op, operand), rest))
  {
    var chain := Join(DelimitAll(path), ".");
    var tail := (" " + op + " '") + (EscapeStringLiteral(operand) + ("'" + rest));
    CompareTextSplit(chain, op, EscapeStringLiteral(operand), rest);
    ChainStart(path, tail);
    assert tail[0] == ' ' && tail[1] == op[0];
    LexChainPrinted(path, tail);
    Differs(tail, " IS NULL", 1);
    OperatorsAreText();
    ComparisonReads(path, op, operand, rest, OPERATORS);
    Differs(chain + tail, "(", 0);
    Differs(chain + tail, "CAST(", 0);
  }

  lemma CompareReads(path: seq<string>, op: string, operand: string)
    requires path != [] && op in OPERATORS
    ensures ReadsAs(CompareText(path, op, operand), Compare(path, op, operand))
  {
    OperatorsAreText();
    forall rest | Boundary(rest) ensures ReadsBefore(CompareText(path, op, operand), Compare(path, op, operand), rest) {
      CompareReadsBefore(path, op, operand, rest);
    }
  }

  // ----- chains of conditions -----

  /** `combine_with_and`: a left fold. */
  function AndFold(first: Expr, rest: seq<Expr>): Expr
    decreases |rest|
  {
    if rest == [] then first else AndFold(And(first, rest[0]), rest[1..])
  }

  function OrFold(first: Expr, rest: seq<Expr>): Expr
    decreases |rest|
  {
    if rest == [] then first else OrFold(Or(first, rest[0]), rest[1..])
  }

  ghost predicate AllRead(texts: seq<string>, es: seq<Expr>) {
    |texts| == |es| && forall i :: 0 <= i < |es| ==> ReadsAs(texts[i], es[i])
  }

  /** The rest of a chain, each text behind its separator. */
  function Chained(texts: seq<string>, sep: string, rest: string): string {
    if texts == [] then rest else sep + (texts[0] + Chained(texts[1..], sep, rest))
  }

  lemma {:induction false} JoinChained(texts: seq<string>, sep: string, rest: string)
    requires texts != []
    ensures Join(texts, sep) + rest == texts[0] + Chained(texts[1..], sep, rest)
  {
    if |texts| > 1 {
      JoinChained(texts[1..], sep, rest);
      Assoc(texts[0] + sep, Join(texts[1..], sep), rest);
      Assoc(texts[0], sep, Join(texts[1..], sep) + rest);
    }
  }

  lemma ChainedBoundary(texts: seq<string>, sep: string, rest: string)
    requires sep == " AND " || sep == " OR "
    requires Boundary(rest)
    ensures Boundary(Chained(texts, sep, rest))
  {
  }

  lemma {:induction false} AndChainReads(first: Expr, texts: seq<string>, es: seq<Expr>, rest: string)
    requires AllRead(texts, es)
    requires Boundary(rest) && !StartsWith(rest, " AND ")
    ensures ReadAndTail(first, Chained(texts, " AND ", rest)) == Some((AndFold(first, es), rest))
    decreases |es|
  {
    if es != [] {
      var tail := Chained(texts[1..], " AND ", rest);
      ChainedBoundary(texts[1..], " AND ", rest);
      StartsWithAppend(" AND ", texts[0] + tail);
      assert ReadsAs(texts[0], es[0]) && ReadsBefore(texts[0], es[0], tail);
      AndChainReads(And(first, es[0]), texts[1..], es[1..], rest);
    }
  }

  lemma {:induction false} OrChainReads(first: Expr, texts: seq<string>, es: seq<Expr>, rest: string)
    requires AllRead(texts, es)
    requires Boundary(rest) && !StartsWith(rest, " AND ") && !StartsWith(rest, " OR ")
    ensures ReadOrTail(first, Chained(texts, " OR ", rest)) == Some((OrFold(first, es), rest))
    decreases |es|
  {
    if es != [] {
      var tail := Chained(texts[1..], " OR ", rest);
      ChainedBoundary(texts[1..], " OR ", rest);
      StartsWithAppend(" OR ", texts[0] + tail);
      assert ReadsAs(texts[0], es[0]) && ReadsBefore(texts[0], es[0], tail);
      NotAnd(texts[1..], rest);
      assert ReadAnd(texts[0] + tail) == ReadAndTail(es[0], tail) == Some((es[0], tail));
      OrChainReads(Or(first, es[0]), texts[1..], es[1..], rest);
    }
  }

  lemma NotAnd(texts: seq<string>, rest: string)
    requires !StartsWith(rest, " AND ")
    ensures !StartsWith(Chained(texts, " OR ", rest), " AND ")
  {
    var s := Chained(texts, " OR ", rest);
    if texts != [] {
      assert s[1] == 'O';
      Differs(s, " AND ", 1);
    }
  }

  /** Conditions joined by AND read as their left fold. */
  lemma AndJoinReads(texts: seq<string>, es: seq<Expr>, rest: string)
    requires es != [] && AllRead(texts, es)
    requires Boundary(rest) && !StartsWith(rest, " AND ") && !StartsWith(rest, " OR ")
    ensures ReadOr(Join(texts, " AND ") + rest) == Some((AndFold(es[0], es[1..]), rest))
  {
    JoinChained(texts, " AND ", rest);
    ChainedBoundary(texts[1..], " AND ", rest);
    assert ReadsAs(texts[0], es[0]) && ReadsBefore(texts[0], es[0], Chained(texts[1..], " AND ", rest));
    AndChainReads(es[0], texts[1..], es[1..], rest);
  }

  lemma OrJoinReads(texts: seq<string>, es: seq<Expr>, rest: string)
    requires es != [] && AllRead(texts, es)
    requires Boundary(rest) && !StartsWith(rest, " AND ") && !StartsWith(rest, " OR ")
    ensures ReadOr(Join(texts, " OR ") + rest) == Some((OrFold(es[0], es[1..]), rest))
  {
    JoinChained(texts, " OR ", rest);
    ChainedBoundary(texts[1..], " OR ", rest);
    assert ReadsAs(texts[0], es[0]) && ReadsBefore(texts[0], es[0], Chained(texts[1..], " OR ", rest));
    NotAnd(texts[1..], rest);
    var tail := Chained(texts[1..], " OR ", rest);
    assert ReadAnd(texts[0] + tail) == ReadAndTail(es[0], tail) == Some((es[0], tail));
    OrChainReads(es[0], texts[1..], es[1..], rest);
  }

  /** A parenthesized OR chain is one condition. */
  lemma OrGroupReads(texts: seq<string>, es: seq<Expr>)
    requires es != [] && AllRead(texts, es)
    ensures ReadsAs("(" + Join(texts, " OR ") + ")", Nested(OrFold(es[0], es[1..])))
  {
    forall rest | Boundary(rest)
      ensures ReadsBefore("(" + Join(texts, " OR ") + ")", Nested(OrFold(es[0], es[1..])), rest)
    {
      var inner, close := Join(texts, " OR "), ")" + rest;
      Differs(close, " AND ", 0);
      Differs(close, " OR ", 0);
      OrJoinReads(texts, es, close);
      StartsWithAppend(")", rest);
      Parenthesized(inner, rest);
    }
  }

  lemma Parenthesized(inner: string, rest: string)
    ensures var s := "(" + inner + ")" + rest; StartsWith(s, "(") && s[1..] == inner + (")" + rest)
  {
    var s := "(" + inner + ")" + rest;
    assert s == "(" + (inner + (")" + rest));
    StartsWithAppend("(", inner + (")" + rest));
  }
}
