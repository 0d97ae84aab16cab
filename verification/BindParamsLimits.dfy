/**
  Where sequential replacement and simultaneous substitution part: for each
  hypothesis of `BindParams.SequentialIsSimultaneous` a text and values that
  violate only that one, and on which the dialog's result is not the simultaneous
  substitution.
*/
module BindParamsLimits {
  import opened Text
  import opened BindParams
  import opened BindParamsExact
  import opened BindParamsValues

  lemma DollarReplacement(lit: Placeholder -> string)
    requires lit(":a") == "'$'"
    ensures SubstituteAll(":a!", lit) == "'$'!"
    ensures ReplaceEach(":a!", [":a"], lit) == "'!!"
  {
    var s := ":a!";
    assert s[2..] == "!" && s[..2] == ":a" && s[1..] == "a!" && s[..0] == "" && s[0..] == s;
    assert RunLength(':', "a!") == 1;
    assert Lex("!") == [Plain('!')];
    assert Lex(s) == [Token(":a")] + Lex("!") == [Token(":a"), Plain('!')];
    RenderAll([Token(":a"), Plain('!')], lit);
    assert [":a"][..0] == [];
    assert ReplaceEach(s, [":a"], lit) == ReplaceFrom(s, 0, ":a", "'$'");
    assert StartsWith(s, ":a");
    assert Expand("'$'", ":a", "", "!") == "'" + Expand("$'", ":a", "", "!");
    assert Expand("$'", ":a", "", "!") == "!" + Expand("", ":a", "", "!");
    assert ReplaceFrom(s, 2, ":a", "'$'") == "!" + ReplaceFrom(s, 3, ":a", "'$'");
  }

  lemma {:induction false} RenderFull(ps: seq<Piece>, done: set<Placeholder>, lit: Placeholder -> string)
    requires Placeholders(ps) <= done
    ensures Render(ps, done, lit) == RenderEvery(ps, lit)
  {
    if ps != [] {
      assert forall i :: 0 <= i < |ps[1..]| ==> ps[1..][i] == ps[i + 1];
      if ps[0].Token? { assert ps[0].text in Placeholders(ps); }
      RenderFull(ps[1..], done, lit);
    }
  }

  function RenderEvery(ps: seq<Piece>, lit: Placeholder -> string): string {
    if ps == [] then ""
    else (match ps[0] case Plain(c) => [c] case Token(t) => lit(t)) + RenderEvery(ps[1..], lit)
  }

  lemma EveryCons(p: Piece, ps: seq<Piece>, lit: Placeholder -> string)
    ensures RenderEvery([p] + ps, lit) == (match p case Plain(c) => [c] case Token(t) => lit(t)) + RenderEvery(ps, lit)
  {
    assert ([p] + ps)[1..] == ps;
  }

  lemma EveryTwo(p: Piece, q: Piece, lit: Placeholder -> string)
    ensures RenderEvery([p, q], lit) ==
            (match p case Plain(c) => [c] case Token(t) => lit(t))
                + (match q case Plain(c) => [c] case Token(t) => lit(t))
  {
    assert [p, q] == [p] + [q] && [q] == [q] + [];
    EveryCons(p, [q], lit);
    EveryCons(q, [], lit);
  }

  lemma RenderAll(ps: seq<Piece>, lit: Placeholder -> string)
    ensures Render(ps, Placeholders(ps), lit) == RenderEvery(ps, lit)
  {
    RenderFull(ps, Placeholders(ps), lit);
  }

  lemma ReplaceTwo(sql: string, p: Placeholder, q: Placeholder, lit: Placeholder -> string)
    requires '$' !in lit(p) && '$' !in lit(q)
    ensures ReplaceEach(sql, [p, q], lit) == Replace(Replace(sql, p, lit(p)), q, lit(q))
  {
    assert [p, q] == [p] + [q] && [p] == [] + [p];
    ReplaceEachSnoc(sql, [], p, lit);
    ReplaceEachSnoc(sql, [p], q, lit);
    assert sql[0..] == sql;
    ReplaceFromSuffix(sql, 0, p, lit(p));
    var t := Replace(sql, p, lit(p));
    assert t[0..] == t;
    ReplaceFromSuffix(t, 0, q, lit(q));
  }

  lemma {:induction false} RunOfToken(sigil: char, run: string, rest: string)
    requires forall i :: 0 <= i < |run| ==> Continues(sigil, run[i])
    requires rest == "" || !Continues(sigil, rest[0])
    ensures RunLength(sigil, run + rest) == |run|
  {
    if run == "" {
      assert run + rest == rest;
    } else {
      assert (run + rest)[1..] == run[1..] + rest;
      RunOfToken(sigil, run[1..], rest);
    }
  }

  lemma MatchToken(t: Placeholder, rest: string)
    requires rest == "" || !Continues(t[0], rest[0])
    ensures t + rest != "" && (t + rest)[0] == t[0] && MatchLength(t[0], t + rest) == |t|
  {
    RunOfToken(t[0], t[1..], rest);
    assert (t + rest)[1..] == t[1..] + rest;
    assert (t + rest)[1] == t[1];
  }

  lemma LexToken(t: Placeholder, rest: string)
    requires rest == "" || !Continues(t[0], rest[0])
    ensures Lex(t + rest) == [Token(t)] + Lex(rest)
  {
    MatchToken(t, rest);
    StartsWithAppend(t, rest);
  }

  lemma LexPlain(c: char, rest: string)
    requires rest == "" || !Starts(c, rest[0])
    ensures Lex([c] + rest) == [Plain(c)] + Lex(rest)
  {
    assert ([c] + rest)[1..] == rest;
  }

  // ----- the order of replacement -----

  /** The longest placeholder comes first. */
  lemma Longest(sorted: seq<Placeholder>, a: Placeholder, others: set<Placeholder>)
    requires LongestFirst(sorted) && Distinct(sorted) && Names(sorted) == {a} + others
    requires a !in others && forall t :: t in others ==> |a| > |t|
    ensures sorted != [] && sorted[0] == a && Names(sorted[1..]) == others
    ensures LongestFirst(sorted[1..]) && Distinct(sorted[1..])
  {
    assert a in Names(sorted);
    var k :| 0 <= k < |sorted| && sorted[k] == a;
    assert sorted[0] in Names(sorted);
    var rest := sorted[1..];
    forall p
      ensures p in Names(rest) <==> p in others
    {
      if p in Names(rest) {
        var i :| 0 <= i < |rest| && rest[i] == p;
        assert sorted[i + 1] == p && p in Names(sorted);
      }
      if p in others {
        assert p in Names(sorted);
        var i :| 0 <= i < |sorted| && sorted[i] == p;
        assert rest[i - 1] == p;
      }
    }
  }

  lemma FirstIsNamed(sorted: seq<Placeholder>)
    ensures sorted == [] || sorted[0] in Names(sorted)
  {
  }

  lemma OrderOfNone(sorted: seq<Placeholder>)
    requires Names(sorted) == {}
    ensures sorted == []
  {
    hide Names;
    FirstIsNamed(sorted);
  }

  lemma OrderOfOne(sorted: seq<Placeholder>, a: Placeholder)
    requires LongestFirst(sorted) && Distinct(sorted) && Names(sorted) == {a}
    ensures sorted == [a]
  {
    hide LongestFirst, Distinct, Names, IsPlaceholder;
    Longest(sorted, a, {});
    OrderOfNone(sorted[1..]);
    assert sorted == [sorted[0]] + sorted[1..];
  }

  lemma OrderOfTwo(sorted: seq<Placeholder>, a: Placeholder, b: Placeholder)
    requires LongestFirst(sorted) && Distinct(sorted) && Names(sorted) == {a, b} && |a| > |b|
    ensures sorted == [a, b]
  {
    hide LongestFirst, Distinct, Names, IsPlaceholder;
    Longest(sorted, a, {b});
    OrderOfOne(sorted[1..], b);
    assert sorted == [sorted[0]] + sorted[1..];
  }

  lemma OrderOfThree(sorted: seq<Placeholder>, a: Placeholder, b: Placeholder, c: Placeholder)
    requires LongestFirst(sorted) && Distinct(sorted) && Names(sorted) == {a, b, c} && |a| > |b| > |c|
    ensures sorted == [a, b, c]
  {
    hide LongestFirst, Distinct, Names, IsPlaceholder;
    Longest(sorted, a, {b, c});
    OrderOfTwo(sorted[1..], b, c);
    assert sorted == [sorted[0]] + sorted[1..];
  }

  /** A name without leading zeros is reported as it stands. */
  lemma Reported(ps: set<Placeholder>)
    requires forall t :: t in ps ==> NoLeadingZero(t)
    ensures CanonicalOf(ps) == ps
  {
    AllCanonical(ps);
  }

  lemma TokensOf(ps: seq<Piece>, a: Placeholder, b: Placeholder)
    requires forall i :: 0 <= i < |ps| && ps[i].Token? ==> ps[i].text == a || ps[i].text == b
    requires Token(a) in ps && Token(b) in ps
    ensures Placeholders(ps) == {a, b}
  {
    var i :| 0 <= i < |ps| && ps[i] == Token(a);
    var j :| 0 <= j < |ps| && ps[j] == Token(b);
    assert ps[i].text in Placeholders(ps) && ps[j].text in Placeholders(ps);
  }

  // ----- five texts -----

  /** A literal with `$` before its closing quote pulls in the text behind the
      placeholder. */
  lemma LiteralWithDollar(values: map<string, string>)
    requires values == map["a" := "$"]
    ensures ReplaceEach(":a!", ReplacementOrder(":a!"), Literals(values)) == "'!!"
    ensures SubstituteAll(":a!", Literals(values)) == "'$'!" != "'!!"
  {
    hide *;
    DollarValues(values);
    DollarReplacement(Literals(values));
    DollarOrder();
  }

  lemma DollarValues(values: map<string, string>)
    requires values == map["a" := "$"]
    ensures Literals(values)(":a") == "'$'"
  {
    hide Literal;
    QuotedLiteral("$");
    DoubleNothing("$", '\'');
    assert Quoted("$") == "'" + "$" + "'" == "'$'";
    assert ":a"[1..] == "a";
  }

  lemma DollarOrder()
    ensures ReplacementOrder(":a!") == [":a"]
  {
    hide ReplacementOrder, Lex, Canonical;
    LexDollar();
    OrderFacts(":a!");
    TokensOf([Token(":a"), Plain('!')], ":a", ":a");
    Reported({":a"});
    OrderOfOne(ReplacementOrder(":a!"), ":a");
  }

  lemma LexDollar()
    ensures Lex(":a!") == [Token(":a"), Plain('!')]
  {
    LexPlain('!', "");
    assert "!" == ['!'] + "";
    LexToken(":a", "!");
    assert ":a!" == ":a" + "!";
  }

  lemma LexNested(last: string)
    requires last == ":b" + ""
    ensures Lex(":ab" + ("," + last)) == [Token(":ab"), Plain(','), Token(":b")]
  {
    LexToken(":b", "");
    LexPlain(',', last);
    LexToken(":ab", "," + last);
  }

  lemma NestedReplacement(sql: string, last: string, lit: Placeholder -> string)
    requires lit(":ab") == "':b'" && lit(":b") == "1"
    requires last == ":b" + "" && sql == ":ab" + ("," + last)
    ensures ReplaceEach(sql, [":ab", ":b"], lit) == "'1',1"
  {
    hide Replace, ReplaceEach, StartsWith;
    ReplaceTwo(sql, ":ab", ":b", lit);
    NestedStage(last);
    assert "':b'" + ("," + last) == "'" + (":b" + ("'," + last));
    NestedNextStage(last);
  }

  lemma NestedStage(last: string)
    requires last == ":b" + ""
    ensures Replace(":ab" + ("," + last), ":ab", "':b'") == "':b'" + ("," + last)
  {
    ReplaceAtMatch(":ab", "," + last, "':b'");
    PassThrough(",", last, ":ab", "':b'");
    Differs(last, ":ab", 1);
    ReplaceAtOther(":b", "", ":ab", "':b'");
  }

  lemma NestedNextStage(last: string)
    requires last == ":b" + ""
    ensures Replace("'" + (":b" + ("'," + last)), ":b", "1") == "'1',1"
  {
    hide StartsWith;
    PassThrough("'", ":b" + ("'," + last), ":b", "1");
    ReplaceAtMatch(":b", "'," + last, "1");
    PassThrough("',", last, ":b", "1");
    ReplaceAtMatch(":b", "", "1");
  }

  lemma NestedSimultaneous(sql: string, last: string, lit: Placeholder -> string)
    requires lit(":ab") == "':b'" && lit(":b") == "1"
    requires last == ":b" + "" && sql == ":ab" + ("," + last)
    ensures SubstituteAll(sql, lit) == "':b',1"
  {
    hide Lex;
    LexNested(last);
    RenderAll(Lex(sql), lit);
    EveryTwo(Plain(','), Token(":b"), lit);
    EveryCons(Token(":ab"), [Plain(','), Token(":b")], lit);
  }

  /** The literal a placeholder stands for is that of the value under its name. */
  lemma LiteralUnder(values: map<string, string>, t: Placeholder, key: string)
    requires t[1..] == key && key in values
    ensures Literals(values)(t) == Literal(values[key])
  {
    hide Literal;
  }

  lemma NestedText()
    ensures Literal(":b") == "':b'"
  {
    hide Literal;
    QuotedLiteral(":b");
    DoubleNothing(":b", '\'');
    assert Quoted(":b") == "'" + ":b" + "'" == "':b'";
  }

  lemma NestedValue(values: map<string, string>)
    requires "ab" in values && values["ab"] == ":b"
    ensures Literals(values)(":ab") == "':b'"
  {
    hide Literal;
    NestedText();
    assert ":ab"[1..] == "ab";
    LiteralUnder(values, ":ab", "ab");
  }

  lemma DigitsUnder(values: map<string, string>, t: Placeholder, key: string, digit: char)
    requires t[1..] == key && key in values && values[key] == [digit] && '0' <= digit <= '9'
    ensures Literals(values)(t) == [digit]
  {
    hide Literal;
    DigitsLiteral([digit]);
    LiteralUnder(values, t, key);
  }

  lemma NestedOther(values: map<string, string>)
    requires "b" in values && values["b"] == "1"
    ensures Literals(values)(":b") == "1"
  {
    assert ":b"[1..] == "b";
    DigitsUnder(values, ":b", "b", '1');
  }

  lemma NestedOrder(sql: string)
    requires sql == ":ab" + ("," + (":b" + ""))
    ensures ReplacementOrder(sql) == [":ab", ":b"]
  {
    hide ReplacementOrder, Lex, Canonical;
    LexNested(":b" + "");
    OrderFacts(sql);
    TokensOf([Token(":ab"), Plain(','), Token(":b")], ":ab", ":b");
    Reported({":ab", ":b"});
    OrderOfTwo(ReplacementOrder(sql), ":ab", ":b");
  }

  /** A literal that contains a shorter placeholder is substituted into. */
  lemma LiteralWithPlaceholder(sql: string, values: map<string, string>)
    requires sql == ":ab" + ("," + (":b" + "")) && values == map["ab" := ":b", "b" := "1"]
    ensures ReplaceEach(sql, ReplacementOrder(sql), Literals(values)) == "'1',1"
    ensures SubstituteAll(sql, Literals(values)) == "':b',1" != "'1',1"
  {
    hide *;
    NestedValue(values);
    NestedOther(values);
    NestedReplacement(sql, ":b" + "", Literals(values));
    NestedSimultaneous(sql, ":b" + "", Literals(values));
    NestedOrder(sql);
  }

  lemma LexJoinedTail(last: string)
    requires last == "$5" + ""
    ensures Lex(":ab" + ("," + last)) == [Token(":ab"), Plain(','), Token("$5")]
  {
    LexToken("$5", "");
    LexPlain(',', last);
    LexToken(":ab", "," + last);
  }

  lemma LexJoined(last: string)
    requires last == "$5" + ""
    ensures Lex("$" + (":ab" + ("," + last))) == [Plain('$'), Token(":ab"), Plain(','), Token("$5")]
  {
    LexJoinedTail(last);
    LexPlain('$', ":ab" + ("," + last));
  }

  lemma JoinedReplacement(sql: string, last: string, lit: Placeholder -> string)
    requires lit(":ab") == "5" && lit("$5") == "7"
    requires last == "$5" + "" && sql == "$" + (":ab" + ("," + last))
    ensures ReplaceEach(sql, [":ab", "$5"], lit) == "7,7"
  {
    ReplaceTwo(sql, ":ab", "$5", lit);
    Differs(sql, ":ab", 0);
    ReplaceAtPlain('$', ":ab" + ("," + last), ":ab", "5");
    ReplaceAtMatch(":ab", "," + last, "5");
    PassThrough(",", last, ":ab", "5");
    Differs(last, ":ab", 0);
    ReplaceAtOther("$5", "", ":ab", "5");
    assert "$" + ("5" + ("," + last)) == "$5" + ("," + last);
    ReplaceAtMatch("$5", "," + last, "7");
    PassThrough(",", last, "$5", "7");
    ReplaceAtMatch("$5", "", "7");
  }

  lemma JoinedSimultaneous(sql: string, last: string, lit: Placeholder -> string)
    requires lit(":ab") == "5" && lit("$5") == "7"
    requires last == "$5" + "" && sql == "$" + (":ab" + ("," + last))
    ensures SubstituteAll(sql, lit) == "$5,7"
  {
    hide Lex;
    LexJoined(last);
    RenderAll(Lex(sql), lit);
    EveryTwo(Plain(','), Token("$5"), lit);
    EveryCons(Token(":ab"), [Plain(','), Token("$5")], lit);
    EveryCons(Plain('$'), [Token(":ab"), Plain(','), Token("$5")], lit);
  }

  lemma JoinedFirst(values: map<string, string>)
    requires "ab" in values && values["ab"] == "5"
    ensures Literals(values)(":ab") == "5"
  {
    assert ":ab"[1..] == "ab";
    DigitsUnder(values, ":ab", "ab", '5');
  }

  lemma JoinedSecond(values: map<string, string>)
    requires "5" in values && values["5"] == "7"
    ensures Literals(values)("$5") == "7"
  {
    assert "$5"[1..] == "5";
    DigitsUnder(values, "$5", "5", '7');
  }

  lemma JoinedOrder(sql: string)
    requires sql == "$" + (":ab" + ("," + ("$5" + "")))
    ensures ReplacementOrder(sql) == [":ab", "$5"]
  {
    hide ReplacementOrder, Lex, Canonical;
    LexJoined("$5" + "");
    OrderFacts(sql);
    TokensOf([Plain('$'), Token(":ab"), Plain(','), Token("$5")], ":ab", "$5");
    Reported({":ab", "$5"});
    OrderOfTwo(ReplacementOrder(sql), ":ab", "$5");
  }

  /** A lone sigil in front of a placeholder joins up with its literal. */
  lemma SigilInFront(sql: string, values: map<string, string>)
    requires sql == "$" + (":ab" + ("," + ("$5" + ""))) && values == map["ab" := "5", "5" := "7"]
    ensures ReplaceEach(sql, ReplacementOrder(sql), Literals(values)) == "7,7"
    ensures SubstituteAll(sql, Literals(values)) == "$5,7" != "7,7"
  {
    hide *;
    JoinedFirst(values);
    JoinedSecond(values);
    JoinedReplacement(sql, "$5" + "", Literals(values));
    JoinedSimultaneous(sql, "$5" + "", Literals(values));
    JoinedOrder(sql);
  }

  lemma LexAdjacentTail(last: string)
    requires last == ":a5" + ""
    ensures Lex("$123" + ("," + last)) == [Token("$123"), Plain(','), Token(":a5")]
  {
    LexToken(":a5", "");
    LexPlain(',', last);
    LexToken("$123", "," + last);
  }

  lemma LexAdjacent(last: string)
    requires last == ":a5" + ""
    ensures Lex(":a" + ("$123" + ("," + last))) == [Token(":a"), Token("$123"), Plain(','), Token(":a5")]
  {
    hide Lex;
    LexAdjacentTail(last);
    LexToken(":a", "$123" + ("," + last));
  }

  lemma ReplaceThree(sql: string, p: Placeholder, q: Placeholder, r: Placeholder, lit: Placeholder -> string)
    requires '$' !in lit(p) && '$' !in lit(q) && '$' !in lit(r)
    ensures ReplaceEach(sql, [p, q, r], lit) == Replace(Replace(Replace(sql, p, lit(p)), q, lit(q)), r, lit(r))
  {
    assert [p, q, r] == [p, q] + [r];
    ReplaceTwo(sql, p, q, lit);
    ReplaceEachSnoc(sql, [p, q], r, lit);
    var t := Replace(Replace(sql, p, lit(p)), q, lit(q));
    assert t[0..] == t;
    ReplaceFromSuffix(t, 0, r, lit(r));
  }

  lemma AdjacentStage(sql: string, last: string)
    requires last == ":a5" + "" && sql == ":a" + ("$123" + ("," + last))
    ensures Replace(sql, "$123", "5") == ":a" + ("5" + ("," + last))
  {
    Differs(sql, "$123", 0);
    ReplaceAtOther(":a", "$123" + ("," + last), "$123", "5");
    ReplaceAtMatch("$123", "," + last, "5");
    PassThrough(",", last, "$123", "5");
    Differs(last, "$123", 0);
    ReplaceAtOther(":a5", "", "$123", "5");
  }

  lemma AdjacentNextStage(last: string)
    requires last == ":a5" + ""
    ensures Replace(":a5" + ("," + last), ":a5", "9") == "9,9" + ""
  {
    ReplaceAtMatch(":a5", "," + last, "9");
    PassThrough(",", last, ":a5", "9");
    ReplaceAtMatch(":a5", "", "9");
    assert "9" + ("," + ("9" + "")) == "9,9" + "";
  }

  lemma AdjacentReplacement(sql: string, last: string, lit: Placeholder -> string)
    requires lit(":a") == "8" && lit("$123") == "5" && lit(":a5") == "9"
    requires last == ":a5" + "" && sql == ":a" + ("$123" + ("," + last))
    ensures ReplaceEach(sql, ["$123", ":a5", ":a"], lit) == "9,9"
  {
    hide Replace, ReplaceEach, StartsWith;
    ReplaceThree(sql, "$123", ":a5", ":a", lit);
    AdjacentStage(sql, last);
    assert ":a" + ("5" + ("," + last)) == ":a5" + ("," + last);
    AdjacentNextStage(last);
    PassThrough("9,9", "", ":a", "8");
    NothingToReplace(":a", "8");
  }

  lemma NothingToReplace(p: Placeholder, l: string)
    ensures Replace("", p, l) == ""
  {
  }

  lemma AdjacentSimultaneous(sql: string, last: string, lit: Placeholder -> string)
    requires lit(":a") == "8" && lit("$123") == "5" && lit(":a5") == "9"
    requires last == ":a5" + "" && sql == ":a" + ("$123" + ("," + last))
    ensures SubstituteAll(sql, lit) == "85,9"
  {
    hide Lex;
    LexAdjacent(last);
    RenderAll(Lex(sql), lit);
    EveryTwo(Plain(','), Token(":a5"), lit);
    EveryCons(Token("$123"), [Plain(','), Token(":a5")], lit);
    EveryCons(Token(":a"), [Token("$123"), Plain(','), Token(":a5")], lit);
  }

  lemma AdjacentFront(values: map<string, string>)
    requires "a" in values && values["a"] == "8"
    ensures Literals(values)(":a") == "8"
  {
    assert ":a"[1..] == "a";
    DigitsUnder(values, ":a", "a", '8');
  }

  lemma AdjacentBehind(values: map<string, string>)
    requires "123" in values && values["123"] == "5"
    ensures Literals(values)("$123") == "5"
  {
    assert "$123"[1..] == "123";
    DigitsUnder(values, "$123", "123", '5');
  }

  lemma AdjacentJoined(values: map<string, string>)
    requires "a5" in values && values["a5"] == "9"
    ensures Literals(values)(":a5") == "9"
  {
    assert ":a5"[1..] == "a5";
    DigitsUnder(values, ":a5", "a5", '9');
  }

  lemma AdjacentOrder(sql: string)
    requires sql == ":a" + ("$123" + ("," + (":a5" + "")))
    ensures ReplacementOrder(sql) == ["$123", ":a5", ":a"]
  {
    hide ReplacementOrder, Lex, Canonical, Placeholders;
    LexAdjacent(":a5" + "");
    OrderFacts(sql);
    var tail := [Token("$123"), Plain(','), Token(":a5")];
    assert [Token(":a"), Token("$123"), Plain(','), Token(":a5")] == [Token(":a")] + tail;
    PlaceholdersCons(Token(":a"), tail);
    TokensOf(tail, "$123", ":a5");
    Reported({"$123", ":a5", ":a"});
    OrderOfThree(ReplacementOrder(sql), "$123", ":a5", ":a");
  }

  /** A placeholder right behind another one: its literal completes a third, which
      is replaced before the one in front. */
  lemma Adjacent(sql: string, values: map<string, string>)
    requires sql == ":a" + ("$123" + ("," + (":a5" + ""))) && values == map["a" := "8", "123" := "5", "a5" := "9"]
    ensures ReplaceEach(sql, ReplacementOrder(sql), Literals(values)) == "9,9"
    ensures SubstituteAll(sql, Literals(values)) == "85,9" != "9,9"
  {
    hide *;
    AdjacentFront(values);
    AdjacentBehind(values);
    AdjacentJoined(values);
    AdjacentReplacement(sql, ":a5" + "", Literals(values));
    AdjacentSimultaneous(sql, ":a5" + "", Literals(values));
    AdjacentOrder(sql);
  }

  lemma LexZero()
    ensures Lex("$01") == [Token("$01")]
  {
    LexToken("$01", "");
    assert "$01" == "$01" + "";
  }

  lemma CanonicalZero()
    ensures Canonical("$01") == "$1"
  {
    assert "$01"[1..] == "01" && "01"[..1] == "0" && "0"[..0] == "";
    assert ParseDigits("0") == 0 && ParseDigits("01") == 1;
    assert PrintNumber(1) == "1";
  }

  /** `$01` is detected as `$1`, which does not occur in the text. */
  lemma LeadingZero(values: map<string, string>)
    requires values == map["1" := "5"]
    ensures ReplaceEach("$01", ReplacementOrder("$01"), Literals(values)) == "$01"
    ensures SubstituteAll("$01", Literals(values)) == "''" != "$01"
  {
    hide Literal, ReplacementOrder, Canonical;
    var lit := Literals(values);
    CanonicalZero();
    DigitsLiteral("5");
    EmptyLiteral();
    assert "$1"[1..] == "1" && "$01"[1..] == "01" && values.Keys == {"1"} && "01" != "1";
    LexZero();
    RenderAll(Lex("$01"), lit);
    EveryCons(Token("$01"), [], lit);
    OrderFacts("$01");
    TokensOf([Token("$01")], "$01", "$01");
    OrderOfOne(ReplacementOrder("$01"), "$1");
    ReplaceOne("$01", "$1", lit);
    Differs("$01" + "", "$1", 1);
    ReplaceAtOther("$01", "", "$1", "5");
    assert "$01" + "" == "$01";
  }

  lemma ReplaceOne(sql: string, p: Placeholder, lit: Placeholder -> string)
    requires '$' !in lit(p)
    ensures ReplaceEach(sql, [p], lit) == Replace(sql, p, lit(p))
  {
    assert [p] == [] + [p];
    ReplaceEachSnoc(sql, [], p, lit);
    assert sql[0..] == sql;
    ReplaceFromSuffix(sql, 0, p, lit(p));
  }
}
