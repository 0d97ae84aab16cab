/**
  Exactly which texts the dialog fills in correctly, whatever the user types (in
  src/components/dialogs/BindParamsDialog.tsx): literals of values are NULL, numbers
  and quoted texts, so only digits and NULL can complete a placeholder.
*/
module BindParamsValues {
  import opened Text
  import opened BindParams
  import opened BindParamsExact

  // ----- literals of a few values -----

  lemma NotTrimmed(s: string)
    requires s != "" ==> !IsJsSpace(s[0]) && !IsJsSpace(s[|s| - 1])
    ensures JsTrim(s) == s
  {
  }

  lemma DigitsLiteral(s: string)
    requires AllDigits(s)
    ensures Literal(s) == s
  {
    assert IsDigit(s[0]) && IsDigit(s[|s| - 1]);
    NotTrimmed(s);
  }

  /** A value that neither starts like a number nor spells NULL is quoted. */
  lemma QuotedLiteral(s: string)
    requires s != "" ==> !IsJsSpace(s[0]) && !IsJsSpace(s[|s| - 1]) && !IsDigit(s[0]) && s[0] !in "-.nN"
    ensures Literal(s) == Quoted(s)
  {
    hide JsTrim, IsNumeric, Quoted, IsJsSpace, IsDigit;
    NotTrimmed(s);
    NotNumeric(s);
  }

  lemma NotNumeric(s: string)
    requires s != "" ==> !IsDigit(s[0]) && s[0] !in "-."
    ensures !IsNumeric(s)
  {
    forall i | 0 <= i < |s|
      ensures !AllDigits(s[..i])
    {
      if i > 0 {
        assert s[..i][0] == s[0];
      }
    }
  }

  lemma {:induction false} DoubleNothing(s: string, q: char)
    requires q !in s
    ensures Double(s, q) == s
  {
    if s != "" {
      DoubleNothing(s[1..], q);
      assert [s[0]] + s[1..] == s;
    }
  }

  lemma BangLiteral()
    ensures Literal("!") == "'!'" && Bangs(Literal("!")) == 1 && NoSigil(Literal("!"))
  {
    QuotedLiteral("!");
    DoubleNothing("!", '\'');
    assert Quoted("!") == "'!'";
    assert "'!'"[1..] == "!'" && "!'"[1..] == "'" && "'"[1..] == "";
  }

  lemma EmptyLiteral()
    ensures Literal("") == "''" && Bangs(Literal("")) == 0 && NoSigil(Literal(""))
  {
    QuotedLiteral("");
    NoBangs("''");
  }

  lemma NumberLiteral(x: string)
    requires AllDigits(x)
    ensures Literal(x) == x && Bangs(Literal(x)) == 0 && NoSigil(Literal(x))
  {
    DigitsLiteral(x);
    forall c | c in x
      ensures c != BANG && !IsSigil(c)
    {
      var i :| 0 <= i < |x| && x[i] == c;
      assert IsDigit(x[i]);
    }
    NoBangs(x);
  }

  // ----- values that tell the two results apart -----

  lemma SameKeySamePlaceholder(t: Placeholder, p: Placeholder)
    requires t[1..] == p[1..]
    ensures t == p
  {
    assert t[1] == t[1..][0] == p[1];
    assert t == [t[0]] + t[1..] && p == [p[0]] + p[1..];
  }

  lemma KeysApart()
    ensures forall t: Placeholder, u: Placeholder :: t[1..] == u[1..] ==> t == u
  {
    forall t: Placeholder, u: Placeholder | t[1..] == u[1..]
      ensures t == u
    {
      SameKeySamePlaceholder(t, u);
    }
  }

  /** Values whose literals are the words of the placeholders in `done`, and a `!`
      for `p`. */
  function TellingWords(p: Placeholder, done: set<Placeholder>, words: map<Placeholder, string>): map<string, string> {
    KeysApart();
    (map t: Placeholder | t in done && t in words :: t[1..] := words[t])[p[1..] := "!"]
  }

  lemma TellingWordsKeys(p: Placeholder, done: set<Placeholder>, words: map<Placeholder, string>, t: Placeholder)
    requires p !in done
    ensures ValueOf(TellingWords(p, done, words), t[1..]) ==
            if t == p then "!" else if t in done && t in words then words[t] else ""
  {
    KeysApart();
    assert t in done && t in words && t != p ==> t[1..] in TellingWords(p, done, words);
  }

  lemma NullLiteral()
    ensures Literal("NULL") == "NULL" && Bangs("NULL") == 0 && NoSigil("NULL")
  {
    hide JsTrim, IsNumeric, IsJsSpace;
    NullTrimmed();
    NoBangs("NULL");
  }

  lemma NullTrimmed()
    ensures JsTrim("NULL") == "NULL"
  {
    NotTrimmed("NULL");
  }

  lemma WordLiteral(w: string)
    requires IsWordLiteral(w)
    ensures Literal(w) == w && Bangs(Literal(w)) == 0 && NoSigil(Literal(w))
  {
    if AllDigits(w) {
      NumberLiteral(w);
    } else {
      NullLiteral();
    }
  }

  lemma TellingWordsMark(p: Placeholder, done: set<Placeholder>, words: map<Placeholder, string>)
    requires p !in done && AllWords(words)
    ensures var lit := Literals(TellingWords(p, done, words));
            && MarksOnly(lit, p) && (forall names :: CleanLiterals(lit, names))
            && forall t :: t in done && t in words ==> lit(t) == words[t]
  {
    hide Literal, Bangs, NoSigil, TellingWords, IsWordLiteral, ValueOf;
    var values := TellingWords(p, done, words);
    BangLiteral();
    EmptyLiteral();
    forall t: Placeholder
      ensures Bangs(Literals(values)(t)) == (if t == p then 1 else 0) && NoSigil(Literals(values)(t))
      ensures t in done && t in words ==> Literals(values)(t) == words[t]
    {
      TellingWordsKeys(p, done, words, t);
      if t in words {
        WordLiteral(words[t]);
      }
    }
  }

  lemma TellingValue(p: Placeholder, values: map<string, string>)
    requires values == map[p[1..] := "!"]
    ensures MarksOnly(Literals(values), p) && forall names :: CleanLiterals(Literals(values), names)
  {
    hide Literal, Bangs, NoSigil;
    BangLiteral();
    EmptyLiteral();
    forall t: Placeholder
      ensures Bangs(Literals(values)(t)) == (if t == p then 1 else 0) && NoSigil(Literals(values)(t))
    {
      if t[1..] == p[1..] {
        SameKeySamePlaceholder(t, p);
      }
    }
  }

  // ----- the exact condition -----

  /** Literals that are the words spell what the words spell. */
  lemma {:induction false} SpelledMatches(missing: string, ps: seq<Piece>, done: set<Placeholder>,
                                          words: map<Placeholder, string>, lit: Placeholder -> string)
    requires Spelled(missing, ps, done, words)
    requires forall t :: t in done && t in words ==> lit(t) == words[t]
    ensures StartsWith(Render(ps, done, lit), missing)
    decreases |ps|
  {
    if missing != "" {
      var rest := Render(ps[1..], done, lit);
      match ps[0]
      case Plain(c) =>
        SpelledMatches(missing[1..], ps[1..], done, words, lit);
        PrefixBehind([c], missing[1..], rest);
        assert [c] + missing[1..] == missing;
      case Token(t) =>
        if missing <= words[t] {
          assert (words[t] + rest)[..|missing|] == words[t][..|missing|] == missing;
        } else {
          SpelledMatches(missing[|words[t]|..], ps[1..], done, words, lit);
          PrefixBehind(words[t], missing[|words[t]|..], rest);
          assert words[t] + missing[|words[t]|..] == missing;
        }
    }
  }

  lemma WordsRead(ps: seq<Piece>, done: set<Placeholder>, p: Placeholder, i: nat, words: map<Placeholder, string>,
                  lit: Placeholder -> string)
    requires i < |ps| && Extends(p, ps[i], done)
    requires Spelled(p[|FrontText(ps[i])|..], ps[i + 1..], done, words)
    requires forall t :: t in done && t in words ==> lit(t) == words[t]
    ensures ReadsAsOther(ps, done, p, lit, i)
  {
    hide Spelled, Extends, StartsWith, Render;
    TailStands(ps, done, p, lit, i);
    SpelledMatches(p[|FrontText(ps[i])|..], ps[i + 1..], done, words, lit);
  }

  /** What the user types is filled in correctly, whatever it is. */
  ghost predicate AlwaysFilledIn(sql: string, sorted: seq<Placeholder>) {
    forall values: map<string, string> ::
      CleanLiterals(Literals(values), Names(sorted)) ==> FilledIn(sql, sorted, values)
  }

  ghost predicate FilledIn(sql: string, sorted: seq<Placeholder>, values: map<string, string>) {
    Simultaneous(sql, sorted, Literals(values))
  }

  lemma {:induction false} FirstUnsafe(ps: seq<Piece>, sorted: seq<Placeholder>, n: nat) returns (k: nat)
    requires n <= |sorted|
    ensures k <= n && forall j :: 0 <= j < k ==> Safe(ps, Names(sorted[..j]), sorted[j])
    ensures k < n ==> !Safe(ps, Names(sorted[..k]), sorted[k])
  {
    hide Safe;
    k := 0;
    if n > 0 {
      k := FirstUnsafe(ps, sorted, n - 1);
      if k == n - 1 && Safe(ps, Names(sorted[..k]), sorted[k]) {
        k := n;
      }
    }
  }

  lemma SafeStages(ps: seq<Piece>, sorted: seq<Placeholder>, k: nat, values: map<string, string>)
    requires k <= |sorted| && forall j :: 0 <= j < k ==> Safe(ps, Names(sorted[..j]), sorted[j])
    ensures forall j :: 0 <= j < k ==> Uncaptured(ps, Names(sorted[..j]), sorted[j], Literals(values))
  {
    hide Safe, Uncaptured;
    assert sorted[..k][..k] == sorted[..k];
    assert forall j :: 0 <= j < k ==> sorted[..k][..j] == sorted[..j];
    ValuesNeverCapture(ps, sorted[..k], values);
  }

  lemma SomeValuesDiffer(sql: string, sorted: seq<Placeholder>) returns (values: map<string, string>)
    requires LongestFirst(sorted) && Distinct(sorted)
    requires !(Placeholders(Lex(sql)) <= Names(sorted)) || !NoValueCapture(Lex(sql), sorted)
    ensures CleanLiterals(Literals(values), Names(sorted)) && !FilledIn(sql, sorted, values)
  {
    hide Lex, LongestFirst, Bangs, Placeholders, MarksOnly, Distinct, CleanLiterals, Literals, NoSigil, Safe,
         Uncaptured, ReadsAsOther, TellingWords, Spelled, Extends, FrontText;
    var ps := Lex(sql);
    if t :| t in Placeholders(ps) && t !in Names(sorted) {
      values := map[t[1..] := "!"];
      TellingValue(t, values);
      UncoveredDiffers(sql, sorted, t, Literals(values));
    } else {
      var k := FirstUnsafe(ps, sorted, |sorted|);
      var i, words := CaptureWords(ps, Names(sorted[..k]), sorted[k]);
      NotBefore(sorted, k);
      values := TellingWords(sorted[k], Names(sorted[..k]), words);
      TellingWordsMark(sorted[k], Names(sorted[..k]), words);
      WordsRead(ps, Names(sorted[..k]), sorted[k], i, words, Literals(values));
      SafeStages(ps, sorted, k, values);
      CaptureDiffers(sql, sorted, k, i, Literals(values));
    }
  }

  lemma NotBefore(sorted: seq<Placeholder>, k: nat)
    requires Distinct(sorted) && k < |sorted|
    ensures sorted[k] !in Names(sorted[..k])
  {
  }

  lemma CaptureWords(ps: seq<Piece>, done: set<Placeholder>, p: Placeholder)
    returns (i: nat, words: map<Placeholder, string>)
    requires !Safe(ps, done, p)
    ensures i < |ps| && Extends(p, ps[i], done) && |FrontText(ps[i])| <= |p|
    ensures AllWords(words) && Spelled(p[|FrontText(ps[i])|..], ps[i + 1..], done, words)
  {
    i :| 0 <= i < |ps| && Capturable(ps, done, p, i);
    words :| AllWords(words) && Spelled(p[|FrontText(ps[i])|..], ps[i + 1..], done, words);
  }

  /** The dialog fills in the simultaneous substitution, for all values whose literals
      hold no sigil, if and only if no placeholder has leading zeros and none can be
      captured by digits or NULL. */
  lemma ConfirmExact(sql: string)
    ensures AlwaysFilledIn(sql, ReplacementOrder(sql))
       <==> && (forall t :: t in Placeholders(Lex(sql)) ==> NoLeadingZero(t))
            && NoValueCapture(Lex(sql), ReplacementOrder(sql))
  {
    hide ReplacementOrder, Lex, NoValueCapture, LongestFirst, Distinct, NoLeadingZero, Placeholders, CanonicalOf,
         CleanLiterals, Literals, NeverCaptured;
    var sorted := ReplacementOrder(sql);
    OrderFacts(sql);
    CoveredIffNoLeadingZero(Placeholders(Lex(sql)));
    if Placeholders(Lex(sql)) <= Names(sorted) && NoValueCapture(Lex(sql), sorted) {
      forall values: map<string, string> | CleanLiterals(Literals(values), Names(sorted))
        ensures FilledIn(sql, sorted, values)
      {
        ValuesNeverCapture(Lex(sql), sorted, values);
        SequentialIsSimultaneous(sql, sorted, Literals(values));
      }
    } else {
      var values := SomeValuesDiffer(sql, sorted);
      assert !FilledIn(sql, sorted, values);
    }
  }

  // ----- positional texts -----

  lemma PositionalTokens(sql: string)
    requires ':' !in sql
    ensures forall t :: t in Placeholders(Lex(sql)) ==> t[0] == '$'
  {
    hide Lex;
    ScansFindTokens(sql);
    ScanSkips(':', sql, |sql|);
    assert sql[|sql|..] == "";
    ScanSigil('$', sql);
  }

  lemma PositionalOrder(sql: string)
    requires ':' !in sql
    ensures forall k :: 0 <= k < |ReplacementOrder(sql)| ==> ReplacementOrder(sql)[k][0] == '$'
  {
    hide Lex, ReplacementOrder;
    PositionalTokens(sql);
    OrderFacts(sql);
    forall k | 0 <= k < |ReplacementOrder(sql)|
      ensures ReplacementOrder(sql)[k][0] == '$'
    {
      var p := ReplacementOrder(sql)[k];
      assert p in Names(ReplacementOrder(sql));
      var t :| t in Placeholders(Lex(sql)) && p == Canonical(t);
    }
  }

  /** Where no literal at all can complete `p`, no words can. */
  lemma FreeIsSafe(ps: seq<Piece>, done: set<Placeholder>, p: Placeholder)
    requires Maximal(ps) && Free(ps, done, p)
    ensures Safe(ps, done, p)
  {
    forall i | 0 <= i < |ps|
      ensures !Capturable(ps, done, p, i)
    {
      if Capturable(ps, done, p, i) {
        var words :| AllWords(words) && Spelled(p[|FrontText(ps[i])|..], ps[i + 1..], done, words);
        NothingFollows(ps, done, p, i, words);
      }
    }
  }

  lemma NothingFollows(ps: seq<Piece>, done: set<Placeholder>, p: Placeholder, i: nat, words: map<Placeholder, string>)
    requires Maximal(ps) && Free(ps, done, p) && i < |ps| && Extends(p, ps[i], done)
    ensures !Spelled(p[|FrontText(ps[i])|..], ps[i + 1..], done, words)
  {
    var n := |FrontText(ps[i])|;
    assert p[n..][0] == p[n] && Continues(p[0], p[n]);
    assert i + 1 < |ps| ==> ps[i + 1..][0] == ps[i + 1];
  }

  /** For a positional placeholder any literal that could complete it could be digits. */
  lemma PositionalSafeIffFree(ps: seq<Piece>, done: set<Placeholder>, p: Placeholder)
    requires Maximal(ps) && p[0] == '$'
    ensures Safe(ps, done, p) <==> Free(ps, done, p)
  {
    if Free(ps, done, p) {
      FreeIsSafe(ps, done, p);
    } else {
      var i := CaptureAtStage(ps, done, p);
      var missing, d := p[|FrontText(ps[i])|..], ps[i + 1].text;
      TailIsClean(p, |FrontText(ps[i])|);
      var words := map[d := missing];
      assert AllDigits(missing) && AllWords(words);
      assert ps[i + 1..][0] == Token(d);
      assert Spelled(missing, ps[i + 1..], done, words);
      assert Capturable(ps, done, p, i);
    }
  }

  /** For a text without ':' the condition speaks of spacing alone. */
  lemma PositionalExact(sql: string)
    requires ':' !in sql
    ensures AlwaysFilledIn(sql, ReplacementOrder(sql))
       <==> && (forall t :: t in Placeholders(Lex(sql)) ==> NoLeadingZero(t))
            && NoCapture(Lex(sql), ReplacementOrder(sql))
  {
    hide ReplacementOrder, Lex, NoLeadingZero, Placeholders, AlwaysFilledIn, Safe, Free, Maximal;
    var sorted := ReplacementOrder(sql);
    ConfirmExact(sql);
    PositionalOrder(sql);
    LexMaximal(sql);
    forall k | 0 <= k < |sorted|
      ensures Safe(Lex(sql), Names(sorted[..k]), sorted[k]) <==> Free(Lex(sql), Names(sorted[..k]), sorted[k])
    {
      PositionalSafeIffFree(Lex(sql), Names(sorted[..k]), sorted[k]);
    }
  }

  // ----- names that are never captured -----

  /** No digit and no capital N in the name. */
  predicate AllLetters(p: Placeholder) {
    forall i :: 0 < i < |p| ==> !IsDigit(p[i]) && p[i] != 'N'
  }

  /** Neither digits nor NULL can complete such a name. */
  lemma LettersAreSafe(ps: seq<Piece>, done: set<Placeholder>, p: Placeholder)
    requires Maximal(ps) && AllLetters(p)
    ensures Safe(ps, done, p)
  {
    forall i | 0 <= i < |ps|
      ensures !Capturable(ps, done, p, i)
    {
      if Capturable(ps, done, p, i) {
        var words :| AllWords(words) && Spelled(p[|FrontText(ps[i])|..], ps[i + 1..], done, words);
        NothingSpells(ps, done, p, i, words);
      }
    }
  }

  lemma NothingSpells(ps: seq<Piece>, done: set<Placeholder>, p: Placeholder, i: nat, words: map<Placeholder, string>)
    requires Maximal(ps) && AllLetters(p) && AllWords(words)
    requires i < |ps| && Extends(p, ps[i], done)
    ensures !Spelled(p[|FrontText(ps[i])|..], ps[i + 1..], done, words)
  {
    var n := |FrontText(ps[i])|;
    assert p[n..][0] == p[n] && Continues(p[0], p[n]);
    assert i + 1 < |ps| ==> ps[i + 1..][0] == ps[i + 1];
  }

  /** Texts whose placeholders have neither digits nor a capital N in their names, such as
      `::int,:id`, are filled in correctly however they are spaced. */
  lemma LettersConfirm(sql: string)
    requires forall t :: t in Placeholders(Lex(sql)) ==> AllLetters(t)
    ensures AlwaysFilledIn(sql, ReplacementOrder(sql))
  {
    hide ReplacementOrder, Lex, AlwaysFilledIn, Maximal, Safe, AllLetters;
    var sorted := ReplacementOrder(sql);
    ConfirmExact(sql);
    OrderFacts(sql);
    LexMaximal(sql);
    LettersKeepNames(Placeholders(Lex(sql)));
    forall k | 0 <= k < |sorted|
      ensures Safe(Lex(sql), Names(sorted[..k]), sorted[k])
    {
      assert sorted[k] in Names(sorted);
      LettersAreSafe(Lex(sql), Names(sorted[..k]), sorted[k]);
    }
  }

  lemma LettersKeepNames(ps: set<Placeholder>)
    requires forall t :: t in ps ==> AllLetters(t)
    ensures CanonicalOf(ps) == ps && forall t :: t in ps ==> NoLeadingZero(t)
  {
    forall t | t in ps
      ensures NoLeadingZero(t)
    {
      assert !IsDigit(t[1]);
    }
    AllCanonical(ps);
  }
}
