/**
  What detection and substitution do (src/components/dialogs/BindParamsDialog.tsx), told
  from the text: the order of the parameters, the order of the replacements, the special
  forms of a replacement text, and the text that comes out.
*/
module BindParamsTexts {
  import opened Text
  import opened BindParams
  import opened BindParamsExact
  import opened BindParamsLimits

  // ----- what a placeholder is -----

  /** A letter of ASCII or an underscore, by code. */
  predicate IsLetterCode(n: int) {
    0x41 <= n <= 0x5A || n == 0x5F || 0x61 <= n <= 0x7A
  }

  predicate IsDigitCode(n: int) {
    0x30 <= n <= 0x39
  }

  /** A colon, a letter or underscore, and any letters, underscores and digits; or a
      dollar and digits. */
  lemma PlaceholderIs(p: string)
    ensures IsPlaceholder(p) <==>
            && |p| >= 2
            && ((p[0] as int == 0x3A && IsLetterCode(p[1] as int)
                 && forall i :: 2 <= i < |p| ==> IsLetterCode(p[i] as int) || IsDigitCode(p[i] as int))
                || (p[0] as int == 0x24 && forall i :: 1 <= i < |p| ==> IsDigitCode(p[i] as int)))
  {
    forall c: char
      ensures IsIdentStart(c) <==> IsLetterCode(c as int)
      ensures IsDigit(c) <==> IsDigitCode(c as int)
    {
    }
  }

  // ----- the text that comes out -----

  /** A placeholder that is not continued gives way to its literal; nothing behind it
      is touched by that. */
  lemma TokenIsReplaced(t: Placeholder, rest: string, lit: Placeholder -> string)
    requires rest == "" || !Continues(t[0], rest[0])
    ensures SubstituteAll(t + rest, lit) == lit(t) + SubstituteAll(rest, lit)
  {
    hide Lex, Render, IsPlaceholder;
    LexToken(t, rest);
    RenderAll(Lex(t + rest), lit);
    RenderAll(Lex(rest), lit);
    EveryCons(Token(t), Lex(rest), lit);
  }

  /** A character that starts no placeholder stays. */
  lemma PlainStays(c: char, rest: string, lit: Placeholder -> string)
    requires rest == "" || !Starts(c, rest[0])
    ensures SubstituteAll([c] + rest, lit) == [c] + SubstituteAll(rest, lit)
  {
    hide Lex, Render;
    LexPlain(c, rest);
    RenderAll(Lex([c] + rest), lit);
    RenderAll(Lex(rest), lit);
    EveryCons(Plain(c), Lex(rest), lit);
  }

  // ----- the order of the parameters -----

  /** The placeholders among the pieces that have this sigil, in order. */
  function TokensOf(sigil: char, ps: seq<Piece>): seq<Placeholder> {
    if ps == [] then []
    else (if ps[0].Token? && ps[0].text[0] == sigil then [ps[0].text] else []) + TokensOf(sigil, ps[1..])
  }

  lemma TokensCons(sigil: char, p: Piece, ps: seq<Piece>)
    ensures TokensOf(sigil, [p] + ps)
         == (if p.Token? && p.text[0] == sigil then [p.text] else []) + TokensOf(sigil, ps)
  {
    assert ([p] + ps)[1..] == ps;
  }

  /** A scan finds the maximal placeholders of its sigil, in their order. */
  lemma {:induction false} ScanIsTokens(sigil: char, s: string)
    requires IsSigil(sigil)
    ensures Scan(sigil, s) == TokensOf(sigil, Lex(s))
    decreases |s|
  {
    if s != "" {
      var n := MatchLength(s[0], s);
      var k := if n > 0 then n else 1;
      ScanIsTokens(sigil, s[k..]);
      TokensCons(sigil, Lex(s)[0], Lex(s[k..]));
      if n > 0 && s[0] != sigil {
        OtherScanSkips(s, n);
      }
    }
  }

  /** Element `j` is the first of its kind in `ps`, and everything in front of that
      occurrence is among the elements before. */
  lemma {:induction false} FirstsInOrder<T>(seen: seq<T>, ps: seq<T>, j: nat) returns (k: nat)
    requires |seen| <= j < |Firsts(seen, ps)|
    ensures seen <= Firsts(seen, ps) && k < |ps| && ps[k] == Firsts(seen, ps)[j] && ps[k] !in seen
    ensures forall m :: 0 <= m < k ==> ps[m] != ps[k] && ps[m] in Firsts(seen, ps)[..j]
    decreases |ps|
  {
    var more := if ps[0] in seen then seen else seen + [ps[0]];
    var all := Firsts(seen, ps);
    FirstsGrow(more, ps[1..]);
    assert seen <= more;
    assert all[..|more|] == more;
    if j < |more| {
      k := 0;
      assert all[j] == more[j];
    } else {
      var i := FirstsInOrder(more, ps[1..], j);
      k := i + 1;
      assert all[..j][..|more|] == more;
      forall m | 0 <= m < k
        ensures ps[m] != ps[k] && ps[m] in all[..j]
      {
        if m > 0 {
          assert ps[m] == ps[1..][m - 1];
        } else {
          assert ps[0] in more;
          var at :| 0 <= at < |more| && more[at] == ps[0];
          assert all[..j][at] == ps[0];
        }
      }
    }
  }

  lemma {:induction false} FirstsGrow<T>(seen: seq<T>, ps: seq<T>)
    ensures seen <= Firsts(seen, ps)
    decreases |ps|
  {
    if ps != [] {
      FirstsGrow(if ps[0] in seen then seen else seen + [ps[0]], ps[1..]);
    }
  }

  lemma {:induction false} FirstsOfNew<T>(seen: seq<T>, ps: seq<T>)
    requires Distinct(ps) && forall x :: x in ps ==> x !in seen
    ensures Firsts(seen, ps) == seen + ps
    decreases |ps|
  {
    if ps != [] {
      assert ps[0] in ps;
      assert forall x :: x in ps[1..] ==> x in ps && x != ps[0];
      FirstsOfNew(seen + [ps[0]], ps[1..]);
      assert ps == [ps[0]] + ps[1..];
      Assoc(seen, [ps[0]], ps[1..]);
    }
  }

  /** A printed number reads back. */
  lemma {:induction false} ParsePrinted(n: nat)
    ensures ParseDigits(PrintNumber(n)) == n
  {
    var d := PrintNumber(n);
    if n < 10 {
      assert d[..0] == "";
    } else {
      ParsePrinted(n / 10);
      assert d[..|d| - 1] == PrintNumber(n / 10);
    }
  }

  lemma NamesApart(m: nat, n: nat)
    requires PositionalName(m) == PositionalName(n)
    ensures m == n
  {
    hide PrintNumber, ParseDigits;
    assert PositionalName(m)[1..] == PrintNumber(m) && PositionalName(n)[1..] == PrintNumber(n);
    ParsePrinted(m);
    ParsePrinted(n);
  }

  lemma {:induction false} PositionalAt(ns: seq<nat>)
    ensures |PositionalNames(ns)| == |ns|
    ensures forall i :: 0 <= i < |ns| ==> PositionalNames(ns)[i] == PositionalName(ns[i])
  {
    hide PositionalName;
    if ns != [] {
      PositionalAt(ns[1..]);
    }
  }

  /** The parameters are reported in this order: the named ones as they first occur,
      then the positional ones by number. */
  lemma DetectedInOrder(sql: string) returns (named: seq<Placeholder>, numbers: seq<nat>)
    ensures DetectedOrder(sql) == named + PositionalNames(numbers)
    ensures named == Firsts([], TokensOf(':', Lex(sql)))
    ensures Ascending(numbers)
    ensures forall n :: n in numbers <==> n in NumbersOf(TokensOf('$', Lex(sql)))
  {
    hide Scan, Lex, TokensOf, Firsts, PositionalName, PositionalNames, SortNumbers, NumbersOf;
    ScanIsTokens(':', sql);
    ScanIsTokens('$', sql);
    var occurring := NumbersOf(TokensOf('$', Lex(sql)));
    named, numbers := Firsts([], TokensOf(':', Lex(sql))), SortNumbers(Firsts([], occurring));
    FirstsFacts([], occurring);
    SortedAscending(Firsts([], occurring));
    assert forall n :: n in numbers <==> n in multiset(numbers);
    assert forall n :: n in Firsts([], occurring) <==> n in multiset(Firsts([], occurring));
    NamedFirst(sql, named, numbers);
    FirstsOfNew(named, PositionalNames(numbers));
  }

  lemma NamedFirst(sql: string, named: seq<Placeholder>, numbers: seq<nat>)
    requires named == Firsts([], Scan(':', sql)) && Ascending(numbers)
    ensures Distinct(PositionalNames(numbers)) && forall p :: p in PositionalNames(numbers) ==> p !in named
  {
    hide Scan, Firsts, PositionalName, PositionalNames;
    PositionalAt(numbers);
    ScanSigil(':', sql);
    FirstsFacts([], Scan(':', sql));
    forall i, j | 0 <= i < j < |numbers|
      ensures PositionalNames(numbers)[i] != PositionalNames(numbers)[j]
    {
      if PositionalName(numbers[i]) == PositionalName(numbers[j]) {
        NamesApart(numbers[i], numbers[j]);
      }
    }
    forall i | 0 <= i < |numbers|
      ensures PositionalNames(numbers)[i] !in named
    {
      PositionalSigil(numbers[i]);
    }
  }

  // ----- the order of the replacements -----

  function OfLength(ps: seq<Param>, n: nat): seq<Param> {
    if ps == [] then [] else (if |ps[0].placeholder| == n then [ps[0]] else []) + OfLength(ps[1..], n)
  }

  lemma OfLengthCons(p: Param, ps: seq<Param>, n: nat)
    ensures OfLength([p] + ps, n) == (if |p.placeholder| == n then [p] else []) + OfLength(ps, n)
  {
    assert ([p] + ps)[1..] == ps;
  }

  lemma Exchange<T>(a: seq<T>, b: seq<T>, rest: seq<T>)
    requires a == [] || b == []
    ensures a + (b + rest) == b + (a + rest)
  {
  }

  lemma {:induction false} InsertIsStable(p: Param, ps: seq<Param>, n: nat)
    ensures OfLength(InsertByLength(p, ps), n) == OfLength([p] + ps, n)
  {
    hide OfLength;
    if ps != [] && |p.placeholder| < |ps[0].placeholder| {
      var q, rest := ps[0], ps[1..];
      InsertIsStable(p, rest, n);
      OfLengthCons(q, InsertByLength(p, rest), n);
      OfLengthCons(p, ps, n);
      OfLengthCons(p, rest, n);
      assert ps == [q] + rest;
      OfLengthCons(q, rest, n);
      Exchange(if |p.placeholder| == n then [p] else [], if |q.placeholder| == n then [q] else [], OfLength(rest, n));
    }
  }

  /** Sorting by length leaves placeholders of one length in the order reported. */
  lemma {:induction false} SortIsStable(ps: seq<Param>, n: nat)
    ensures OfLength(SortByLength(ps), n) == OfLength(ps, n)
  {
    if ps != [] {
      SortIsStable(ps[1..], n);
      InsertIsStable(ps[0], SortByLength(ps[1..]), n);
      OfLengthCons(ps[0], SortByLength(ps[1..]), n);
    }
  }

  // ----- the special forms of a replacement text -----

  lemma {:induction false} ExpandBehind(a: string, rest: string, matched: string, before: string, after: string)
    requires '$' !in a
    ensures Expand(a + rest, matched, before, after) == a + Expand(rest, matched, before, after)
  {
    if a == "" {
      assert a + rest == rest;
    } else {
      ExpandBehind(a[1..], rest, matched, before, after);
      assert (a + rest)[1..] == a[1..] + rest;
      Assoc([a[0]], a[1..], Expand(rest, matched, before, after));
      assert [a[0]] + a[1..] == a;
    }
  }

  /** A first `$` stands for itself when doubled, for the placeholder before `&`, for the
      text in front of it before a backquote, and for the text behind it before a quote. */
  lemma DollarForms(a: string, c: char, rest: string, matched: string, before: string, after: string)
    requires '$' !in a
    ensures var more := Expand(rest, matched, before, after);
            var expanded := Expand(a + (['$', c] + rest), matched, before, after);
            && (c == '$' ==> expanded == a + ("$" + more))
            && (c == '&' ==> expanded == a + (matched + more))
            && (c == '`' ==> expanded == a + (before + more))
            && (c == '\'' ==> expanded == a + (after + more))
            && (c !in "$&`'" ==> expanded == a + ("$" + Expand([c] + rest, matched, before, after)))
  {
    ExpandBehind(a, ['$', c] + rest, matched, before, after);
    assert (['$', c] + rest)[2..] == rest;
    assert (['$', c] + rest)[1..] == [c] + rest;
  }
}
