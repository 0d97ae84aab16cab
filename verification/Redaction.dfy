/**
  Redaction of SQL text before it is stored: `redact_sql_for_storage`
  (src-tauri/src/intelligence/store.rs). The loop is proved equal to lexing the
  text by the quoting rules of ISO/IEC 9075-2 section 5.3, replacing the content
  of every literal, and printing the tokens again.
*/
module Redaction {
  import opened Text

  const QUOTE := '\''
  const MARKER: string := "[REDACTED]"

  // ----- the loop -----

  /** What the loop still appends when `s` is unread and `inQuote` is its flag. */
  function RedactFrom(s: string, inQuote: bool): string {
    if s == "" then ""
    else if s[0] == QUOTE then
      if inQuote && |s| > 1 && s[1] == QUOTE then "''" + RedactFrom(s[2..], true)
      else if inQuote then "'" + RedactFrom(s[1..], false)
      else "'" + MARKER + RedactFrom(s[1..], true)
    else if inQuote then RedactFrom(s[1..], true)
    else [s[0]] + RedactFrom(s[1..], false)
  }

  method RedactSqlForStorage(sql: string) returns (redacted: string)
    ensures redacted == Print(Erase(Lex(sql)))
  {
    redacted := "";
    var inSingleQuote := false;
    var i := 0;
    while i < |sql|
      invariant 0 <= i <= |sql|
      invariant redacted + RedactFrom(sql[i..], inSingleQuote) == RedactFrom(sql, false)
    {
      var ch := sql[i];
      if ch == QUOTE {
        if inSingleQuote && i + 1 < |sql| && sql[i + 1] == QUOTE {
          Assoc(redacted, "''", RedactFrom(sql[i..][2..], true));
          redacted := redacted + "''";
          i := i + 2;
          continue;
        }
        inSingleQuote := !inSingleQuote;
        Assoc(redacted, "'", RedactFrom(sql[i..][1..], false));
        Assoc(redacted, "'" + MARKER, RedactFrom(sql[i..][1..], true));
        Assoc(redacted, "'", MARKER);
        redacted := redacted + "'";
        if inSingleQuote {
          redacted := redacted + MARKER;
        }
        i := i + 1;
        continue;
      }
      if !inSingleQuote {
        Assoc(redacted, [ch], RedactFrom(sql[i..][1..], false));
        redacted := redacted + [ch];
      }
      i := i + 1;
    }
    assert sql[|sql|..] == "";
    assert redacted + "" == redacted;
    LoopIsLexErasePrint(sql);
  }

  // ----- the reference: tokens, lexer, printer -----

  /** One element of the text between the quotes of a literal. */
  datatype Unit = Content(c: char) | DoubledQuote

  /** `closed` is false for a literal that runs to the end of the text. */
  datatype Token = Plain(c: char) | Literal(body: seq<Unit>, closed: bool)

  predicate Clean(body: seq<Unit>) {
    forall i :: 0 <= i < |body| ==> body[i] != Content(QUOTE)
  }

  datatype Scan = Scan(body: seq<Unit>, closed: bool, rest: string)

  /** Reads a literal from just behind its opening quote. */
  function ScanBody(s: string): (r: Scan)
    ensures |r.rest| <= |s|
    ensures Clean(r.body)
    ensures !r.closed ==> r.rest == ""
    ensures r.closed && r.rest != "" ==> r.rest[0] != QUOTE
  {
    if s == "" then Scan([], false, "")
    else if s[0] != QUOTE then
      var r := ScanBody(s[1..]);
      r.(body := [Content(s[0])] + r.body)
    else if |s| > 1 && s[1] == QUOTE then
      var r := ScanBody(s[2..]);
      r.(body := [DoubledQuote] + r.body)
    else Scan([], true, s[1..])
  }

  function Lex(s: string): seq<Token>
    decreases |s|
  {
    if s == "" then []
    else if s[0] != QUOTE then [Plain(s[0])] + Lex(s[1..])
    else
      var r := ScanBody(s[1..]);
      [Literal(r.body, r.closed)] + Lex(r.rest)
  }

  function UnitText(u: Unit): string { if u.Content? then [u.c] else "''" }

  function PrintBody(body: seq<Unit>): string {
    if body == [] then ""
    else UnitText(body[0]) + PrintBody(body[1..])
  }

  function Closing(closed: bool): string { if closed then "'" else "" }

  function PrintToken(t: Token): string {
    match t
    case Plain(c) => [c]
    case Literal(body, closed) => "'" + PrintBody(body) + Closing(closed)
  }

  function Print(ts: seq<Token>): string {
    if ts == [] then "" else PrintToken(ts[0]) + Print(ts[1..])
  }

  // ----- erasing literal contents -----

  function Contents(s: string): seq<Unit> {
    if s == "" then [] else [Content(s[0])] + Contents(s[1..])
  }

  /** Only the doubled quotes of a literal's body. */
  function DoubledOnly(body: seq<Unit>): seq<Unit> {
    if body == [] then []
    else if body[0] == DoubledQuote then [DoubledQuote] + DoubledOnly(body[1..])
    else DoubledOnly(body[1..])
  }

  /** A literal keeps its doubled quotes; its content becomes the marker. */
  function EraseToken(t: Token): Token {
    match t
    case Plain(_) => t
    case Literal(body, closed) => Literal(Contents(MARKER) + DoubledOnly(body), closed)
  }

  function Erase(ts: seq<Token>): seq<Token> {
    if ts == [] then [] else [EraseToken(ts[0])] + Erase(ts[1..])
  }

  /** Token sequences the lexer can return. */
  ghost predicate WellFormed(ts: seq<Token>) {
    ts == [] ||
    (match ts[0]
     case Plain(c) => c != QUOTE && WellFormed(ts[1..])
     case Literal(body, closed) =>
       && Clean(body)
       && (closed ==> ts[1..] == [] || ts[1].Plain?)
       && (!closed ==> ts[1..] == [])
       && WellFormed(ts[1..]))
  }

  // ----- the loop equals the reference -----

  lemma {:induction false} PrintBodyAppend(a: seq<Unit>, b: seq<Unit>)
    ensures PrintBody(a + b) == PrintBody(a) + PrintBody(b)
  {
    if a == [] {
      assert a + b == b;
    } else {
      assert (a + b)[1..] == a[1..] + b;
      PrintBodyAppend(a[1..], b);
    }
  }

  lemma {:induction false} PrintContents(s: string)
    ensures PrintBody(Contents(s)) == s
  {
    if s != "" {
      assert Contents(s)[1..] == Contents(s[1..]);
      PrintContents(s[1..]);
    }
  }

  lemma {:induction false} InsideLiteral(s: string)
    ensures var r := ScanBody(s);
            RedactFrom(s, true) == PrintBody(DoubledOnly(r.body)) + Closing(r.closed) + RedactFrom(r.rest, false)
  {
    if s == "" {
    } else if s[0] != QUOTE {
      InsideLiteral(s[1..]);
      assert ScanBody(s).body[1..] == ScanBody(s[1..]).body;
    } else if |s| > 1 && s[1] == QUOTE {
      InsideLiteral(s[2..]);
      var r, r' := ScanBody(s), ScanBody(s[2..]);
      assert r.body[1..] == r'.body;
      var d, d' := DoubledOnly(r.body), DoubledOnly(r'.body);
      assert d[1..] == d' && UnitText(d[0]) == "''";
      Regroup("''", PrintBody(d'), Closing(r.closed), RedactFrom(r.rest, false));
    }
  }

  lemma Regroup(h: string, a: string, q: string, rest: string)
    ensures h + a + q + rest == h + (a + q + rest)
    ensures |h| == 1 ==> (h + a + q + rest)[1..] == a + q + rest
  {
  }

  lemma JoinFour(m: string, d: string, q: string, rest: string)
    ensures "'" + m + (d + q + rest) == ("'" + (m + d) + q) + rest
  {
  }

  lemma {:induction false} LoopIsLexErasePrint(s: string)
    ensures RedactFrom(s, false) == Print(Erase(Lex(s)))
    decreases |s|
  {
    if s == "" {
    } else {
      var ts := Lex(s);
      var es := Erase(ts);
      assert es[1..] == Erase(ts[1..]);
      if s[0] != QUOTE {
        LoopIsLexErasePrint(s[1..]);
        assert ts[1..] == Lex(s[1..]);
      } else {
        var r := ScanBody(s[1..]);
        assert ts[1..] == Lex(r.rest);
        LoopIsLexErasePrint(r.rest);
        InsideLiteral(s[1..]);
        PrintBodyAppend(Contents(MARKER), DoubledOnly(r.body));
        PrintContents(MARKER);
        assert PrintToken(es[0]) == "'" + (MARKER + PrintBody(DoubledOnly(r.body))) + Closing(r.closed);
        JoinFour(MARKER, PrintBody(DoubledOnly(r.body)), Closing(r.closed), RedactFrom(r.rest, false));
      }
    }
  }

  // ----- print / lex round trips -----

  lemma {:induction false} ScanPrint(s: string)
    ensures var r := ScanBody(s); PrintBody(r.body) + Closing(r.closed) + r.rest == s
  {
    if s == "" {
    } else if s[0] != QUOTE || (|s| > 1 && s[1] == QUOTE) {
      var k := if s[0] != QUOTE then 1 else 2;
      ScanPrint(s[k..]);
      var r, r' := ScanBody(s), ScanBody(s[k..]);
      assert r.body[1..] == r'.body;
      assert UnitText(r.body[0]) == s[..k];
      Regroup(s[..k], PrintBody(r'.body), Closing(r.closed), r.rest);
    }
  }

  lemma PrintCons(t: Token, ts: seq<Token>)
    ensures Print([t] + ts) == PrintToken(t) + Print(ts)
  {
    assert ([t] + ts)[1..] == ts;
  }

  lemma NothingPrinted()
    ensures Print([]) == ""
  {
  }

  lemma Requote(s: string, body: string, closing: string, rest: string)
    requires s != "" && s[0] == QUOTE && body + closing + rest == s[1..]
    ensures ("'" + body + closing) + rest == s
  {
    assert s == "'" + s[1..];
    assert ("'" + body + closing) + rest == "'" + (body + closing + rest);
  }

  /** Lexing loses nothing: any text is the printed form of its own tokens. */
  lemma {:induction false} PrintLex(s: string)
    ensures Print(Lex(s)) == s
    decreases |s|
  {
    hide Print, ScanBody, PrintBody;
    if s == "" {
      NothingPrinted();
    } else if s[0] != QUOTE {
      PrintLex(s[1..]);
      PrintCons(Plain(s[0]), Lex(s[1..]));
      assert [s[0]] + s[1..] == s;
    } else {
      var r := ScanBody(s[1..]);
      PrintLex(r.rest);
      PrintCons(Literal(r.body, r.closed), Lex(r.rest));
      ScanPrint(s[1..]);
      Requote(s, PrintBody(r.body), Closing(r.closed), r.rest);
    }
  }

  lemma {:induction false} LexWellFormed(s: string)
    ensures WellFormed(Lex(s))
    decreases |s|
  {
    if s != "" {
      if s[0] != QUOTE {
        assert Lex(s)[1..] == Lex(s[1..]);
        LexWellFormed(s[1..]);
      } else {
        var r := ScanBody(s[1..]);
        assert Lex(s)[1..] == Lex(r.rest);
        LexWellFormed(r.rest);
      }
    }
  }

  lemma {:induction false} ScanPrinted(body: seq<Unit>, closed: bool, rest: string)
    requires Clean(body)
    requires closed ==> rest == "" || rest[0] != QUOTE
    requires !closed ==> rest == ""
    ensures ScanBody(PrintBody(body) + Closing(closed) + rest) == Scan(body, closed, rest)
  {
    if body == [] {
      if closed {
        assert (PrintBody(body) + Closing(closed) + rest)[1..] == rest;
      }
    } else {
      var tail := PrintBody(body[1..]) + Closing(closed) + rest;
      ScanPrinted(body[1..], closed, rest);
      assert [body[0]] + body[1..] == body;
      var head := UnitText(body[0]);
      Regroup(head, PrintBody(body[1..]), Closing(closed), rest);
      ScanUnit(body[0], tail);
    }
  }

  lemma ScanUnit(u: Unit, tail: string)
    requires u != Content(QUOTE)
    ensures ScanBody(UnitText(u) + tail) == ScanBody(tail).(body := [u] + ScanBody(tail).body)
  {
    if u.Content? {
      assert (UnitText(u) + tail)[1..] == tail;
    } else {
      assert (UnitText(u) + tail)[2..] == tail;
    }
  }

  lemma FirstPrinted(ts: seq<Token>)
    requires WellFormed(ts)
    requires ts == [] || ts[0].Plain?
    ensures Print(ts) == "" <==> ts == []
    ensures ts != [] ==> Print(ts)[0] != QUOTE
  {
  }

  lemma {:induction false} LexPrint(ts: seq<Token>)
    requires WellFormed(ts)
    ensures Lex(Print(ts)) == ts
  {
    if ts != [] {
      LexPrint(ts[1..]);
      assert ts == [ts[0]] + ts[1..];
      var rest := Print(ts[1..]);
      if ts[0].Plain? {
        assert Print(ts)[1..] == rest;
      } else {
        LexPrintLiteral(ts[0], rest) by {
          if ts[0].closed {
            FirstPrinted(ts[1..]);
          }
        }
      }
    }
  }

  lemma LexPrintLiteral(t: Token, rest: string)
    requires t.Literal? && Clean(t.body)
    requires t.closed ==> rest == "" || rest[0] != QUOTE
    requires !t.closed ==> rest == ""
    ensures Lex(PrintToken(t) + rest) == [t] + Lex(rest)
  {
    ScanPrinted(t.body, t.closed, rest);
    Regroup("'", PrintBody(t.body), Closing(t.closed), rest);
    assert (PrintToken(t) + rest)[0] == QUOTE;
  }

  // ----- erasing is well formed and idempotent -----

  lemma {:induction false} ContentsFacts(s: string)
    ensures DoubledOnly(Contents(s)) == []
    ensures forall u :: u in Contents(s) ==> u.Content? && u.c in s
  {
    if s != "" {
      assert Contents(s)[1..] == Contents(s[1..]);
      ContentsFacts(s[1..]);
    }
  }

  lemma {:induction false} DoubledOnlyFacts(a: seq<Unit>, b: seq<Unit>)
    ensures DoubledOnly(a + b) == DoubledOnly(a) + DoubledOnly(b)
    ensures DoubledOnly(DoubledOnly(b)) == DoubledOnly(b)
    ensures forall u :: u in DoubledOnly(b) ==> u == DoubledQuote
    decreases |a| + |b|
  {
    if a != [] {
      assert (a + b)[1..] == a[1..] + b;
      DoubledOnlyFacts(a[1..], b);
    } else {
      assert a + b == b;
      if b != [] {
        DoubledOnlyFacts([], b[1..]);
        assert [] + b[1..] == b[1..];
        if b[0] == DoubledQuote {
          assert DoubledOnly(b)[1..] == DoubledOnly(b[1..]);
        }
      }
    }
  }

  lemma EraseTokenIdempotent(t: Token)
    ensures EraseToken(EraseToken(t)) == EraseToken(t)
  {
    if t.Literal? {
      ContentsFacts(MARKER);
      DoubledOnlyFacts(Contents(MARKER), DoubledOnly(t.body));
      DoubledOnlyFacts([], t.body);
      assert [] + DoubledOnly(t.body) == DoubledOnly(t.body);
    }
  }

  lemma {:induction false} EraseIdempotent(ts: seq<Token>)
    ensures Erase(Erase(ts)) == Erase(ts)
  {
    if ts != [] {
      EraseTokenIdempotent(ts[0]);
      assert Erase(ts)[1..] == Erase(ts[1..]);
      EraseIdempotent(ts[1..]);
    }
  }

  lemma CleanAppend(a: seq<Unit>, b: seq<Unit>)
    requires Clean(a) && Clean(b)
    ensures Clean(a + b)
  {
  }

  lemma {:induction false} CleanContents(s: string)
    requires QUOTE !in s
    ensures Clean(Contents(s))
  {
    if s != "" {
      assert Contents(s)[1..] == Contents(s[1..]);
      CleanContents(s[1..]);
      CleanAppend([Content(s[0])], Contents(s[1..]));
    }
  }

  lemma {:induction false} CleanDoubledOnly(body: seq<Unit>)
    ensures Clean(DoubledOnly(body))
  {
    if body != [] {
      CleanDoubledOnly(body[1..]);
      CleanAppend([DoubledQuote], DoubledOnly(body[1..]));
    }
  }

  lemma EraseTokenClean(t: Token)
    requires t.Literal?
    ensures Clean(EraseToken(t).body)
  {
    CleanContents(MARKER);
    CleanDoubledOnly(t.body);
    CleanAppend(Contents(MARKER), DoubledOnly(t.body));
  }

  lemma {:induction false} EraseWellFormed(ts: seq<Token>)
    requires WellFormed(ts)
    ensures WellFormed(Erase(ts))
  {
    if ts != [] {
      EraseWellFormed(ts[1..]);
      assert Erase(ts)[1..] == Erase(ts[1..]);
      if ts[0].Literal? {
        EraseTokenClean(ts[0]);
      }
    }
  }

  // ----- main results about the stored text -----

  /** The stored text, as the method returns it. */
  function Redacted(sql: string): string { Print(Erase(Lex(sql))) }

  /** The stored text lexes to the tokens of the input with their contents erased:
      everything outside literals is kept, in place, and so is every literal's
      position, its doubled quotes and whether it is terminated. */
  lemma RedactedLexes(sql: string)
    ensures Lex(Redacted(sql)) == Erase(Lex(sql))
  {
    LexWellFormed(sql);
    EraseWellFormed(Lex(sql));
    LexPrint(Erase(Lex(sql)));
  }

  lemma RedactionIdempotent(sql: string)
    ensures Redacted(Redacted(sql)) == Redacted(sql)
  {
    RedactedLexes(sql);
    EraseIdempotent(Lex(sql));
  }

  /** The quotes of a text. */
  function QuotesOf(v: string): string {
    if v == "" then "" else (if v[0] == '\'' then "'" else "") + QuotesOf(v[1..])
  }

  lemma {:induction false} TextInFront(a: string, rest: string)
    requires '\'' !in a
    ensures RedactFrom(a + rest, false) == a + RedactFrom(rest, false)
  {
    if a == "" {
      assert a + rest == rest;
    } else {
      TextInFront(a[1..], rest);
      assert (a + rest)[1..] == a[1..] + rest;
      Assoc([a[0]], a[1..], RedactFrom(rest, false));
      assert [a[0]] + a[1..] == a;
    }
  }

  lemma QuotesInside(s: string)
    ensures RedactFrom("''" + s, true) == "''" + RedactFrom(s, true)
  {
    assert ("''" + s)[2..] == s;
  }

  lemma CharacterInside(c: char, s: string)
    requires c != '\''
    ensures RedactFrom([c] + s, true) == RedactFrom(s, true)
  {
    assert ([c] + s)[1..] == s;
  }

  lemma DoubleCons(c: char, v: string)
    ensures Double([c] + v, '\'') == (if c == '\'' then "''" else [c]) + Double(v, '\'')
    ensures QuotesOf([c] + v) == (if c == '\'' then "'" else "") + QuotesOf(v)
  {
    assert ([c] + v)[1..] == v;
  }

  lemma NothingFirst(s: string)
    ensures "" + s == s && s + "" == s
  {
  }

  /** Inside a literal only quotes are kept, each of them doubled. */
  lemma {:induction false} OnlyQuotesKept(v: string, rest: string)
    requires rest == "" || (rest[0] == '\'' && (|rest| == 1 || rest[1] != '\''))
    ensures RedactFrom(Double(v, '\'') + rest, true) == Double(QuotesOf(v), '\'') + RedactFrom(rest, true)
  {
    if v == "" {
      assert Double("", '\'') == "" && QuotesOf("") == "";
      NothingFirst(rest);
      NothingFirst(RedactFrom(rest, true));
    } else {
      hide Double, QuotesOf, RedactFrom;
      var c, w := v[0], v[1..];
      assert v == [c] + w;
      OnlyQuotesKept(w, rest);
      DoubleCons(c, w);
      if c == '\'' {
        assert "'" == ['\''];
        DoubleCons('\'', QuotesOf(w));
        Assoc("''", Double(w, '\''), rest);
        Assoc("''", Double(QuotesOf(w), '\''), RedactFrom(rest, true));
        QuotesInside(Double(w, '\'') + rest);
      } else {
        NothingFirst(QuotesOf(w));
        Assoc([c], Double(w, '\''), rest);
        CharacterInside(c, Double(w, '\'') + rest);
      }
    }
  }

  /** What is stored for a text without quotes, a literal of any value, and the rest. Of
      the value nothing is left but its quotes; a literal that is not closed is stored
      the same way. */
  lemma LiteralIsHidden(a: string, v: string, rest: string)
    requires '\'' !in a && (rest == "" || rest[0] != '\'')
    ensures Redacted(a + ("'" + (Double(v, '\'') + ("'" + rest))))
         == a + ("'[REDACTED]" + (Double(QuotesOf(v), '\'') + ("'" + Redacted(rest))))
    ensures Redacted(a + ("'" + (Double(v, '\'') + ""))) == a + ("'[REDACTED]" + (Double(QuotesOf(v), '\'') + ""))
  {
    hide Double, QuotesOf;
    RedactedIsLoop(a + ("'" + (Double(v, '\'') + ("'" + rest))));
    RedactedIsLoop(a + ("'" + (Double(v, '\'') + "")));
    RedactedIsLoop(rest);
    TextInFront(a, "'" + (Double(v, '\'') + ("'" + rest)));
    TextInFront(a, "'" + (Double(v, '\'') + ""));
    Opened(Double(v, '\'') + ("'" + rest));
    Opened(Double(v, '\'') + "");
    OnlyQuotesKept(v, "'" + rest);
    OnlyQuotesKept(v, "");
    assert ("'" + rest)[1..] == rest;
  }

  lemma Opened(s: string)
    ensures RedactFrom("'" + s, false) == "'[REDACTED]" + RedactFrom(s, true)
  {
    assert ("'" + s)[1..] == s;
    assert "'" + MARKER == "'[REDACTED]";
  }

  lemma RedactedIsLoop(s: string)
    ensures Redacted(s) == RedactFrom(s, false)
  {
    LoopIsLexErasePrint(s);
  }

  /** A text without quotes is stored as it is. */
  lemma NothingToHide(a: string)
    requires '\'' !in a
    ensures Redacted(a) == a
  {
    hide Redacted;
    RedactedIsLoop(a);
    TextInFront(a, "");
    assert a + "" == a;
  }

  /** Two tokens that agree except for literal content other than quotes. */
  predicate SameShape(a: Token, b: Token) {
    if a.Plain? then a == b
    else b.Literal? && a.closed == b.closed && DoubledOnly(a.body) == DoubledOnly(b.body)
  }

  lemma Prefixed<T>(m: seq<T>, x: seq<T>, y: seq<T>)
    ensures m + x == m + y <==> x == y
  {
    assert (m + x)[|m|..] == x && (m + y)[|m|..] == y;
  }

  lemma SameShapeIffErasedAlike(a: Token, b: Token)
    ensures EraseToken(a) == EraseToken(b) <==> SameShape(a, b)
  {
    hide DoubledOnly, Contents;
    if a.Literal? && b.Literal? {
      Prefixed(Contents(MARKER), DoubledOnly(a.body), DoubledOnly(b.body));
    }
  }

  lemma {:induction false} SameShapeIffSameErasure(a: seq<Token>, b: seq<Token>)
    ensures Erase(a) == Erase(b) <==> |a| == |b| && forall i :: 0 <= i < |a| ==> SameShape(a[i], b[i])
  {
    hide EraseToken, SameShape;
    if a != [] && b != [] {
      SameShapeIffSameErasure(a[1..], b[1..]);
      SameShapeIffErasedAlike(a[0], b[0]);
      assert Erase(a)[1..] == Erase(a[1..]) && Erase(b)[1..] == Erase(b[1..]);
      assert Erase(a) == Erase(b) <==> EraseToken(a[0]) == EraseToken(b[0]) && Erase(a[1..]) == Erase(b[1..]);
      assert forall i :: 0 < i < |a| ==> a[i] == a[1..][i - 1];
      assert forall i :: 0 < i < |b| ==> b[i] == b[1..][i - 1];
    }
  }

  /** Exactly what the stored text reveals: two inputs are stored alike if and
      only if they differ in nothing but the non-quote content of literals. */
  lemma StoredAlikeIffSameShape(s: string, t: string)
    ensures Redacted(s) == Redacted(t) <==>
            |Lex(s)| == |Lex(t)| && forall i :: 0 <= i < |Lex(s)| ==> SameShape(Lex(s)[i], Lex(t)[i])
  {
    RedactedLexes(s);
    RedactedLexes(t);
    SameShapeIffSameErasure(Lex(s), Lex(t));
  }
}
