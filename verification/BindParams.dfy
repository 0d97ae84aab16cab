/**
  Bind parameters in SQL text: `detectParams` and `substituteParams`
  (src/components/dialogs/BindParamsDialog.tsx). Replacing one placeholder after
  the other, longest first, is compared with one simultaneous substitution.
*/
module BindParams {
  import opened Text
  import opened Wrappers

  predicate IsDigit(c: char) { '0' <= c <= '9' }

  predicate IsIdentStart(c: char) { 'a' <= c <= 'z' || 'A' <= c <= 'Z' || c == '_' }

  predicate IsWord(c: char) { IsIdentStart(c) || IsDigit(c) }

  predicate IsSigil(c: char) { c == ':' || c == '$' }

  /** `c` may start the name behind the sigil. */
  predicate Starts(sigil: char, c: char) {
    (sigil == ':' && IsIdentStart(c)) || (sigil == '$' && IsDigit(c))
  }

  /** `c` may continue the name behind the sigil. */
  predicate Continues(sigil: char, c: char) {
    (sigil == ':' && IsWord(c)) || (sigil == '$' && IsDigit(c))
  }

  /** `:name` or `$digits`. */
  predicate IsPlaceholder(p: string) {
    |p| >= 2 && IsSigil(p[0]) && Starts(p[0], p[1]) && forall i :: 1 <= i < |p| ==> Continues(p[0], p[i])
  }

  type Placeholder = p: string | IsPlaceholder(p) witness ":a"

  datatype Param = Param(placeholder: Placeholder, key: string, named: bool)

  // ----- lexing: maximal placeholders and single characters -----

  /** How many leading characters of `s` may continue a name. */
  function RunLength(sigil: char, s: string): (n: nat)
    ensures n <= |s|
    ensures forall i :: 0 <= i < n ==> Continues(sigil, s[i])
    ensures n < |s| ==> !Continues(sigil, s[n])
  {
    if s == "" || !Continues(sigil, s[0]) then 0 else 1 + RunLength(sigil, s[1..])
  }

  /** The length of the placeholder `s` starts with, 0 if there is none: one match
      of `:([a-zA-Z_]\w*)` or of `\$(\d+)`. */
  function MatchLength(sigil: char, s: string): (n: nat)
    ensures n <= |s|
    ensures n > 0 ==> IsPlaceholder(s[..n]) && s[0] == sigil
    ensures n > 0 && n < |s| ==> !Continues(sigil, s[n])
  {
    if |s| > 1 && IsSigil(sigil) && s[0] == sigil && Starts(sigil, s[1]) then 1 + RunLength(sigil, s[1..]) else 0
  }

  datatype Piece = Plain(c: char) | Token(text: Placeholder)

  function Lex(s: string): (ps: seq<Piece>)
    decreases |s|
  {
    if s == "" then []
    else
      var n := MatchLength(s[0], s);
      if n > 0 then [Token(s[..n])] + Lex(s[n..]) else [Plain(s[0])] + Lex(s[1..])
  }

  // ----- values as SQL literals -----

  /** The characters JavaScript's `trim` removes. */
  predicate IsJsSpace(c: char) {
    (IsSpace(c) && c != '\U{85}') || c == '\U{FEFF}'
  }

  function JsTrimStart(s: string): (r: string)
    ensures |r| <= |s| && r == s[|s| - |r|..]
  {
    if s != "" && IsJsSpace(s[0]) then JsTrimStart(s[1..]) else s
  }

  function JsTrimEnd(s: string): (r: string)
    ensures |r| <= |s| && r == s[..|r|]
  {
    if s != "" && IsJsSpace(s[|s| - 1]) then JsTrimEnd(s[..|s| - 1]) else s
  }

  function JsTrim(s: string): string { JsTrimEnd(JsTrimStart(s)) }

  predicate AllDigits(s: string) { s != "" && forall i :: 0 <= i < |s| ==> IsDigit(s[i]) }

  /** The pattern `^\d+(\.\d+)?$`. */
  predicate IsUnsigned(t: string) {
    || AllDigits(t)
    || exists i :: 0 <= i < |t| && t[i] == '.' && AllDigits(t[..i]) && AllDigits(t[i + 1..])
  }

  /** The pattern `^-?\d+(\.\d+)?$`. */
  predicate IsNumeric(s: string) {
    IsUnsigned(if s != "" && s[0] == '-' then s[1..] else s)
  }

  predicate IsNull(s: string) {
    |s| == 4 && s[0] in "nN" && s[1] in "uU" && s[2] in "lL" && s[3] in "lL"
  }

  function Quoted(raw: string): string { "'" + Double(raw, '\'') + "'" }

  function Literal(raw: string): string {
    var trimmed := JsTrim(raw);
    if IsNull(trimmed) then "NULL"
    else if IsNumeric(trimmed) then trimmed
    else Quoted(raw)
  }

  function ValueOf(values: map<string, string>, key: string): string {
    if key in values then values[key] else ""
  }

  /** A value that is neither NULL nor a number reads back from its literal. */
  lemma LiteralReadsBack(raw: string)
    requires !IsNull(JsTrim(raw)) && !IsNumeric(JsTrim(raw))
    ensures Literal(raw) != "" && LexQuoted(Literal(raw)[1..], '\'') == Some((raw, ""))
  {
    QuotedReadsBack(raw);
  }

  lemma QuotedReadsBack(raw: string)
    ensures Quoted(raw) != "" && LexQuoted(Quoted(raw)[1..], '\'') == Some((raw, ""))
  {
    LexQuotedDouble(raw, '\'', "");
    assert Quoted(raw)[1..] == Double(raw, '\'') + ['\''] + "";
  }

  // ----- sequential replacement -----

  /** Expansion of a replacement text by JavaScript's `replace`: `$$`, `$&`, `` $` ``
      and `$'` are special. */
  function Expand(replacement: string, matched: string, before: string, after: string): string {
    if |replacement| >= 2 && replacement[0] == '$' then
      (match replacement[1]
       case '$' => "$" + Expand(replacement[2..], matched, before, after)
       case '&' => matched + Expand(replacement[2..], matched, before, after)
       case '`' => before + Expand(replacement[2..], matched, before, after)
       case '\'' => after + Expand(replacement[2..], matched, before, after)
       case _ => "$" + Expand(replacement[1..], matched, before, after))
    else if replacement == "" then ""
    else [replacement[0]] + Expand(replacement[1..], matched, before, after)
  }

  /** `s.replace(/p/g, replacement)` from index `i` on. */
  function ReplaceFrom(s: string, i: nat, p: Placeholder, replacement: string): string
    decreases |s| - i
  {
    if i >= |s| then ""
    else if StartsWith(s[i..], p) then
      Expand(replacement, p, s[..i], s[i + |p|..]) + ReplaceFrom(s, i + |p|, p, replacement)
    else [s[i]] + ReplaceFrom(s, i + 1, p, replacement)
  }

  /** Stable insertion by descending placeholder length. */
  function InsertByLength(p: Param, ps: seq<Param>): (r: seq<Param>)
    ensures multiset(r) == multiset{p} + multiset(ps)
  {
    if ps == [] || |p.placeholder| >= |ps[0].placeholder| then [p] + ps
    else
      assert ps == [ps[0]] + ps[1..];
      [ps[0]] + InsertByLength(p, ps[1..])
  }

  function SortByLength(ps: seq<Param>): (r: seq<Param>)
    ensures multiset(r) == multiset(ps)
  {
    if ps == [] then []
    else
      assert ps == [ps[0]] + ps[1..];
      InsertByLength(ps[0], SortByLength(ps[1..]))
  }

  predicate SortedByLength(ps: seq<Param>) {
    forall i, j :: 0 <= i < j < |ps| ==> |ps[i].placeholder| >= |ps[j].placeholder|
  }

  lemma {:induction false} InsertKeepsOrder(p: Param, ps: seq<Param>)
    requires SortedByLength(ps)
    ensures SortedByLength(InsertByLength(p, ps))
  {
    hide IsPlaceholder;
    if ps != [] && |p.placeholder| < |ps[0].placeholder| {
      InsertKeepsOrder(p, ps[1..]);
      var r := InsertByLength(p, ps[1..]);
      forall q | q in r ensures |ps[0].placeholder| >= |q.placeholder| {
        assert q in multiset(r);
        assert q == p || q in ps[1..];
      }
    }
  }

  lemma {:induction false} SortedLongestFirst(ps: seq<Param>)
    ensures SortedByLength(SortByLength(ps))
  {
    if ps != [] {
      SortedLongestFirst(ps[1..]);
      InsertKeepsOrder(ps[0], SortByLength(ps[1..]));
    }
  }

  /** Params as `detectParams` builds them: the key is the placeholder's name. */
  predicate ProperParams(ps: seq<Param>) {
    forall i :: 0 <= i < |ps| ==> ps[i] == ParamOf(ps[i].placeholder)
  }

  function ParamOf(placeholder: Placeholder): Param {
    Param(placeholder, placeholder[1..], placeholder[0] == ':')
  }

  // ----- sequential and simultaneous substitution -----

  function RenderPiece(p: Piece, done: set<Placeholder>, lit: Placeholder -> string): string {
    match p
    case Plain(c) => [c]
    case Token(t) => if t in done then lit(t) else t
  }

  /** Replacing the placeholders one after the other, each by its literal. */
  function ReplaceEach(sql: string, ps: seq<Placeholder>, lit: Placeholder -> string): string
    decreases |ps|
  {
    if ps == [] then sql
    else
      var last := |ps| - 1;
      ReplaceFrom(ReplaceEach(sql, ps[..last], lit), 0, ps[last], lit(ps[last]))
  }

  /** The text with every placeholder in `done` replaced by its literal. */
  function Render(ps: seq<Piece>, done: set<Placeholder>, lit: Placeholder -> string): string {
    if ps == [] then "" else RenderPiece(ps[0], done, lit) + Render(ps[1..], done, lit)
  }

  /** Every maximal placeholder replaced by its literal, all at once. */
  function SubstituteAll(sql: string, lit: Placeholder -> string): string {
    Render(Lex(sql), Placeholders(Lex(sql)), lit)
  }

  function Placeholders(ps: seq<Piece>): set<Placeholder> {
    set i | 0 <= i < |ps| && ps[i].Token? :: ps[i].text
  }

  /** With a literal behind it, `front` could be read as the beginning of `p`. */
  predicate Extends(p: Placeholder, front: Piece, done: set<Placeholder>) {
    match front
    case Plain(c) => p[0] == c
    case Token(t) => t !in done && t < p
  }

  function FrontText(front: Piece): string {
    match front
    case Plain(c) => [c]
    case Token(t) => t
  }

  /** With these literals nothing but a `p` of the text is read as `p`. */
  ghost predicate Uncaptured(ps: seq<Piece>, done: set<Placeholder>, p: Placeholder, lit: Placeholder -> string) {
    forall i :: 0 <= i < |ps| && Extends(p, ps[i], done) ==> !StartsWith(Render(ps[i..], done, lit), p)
  }

  /** Nor does that happen at any stage. */
  ghost predicate NeverCaptured(ps: seq<Piece>, sorted: seq<Placeholder>, lit: Placeholder -> string) {
    forall k :: 0 <= k < |sorted| ==> Uncaptured(ps, Names(sorted[..k]), sorted[k], lit)
  }

  // ----- captures by literals of values -----

  /** How a literal without sigils can go on with a name: by digits or by NULL. */
  predicate IsWordLiteral(w: string) { AllDigits(w) || w == "NULL" }

  ghost predicate AllWords(words: map<Placeholder, string>) {
    forall t :: t in words ==> IsWordLiteral(words[t])
  }

  /** The text of the pieces, with these words for the placeholders in `done`,
      begins with `missing`. */
  predicate Spelled(missing: string, ps: seq<Piece>, done: set<Placeholder>, words: map<Placeholder, string>)
    decreases |ps|
  {
    || missing == ""
    || (ps != [] &&
        match ps[0]
        case Plain(c) => c == missing[0] && Spelled(missing[1..], ps[1..], done, words)
        case Token(t) =>
          && t in done && t in words
          && (missing <= words[t] ||
              (words[t] <= missing && Spelled(missing[|words[t]|..], ps[1..], done, words))))
  }

  /** At `i` stands the beginning of `p`, and digits or NULL for the placeholders
      behind it can spell out what is missing. */
  ghost predicate Capturable(ps: seq<Piece>, done: set<Placeholder>, p: Placeholder, i: nat) {
    && i < |ps| && Extends(p, ps[i], done)
    && exists words :: AllWords(words) && Spelled(p[|FrontText(ps[i])|..], ps[i + 1..], done, words)
  }

  ghost predicate Safe(ps: seq<Piece>, done: set<Placeholder>, p: Placeholder) {
    forall i :: 0 <= i < |ps| ==> !Capturable(ps, done, p, i)
  }

  /** No placeholder can be captured by the literals of any values without sigils. */
  ghost predicate NoValueCapture(ps: seq<Piece>, sorted: seq<Placeholder>) {
    forall k :: 0 <= k < |sorted| ==> Safe(ps, Names(sorted[..k]), sorted[k])
  }

  // ----- captures by arbitrary literals -----

  /** No literal of a placeholder in `done` stands where it could complete `p`. */
  predicate Free(ps: seq<Piece>, done: set<Placeholder>, p: Placeholder) {
    forall i :: 0 <= i < |ps| - 1 && ps[i + 1].Token? && ps[i + 1].text in done ==> !Extends(p, ps[i], done)
  }

  /** No placeholder replaced later extends the lone sigil or the placeholder in
      front of one replaced earlier. */
  ghost predicate NoCapture(ps: seq<Piece>, sorted: seq<Placeholder>) {
    forall k :: 0 <= k < |sorted| ==> Free(ps, Names(sorted[..k]), sorted[k])
  }

  predicate NoSigil(s: string) { forall i :: 0 <= i < |s| ==> !IsSigil(s[i]) }

  /** Literals that hold no sigil. */
  ghost predicate CleanLiterals(lit: Placeholder -> string, placeholders: set<Placeholder>) {
    forall t :: t in placeholders ==> NoSigil(lit(t))
  }

  /** What lexing guarantees about neighbours: nothing that could have been part
      of a placeholder was left outside. */
  predicate Maximal(ps: seq<Piece>) {
    forall i :: 0 <= i < |ps| - 1 && ps[i + 1].Plain? ==>
      match ps[i]
      case Plain(c) => !Starts(c, ps[i + 1].c)
      case Token(t) => !Continues(t[0], ps[i + 1].c)
  }

  // ----- facts about lexing -----

  lemma {:induction false} LexPrints(s: string, lit: Placeholder -> string)
    ensures Render(Lex(s), {}, lit) == s
    decreases |s|
  {
    if s != "" {
      var n := MatchLength(s[0], s);
      var k := if n > 0 then n else 1;
      LexPrints(s[k..], lit);
      RenderCons(Lex(s)[0], Lex(s[k..]), {}, lit);
      SplitAt(s, k);
    }
  }

  lemma RenderCons(p: Piece, ps: seq<Piece>, done: set<Placeholder>, lit: Placeholder -> string)
    ensures Render([p] + ps, done, lit) == RenderPiece(p, done, lit) + Render(ps, done, lit)
  {
    assert ([p] + ps)[1..] == ps;
  }

  lemma LexFirst(s: string)
    ensures (Lex(s) == []) == (s == "")
    ensures s != "" ==>
              Lex(s)[0] == if MatchLength(s[0], s) > 0 then Token(s[..MatchLength(s[0], s)]) else Plain(s[0])
  {
  }

  lemma {:induction false} LexMaximal(s: string)
    ensures Maximal(Lex(s))
    decreases |s|
  {
    if s != "" {
      var n := MatchLength(s[0], s);
      var k := if n > 0 then n else 1;
      LexMaximal(s[k..]);
      LexFirst(s[k..]);
      MaximalCons(Lex(s)[0], Lex(s[k..]));
    }
  }

  lemma MaximalCons(p: Piece, ps: seq<Piece>)
    requires Maximal(ps)
    requires ps != [] && ps[0].Plain? ==>
               match p
               case Plain(c) => !Starts(c, ps[0].c)
               case Token(t) => !Continues(t[0], ps[0].c)
    ensures Maximal([p] + ps)
  {
    var all := [p] + ps;
    forall i | 0 <= i < |all| - 1 && all[i + 1].Plain?
      ensures match all[i]
              case Plain(c) => !Starts(c, all[i + 1].c)
              case Token(t) => !Continues(t[0], all[i + 1].c)
    {
      if i > 0 {
        assert all[i] == ps[i - 1] && all[i + 1] == ps[i];
      }
    }
  }

  // ----- one replacement -----

  /** Replacement on a suffix, for a replacement text without `$`. */
  function Replace(s: string, p: Placeholder, l: string): string
    decreases |s|
  {
    if s == "" then ""
    else if StartsWith(s, p) then l + Replace(s[|p|..], p, l)
    else [s[0]] + Replace(s[1..], p, l)
  }

  lemma {:induction false} ExpandClean(l: string, matched: string, before: string, after: string)
    requires '$' !in l
    ensures Expand(l, matched, before, after) == l
  {
    if l != "" {
      ExpandClean(l[1..], matched, before, after);
      assert [l[0]] + l[1..] == l;
    }
  }

  lemma {:induction false} ReplaceFromSuffix(s: string, i: nat, p: Placeholder, l: string)
    requires i <= |s| && '$' !in l
    ensures ReplaceFrom(s, i, p, l) == Replace(s[i..], p, l)
    decreases |s| - i
  {
    if i < |s| {
      var suffix := s[i..];
      assert suffix[0] == s[i];
      if StartsWith(suffix, p) {
        ExpandClean(l, p, s[..i], s[i + |p|..]);
        assert suffix[|p|..] == s[i + |p|..];
        ReplaceFromSuffix(s, i + |p|, p, l);
      } else {
        assert suffix[1..] == s[i + 1..];
        ReplaceFromSuffix(s, i + 1, p, l);
      }
    }
  }

  /** Text without a sigil holds no occurrence and is passed through. */
  lemma {:induction false} PassThrough(l: string, rest: string, p: Placeholder, r: string)
    requires NoSigil(l)
    ensures Replace(l + rest, p, r) == l + Replace(rest, p, r)
  {
    if l == "" {
      assert l + rest == rest;
    } else {
      var s := l + rest;
      assert s[0] == l[0] && s[1..] == l[1..] + rest;
      Differs(s, p, 0);
      PassThrough(l[1..], rest, p, r);
      Assoc([l[0]], l[1..], Replace(rest, p, r));
      assert [l[0]] + l[1..] == l;
    }
  }

  /** Where no literal stands behind the beginning of `p`, nothing completes it. */
  lemma FreeIsUncaptured(ps: seq<Piece>, done: set<Placeholder>, p: Placeholder, lit: Placeholder -> string)
    requires Maximal(ps) && Free(ps, done, p)
    ensures Uncaptured(ps, done, p, lit)
  {
    forall i | 0 <= i < |ps| && Extends(p, ps[i], done)
      ensures !StartsWith(Render(ps[i..], done, lit), p)
    {
      var front, rest := FrontText(ps[i]), Render(ps[i + 1..], done, lit);
      assert ps[i..] == [ps[i]] + ps[i + 1..];
      RenderCons(ps[i], ps[i + 1..], done, lit);
      assert Render(ps[i..], done, lit) == front + rest;
      NextIsOther(ps, done, p, lit, i);
      if rest != "" {
        assert (front + rest)[|front|] == rest[0];
        Differs(front + rest, p, |front|);
      }
    }
  }

  /** What follows the beginning of `p` is not its next character. */
  lemma NextIsOther(ps: seq<Piece>, done: set<Placeholder>, p: Placeholder, lit: Placeholder -> string, i: nat)
    requires Maximal(ps) && Free(ps, done, p) && i < |ps| && Extends(p, ps[i], done)
    ensures var n, rest := |FrontText(ps[i])|, Render(ps[i + 1..], done, lit);
            n < |p| && (rest != "" ==> rest[0] != p[n])
  {
    if i + 1 < |ps| {
      assert ps[i + 1..][0] == ps[i + 1];
      if ps[i + 1].Token? {
        assert ps[i + 1].text !in done;
        assert Render(ps[i + 1..], done, lit)[0] == ps[i + 1].text[0];
      }
    }
  }

  /** What stands at a character is not taken for `p`. */
  lemma NoMatchAtPlain(c: char, ps: seq<Piece>, done: set<Placeholder>, p: Placeholder, lit: Placeholder -> string)
    requires Uncaptured([Plain(c)] + ps, done, p, lit)
    ensures !StartsWith([c] + Render(ps, done, lit), p)
  {
    var s, all := [c] + Render(ps, done, lit), [Plain(c)] + ps;
    if c != p[0] {
      Differs(s, p, 0);
    } else {
      RenderCons(Plain(c), ps, done, lit);
      assert all[0] == Plain(c) && all[0..] == all;
    }
  }

  /** What stands at another placeholder of at most `p`'s length is not taken for `p`. */
  lemma NoMatchAtToken(t: Placeholder, ps: seq<Piece>, done: set<Placeholder>, p: Placeholder,
                       lit: Placeholder -> string)
    requires t != p && |t| <= |p| && t !in done
    requires Uncaptured([Token(t)] + ps, done, p, lit)
    ensures !StartsWith(t + Render(ps, done, lit), p)
  {
    var s, all := t + Render(ps, done, lit), [Token(t)] + ps;
    if i :| 0 <= i < |t| && t[i] != p[i] {
      assert s[i] == t[i];
      Differs(s, p, i);
    } else if |t| == |p| {
      assert false;
    } else {
      assert t < p;
      RenderCons(Token(t), ps, done, lit);
      assert all[0] == Token(t) && all[0..] == all;
    }
  }

  lemma TailFacts(ps: seq<Piece>, done: set<Placeholder>, p: Placeholder, lit: Placeholder -> string)
    requires ps != [] && Uncaptured(ps, done, p, lit)
    ensures Uncaptured(ps[1..], done, p, lit) && ps == [ps[0]] + ps[1..]
  {
    forall i | 0 <= i < |ps[1..]| && Extends(p, ps[1..][i], done)
      ensures !StartsWith(Render(ps[1..][i..], done, lit), p)
    {
      assert ps[1..][i] == ps[i + 1] && ps[1..][i..] == ps[i + 1..];
    }
  }

  lemma ReplaceAtPlain(c: char, rest: string, p: Placeholder, l: string)
    requires !StartsWith([c] + rest, p)
    ensures Replace([c] + rest, p, l) == [c] + Replace(rest, p, l)
  {
    assert ([c] + rest)[1..] == rest;
  }

  lemma ReplaceAtMatch(p: Placeholder, rest: string, l: string)
    ensures Replace(p + rest, p, l) == l + Replace(rest, p, l)
  {
    StartsWithAppend(p, rest);
  }

  lemma ReplaceAtOther(t: Placeholder, rest: string, p: Placeholder, l: string)
    requires !StartsWith(t + rest, p)
    ensures Replace(t + rest, p, l) == t + Replace(rest, p, l)
  {
    assert [t[0]] + t[1..] == t;
    Assoc([t[0]], t[1..], rest);
    ReplaceAtPlain(t[0], t[1..] + rest, p, l);
    PassThrough(t[1..], rest, p, l);
    Assoc([t[0]], t[1..], Replace(rest, p, l));
  }

  /** What one replacement does to one piece. */
  lemma ReplaceToken(t: Placeholder, ps: seq<Piece>, done: set<Placeholder>, p: Placeholder, lit: Placeholder -> string)
    requires Uncaptured([Token(t)] + ps, done, p, lit)
    requires NoSigil(lit(t)) && (t in done || |t| <= |p|)
    ensures var rest, l := Render(ps, done, lit), lit(p);
            Replace(RenderPiece(Token(t), done, lit) + rest, p, l) ==
            RenderPiece(Token(t), done + {p}, lit) + Replace(rest, p, l)
  {
    var rest, l := Render(ps, done, lit), lit(p);
    if t in done {
      PassThrough(lit(t), rest, p, l);
    } else if t == p {
      ReplaceAtMatch(p, rest, l);
    } else {
      NoMatchAtToken(t, ps, done, p, lit);
      ReplaceAtOther(t, rest, p, l);
    }
  }

  lemma ReplacePlain(c: char, ps: seq<Piece>, done: set<Placeholder>, p: Placeholder, lit: Placeholder -> string)
    requires Uncaptured([Plain(c)] + ps, done, p, lit)
    ensures var rest, l := Render(ps, done, lit), lit(p);
            Replace([c] + rest, p, l) == [c] + Replace(rest, p, l)
  {
    NoMatchAtPlain(c, ps, done, p, lit);
    ReplaceAtPlain(c, Render(ps, done, lit), p, lit(p));
  }

  /** Every placeholder of the text is replaced already or no longer than `p`,
      and its literal holds no sigil. */
  ghost predicate Ready(ps: seq<Piece>, done: set<Placeholder>, p: Placeholder, lit: Placeholder -> string) {
    forall i :: 0 <= i < |ps| && ps[i].Token? ==>
      NoSigil(lit(ps[i].text)) && (ps[i].text in done || |ps[i].text| <= |p|)
  }

  /** One replacement turns the text with `done` replaced into the text with
      `done` and `p` replaced. */
  lemma {:induction false} ReplaceRendered(ps: seq<Piece>, done: set<Placeholder>, p: Placeholder,
                                           lit: Placeholder -> string)
    requires Uncaptured(ps, done, p, lit) && Ready(ps, done, p, lit)
    ensures Replace(Render(ps, done, lit), p, lit(p)) == Render(ps, done + {p}, lit)
  {
    if ps != [] {
      TailFacts(ps, done, p, lit);
      assert Ready(ps[1..], done, p, lit);
      ReplaceRendered(ps[1..], done, p, lit);
      match ps[0]
      case Plain(c) => ReplacePlain(c, ps[1..], done, p, lit);
      case Token(t) => ReplaceToken(t, ps[1..], done, p, lit);
    }
  }

  // ----- the main result -----

  predicate LongestFirst(ps: seq<Placeholder>) {
    forall i, j :: 0 <= i < j < |ps| ==> |ps[i]| >= |ps[j]|
  }

  function Names(ps: seq<Placeholder>): set<Placeholder> {
    set p | p in ps
  }

  lemma {:induction false} RenderOnlyOwn(ps: seq<Piece>, a: set<Placeholder>, b: set<Placeholder>,
                                         lit: Placeholder -> string)
    requires forall i :: 0 <= i < |ps| && ps[i].Token? ==> (ps[i].text in a <==> ps[i].text in b)
    ensures Render(ps, a, lit) == Render(ps, b, lit)
  {
    if ps != [] {
      assert forall i :: 0 <= i < |ps[1..]| ==> ps[1..][i] == ps[i + 1];
      RenderOnlyOwn(ps[1..], a, b, lit);
    }
  }

  lemma LengthsLeft(ps: seq<Piece>, sorted: seq<Placeholder>, k: nat, lit: Placeholder -> string)
    requires k < |sorted| && LongestFirst(sorted)
    requires Placeholders(ps) <= Names(sorted) && CleanLiterals(lit, Names(sorted))
    ensures Ready(ps, Names(sorted[..k]), sorted[k], lit)
  {
    forall i | 0 <= i < |ps| && ps[i].Token?
      ensures NoSigil(lit(ps[i].text))
      ensures ps[i].text in Names(sorted[..k]) || |ps[i].text| <= |sorted[k]|
    {
      assert ps[i].text in Placeholders(ps);
      var j :| 0 <= j < |sorted| && sorted[j] == ps[i].text;
      if j < k { assert sorted[..k][j] == ps[i].text; }
    }
  }

  lemma ReplaceNext(sql: string, sorted: seq<Placeholder>, k: nat, lit: Placeholder -> string)
    requires k < |sorted| && LongestFirst(sorted)
    requires Placeholders(Lex(sql)) <= Names(sorted)
    requires Uncaptured(Lex(sql), Names(sorted[..k]), sorted[k], lit) && CleanLiterals(lit, Names(sorted))
    ensures ReplaceFrom(Render(Lex(sql), Names(sorted[..k]), lit), 0, sorted[k], lit(sorted[k])) ==
            Render(Lex(sql), Names(sorted[..k]) + {sorted[k]}, lit)
  {
    var text, p := Render(Lex(sql), Names(sorted[..k]), lit), sorted[k];
    assert p in Names(sorted);
    assert '$' !in lit(p) by {
      assert NoSigil(lit(p));
    }
    assert text[0..] == text;
    ReplaceFromSuffix(text, 0, p, lit(p));
    LengthsLeft(Lex(sql), sorted, k, lit);
    ReplaceRendered(Lex(sql), Names(sorted[..k]), p, lit);
  }

  /** Replacing the first `k` of the longest-first placeholders. */
  lemma {:induction false} ReplacePrefix(sql: string, sorted: seq<Placeholder>, k: nat, lit: Placeholder -> string)
    requires k <= |sorted| && LongestFirst(sorted)
    requires Placeholders(Lex(sql)) <= Names(sorted) && CleanLiterals(lit, Names(sorted))
    requires forall j :: 0 <= j < k ==> Uncaptured(Lex(sql), Names(sorted[..j]), sorted[j], lit)
    ensures ReplaceEach(sql, sorted[..k], lit) == Render(Lex(sql), Names(sorted[..k]), lit)
  {
    hide Lex, Render, Uncaptured, LongestFirst, CleanLiterals, ReplaceFrom, Placeholders;
    if k == 0 {
      LexPrints(sql, lit);
      assert sorted[..0] == [] && Names([]) == {};
    } else {
      var firsts := sorted[..k];
      ReplacePrefix(sql, sorted, k - 1, lit);
      assert firsts[..k - 1] == sorted[..k - 1];
      ReplaceNext(sql, sorted, k - 1, lit);
      assert Names(firsts) == Names(sorted[..k - 1]) + {sorted[k - 1]};
    }
  }

  /** Sequential replacement, longest placeholder first, equals one simultaneous
      substitution of every maximal placeholder, when at no stage the literals
      inserted so far complete the placeholder replaced next. */
  lemma SequentialIsSimultaneous(sql: string, sorted: seq<Placeholder>, lit: Placeholder -> string)
    requires LongestFirst(sorted) && Placeholders(Lex(sql)) <= Names(sorted)
    requires NeverCaptured(Lex(sql), sorted, lit) && CleanLiterals(lit, Names(sorted))
    ensures ReplaceEach(sql, sorted, lit) == SubstituteAll(sql, lit)
  {
    hide Uncaptured;
    ReplacePrefix(sql, sorted, |sorted|, lit);
    assert sorted[..|sorted|] == sorted;
    forall i | 0 <= i < |Lex(sql)| && Lex(sql)[i].Token?
      ensures Lex(sql)[i].text in Names(sorted) <==> Lex(sql)[i].text in Placeholders(Lex(sql))
    {
      assert Lex(sql)[i].text in Placeholders(Lex(sql));
    }
    RenderOnlyOwn(Lex(sql), Names(sorted), Placeholders(Lex(sql)), lit);
  }

  // ----- detecting the parameters -----

  function ParseDigits(d: string): nat
    requires forall i :: 0 <= i < |d| ==> IsDigit(d[i])
  {
    if d == "" then 0
    else
      assert IsDigit(d[|d| - 1]);
      ParseDigits(d[..|d| - 1]) * 10 + (d[|d| - 1] as int - '0' as int)
  }

  function PrintNumber(n: nat): (d: string)
    ensures d != "" && forall i :: 0 <= i < |d| ==> IsDigit(d[i])
  {
    if n < 10 then [('0' as int + n) as char] else PrintNumber(n / 10) + [('0' as int + n % 10) as char]
  }

  /** `$n` for a number. */
  function PositionalName(n: nat): Placeholder { "$" + PrintNumber(n) }

  /** `detectParams` keeps only the number of a positional placeholder. */
  function Canonical(t: Placeholder): Placeholder {
    if t[0] == ':' then t else PositionalName(ParseDigits(t[1..]))
  }

  predicate NoLeadingZero(t: Placeholder) { t[0] == '$' ==> |t| == 2 || t[1] != '0' }

  lemma {:induction false} PrintParsed(d: string)
    requires d != "" && (forall i :: 0 <= i < |d| ==> IsDigit(d[i])) && (|d| == 1 || d[0] != '0')
    ensures PrintNumber(ParseDigits(d)) == d
    ensures d[0] != '0' ==> ParseDigits(d) > 0
  {
    var init, last := d[..|d| - 1], d[|d| - 1];
    if |d| == 1 {
      assert init == "" && d == [last];
    } else {
      PrintParsed(init);
      assert ParseDigits(d) / 10 == ParseDigits(init) && ParseDigits(d) % 10 == last as int - '0' as int;
      assert d == init + [last];
    }
  }

  lemma CanonicalUnlessLeadingZero(t: Placeholder)
    requires NoLeadingZero(t)
    ensures Canonical(t) == t
  {
    if t[0] == '$' {
      PrintParsed(t[1..]);
      assert t == "$" + t[1..];
    }
  }

  /** All matches of one of the two patterns, left to right. */
  function Scan(sigil: char, s: string): seq<Placeholder>
    decreases |s|
  {
    if s == "" then []
    else
      var n := MatchLength(sigil, s);
      if n > 0 then [s[..n]] + Scan(sigil, s[n..]) else Scan(sigil, s[1..])
  }

  /** Characters that cannot start a match are skipped. */
  lemma {:induction false} ScanSkips(sigil: char, s: string, k: nat)
    requires k <= |s| && forall i :: 0 <= i < k ==> s[i] != sigil
    ensures Scan(sigil, s) == Scan(sigil, s[k..])
    decreases k
  {
    if k == 0 {
      assert s[0..] == s;
    } else {
      assert MatchLength(sigil, s) == 0;
      ScanSkips(sigil, s[1..], k - 1);
      assert s[1..][k - 1..] == s[k..];
    }
  }

  /** The two scans together find exactly the maximal placeholders. */
  lemma {:induction false} ScansFindTokens(s: string)
    ensures Placeholders(Lex(s)) == Names(Scan(':', s)) + Names(Scan('$', s))
    decreases |s|
  {
    if s == "" {
      assert Placeholders([]) == {};
    } else {
      var n := MatchLength(s[0], s);
      var k := if n > 0 then n else 1;
      ScansFindTokens(s[k..]);
      PlaceholdersCons(Lex(s)[0], Lex(s[k..]));
      if n > 0 {
        OtherScanSkips(s, n);
        NamesCons(s[..n], Scan(s[0], s[n..]));
      } else {
        assert MatchLength(':', s) == 0 && MatchLength('$', s) == 0;
      }
    }
  }

  lemma OtherScanSkips(s: string, n: nat)
    requires s != "" && n == MatchLength(s[0], s) && n > 0
    ensures s[0] == ':' ==> Scan('$', s) == Scan('$', s[n..])
    ensures s[0] == '$' ==> Scan(':', s) == Scan(':', s[n..])
  {
    var t: Placeholder := s[..n];
    forall i | 0 <= i < n ensures s[i] != if s[0] == ':' then '$' else ':' {
      assert s[i] == t[i];
      if i > 0 { assert Continues(t[0], t[i]); }
    }
    ScanSkips(if s[0] == ':' then '$' else ':', s, n);
  }

  lemma PlaceholdersCons(p: Piece, ps: seq<Piece>)
    ensures Placeholders([p] + ps) == (if p.Token? then {p.text} else {}) + Placeholders(ps)
  {
    var all := [p] + ps;
    forall t | t in Placeholders(all) ensures t in (if p.Token? then {p.text} else {}) + Placeholders(ps) {
      var i :| 0 <= i < |all| && all[i].Token? && all[i].text == t;
      if i > 0 { assert ps[i - 1] == all[i]; }
    }
    forall t | t in (if p.Token? then {p.text} else {}) + Placeholders(ps) ensures t in Placeholders(all) {
      if p.Token? && t == p.text {
        assert all[0].text == t;
      } else {
        var i :| 0 <= i < |ps| && ps[i].Token? && ps[i].text == t;
        assert all[i + 1] == ps[i];
      }
    }
  }

  lemma NamesCons(p: Placeholder, ps: seq<Placeholder>)
    ensures Names([p] + ps) == {p} + Names(ps)
  {
  }

  // ----- the two functions of the dialog -----

  function PlaceholdersOf(ps: seq<Param>): (r: seq<Placeholder>)
    ensures |r| == |ps| && forall i :: 0 <= i < |r| ==> r[i] == ps[i].placeholder
  {
    if ps == [] then [] else [ps[0].placeholder] + PlaceholdersOf(ps[1..])
  }

  predicate Distinct<T(==)>(xs: seq<T>) {
    forall i, j :: 0 <= i < j < |xs| ==> xs[i] != xs[j]
  }

  /** The names `detectParams` reports for a set of placeholders. */
  function CanonicalOf(ps: set<Placeholder>): set<Placeholder> {
    set p | p in ps :: Canonical(p)
  }

  function NumberNames(ns: seq<nat>): set<Placeholder> {
    set n | n in ns :: PositionalName(n)
  }

  predicate Ascending(ns: seq<nat>) {
    forall i, j :: 0 <= i < j < |ns| ==> ns[i] < ns[j]
  }

  function InsertNumber(n: nat, ns: seq<nat>): (r: seq<nat>)
    ensures multiset(r) == multiset{n} + multiset(ns)
  {
    if ns == [] || n < ns[0] then [n] + ns
    else
      assert ns == [ns[0]] + ns[1..];
      [ns[0]] + InsertNumber(n, ns[1..])
  }

  function SortNumbers(ns: seq<nat>): (r: seq<nat>)
    ensures multiset(r) == multiset(ns)
  {
    if ns == [] then []
    else
      assert ns == [ns[0]] + ns[1..];
      InsertNumber(ns[0], SortNumbers(ns[1..]))
  }

  lemma {:induction false} InsertAscending(n: nat, ns: seq<nat>)
    requires Ascending(ns) && n !in ns
    ensures Ascending(InsertNumber(n, ns))
  {
    if ns == [] || n < ns[0] {
      AscendingCons(n, ns);
    } else {
      var r := InsertNumber(n, ns[1..]);
      assert n != ns[0] && Ascending(ns[1..]) && n !in ns[1..];
      InsertAscending(n, ns[1..]);
      forall x | x in r ensures ns[0] < x {
        assert x in multiset(r) && ns[0] in ns;
        if x != n {
          var j :| 0 <= j < |ns[1..]| && ns[1..][j] == x;
          assert ns[j + 1] == x;
        }
      }
      AscendingCons(ns[0], r);
    }
  }

  lemma AscendingCons(n: nat, ns: seq<nat>)
    requires Ascending(ns) && forall x :: x in ns ==> n < x
    ensures Ascending([n] + ns)
  {
    forall i, j | 0 <= i < j < |[n] + ns| ensures ([n] + ns)[i] < ([n] + ns)[j] {
      assert ([n] + ns)[j] == ns[j - 1] && ns[j - 1] in ns;
      if i > 0 { assert ([n] + ns)[i] == ns[i - 1]; }
    }
  }

  /** The positional parameters are reported in ascending order. */
  lemma {:induction false} SortedAscending(ns: seq<nat>)
    requires Distinct(ns)
    ensures Ascending(SortNumbers(ns))
  {
    if ns != [] {
      SortedAscending(ns[1..]);
      assert ns[0] !in ns[1..];
      assert ns[0] !in multiset(SortNumbers(ns[1..]));
      InsertAscending(ns[0], SortNumbers(ns[1..]));
    }
  }

  lemma SortedSameNames(ns: seq<nat>)
    ensures NumberNames(SortNumbers(ns)) == NumberNames(ns)
  {
    assert forall x :: x in SortNumbers(ns) <==> x in multiset(SortNumbers(ns));
    assert forall x :: x in ns <==> x in multiset(ns);
  }

  /** `seen` and then the first occurrences in `ps` of what is not in it. */
  function Firsts<T(==)>(seen: seq<T>, ps: seq<T>): seq<T>
    decreases |ps|
  {
    if ps == [] then seen else Firsts(if ps[0] in seen then seen else seen + [ps[0]], ps[1..])
  }

  lemma FirstsCons<T>(seen: seq<T>, p: T, ps: seq<T>)
    ensures Firsts(seen, [p] + ps) == Firsts(if p in seen then seen else seen + [p], ps)
  {
    assert ([p] + ps)[1..] == ps;
  }

  function NumberOf(t: Placeholder): nat {
    if t[0] == '$' then ParseDigits(t[1..]) else 0
  }

  function NumbersOf(ps: seq<Placeholder>): seq<nat> {
    if ps == [] then [] else [NumberOf(ps[0])] + NumbersOf(ps[1..])
  }

  lemma NumbersOfCons(p: Placeholder, ps: seq<Placeholder>)
    ensures NumbersOf([p] + ps) == [NumberOf(p)] + NumbersOf(ps)
  {
    assert ([p] + ps)[1..] == ps;
  }

  function PositionalNames(ns: seq<nat>): seq<Placeholder> {
    if ns == [] then [] else [PositionalName(ns[0])] + PositionalNames(ns[1..])
  }

  /** The placeholders `detectParams` reports, in its order: named ones as they
      occur, then positional ones by number. */
  function DetectedOrder(sql: string): seq<Placeholder> {
    Firsts(Firsts([], Scan(':', sql)), PositionalNames(SortNumbers(Firsts([], NumbersOf(Scan('$', sql))))))
  }

  /** Parameters without repetition, for exactly these placeholders. */
  ghost predicate Collected(params: seq<Param>, names: set<Placeholder>) {
    ProperParams(params) && Distinct(PlaceholdersOf(params)) && Names(PlaceholdersOf(params)) == names
  }

  lemma CollectedSnoc(params: seq<Param>, names: set<Placeholder>, p: Param)
    requires Collected(params, names) && p.placeholder !in names && p == ParamOf(p.placeholder)
    ensures Collected(params + [p], names + {p.placeholder})
    ensures PlaceholdersOf(params + [p]) == PlaceholdersOf(params) + [p.placeholder]
  {
    var before, after := PlaceholdersOf(params), PlaceholdersOf(params + [p]);
    assert after == before + [p.placeholder];
    assert p.placeholder !in before;
  }

  lemma ScanStep(sigil: char, s: string)
    requires s != ""
    ensures var n := MatchLength(sigil, s);
            if n > 0 then Scan(sigil, s) == [s[..n]] + Scan(sigil, s[n..]) else Scan(sigil, s) == Scan(sigil, s[1..])
  {
  }

  /** The first loop: one parameter for each distinct `:name`. */
  method CollectNamed(sql: string) returns (params: seq<Param>, seen: set<Placeholder>)
    ensures Collected(params, seen) && seen == Names(Scan(':', sql))
    ensures PlaceholdersOf(params) == Firsts([], Scan(':', sql))
  {
    hide Scan, Collected, Firsts, PlaceholdersOf, MatchLength;
    params, seen := [], {};
    NothingCollected();
    var rest := sql;
    while rest != ""
      invariant Collected(params, seen)
      invariant Names(Scan(':', sql)) == seen + Names(Scan(':', rest))
      invariant Firsts(PlaceholdersOf(params), Scan(':', rest)) == Firsts([], Scan(':', sql))
      decreases |rest|
    {
      var n := MatchLength(':', rest);
      ScanStep(':', rest);
      if n > 0 {
        var param := Param(rest[..n], rest[1..n], true);
        NamesCons(param.placeholder, Scan(':', rest[n..]));
        FirstsCons(PlaceholdersOf(params), param.placeholder, Scan(':', rest[n..]));
        CollectedMembers(params, seen, param.placeholder);
        if param.placeholder !in seen {
          CollectedSnoc(params, seen, param);
          seen := seen + {param.placeholder};
          params := params + [param];
        }
      }
      rest := rest[if n > 0 then n else 1..];
    }
    NothingScanned(':');
    FirstsOfNone(PlaceholdersOf(params));
  }

  lemma NothingCollected()
    ensures Collected([], {}) && PlaceholdersOf([]) == []
  {
  }

  lemma NothingScanned(sigil: char)
    ensures Scan(sigil, "") == []
  {
  }

  lemma FirstsOfNone<T>(seen: seq<T>)
    ensures Firsts(seen, []) == seen
  {
  }

  lemma CollectedMembers(params: seq<Param>, names: set<Placeholder>, p: Placeholder)
    requires Collected(params, names)
    ensures p in names <==> p in PlaceholdersOf(params)
  {
  }

  /** The second loop: the distinct numbers of the `$n`. */
  method CollectNumbers(sql: string) returns (positional: seq<nat>)
    ensures Distinct(positional)
    ensures NumberNames(positional) == CanonicalOf(Names(Scan('$', sql)))
    ensures positional == Firsts([], NumbersOf(Scan('$', sql)))
  {
    hide Scan, Firsts, MatchLength, NumbersOf, CanonicalOf, NumberNames, ParseDigits;
    positional := [];
    NoNumbers();
    var rest := sql;
    while rest != ""
      invariant Distinct(positional)
      invariant CanonicalOf(Names(Scan('$', sql))) == NumberNames(positional) + CanonicalOf(Names(Scan('$', rest)))
      invariant Firsts(positional, NumbersOf(Scan('$', rest))) == Firsts([], NumbersOf(Scan('$', sql)))
      decreases |rest|
    {
      var n := MatchLength('$', rest);
      ScanStep('$', rest);
      if n > 0 {
        var placeholder: Placeholder := rest[..n];
        var number := ParseDigits(placeholder[1..]);
        CanonicalCons(placeholder, Scan('$', rest[n..]));
        NumberNamesSnoc(positional, number);
        NumbersOfCons(placeholder, Scan('$', rest[n..]));
        FirstsCons(positional, number, NumbersOf(Scan('$', rest[n..])));
        if number !in positional {
          positional := positional + [number];
        }
      }
      rest := rest[if n > 0 then n else 1..];
    }
    NothingScanned('$');
    FirstsOfNone(positional);
  }

  lemma NoNumbers()
    ensures NumberNames([]) == {} && NumbersOf([]) == [] && CanonicalOf(Names([])) == {}
  {
  }

  lemma CanonicalCons(p: Placeholder, ps: seq<Placeholder>)
    ensures CanonicalOf(Names([p] + ps)) == {Canonical(p)} + CanonicalOf(Names(ps))
  {
    NamesCons(p, ps);
  }

  lemma NumberNamesSnoc(ns: seq<nat>, n: nat)
    ensures NumberNames(ns + [n]) == NumberNames(ns) + {PositionalName(n)}
    ensures n in ns ==> PositionalName(n) in NumberNames(ns)
  {
  }

  method DetectParams(sql: string) returns (params: seq<Param>)
    ensures Collected(params, CanonicalOf(Placeholders(Lex(sql))))
    ensures PlaceholdersOf(params) == DetectedOrder(sql)
  {
    hide Scan, Collected, Firsts, PlaceholdersOf, NumbersOf, CanonicalOf, NumberNames, PositionalName, PositionalNames,
         Lex;
    var seen;
    params, seen := CollectNamed(sql);
    var positional := CollectNumbers(sql);
    var sorted := SortNumbers(positional);
    ghost var named, rest := seen, sorted;
    for j := 0 to |sorted|
      invariant rest == sorted[j..]
      invariant Collected(params, seen)
      invariant named + NumberNames(sorted) == seen + NumberNames(rest)
      invariant Firsts(PlaceholdersOf(params), PositionalNames(rest)) == DetectedOrder(sql)
    {
      assert rest[0] == sorted[j] && rest[1..] == sorted[j + 1..];
      NumberNamesCons(rest);
      var placeholder := PositionalName(sorted[j]);
      PositionalNamesCons(rest);
      FirstsCons(PlaceholdersOf(params), placeholder, PositionalNames(rest[1..]));
      CollectedMembers(params, seen, placeholder);
      if placeholder !in seen {
        var param := Param(placeholder, placeholder[1..], false);
        PositionalSigil(sorted[j]);
        CollectedSnoc(params, seen, param);
        seen := seen + {placeholder};
        params := params + [param];
      }
      rest := rest[1..];
    }
    PositionalOfNone();
    FirstsOfNone(PlaceholdersOf(params));
    SortedSameNames(positional);
    DetectedNames(sql, positional);
    assert rest == [] && seen == CanonicalOf(Placeholders(Lex(sql)));
  }

  lemma PositionalNamesCons(ns: seq<nat>)
    requires ns != []
    ensures PositionalNames(ns) == [PositionalName(ns[0])] + PositionalNames(ns[1..])
  {
  }

  lemma PositionalOfNone()
    ensures PositionalNames([]) == [] && NumberNames([]) == {}
  {
  }

  lemma PositionalSigil(n: nat)
    ensures PositionalName(n)[0] == '$'
  {
  }

  lemma NumberNamesCons(ns: seq<nat>)
    requires ns != []
    ensures NumberNames(ns) == {PositionalName(ns[0])} + NumberNames(ns[1..])
  {
    assert ns == [ns[0]] + ns[1..];
  }

  lemma {:induction false} NamedScanIsCanonical(s: string)
    ensures CanonicalOf(Names(Scan(':', s))) == Names(Scan(':', s))
    decreases |s|
  {
    if s != "" {
      var n := MatchLength(':', s);
      NamedScanIsCanonical(s[if n > 0 then n else 1..]);
      if n > 0 {
        CanonicalCons(s[..n], Scan(':', s[n..]));
        NamesCons(s[..n], Scan(':', s[n..]));
      }
    }
  }

  lemma DetectedNames(sql: string, positional: seq<nat>)
    requires NumberNames(positional) == CanonicalOf(Names(Scan('$', sql)))
    ensures Names(Scan(':', sql)) + NumberNames(positional) == CanonicalOf(Placeholders(Lex(sql)))
  {
    ScansFindTokens(sql);
    NamedScanIsCanonical(sql);
    CanonicalUnion(Names(Scan(':', sql)), Names(Scan('$', sql)));
  }

  lemma CanonicalUnion(a: set<Placeholder>, b: set<Placeholder>)
    ensures CanonicalOf(a + b) == CanonicalOf(a) + CanonicalOf(b)
  {
  }

  /** Values as literals, by placeholder. */
  function Literals(values: map<string, string>): Placeholder -> string {
    (t: Placeholder) => Literal(ValueOf(values, t[1..]))
  }

  method SubstituteParams(sql: string, params: seq<Param>, values: map<string, string>) returns (result: string)
    requires ProperParams(params)
    ensures result == ReplaceEach(sql, PlaceholdersOf(SortByLength(params)), Literals(values))
  {
    hide SortByLength, PlaceholdersOf, ReplaceEach, ReplaceFrom, Literal, IsPlaceholder;
    result := sql;
    var sorted := SortByLength(params);
    ProperSorted(params);
    ghost var names := PlaceholdersOf(sorted);
    assert names[..0] == [];
    ReplaceNone(sql, Literals(values));
    for i := 0 to |sorted|
      invariant result == ReplaceEach(sql, names[..i], Literals(values))
    {
      LiteralByKey(values, sorted[i]);
      ReplaceEachNext(sql, names, i, Literals(values));
      result := ReplaceFrom(result, 0, sorted[i].placeholder, Literal(ValueOf(values, sorted[i].key)));
    }
    assert names[..|sorted|] == names;
  }

  lemma ReplaceNone(sql: string, lit: Placeholder -> string)
    ensures ReplaceEach(sql, [], lit) == sql
  {
  }

  lemma LiteralByKey(values: map<string, string>, p: Param)
    requires p == ParamOf(p.placeholder)
    ensures Literals(values)(p.placeholder) == Literal(ValueOf(values, p.key))
  {
  }

  lemma ReplaceEachNext(sql: string, ps: seq<Placeholder>, i: nat, lit: Placeholder -> string)
    requires i < |ps|
    ensures ReplaceEach(sql, ps[..i + 1], lit) == ReplaceFrom(ReplaceEach(sql, ps[..i], lit), 0, ps[i], lit(ps[i]))
  {
    assert ps[..i + 1] == ps[..i] + [ps[i]];
    ReplaceEachSnoc(sql, ps[..i], ps[i], lit);
  }

  lemma ReplaceEachSnoc(sql: string, ps: seq<Placeholder>, p: Placeholder, lit: Placeholder -> string)
    ensures ReplaceEach(sql, ps + [p], lit) == ReplaceFrom(ReplaceEach(sql, ps, lit), 0, p, lit(p))
  {
    assert (ps + [p])[..|ps|] == ps;
  }

  lemma ProperSorted(params: seq<Param>)
    requires ProperParams(params)
    ensures ProperParams(SortByLength(params))
  {
    var sorted := SortByLength(params);
    forall i | 0 <= i < |sorted| ensures sorted[i] == ParamOf(sorted[i].placeholder) {
      assert sorted[i] in multiset(sorted);
    }
  }

  lemma SameMembersSameNames(a: seq<Param>, b: seq<Param>)
    requires multiset(a) == multiset(b)
    ensures Names(PlaceholdersOf(a)) <= Names(PlaceholdersOf(b))
  {
    forall t | t in Names(PlaceholdersOf(a)) ensures t in Names(PlaceholdersOf(b)) {
      var i :| 0 <= i < |a| && a[i].placeholder == t;
      assert a[i] in multiset(b);
      var j :| 0 <= j < |b| && b[j] == a[i];
      assert PlaceholdersOf(b)[j] == t;
    }
  }

  lemma SortedPlaceholders(params: seq<Param>)
    ensures LongestFirst(PlaceholdersOf(SortByLength(params)))
    ensures Names(PlaceholdersOf(SortByLength(params))) == Names(PlaceholdersOf(params))
  {
    SortedLongestFirst(params);
    SameMembersSameNames(params, SortByLength(params));
    SameMembersSameNames(SortByLength(params), params);
  }

  function ParamsOf(ps: seq<Placeholder>): (r: seq<Param>)
    ensures |r| == |ps| && forall i :: 0 <= i < |r| ==> r[i] == ParamOf(ps[i])
  {
    if ps == [] then [] else [ParamOf(ps[0])] + ParamsOf(ps[1..])
  }

  /** The order in which the placeholders of a text are replaced. */
  function ReplacementOrder(sql: string): seq<Placeholder> {
    PlaceholdersOf(SortByLength(ParamsOf(DetectedOrder(sql))))
  }

  lemma ParamsDetermined(params: seq<Param>)
    requires ProperParams(params)
    ensures params == ParamsOf(PlaceholdersOf(params))
  {
  }

  // ----- what literals of values can complete -----

  predicate IsNumberChar(c: char) { IsDigit(c) || c == '.' || c == '-' }

  /** NULL, a number or a quoted text. */
  predicate IsValueLiteral(l: string) {
    l != "" && (l == "NULL" || l[0] == '\'' || forall i :: 0 <= i < |l| ==> IsNumberChar(l[i]))
  }

  lemma LiteralShape(raw: string)
    ensures IsValueLiteral(Literal(raw))
  {
    hide IsNull, JsTrim, Double;
    var t := JsTrim(raw);
    if IsNumeric(t) {
      NumberChars(t);
    }
  }

  lemma UnsignedChars(t: string)
    requires IsUnsigned(t)
    ensures t != "" && forall i :: 0 <= i < |t| ==> IsNumberChar(t[i])
  {
    if !AllDigits(t) {
      var k :| 0 <= k < |t| && t[k] == '.' && AllDigits(t[..k]) && AllDigits(t[k + 1..]);
      forall i | 0 <= i < |t|
        ensures IsNumberChar(t[i])
      {
        if i < k {
          assert t[i] == t[..k][i];
        } else if i > k {
          assert t[i] == t[k + 1..][i - k - 1];
        }
      }
    }
  }

  lemma NumberChars(s: string)
    requires IsNumeric(s)
    ensures s != "" && forall i :: 0 <= i < |s| ==> IsNumberChar(s[i])
  {
    hide AllDigits, IsNumberChar;
    if s != "" && s[0] == '-' {
      UnsignedChars(s[1..]);
      SignedChars(s);
    } else {
      UnsignedChars(s);
    }
  }

  lemma SignedChars(s: string)
    requires s != "" && s[0] == '-' && forall i :: 0 <= i < |s[1..]| ==> IsNumberChar(s[1..][i])
    ensures forall i :: 0 <= i < |s| ==> IsNumberChar(s[i])
  {
    forall i | 0 <= i < |s|
      ensures IsNumberChar(s[i])
    {
      if i > 0 { assert s[i] == s[1..][i - 1]; }
    }
  }

  /** How far a literal can go on with a name. */
  function WordOf(l: string): string {
    if l == "NULL" then l else l[..RunLength('$', l)]
  }

  function WordsOf(done: set<Placeholder>, lit: Placeholder -> string): map<Placeholder, string> {
    map t | t in done && WordOf(lit(t)) != "" :: WordOf(lit(t))
  }

  lemma WordsAreWords(done: set<Placeholder>, lit: Placeholder -> string)
    ensures AllWords(WordsOf(done, lit))
  {
  }

  lemma PrefixChar(s: string, missing: string, l: string, rest: string, n: nat)
    requires s == l + rest && StartsWith(s, missing)
    ensures n < |missing| && n < |l| ==> missing[n] == l[n]
  {
    if n < |missing| {
      assert s[..|missing|][n] == s[n];
    }
  }

  /** A literal that goes on with a name does so with its word. */
  lemma WordMatches(missing: string, l: string, rest: string)
    requires missing != "" && (forall i :: 0 <= i < |missing| ==> IsWord(missing[i]))
    requires IsValueLiteral(l) && StartsWith(l + rest, missing)
    ensures WordOf(l) != ""
    ensures missing <= WordOf(l) ||
            (WordOf(l) == l && l <= missing && StartsWith(rest, missing[|l|..]))
  {
    var s := l + rest;
    forall n | 0 <= n < |missing| && n < |l|
      ensures missing[n] == l[n]
    {
      PrefixChar(s, missing, l, rest, n);
    }
    assert missing[0] == l[0];
    if |l| < |missing| {
      assert missing[|l|..] == s[|l|..|missing|] == rest[..|missing| - |l|];
    }
  }

  /** What these literals complete can be spelled by words. */
  lemma {:induction false} MatchIsSpelled(missing: string, ps: seq<Piece>, done: set<Placeholder>,
                                          lit: Placeholder -> string)
    requires StartsWith(Render(ps, done, lit), missing)
    requires forall i :: 0 <= i < |missing| ==> IsWord(missing[i])
    requires forall t :: t in done ==> IsValueLiteral(lit(t))
    ensures Spelled(missing, ps, done, WordsOf(done, lit))
    decreases |ps|
  {
    if missing != "" {
      var text, rest := Render(ps, done, lit), Render(ps[1..], done, lit);
      assert missing[0] == text[..|missing|][0] == text[0];
      match ps[0]
      case Plain(c) =>
        assert text == [c] + rest && text[1..] == rest;
        assert missing[1..] == text[1..|missing|] == rest[..|missing| - 1];
        MatchIsSpelled(missing[1..], ps[1..], done, lit);
      case Token(t) =>
        if t in done {
          WordMatches(missing, lit(t), rest);
          if !(missing <= WordOf(lit(t))) {
            MatchIsSpelled(missing[|lit(t)|..], ps[1..], done, lit);
          }
        }
    }
  }

  lemma TailOfName(p: Placeholder, k: nat)
    requires 0 < k <= |p|
    ensures forall i :: 0 <= i < |p[k..]| ==> IsWord(p[k..][i])
  {
    forall i | 0 <= i < |p[k..]|
      ensures IsWord(p[k..][i])
    {
      assert p[k..][i] == p[k + i] && Continues(p[0], p[k + i]);
    }
  }

  lemma MatchIsCapture(ps: seq<Piece>, done: set<Placeholder>, p: Placeholder, lit: Placeholder -> string, i: nat)
    requires i < |ps| && Extends(p, ps[i], done) && StartsWith(Render(ps[i..], done, lit), p)
    requires forall t :: t in done ==> IsValueLiteral(lit(t))
    ensures Capturable(ps, done, p, i)
  {
    hide Spelled, IsValueLiteral, WordsOf, AllWords;
    TailStands(ps, done, p, lit, i);
    TailOfName(p, |FrontText(ps[i])|);
    MatchIsSpelled(p[|FrontText(ps[i])|..], ps[i + 1..], done, lit);
    WordsAreWords(done, lit);
  }

  /** Where no words can complete a placeholder, no literals of values do. */
  lemma SafeIsUncaptured(ps: seq<Piece>, done: set<Placeholder>, p: Placeholder, lit: Placeholder -> string)
    requires Safe(ps, done, p) && forall t :: t in done ==> IsValueLiteral(lit(t))
    ensures Uncaptured(ps, done, p, lit)
  {
    hide Capturable, IsValueLiteral;
    forall i | 0 <= i < |ps| && Extends(p, ps[i], done)
      ensures !StartsWith(Render(ps[i..], done, lit), p)
    {
      if StartsWith(Render(ps[i..], done, lit), p) {
        MatchIsCapture(ps, done, p, lit, i);
      }
    }
  }

  lemma TailStands(ps: seq<Piece>, done: set<Placeholder>, p: Placeholder, lit: Placeholder -> string, i: nat)
    requires i < |ps| && Extends(p, ps[i], done)
    ensures 0 < |FrontText(ps[i])| < |p|
    ensures StartsWith(Render(ps[i..], done, lit), p) <==>
            StartsWith(Render(ps[i + 1..], done, lit), p[|FrontText(ps[i])|..])
  {
    var front, rest := FrontText(ps[i]), Render(ps[i + 1..], done, lit);
    assert ps[i..] == [ps[i]] + ps[i + 1..];
    RenderCons(ps[i], ps[i + 1..], done, lit);
    assert p[..|front|] == front;
    PrefixBehind(front, p[|front|..], rest);
    SplitAt(p, |front|);
  }

  lemma PrefixBehind(front: string, missing: string, rest: string)
    ensures StartsWith(front + rest, front + missing) <==> StartsWith(rest, missing)
  {
    if |missing| <= |rest| {
      assert (front + rest)[..|front| + |missing|] == front + rest[..|missing|];
      assert (front + rest[..|missing|])[|front|..] == rest[..|missing|] && (front + missing)[|front|..] == missing;
    }
  }

  lemma ValuesNeverCapture(ps: seq<Piece>, sorted: seq<Placeholder>, values: map<string, string>)
    requires NoValueCapture(ps, sorted)
    ensures NeverCaptured(ps, sorted, Literals(values))
  {
    hide Safe, Uncaptured, Literal, IsValueLiteral;
    forall t: Placeholder
      ensures IsValueLiteral(Literals(values)(t))
    {
      LiteralShape(ValueOf(values, t[1..]));
    }
    forall k | 0 <= k < |sorted|
      ensures Uncaptured(ps, Names(sorted[..k]), sorted[k], Literals(values))
    {
      SafeIsUncaptured(ps, Names(sorted[..k]), sorted[k], Literals(values));
    }
  }

  /** What the caller can check before confirming: no leading zeros, no capture, and
      values whose literals hold neither ':' nor '$'. */
  ghost predicate Confirmable(sql: string, values: map<string, string>) {
    && NoValueCapture(Lex(sql), ReplacementOrder(sql))
    && (forall t :: t in Placeholders(Lex(sql)) ==> NoLeadingZero(t))
    && CleanLiterals(Literals(values), Placeholders(Lex(sql)))
  }

  /** The dialog's confirm handler. */
  method Confirm(sql: string, values: map<string, string>) returns (substituted: string)
    ensures substituted == ReplaceEach(sql, ReplacementOrder(sql), Literals(values))
    ensures Confirmable(sql, values) ==> substituted == SubstituteAll(sql, Literals(values))
  {
    var params := DetectParams(sql);
    substituted := SubstituteParams(sql, params, values);
    ParamsDetermined(params);
    if Confirmable(sql, values) {
      SortedPlaceholders(params);
      AllCanonical(Placeholders(Lex(sql)));
      ValuesNeverCapture(Lex(sql), PlaceholdersOf(SortByLength(params)), values);
      SequentialIsSimultaneous(sql, PlaceholdersOf(SortByLength(params)), Literals(values));
    }
  }

  lemma AllCanonical(ps: set<Placeholder>)
    requires forall t :: t in ps ==> NoLeadingZero(t)
    ensures CanonicalOf(ps) == ps
  {
    forall t | t in ps ensures Canonical(t) == t {
      CanonicalUnlessLeadingZero(t);
    }
  }
}
