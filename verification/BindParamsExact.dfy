/**
  Exactly when replacing placeholder after placeholder is one simultaneous
  substitution, for every choice of literals without sigils, whether or not a value
  has that literal: when every placeholder of the text is among those replaced and
  none can be captured. For the converse, literals are chosen that insert a `!` for
  one placeholder only, and the `!` in the two results are counted.
  (`BindParamsValues` has the same over values.)
*/
module BindParamsExact {
  import opened Text
  import opened BindParams

  const BANG := '!'

  function Bangs(s: string): nat {
    if s == "" then 0 else (if s[0] == BANG then 1 else 0) + Bangs(s[1..])
  }

  lemma {:induction false} BangsAppend(a: string, b: string)
    ensures Bangs(a + b) == Bangs(a) + Bangs(b)
  {
    if a == "" {
      assert a + b == b;
    } else {
      assert (a + b)[1..] == a[1..] + b;
      BangsAppend(a[1..], b);
    }
  }

  lemma {:induction false} NoBangs(s: string)
    requires BANG !in s
    ensures Bangs(s) == 0
  {
    if s != "" {
      NoBangs(s[1..]);
    }
  }

  lemma PlaceholderNoBang(p: Placeholder)
    ensures Bangs(p) == 0
  {
    forall c | c in p
      ensures c != BANG
    {
      var i :| 0 <= i < |p| && p[i] == c;
      assert i > 0 ==> Continues(p[0], p[i]);
    }
    NoBangs(p);
  }

  // ----- how often a replacement replaces -----

  /** The places where `p` occurs. */
  function Occurrences(s: string, p: Placeholder): nat {
    if s == "" then 0 else (if StartsWith(s, p) then 1 else 0) + Occurrences(s[1..], p)
  }

  lemma {:induction false} NoSigilNoOccurrence(s: string, k: nat, p: Placeholder)
    requires k <= |s| && forall i :: 0 <= i < k ==> !IsSigil(s[i])
    ensures Occurrences(s, p) == Occurrences(s[k..], p)
    decreases k
  {
    if k == 0 {
      assert s[0..] == s;
    } else {
      Differs(s, p, 0);
      NoSigilNoOccurrence(s[1..], k - 1, p);
      assert s[1..][k - 1..] == s[k..];
    }
  }

  lemma AfterMatch(s: string, p: Placeholder)
    requires StartsWith(s, p)
    ensures Occurrences(s, p) == 1 + Occurrences(s[|p|..], p)
  {
    forall i | 0 <= i < |p| - 1
      ensures !IsSigil(s[1..][i])
    {
      assert s[..|p|][i + 1] == s[i + 1] == p[i + 1];
      assert Continues(p[0], p[i + 1]);
    }
    NoSigilNoOccurrence(s[1..], |p| - 1, p);
    assert s[1..][|p| - 1..] == s[|p|..];
  }

  /** Occurrences do not overlap, so each one is replaced. */
  lemma {:induction false} ReplaceBangs(s: string, p: Placeholder, l: string)
    requires Bangs(l) <= 1
    ensures Bangs(Replace(s, p, l)) == Bangs(s) + (if Bangs(l) == 1 then Occurrences(s, p) else 0)
    decreases |s|
  {
    hide Occurrences;
    if s == "" {
      NoOccurrence(p);
    } else if StartsWith(s, p) {
      AfterMatch(s, p);
      ReplaceBangs(s[|p|..], p, l);
      BangsAppend(l, Replace(s[|p|..], p, l));
      SplitAt(s, |p|);
      BangsAppend(p, s[|p|..]);
      PlaceholderNoBang(p);
    } else {
      ReplaceBangs(s[1..], p, l);
      NoMatchHere(s, p);
      BangsAppend([s[0]], Replace(s[1..], p, l));
      SplitAt(s, 1);
      BangsAppend([s[0]], s[1..]);
    }
  }

  lemma NoOccurrence(p: Placeholder)
    ensures Occurrences("", p) == 0
  {
  }

  lemma NoMatchHere(s: string, p: Placeholder)
    requires s != "" && !StartsWith(s, p)
    ensures Occurrences(s, p) == Occurrences(s[1..], p)
  {
  }

  lemma {:induction false} OccurrencesAppend(a: string, b: string, p: Placeholder)
    ensures Occurrences(a + b, p) >= Occurrences(b, p)
    ensures a != "" && StartsWith(a + b, p) ==> Occurrences(a + b, p) > Occurrences(b, p)
  {
    if a == "" {
      assert a + b == b;
    } else {
      assert (a + b)[1..] == a[1..] + b;
      OccurrencesAppend(a[1..], b, p);
    }
  }

  // ----- the text with some placeholders replaced -----

  function CountToken(ps: seq<Piece>, p: Placeholder): nat {
    if ps == [] then 0 else (if ps[0] == Token(p) then 1 else 0) + CountToken(ps[1..], p)
  }

  function PlainBangs(ps: seq<Piece>): nat {
    if ps == [] then 0 else (if ps[0] == Plain(BANG) then 1 else 0) + PlainBangs(ps[1..])
  }

  /** Only the literal of `p` has a `!`, and that one. */
  ghost predicate MarksOnly(lit: Placeholder -> string, p: Placeholder) {
    forall t :: Bangs(lit(t)) == if t == p then 1 else 0
  }

  lemma {:induction false} RenderBangs(ps: seq<Piece>, done: set<Placeholder>, p: Placeholder,
                                       lit: Placeholder -> string)
    requires MarksOnly(lit, p)
    ensures Bangs(Render(ps, done, lit)) == PlainBangs(ps) + (if p in done then CountToken(ps, p) else 0)
  {
    if ps != [] {
      RenderBangs(ps[1..], done, p, lit);
      BangsAppend(RenderPiece(ps[0], done, lit), Render(ps[1..], done, lit));
      if ps[0].Token? {
        PlaceholderNoBang(ps[0].text);
      } else {
        assert [ps[0].c][1..] == "";
      }
    }
  }

  lemma TokenOccurs(p: Placeholder, rest: string)
    ensures Occurrences(p + rest, p) > Occurrences(rest, p)
  {
    StartsWithAppend(p, rest);
    OccurrencesAppend(p, rest, p);
  }

  /** Every `p` of the text is an occurrence; a front that is completed by what
      follows is one more. */
  lemma {:induction false} RenderOccurrences(ps: seq<Piece>, done: set<Placeholder>, p: Placeholder,
                                             lit: Placeholder -> string, i: nat)
    requires p !in done
    ensures Occurrences(Render(ps, done, lit), p) >= CountToken(ps, p)
    ensures i < |ps| && ps[i] != Token(p) && (ps[i].Token? ==> ps[i].text !in done)
            && StartsWith(Render(ps[i..], done, lit), p) ==>
              Occurrences(Render(ps, done, lit), p) > CountToken(ps, p)
    decreases |ps|
  {
    hide Occurrences;
    if ps != [] {
      var piece, rest := RenderPiece(ps[0], done, lit), Render(ps[1..], done, lit);
      RenderOccurrences(ps[1..], done, p, lit, if i > 0 then i - 1 else 0);
      if i > 0 && i < |ps| {
        assert ps[1..][i - 1] == ps[i] && ps[1..][i - 1..] == ps[i..];
      }
      OccurrencesAppend(piece, rest, p);
      if ps[0] == Token(p) {
        TokenOccurs(p, rest);
      }
      assert ps[0..] == ps;
    } else {
      NoOccurrence(p);
    }
  }

  // ----- a captured literal shows -----

  lemma ReplaceOnce(text: string, p: Placeholder, l: string)
    requires NoSigil(l)
    ensures ReplaceFrom(text, 0, p, l) == Replace(text, p, l)
  {
    assert text[0..] == text;
    assert '$' !in l;
    ReplaceFromSuffix(text, 0, p, l);
  }

  /** Replacing the rest of the placeholders inserts no `!`. */
  lemma {:induction false} RestKeepsBangs(sql: string, sorted: seq<Placeholder>, k: nat, p: Placeholder,
                                          lit: Placeholder -> string)
    requires k <= |sorted| && MarksOnly(lit, p) && CleanLiterals(lit, Names(sorted))
    requires forall j :: k <= j < |sorted| ==> sorted[j] != p
    ensures Bangs(ReplaceEach(sql, sorted, lit)) == Bangs(ReplaceEach(sql, sorted[..k], lit))
    decreases |sorted|
  {
    hide ReplaceFrom, Bangs;
    if k == |sorted| {
      assert sorted[..k] == sorted;
    } else {
      var init, q := sorted[..|sorted| - 1], sorted[|sorted| - 1];
      assert init[..k] == sorted[..k] && q in Names(sorted);
      forall t | t in Names(init)
        ensures NoSigil(lit(t))
      {
        assert t in Names(sorted);
      }
      RestKeepsBangs(sql, init, k, p, lit);
      ReplaceOnce(ReplaceEach(sql, init, lit), q, lit(q));
      ReplaceBangs(ReplaceEach(sql, init, lit), q, lit(q));
    }
  }

  /** Something that is no `p` of the text reads as `p`. */
  ghost predicate ReadsAsOther(ps: seq<Piece>, done: set<Placeholder>, p: Placeholder, lit: Placeholder -> string,
                               i: nat)
  {
    i < |ps| && Extends(p, ps[i], done) && StartsWith(Render(ps[i..], done, lit), p)
  }

  lemma ExtendsIsOther(p: Placeholder, front: Piece, done: set<Placeholder>)
    requires Extends(p, front, done)
    ensures front != Token(p) && (front.Token? ==> front.text !in done)
  {
  }

  /** Replacing `p` where a literal completes another one inserts a `!` too many. */
  lemma CapturedStage(ps: seq<Piece>, done: set<Placeholder>, p: Placeholder, i: nat, lit: Placeholder -> string)
    requires p !in done && NoSigil(lit(p)) && MarksOnly(lit, p) && ReadsAsOther(ps, done, p, lit, i)
    ensures Bangs(ReplaceFrom(Render(ps, done, lit), 0, p, lit(p))) > PlainBangs(ps) + CountToken(ps, p)
  {
    hide Bangs, ReplaceFrom, Occurrences, StartsWith, Render, CountToken, PlainBangs, NoSigil, Extends;
    ExtendsIsOther(p, ps[i], done);
    RenderOccurrences(ps, done, p, lit, i);
    ReplaceOnce(Render(ps, done, lit), p, lit(p));
    ReplaceBangs(Render(ps, done, lit), p, lit(p));
    RenderBangs(ps, done, p, lit);
  }

  lemma SimultaneousBangs(sql: string, p: Placeholder, lit: Placeholder -> string)
    requires MarksOnly(lit, p)
    ensures Bangs(SubstituteAll(sql, lit)) == PlainBangs(Lex(sql)) + CountToken(Lex(sql), p)
  {
    hide Bangs, Lex, Render, PlainBangs, CountToken, MarksOnly;
    RenderBangs(Lex(sql), Placeholders(Lex(sql)), p, lit);
    NotInNone(Lex(sql), p);
  }

  /** The literals inserted earlier complete `p`, and `p` is the first for which that
      happens: the two results differ. */
  lemma CaptureDiffers(sql: string, sorted: seq<Placeholder>, k: nat, i: nat, lit: Placeholder -> string)
    requires LongestFirst(sorted) && Distinct(sorted) && k < |sorted| && Placeholders(Lex(sql)) <= Names(sorted)
    requires forall j :: 0 <= j < k ==> Uncaptured(Lex(sql), Names(sorted[..j]), sorted[j], lit)
    requires CleanLiterals(lit, Names(sorted)) && MarksOnly(lit, sorted[k])
    requires ReadsAsOther(Lex(sql), Names(sorted[..k]), sorted[k], lit, i)
    ensures ReplaceEach(sql, sorted, lit) != SubstituteAll(sql, lit)
  {
    hide Lex, Uncaptured, LongestFirst, Distinct, Bangs, Placeholders, ReadsAsOther, Render, CountToken, PlainBangs,
         MarksOnly, ReplaceEach, ReplaceFrom, SubstituteAll, NoSigil;
    var text := Render(Lex(sql), Names(sorted[..k]), lit);
    ReplacePrefix(sql, sorted, k, lit);
    StageClean(sorted, k, lit);
    CapturedStage(Lex(sql), Names(sorted[..k]), sorted[k], i, lit);
    StageBangs(sql, sorted, k, lit, text);
    SimultaneousBangs(sql, sorted[k], lit);
  }

  lemma StageClean(sorted: seq<Placeholder>, k: nat, lit: Placeholder -> string)
    requires Distinct(sorted) && k < |sorted| && CleanLiterals(lit, Names(sorted))
    ensures sorted[k] !in Names(sorted[..k]) && NoSigil(lit(sorted[k]))
  {
    assert sorted[k] in Names(sorted) && sorted[k] !in sorted[..k];
  }

  /** From stage `k` on only that stage inserts a `!`. */
  lemma StageBangs(sql: string, sorted: seq<Placeholder>, k: nat, lit: Placeholder -> string, text: string)
    requires Distinct(sorted) && k < |sorted| && CleanLiterals(lit, Names(sorted)) && MarksOnly(lit, sorted[k])
    requires ReplaceEach(sql, sorted[..k], lit) == text
    ensures Bangs(ReplaceEach(sql, sorted, lit)) == Bangs(ReplaceFrom(text, 0, sorted[k], lit(sorted[k])))
  {
    hide Bangs, ReplaceFrom, ReplaceEach, NoSigil, MarksOnly;
    assert sorted[..k + 1] == sorted[..k] + [sorted[k]];
    ReplaceEachSnoc(sql, sorted[..k], sorted[k], lit);
    RestKeepsBangs(sql, sorted, k + 1, sorted[k], lit);
  }

  lemma {:induction false} NotInNone(ps: seq<Piece>, p: Placeholder)
    ensures p !in Placeholders(ps) ==> CountToken(ps, p) == 0
  {
    if ps != [] {
      PlaceholdersCons(ps[0], ps[1..]);
      assert ps == [ps[0]] + ps[1..];
      NotInNone(ps[1..], p);
    }
  }

  /** At `i` stands the beginning of `p`, and behind it a placeholder of `done`. */
  predicate CapturedAt(ps: seq<Piece>, done: set<Placeholder>, p: Placeholder, i: nat) {
    i + 1 < |ps| && ps[i + 1].Token? && ps[i + 1].text in done && Extends(p, ps[i], done)
  }

  lemma CompletedFront(ps: seq<Piece>, done: set<Placeholder>, p: Placeholder, i: nat, lit: Placeholder -> string)
    requires CapturedAt(ps, done, p, i) && lit(ps[i + 1].text) == p[|FrontText(ps[i])|..]
    ensures ReadsAsOther(ps, done, p, lit, i)
  {
    var front, x, rest := FrontText(ps[i]), lit(ps[i + 1].text), Render(ps[i + 2..], done, lit);
    assert ps[i..] == [ps[i]] + ps[i + 1..] && ps[i + 1..] == [ps[i + 1]] + ps[i + 2..];
    RenderCons(ps[i], ps[i + 1..], done, lit);
    RenderCons(ps[i + 1], ps[i + 2..], done, lit);
    assert RenderPiece(ps[i], done, lit) == front;
    assert front + x == p by {
      SplitAt(p, |front|);
      assert p[..|front|] == front;
    }
    Assoc(front, x, rest);
    StartsWithAppend(p, rest);
  }

  // ----- literals that show it -----

  /** `!` for `p`, `x` for `d`, and nothing for the others. */
  function Telling(p: Placeholder, d: Placeholder, x: string): Placeholder -> string {
    (t: Placeholder) => if t == p then "!" else if t == d then x else ""
  }

  lemma TellingMarks(p: Placeholder, d: Placeholder, x: string)
    requires Bangs(x) == 0
    ensures MarksOnly(Telling(p, d, x), p)
  {
    assert Bangs("!") == 1 && Bangs("") == 0;
  }

  /** The part of a placeholder behind its beginning. */
  lemma TailIsClean(p: Placeholder, k: nat)
    requires 0 < k < |p|
    ensures NoSigil(p[k..]) && Bangs(p[k..]) == 0 && forall i :: 0 <= i < |p[k..]| ==> Continues(p[0], p[k..][i])
  {
    forall i | 0 <= i < |p[k..]|
      ensures Continues(p[0], p[k..][i])
    {
      assert p[k..][i] == p[k + i];
    }
    NoBangs(p[k..]);
  }

  /** A placeholder of the text that is not replaced: its literal is missing. */
  lemma UncoveredDiffers(sql: string, sorted: seq<Placeholder>, t: Placeholder, lit: Placeholder -> string)
    requires t in Placeholders(Lex(sql)) && t !in sorted
    requires CleanLiterals(lit, Names(sorted)) && MarksOnly(lit, t)
    ensures ReplaceEach(sql, sorted, lit) != SubstituteAll(sql, lit)
  {
    hide Lex, Bangs, ReplaceFrom;
    var ps := Lex(sql);
    assert sorted[..0] == [];
    RestKeepsBangs(sql, sorted, 0, t, lit);
    LexPrints(sql, lit);
    RenderBangs(ps, {}, t, lit);
    RenderBangs(ps, Placeholders(ps), t, lit);
    Present(ps, t);
  }

  lemma {:induction false} Present(ps: seq<Piece>, t: Placeholder)
    requires t in Placeholders(ps)
    ensures CountToken(ps, t) > 0
  {
    PlaceholdersCons(ps[0], ps[1..]);
    assert ps == [ps[0]] + ps[1..];
    if ps[0] != Token(t) {
      Present(ps[1..], t);
    }
  }

  // ----- the exact condition -----

  /** Whatever the literals, as long as they hold no sigil. */
  ghost predicate AlwaysSimultaneous(sql: string, sorted: seq<Placeholder>) {
    forall lit: Placeholder -> string :: CleanLiterals(lit, Names(sorted)) ==> Simultaneous(sql, sorted, lit)
  }

  ghost predicate Simultaneous(sql: string, sorted: seq<Placeholder>, lit: Placeholder -> string) {
    ReplaceEach(sql, sorted, lit) == SubstituteAll(sql, lit)
  }

  lemma {:induction false} FirstCapture(ps: seq<Piece>, sorted: seq<Placeholder>, n: nat) returns (k: nat)
    requires n <= |sorted|
    ensures k <= n && forall j :: 0 <= j < k ==> Free(ps, Names(sorted[..j]), sorted[j])
    ensures k < n ==> !Free(ps, Names(sorted[..k]), sorted[k])
  {
    k := 0;
    if n > 0 {
      k := FirstCapture(ps, sorted, n - 1);
      if k == n - 1 && Free(ps, Names(sorted[..k]), sorted[k]) {
        k := n;
      }
    }
  }

  /** Replacing one by one, longest first, is one simultaneous substitution for
      every choice of literals without sigils if and only if every placeholder of
      the text is replaced and no placeholder replaced later extends the sigil or
      the placeholder in front of one replaced earlier. */
  lemma AlwaysSimultaneousIff(sql: string, sorted: seq<Placeholder>)
    requires LongestFirst(sorted) && Distinct(sorted)
    ensures AlwaysSimultaneous(sql, sorted) <==> Placeholders(Lex(sql)) <= Names(sorted) && NoCapture(Lex(sql), sorted)
  {
    hide Lex, LongestFirst, Simultaneous;
    if Placeholders(Lex(sql)) <= Names(sorted) && NoCapture(Lex(sql), sorted) {
      forall lit: Placeholder -> string | CleanLiterals(lit, Names(sorted))
        ensures Simultaneous(sql, sorted, lit)
      {
        AgreesWhenFree(sql, sorted, lit);
      }
    } else {
      var lit := SomeDiffer(sql, sorted);
      assert !Simultaneous(sql, sorted, lit);
    }
  }

  lemma AgreesWhenFree(sql: string, sorted: seq<Placeholder>, lit: Placeholder -> string)
    requires LongestFirst(sorted) && Placeholders(Lex(sql)) <= Names(sorted)
    requires NoCapture(Lex(sql), sorted) && CleanLiterals(lit, Names(sorted))
    ensures Simultaneous(sql, sorted, lit)
  {
    hide Lex, Free, Maximal, Uncaptured, LongestFirst;
    LexMaximal(sql);
    forall k | 0 <= k < |sorted|
      ensures Uncaptured(Lex(sql), Names(sorted[..k]), sorted[k], lit)
    {
      FreeIsUncaptured(Lex(sql), Names(sorted[..k]), sorted[k], lit);
    }
    SequentialIsSimultaneous(sql, sorted, lit);
  }

  lemma CaptureFound(ps: seq<Piece>, sorted: seq<Placeholder>) returns (k: nat, i: nat)
    requires Distinct(sorted) && !NoCapture(ps, sorted)
    ensures k < |sorted| && forall j :: 0 <= j < k ==> Free(ps, Names(sorted[..j]), sorted[j])
    ensures CapturedAt(ps, Names(sorted[..k]), sorted[k], i) && ps[i + 1].text != sorted[k]
    ensures 0 < |FrontText(ps[i])| < |sorted[k]|
  {
    hide Free, CapturedAt, FrontText;
    k := FirstCapture(ps, sorted, |sorted|);
    assert k < |sorted| && !Free(ps, Names(sorted[..k]), sorted[k]);
    i := CaptureAtStage(ps, Names(sorted[..k]), sorted[k]);
    assert sorted[k] !in sorted[..k];
  }

  lemma CaptureAtStage(ps: seq<Piece>, done: set<Placeholder>, p: Placeholder) returns (i: nat)
    requires !Free(ps, done, p)
    ensures CapturedAt(ps, done, p, i) && 0 < |FrontText(ps[i])| < |p| && ps[i + 1].text in done
  {
    i :| 0 <= i < |ps| - 1 && ps[i + 1].Token? && ps[i + 1].text in done && Extends(p, ps[i], done);
  }

  lemma SomeDiffer(sql: string, sorted: seq<Placeholder>) returns (lit: Placeholder -> string)
    requires LongestFirst(sorted) && Distinct(sorted)
    requires !(Placeholders(Lex(sql)) <= Names(sorted)) || !NoCapture(Lex(sql), sorted)
    ensures CleanLiterals(lit, Names(sorted)) && !Simultaneous(sql, sorted, lit)
  {
    hide Lex, LongestFirst, Bangs, NoCapture, Placeholders, MarksOnly, Distinct, Free, Uncaptured, Maximal,
         ReadsAsOther;
    var ps := Lex(sql);
    if t :| t in Placeholders(ps) && t !in Names(sorted) {
      lit := Telling(t, t, "");
      NoBangs("");
      TellingMarks(t, t, "");
      UncoveredDiffers(sql, sorted, t, lit);
    } else {
      var k, i := CaptureFound(ps, sorted);
      var x := sorted[k][|FrontText(ps[i])|..];
      TailIsClean(sorted[k], |FrontText(ps[i])|);
      lit := Telling(sorted[k], ps[i + 1].text, x);
      TellingMarks(sorted[k], ps[i + 1].text, x);
      TellingClean(sorted[k], ps[i + 1].text, x, Names(sorted));
      LexMaximal(sql);
      forall j | 0 <= j < k
        ensures Uncaptured(ps, Names(sorted[..j]), sorted[j], lit)
      {
        FreeIsUncaptured(ps, Names(sorted[..j]), sorted[j], lit);
      }
      TellingText(sorted[k], ps[i + 1].text, x);
      CompletedFront(ps, Names(sorted[..k]), sorted[k], i, lit);
      CaptureDiffers(sql, sorted, k, i, lit);
    }
  }

  lemma TellingClean(p: Placeholder, d: Placeholder, x: string, names: set<Placeholder>)
    requires NoSigil(x)
    ensures CleanLiterals(Telling(p, d, x), names)
  {
  }

  lemma TellingText(p: Placeholder, d: Placeholder, x: string)
    requires p != d
    ensures Telling(p, d, x)(d) == x
  {
  }

  // ----- the order the dialog replaces in -----

  lemma {:induction false} FirstsFacts<T>(seen: seq<T>, ps: seq<T>)
    ensures forall x :: x in Firsts(seen, ps) <==> x in seen || x in ps
    ensures Distinct(seen) ==> Distinct(Firsts(seen, ps))
    decreases |ps|
  {
    if ps != [] {
      FirstsFacts(if ps[0] in seen then seen else seen + [ps[0]], ps[1..]);
      assert ps == [ps[0]] + ps[1..];
    }
  }

  lemma {:induction false} PositionalMembers(ns: seq<nat>)
    ensures Names(PositionalNames(ns)) == NumberNames(ns)
  {
    if ns != [] {
      PositionalMembers(ns[1..]);
      NumberNamesCons(ns);
      NamesCons(PositionalName(ns[0]), PositionalNames(ns[1..]));
    }
  }

  lemma {:induction false} NumbersMembers(ps: seq<Placeholder>)
    requires forall i :: 0 <= i < |ps| ==> ps[i][0] == '$'
    ensures NumberNames(NumbersOf(ps)) == CanonicalOf(Names(ps))
  {
    hide PositionalName, ParseDigits;
    if ps != [] {
      NumbersMembers(ps[1..]);
      assert ps == [ps[0]] + ps[1..];
      CanonicalCons(ps[0], ps[1..]);
      NumberNamesCons(NumbersOf(ps));
    }
  }

  lemma {:induction false} ScanSigil(sigil: char, s: string)
    ensures forall i :: 0 <= i < |Scan(sigil, s)| ==> Scan(sigil, s)[i][0] == sigil
    decreases |s|
  {
    if s != "" {
      var n := MatchLength(sigil, s);
      ScanSigil(sigil, s[if n > 0 then n else 1..]);
    }
  }

  lemma SameNumbersSameNames(a: seq<nat>, b: seq<nat>)
    requires forall n :: n in a <==> n in b
    ensures NumberNames(a) == NumberNames(b)
  {
  }

  lemma NamesUnion(a: seq<Placeholder>, b: seq<Placeholder>, c: seq<Placeholder>)
    requires forall p :: p in c <==> p in a || p in b
    ensures Names(c) == Names(a) + Names(b)
  {
  }

  lemma DetectedFacts(sql: string)
    ensures Distinct(DetectedOrder(sql)) && Names(DetectedOrder(sql)) == CanonicalOf(Placeholders(Lex(sql)))
  {
    hide Scan, Firsts, NumbersOf, PositionalNames, SortNumbers, Lex, CanonicalOf, NumberNames, Names;
    var named, found := Firsts([], Scan(':', sql)), NumbersOf(Scan('$', sql));
    var numbers := Firsts([], found);
    var positional := PositionalNames(SortNumbers(numbers));
    FirstsFacts([], Scan(':', sql));
    FirstsFacts([], found);
    FirstsFacts(named, positional);
    NamesUnion(named, positional, DetectedOrder(sql));
    NamesUnion([], Scan(':', sql), named);
    assert Names([]) == {} by {
      NoNames();
    }
    PositionalMembers(SortNumbers(numbers));
    SortedSameNames(numbers);
    SameNumbersSameNames(numbers, found);
    ScanSigil('$', sql);
    NumbersMembers(Scan('$', sql));
    DetectedNames(sql, numbers);
  }

  lemma NoNames()
    ensures Names([]) == {}
  {
  }

  lemma TwiceInMultiset<T>(s: seq<T>, i: nat, j: nat)
    requires i < j < |s| && s[i] == s[j]
    ensures multiset(s)[s[i]] >= 2
  {
    assert s == s[..i] + [s[i]] + s[i + 1..];
    assert s[i + 1..][j - i - 1] == s[j];
    assert s[j] in s[i + 1..];
  }

  lemma {:induction false} DistinctOnce<T>(s: seq<T>, x: T)
    requires Distinct(s)
    ensures multiset(s)[x] <= 1
  {
    if s != [] {
      DistinctOnce(s[1..], x);
      assert s == [s[0]] + s[1..];
      assert forall i :: 0 <= i < |s[1..]| ==> s[1..][i] == s[i + 1];
    }
  }

  lemma SortKeepsDistinct(params: seq<Param>)
    requires ProperParams(params) && Distinct(PlaceholdersOf(params))
    ensures Distinct(PlaceholdersOf(SortByLength(params)))
  {
    hide SortByLength, IsPlaceholder;
    var sorted := SortByLength(params);
    assert multiset(sorted) == multiset(params);
    ProperSorted(params);
    forall i, j | 0 <= i < j < |sorted|
      ensures PlaceholdersOf(sorted)[i] != PlaceholdersOf(sorted)[j]
    {
      if sorted[i].placeholder == sorted[j].placeholder {
        TwiceInMultiset(sorted, i, j);
        DistinctParams(params);
        DistinctOnce(params, sorted[i]);
      }
    }
  }

  lemma DistinctParams(params: seq<Param>)
    requires Distinct(PlaceholdersOf(params))
    ensures Distinct(params)
  {
    forall i, j | 0 <= i < j < |params|
      ensures params[i] != params[j]
    {
      assert PlaceholdersOf(params)[i] != PlaceholdersOf(params)[j];
    }
  }

  lemma {:induction false} PlaceholdersOfParams(ps: seq<Placeholder>)
    ensures PlaceholdersOf(ParamsOf(ps)) == ps && ProperParams(ParamsOf(ps))
  {
  }

  lemma OrderFacts(sql: string)
    ensures LongestFirst(ReplacementOrder(sql)) && Distinct(ReplacementOrder(sql))
    ensures Names(ReplacementOrder(sql)) == CanonicalOf(Placeholders(Lex(sql)))
  {
    hide DetectedOrder, SortByLength, PlaceholdersOf, ParamsOf, Lex, LongestFirst, Names, CanonicalOf;
    var params := ParamsOf(DetectedOrder(sql));
    DetectedFacts(sql);
    PlaceholdersOfParams(DetectedOrder(sql));
    SortKeepsDistinct(params);
    SortedPlaceholders(params);
  }

  // ----- leading zeros -----

  lemma {:induction false} PrintedHasNoLeadingZero(n: nat)
    ensures |PrintNumber(n)| == 1 || PrintNumber(n)[0] != '0'
    ensures n > 0 ==> PrintNumber(n)[0] != '0'
  {
    if n >= 10 {
      PrintedHasNoLeadingZero(n / 10);
    }
  }

  lemma CanonicalHasNoLeadingZero(t: Placeholder)
    ensures NoLeadingZero(Canonical(t))
  {
    if t[0] == '$' {
      PrintedHasNoLeadingZero(ParseDigits(t[1..]));
    }
  }

  lemma CoveredIffNoLeadingZero(ps: set<Placeholder>)
    ensures ps <= CanonicalOf(ps) <==> forall t :: t in ps ==> NoLeadingZero(t)
  {
    hide Canonical, NoLeadingZero;
    if ps <= CanonicalOf(ps) {
      forall t | t in ps
        ensures NoLeadingZero(t)
      {
        var u :| u in ps && t == Canonical(u);
        CanonicalHasNoLeadingZero(u);
      }
    }
    if forall t :: t in ps ==> NoLeadingZero(t) {
      AllCanonical(ps);
    }
  }
}
