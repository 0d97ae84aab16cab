/**
  Identifier quoting and literal escaping (src-tauri/src/db/query_transform.rs).
*/
module Quoting {
  import opened Text
  import opened Wrappers

  const DQUOTE := '"'
  const SQUOTE := '\''

  /** One dotted part without surrounding white space and, when it was already
      delimited, without its delimiters. */
  function NormalizeSegment(part: string): string {
    var trimmed := Trim(part);
    if |trimmed| >= 2 && trimmed[0] == DQUOTE && trimmed[|trimmed| - 1] == DQUOTE
    then Undouble(trimmed[1..|trimmed| - 1], DQUOTE)
    else trimmed
  }

  /** The non-blank parts, normalized: the names the caller meant. */
  function NormalizedParts(parts: seq<string>): seq<string> {
    if parts == [] then []
    else (if Trim(parts[0]) != "" then [NormalizeSegment(parts[0])] else []) + NormalizedParts(parts[1..])
  }

  function Segments(identifier: string): seq<string> {
    NormalizedParts(SplitOn(identifier, '.'))
  }

  function Delimit(name: string): string {
    [DQUOTE] + Double(name, DQUOTE) + [DQUOTE]
  }

  function DelimitAll(names: seq<string>): (r: seq<string>)
    ensures |r| == |names|
    ensures forall i :: 0 <= i < |r| ==> r[i] == Delimit(names[i])
  {
    if names == [] then [] else [Delimit(names[0])] + DelimitAll(names[1..])
  }

  function QuotedIdentifier(identifier: string): string {
    Join(DelimitAll(Segments(identifier)), ".")
  }

  function EscapeStringLiteral(value: string): string {
    Double(value, SQUOTE)
  }

  // ----- reference reader: a chain of delimited identifiers -----

  /** Reads `"a"."b"...` as far as it goes; None if the text does not start with
      a delimited identifier or a dot is not followed by one. */
  function LexChain(s: string): (r: Option<(seq<string>, string)>)
    ensures r.Some? ==> |r.value.1| < |s| && r.value.0 != []
    decreases |s|
  {
    if s == "" || s[0] != DQUOTE then None
    else match LexQuoted(s[1..], DQUOTE)
      case None => None
      case Some((name, rest)) =>
        if rest == "" || rest[0] != '.' then Some(([name], rest))
        else match LexChain(rest[1..])
          case None => None
          case Some((names, rest')) => Some(([name] + names, rest'))
  }

  lemma LexChainStep(name: string, tail: string)
    requires tail == "" || tail[0] != DQUOTE
    ensures var r := LexChain(Delimit(name) + tail);
            if tail == "" || tail[0] != '.' then r == Some(([name], tail))
            else match LexChain(tail[1..])
                 case None => r == None
                 case Some((names, rest)) => r == Some(([name] + names, rest))
  {
    var s := Delimit(name) + tail;
    LexQuotedDouble(name, DQUOTE, tail);
    Uncons(DQUOTE, Double(name, DQUOTE), [DQUOTE], tail);
    assert LexQuoted(s[1..], DQUOTE) == Some((name, tail));
    if tail != "" && tail[0] == '.' {
      match LexChain(tail[1..])
      case None =>
      case Some((names, rest)) =>
    }
  }

  lemma Uncons(c: char, a: string, b: string, d: string)
    ensures ([c] + a + b + d)[0] == c && ([c] + a + b + d)[1..] == a + b + d
  {
  }

  lemma ChainText(names: seq<string>)
    requires names != []
    ensures Join(DelimitAll(names), ".") ==
            if |names| == 1 then Delimit(names[0])
            else Delimit(names[0]) + "." + Join(DelimitAll(names[1..]), ".")
  {
    hide Delimit;
    assert DelimitAll(names)[1..] == DelimitAll(names[1..]);
  }

  /** A printed chain reads back to its names and stops right behind the last
      closing quote, whatever follows. */
  lemma {:induction false} LexChainPrinted(names: seq<string>, rest: string)
    requires names != []
    requires rest == "" || (rest[0] != DQUOTE && rest[0] != '.')
    ensures LexChain(Join(DelimitAll(names), ".") + rest) == Some((names, rest))
  {
    hide Join, DelimitAll, Delimit, LexChain;
    ChainText(names);
    if |names| == 1 {
      LexChainStep(names[0], rest);
      assert [names[0]] == names;
    } else {
      var inner := Join(DelimitAll(names[1..]), ".");
      LexChainPrinted(names[1..], rest);
      Dotted(Delimit(names[0]), inner, rest);
      LexChainStep(names[0], "." + (inner + rest));
      assert [names[0]] + names[1..] == names;
    }
  }

  lemma Dotted(a: string, b: string, c: string)
    ensures a + "." + b + c == a + ("." + (b + c))
    ensures ("." + (b + c))[0] == '.' && ("." + (b + c))[1..] == b + c
  {
  }

  /** The quoted form of an identifier is a chain of delimited identifiers that
      reads back to exactly the normalized, non-blank segments. */
  lemma QuotedIdentifierLexes(identifier: string, rest: string)
    requires rest == "" || (rest[0] != DQUOTE && rest[0] != '.')
    ensures Segments(identifier) != [] ==>
              LexChain(QuotedIdentifier(identifier) + rest) == Some((Segments(identifier), rest))
    ensures Segments(identifier) == [] ==> QuotedIdentifier(identifier) == ""
  {
    if Segments(identifier) != [] {
      LexChainPrinted(Segments(identifier), rest);
    }
  }

  // ----- idempotence -----

  lemma NormalizeDelimited(name: string)
    ensures Trim(Delimit(name)) == Delimit(name) != ""
    ensures NormalizeSegment(Delimit(name)) == name
  {
    DelimitFacts(name);
    TrimNoop(Delimit(name));
    UndoubleDouble(name, DQUOTE);
  }

  lemma DelimitFacts(name: string)
    ensures var d := Delimit(name);
            && |d| >= 2 && d[0] == DQUOTE && d[|d| - 1] == DQUOTE
            && d[1..|d| - 1] == Double(name, DQUOTE)
  {
  }

  lemma {:induction false} NormalizedDelimitAll(names: seq<string>)
    ensures NormalizedParts(DelimitAll(names)) == names
  {
    hide NormalizeSegment, Delimit, Trim;
    if names != [] {
      NormalizeDelimited(names[0]);
      assert DelimitAll(names)[1..] == DelimitAll(names[1..]);
      NormalizedDelimitAll(names[1..]);
      assert [names[0]] + names[1..] == names;
    }
  }

  lemma {:induction false} NormalizedPartsHaveNoDot(parts: seq<string>)
    requires forall i :: 0 <= i < |parts| ==> '.' !in parts[i]
    ensures forall i :: 0 <= i < |NormalizedParts(parts)| ==> '.' !in NormalizedParts(parts)[i]
  {
    if parts != [] {
      NormalizedPartsHaveNoDot(parts[1..]);
      var t := Trim(parts[0]);
      assert '.' !in t;
      assert '.' !in NormalizeSegment(parts[0]);
    }
  }

  /** Quoting does not change which names are meant. */
  lemma SegmentsOfQuoted(identifier: string)
    ensures Segments(QuotedIdentifier(identifier)) == Segments(identifier)
  {
    var names := Segments(identifier);
    SplitParts(identifier, '.');
    NormalizedPartsHaveNoDot(SplitOn(identifier, '.'));
    if names == [] {
      assert SplitOn("", '.') == [""];
    } else {
      DelimitAllHasNoDot(names);
      SplitJoin(DelimitAll(names), '.');
      NormalizedDelimitAll(names);
    }
  }

  lemma DelimitAllHasNoDot(names: seq<string>)
    requires forall i :: 0 <= i < |names| ==> '.' !in names[i]
    ensures forall i :: 0 <= i < |names| ==> '.' !in DelimitAll(names)[i]
  {
    forall i | 0 <= i < |names| ensures '.' !in DelimitAll(names)[i] {
      assert '.' !in names[i];
      assert '.' !in Double(names[i], DQUOTE);
    }
  }

  lemma QuotedIdentifierIdempotent(identifier: string)
    ensures QuotedIdentifier(QuotedIdentifier(identifier)) == QuotedIdentifier(identifier)
  {
    SegmentsOfQuoted(identifier);
  }

  /** Two identifiers are quoted alike exactly when they mean the same names. */
  lemma QuotedAlikeIffSameSegments(a: string, b: string)
    ensures QuotedIdentifier(a) == QuotedIdentifier(b) <==> Segments(a) == Segments(b)
  {
    SegmentsOfQuoted(a);
    SegmentsOfQuoted(b);
  }

  /** A part that, trimmed, is a delimited name stands for that name, and any other part
      that is not blank for its trimmed self; the parts behind the dot go on. */
  lemma SegmentNamed(part: string, name: string, rest: string)
    requires '.' !in part
    requires || Trim(part) == "\"" + Double(name, '"') + "\""
             || (Trim(part) == name && name != ""
                 && (|name| == 1 || name[0] != '"' || name[|name| - 1] != '"'))
    ensures Segments(part) == [name]
    ensures Segments(part + "." + rest) == [name] + Segments(rest)
  {
    hide NormalizeSegment, NormalizedParts, SplitOn, Trim, Double;
    SegmentNormalized(part, name);
    PartsSplit(part, rest);
    OnePart(part, []);
    OnePart(part, SplitOn(rest, '.'));
  }

  lemma SegmentNormalized(part: string, name: string)
    requires || Trim(part) == "\"" + Double(name, '"') + "\""
             || (Trim(part) == name && name != ""
                 && (|name| == 1 || name[0] != '"' || name[|name| - 1] != '"'))
    ensures NormalizeSegment(part) == name && Trim(part) != ""
  {
    hide Trim, Undouble, Double;
    assert "\"" == [DQUOTE];
    if Trim(part) == "\"" + Double(name, '"') + "\"" {
      DelimitFacts(name);
      UndoubleDouble(name, DQUOTE);
    }
  }

  /** A blank part stands for nothing. */
  lemma BlankSegment(part: string, rest: string)
    requires '.' !in part && AllWhiteSpace(part)
    ensures Segments(part) == [] && Segments(part + "." + rest) == Segments(rest)
  {
    hide NormalizeSegment, NormalizedParts, SplitOn, Trim, AllWhiteSpace;
    BlankIff(part);
    PartsSplit(part, rest);
    OnePart(part, []);
    OnePart(part, SplitOn(rest, '.'));
  }

  lemma PartsSplit(part: string, rest: string)
    requires '.' !in part
    ensures SplitOn(part, '.') == [part] + []
    ensures SplitOn(part + "." + rest, '.') == [part] + SplitOn(rest, '.')
  {
    SplitPart(part, rest, '.');
    assert "." == ['.'];
  }

  lemma OnePart(part: string, parts: seq<string>)
    ensures NormalizedParts([part] + parts)
         == (if Trim(part) != "" then [NormalizeSegment(part)] else []) + NormalizedParts(parts)
    ensures NormalizedParts([]) == []
  {
    hide NormalizeSegment, Trim;
    assert ([part] + parts)[1..] == parts;
  }

  /** An escaped literal between quotes reads back to the original value and ends
      at its own closing quote. */
  lemma EscapedLiteralLexes(value: string, rest: string)
    requires rest == "" || rest[0] != SQUOTE
    ensures LexQuoted(EscapeStringLiteral(value) + "'" + rest, SQUOTE) == Some((value, rest))
  {
    LexQuotedDouble(value, SQUOTE, rest);
    assert "'" == [SQUOTE];
  }
}
