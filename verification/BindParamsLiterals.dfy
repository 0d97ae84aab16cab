/**
  What the dialog writes for a value (src/components/dialogs/BindParamsDialog.tsx),
  against a reader of numbers and quoted texts that does not know the dialog: a
  trimmed value is left bare exactly when it spells NULL or is one number, and every
  other value is quoted so that it reads back.
*/
module BindParamsLiterals {
  import opened Text
  import opened Wrappers
  import opened BindParams

  // ----- a reader of numbers -----

  /** The text behind the leading digits. */
  function SkipDigits(s: string): (rest: string)
    ensures |rest| <= |s|
  {
    if s != "" && '0' <= s[0] <= '9' then SkipDigits(s[1..]) else s
  }

  /** Reads one number as far as it goes: an optional sign, digits, and a point if
      digits follow it. */
  function ReadNumber(s: string): Option<string> {
    var unsigned := if s != "" && s[0] == '-' then s[1..] else s;
    var rest := SkipDigits(unsigned);
    if rest == unsigned then None
    else if rest != "" && rest[0] == '.' && SkipDigits(rest[1..]) != rest[1..] then Some(SkipDigits(rest[1..]))
    else Some(rest)
  }

  // ----- trimming -----

  /** White space and line ends of ECMA-262, sections 12.2 and 12.3, by code point. */
  predicate IsSpaceCode(n: int) {
    || 0x9 <= n <= 0xD || n == 0x20 || n == 0xA0 || n == 0x1680 || 0x2000 <= n <= 0x200A
    || n == 0x2028 || n == 0x2029 || n == 0x202F || n == 0x205F || n == 0x3000 || n == 0xFEFF
  }

  predicate Spaces(s: string) {
    forall i :: 0 <= i < |s| ==> IsSpaceCode(s[i] as int)
  }

  /** `t` is `raw` without the white space around it. */
  ghost predicate IsTrimOf(t: string, raw: string) {
    && (t != "" ==> !IsSpaceCode(t[0] as int) && !IsSpaceCode(t[|t| - 1] as int))
    && exists before, after :: Spaces(before) && Spaces(after) && raw == before + t + after
  }

  lemma SpacesByCode(c: char)
    ensures IsJsSpace(c) <==> IsSpaceCode(c as int)
  {
  }

  lemma {:induction false} TrimmedStart(before: string, rest: string)
    requires Spaces(before) && (rest != "" ==> !IsSpaceCode(rest[0] as int))
    ensures JsTrimStart(before + rest) == rest
  {
    hide IsJsSpace;
    if before == "" {
      assert before + rest == rest;
      if rest != "" {
        SpacesByCode(rest[0]);
      }
    } else {
      SpacesByCode(before[0]);
      assert (before + rest)[1..] == before[1..] + rest;
      TrimmedStart(before[1..], rest);
    }
  }

  lemma {:induction false} TrimmedEnd(rest: string, after: string)
    requires Spaces(after) && (rest != "" ==> !IsSpaceCode(rest[|rest| - 1] as int))
    ensures JsTrimEnd(rest + after) == rest
    decreases |after|
  {
    hide IsJsSpace;
    if after == "" {
      assert rest + after == rest;
      if rest != "" {
        SpacesByCode(rest[|rest| - 1]);
      }
    } else {
      var init := after[..|after| - 1];
      SpacesByCode(after[|after| - 1]);
      assert (rest + after)[..|rest + after| - 1] == rest + init;
      TrimmedEnd(rest, init);
    }
  }

  lemma {:induction false} OnlySpacesTrimmed(s: string)
    requires Spaces(s)
    ensures JsTrimStart(s) == ""
  {
    hide IsJsSpace;
    if s != "" {
      SpacesByCode(s[0]);
      OnlySpacesTrimmed(s[1..]);
    }
  }

  /** The dialog's trimming takes away exactly the white space around a value. */
  lemma TrimIs(t: string, raw: string)
    requires IsTrimOf(t, raw)
    ensures JsTrim(raw) == t
  {
    hide IsJsSpace, IsSpaceCode;
    var before, after :| Spaces(before) && Spaces(after) && raw == before + t + after;
    if t == "" {
      assert raw == before + after;
      OnlySpacesTrimmed(raw);
    } else {
      assert raw == before + (t + after) && (t + after)[0] == t[0];
      TrimmedStart(before, t + after);
      TrimmedEnd(t, after);
    }
  }

  /** Every value has a trimmed form. */
  lemma HasTrim(raw: string)
    ensures IsTrimOf(JsTrim(raw), raw)
  {
    hide IsJsSpace, IsSpaceCode, Spaces, JsTrimStart, JsTrimEnd, IsTrimOf;
    var rest := JsTrimStart(raw);
    var t := JsTrimEnd(rest);
    StartIsSpaces(raw);
    EndIsSpaces(rest);
    Parted(raw, rest, t);
    if t != "" {
      assert t[0] == rest[0];
      SpacesByCode(rest[0]);
      SpacesByCode(t[|t| - 1]);
    }
    TrimOfParts(raw[..|raw| - |rest|], t, rest[|t|..], raw);
  }

  lemma TrimOfParts(before: string, t: string, after: string, raw: string)
    requires Spaces(before) && Spaces(after) && raw == before + t + after
    requires t != "" ==> !IsSpaceCode(t[0] as int) && !IsSpaceCode(t[|t| - 1] as int)
    ensures IsTrimOf(t, raw)
  {
    hide IsSpaceCode, Spaces;
  }

  lemma {:induction false} StartIsSpaces(s: string)
    ensures Spaces(s[..|s| - |JsTrimStart(s)|])
    ensures JsTrimStart(s) != "" ==> !IsJsSpace(JsTrimStart(s)[0])
  {
    hide IsJsSpace, IsSpaceCode;
    if s != "" && IsJsSpace(s[0]) {
      SpacesByCode(s[0]);
      StartIsSpaces(s[1..]);
      var n := |s| - |JsTrimStart(s)|;
      assert s[..n][1..] == s[1..][..n - 1];
      assert forall i :: 0 < i < n ==> s[..n][i] == s[1..][..n - 1][i - 1];
    }
  }

  lemma {:induction false} EndIsSpaces(s: string)
    ensures Spaces(s[|JsTrimEnd(s)|..])
    ensures JsTrimEnd(s) != "" ==> !IsJsSpace(JsTrimEnd(s)[|JsTrimEnd(s)| - 1])
  {
    hide IsJsSpace, IsSpaceCode;
    if s != "" && IsJsSpace(s[|s| - 1]) {
      var init := s[..|s| - 1];
      SpacesByCode(s[|s| - 1]);
      EndIsSpaces(init);
      assert s[|JsTrimEnd(s)|..] == init[|JsTrimEnd(s)|..] + [s[|s| - 1]];
    }
  }

  // ----- numbers -----

  lemma {:induction false} SkipAll(s: string)
    ensures SkipDigits(s) == "" <==> forall i :: 0 <= i < |s| ==> IsDigit(s[i])
    ensures SkipDigits(s) == s <==> s == "" || !IsDigit(s[0])
  {
    if s != "" && IsDigit(s[0]) {
      SkipAll(s[1..]);
      assert forall i :: 0 < i < |s| ==> s[i] == s[1..][i - 1];
      SkipShorter(s[1..]);
    }
  }

  lemma SkipShorter(s: string)
    ensures |SkipDigits(s)| <= |s|
  {
  }

  lemma {:induction false} SkipTo(s: string, k: nat)
    requires k < |s| && !IsDigit(s[k]) && forall i :: 0 <= i < k ==> IsDigit(s[i])
    ensures SkipDigits(s) == s[k..]
  {
    if k > 0 {
      SkipTo(s[1..], k - 1);
      assert s[1..][k - 1..] == s[k..];
    } else {
      assert s[0..] == s;
    }
  }

  lemma {:induction false} SkippedAt(s: string)
    ensures var k := |s| - |SkipDigits(s)|;
            s[k..] == SkipDigits(s) && forall i :: 0 <= i < k ==> IsDigit(s[i])
  {
    if s != "" && IsDigit(s[0]) {
      SkippedAt(s[1..]);
      var k := |s| - |SkipDigits(s)|;
      assert s[k..] == s[1..][k - 1..];
      assert forall i :: 0 < i < k ==> s[i] == s[1..][i - 1];
    } else {
      assert s[0..] == s;
    }
  }

  /** The dialog's pattern matches exactly what the reader reads to the end. */
  lemma NumericIffRead(s: string)
    ensures IsNumeric(s) <==> ReadNumber(s) == Some("")
  {
    hide IsDigit, SkipDigits, AllDigits;
    var t := if s != "" && s[0] == '-' then s[1..] else s;
    UnsignedIffRead(t);
  }

  lemma UnsignedIffRead(t: string)
    ensures var rest := SkipDigits(t);
            IsUnsigned(t) <==>
            && rest != t
            && (rest == "" || (rest[0] == '.' && rest[1..] != "" && SkipDigits(rest[1..]) == ""))
  {
    var rest := SkipDigits(t);
    SkipAll(t);
    if IsUnsigned(t) && !AllDigits(t) {
      var k :| 0 <= k < |t| && t[k] == '.' && AllDigits(t[..k]) && AllDigits(t[k + 1..]);
      assert forall i :: 0 <= i < k ==> IsDigit(t[..k][i]) && t[..k][i] == t[i];
      SkipTo(t, k);
      SkipAll(t[k + 1..]);
      assert rest[1..] == t[k + 1..];
    }
    if rest != t && rest != "" && rest[0] == '.' && rest[1..] != "" && SkipDigits(rest[1..]) == "" {
      var k := |t| - |rest|;
      SkippedAt(t);
      SkipAll(rest[1..]);
      assert t[k] == '.' && t[k + 1..] == rest[1..];
      assert AllDigits(t[..k]) && AllDigits(t[k + 1..]);
    }
  }

  // ----- NULL -----

  lemma NullIffUpper(s: string)
    ensures IsNull(s) <==> AsciiUpper(s) == "NULL"
  {
    UpperAt(s);
    if IsNull(s) {
      assert AsciiUpper(s) == [AsciiUpper(s)[0], AsciiUpper(s)[1], AsciiUpper(s)[2], AsciiUpper(s)[3]];
    }
  }

  // ----- what a value becomes -----

  predicate LeftBare(t: string) {
    AsciiUpper(t) == "NULL" || ReadNumber(t) == Some("")
  }

  /** What is written for a value, by its trimmed form: NULL for any spelling of it, a
      number as it stands, and otherwise a quoted text that reads back to the whole
      value. It is bare if and only if the trimmed value spells NULL or is a number. */
  lemma LiteralMeans(raw: string, t: string)
    requires IsTrimOf(t, raw)
    ensures AsciiUpper(t) == "NULL" ==> Literal(raw) == "NULL"
    ensures AsciiUpper(t) != "NULL" && ReadNumber(t) == Some("") ==> Literal(raw) == t
    ensures !LeftBare(t) ==>
              && Literal(raw) != "" && Literal(raw)[0] == '\''
              && LexQuoted(Literal(raw)[1..], '\'') == Some((raw, ""))
    ensures Literal(raw) != "" && (Literal(raw)[0] == '\'' <==> !LeftBare(t))
  {
    hide JsTrim, ReadNumber, AsciiUpper, IsTrimOf, Double;
    TrimIs(t, raw);
    NumericIffRead(t);
    NullIffUpper(t);
    if !IsNull(t) && !IsNumeric(t) {
      QuotedReadsBack(raw);
    } else if !IsNull(t) {
      NumberChars(t);
    }
  }

  /** The literal of a placeholder is that of the value under its name, of the empty
      text if there is none. */
  lemma LiteralOfName(values: map<string, string>, p: Placeholder, name: string)
    requires p == ":" + name || p == "$" + name
    ensures Literals(values)(p) == Literal(if name in values then values[name] else "")
  {
    hide Literal;
    assert p[1..] == name;
  }

  /** A hyphen behind the first character, as in a date, makes a value a text. */
  lemma HyphenatedIsQuoted(raw: string, t: string, i: nat)
    requires IsTrimOf(t, raw) && 0 < i < |t| && t[i] == '-'
    ensures Literal(raw) != "" && LexQuoted(Literal(raw)[1..], '\'') == Some((raw, ""))
  {
    hide JsTrim, ReadNumber, AsciiUpper, IsTrimOf, Literal, LexQuoted;
    LiteralMeans(raw, t);
    NumericIffRead(t);
    NullIffUpper(t);
    HyphenatedIsNoNumber(t, i);
  }

  lemma HyphenatedIsNoNumber(t: string, i: nat)
    requires 0 < i < |t| && t[i] == '-'
    ensures !IsNumeric(t) && !IsNull(t)
  {
    var u, j := if t[0] == '-' then t[1..] else t, if t[0] == '-' then i - 1 else i;
    assert u[j] == '-';
    forall k | 0 <= k < |u| && u[k] == '.'
      ensures !(AllDigits(u[..k]) && AllDigits(u[k + 1..]))
    {
      if j < k {
        assert u[..k][j] == '-';
      } else if j > k {
        assert u[k + 1..][j - k - 1] == '-';
      }
    }
  }
}
