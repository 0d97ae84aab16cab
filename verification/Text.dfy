/** String helpers shared by the SQL text kernels. */
module Text {

  import opened Wrappers

  // ----- concatenation -----

  lemma Assoc<T>(a: seq<T>, b: seq<T>, c: seq<T>)
    ensures a + (b + c) == (a + b) + c
  {
  }

  lemma SplitAt<T>(s: seq<T>, k: nat)
    requires k <= |s|
    ensures s[..k] + s[k..] == s
    ensures k == 1 ==> s[..k] == [s[0]]
  {
  }

  predicate StartsWith(s: string, p: string) {
    |p| <= |s| && s[..|p|] == p
  }

  lemma StartsWithAppend(p: string, rest: string)
    ensures StartsWith(p + rest, p)
    ensures (p + rest)[|p|..] == rest
  {
  }

  lemma Differs(s: string, p: string, i: nat)
    requires i < |p| && i < |s| && s[i] != p[i]
    ensures !StartsWith(s, p)
  {
    if |p| <= |s| {
      assert s[..|p|][i] == s[i];
    }
  }

  // ----- trimming -----

  /** The characters Rust's `str::trim` removes (Unicode White_Space). */
  predicate IsSpace(c: char) {
    || '\t' <= c <= '\r' || c == ' ' || c == '\U{85}' || c == '\U{A0}' || c == '\U{1680}'
    || '\U{2000}' <= c <= '\U{200A}' || c == '\U{2028}' || c == '\U{2029}' || c == '\U{202F}'
    || c == '\U{205F}' || c == '\U{3000}'
  }

  function TrimStart(s: string): (r: string)
    ensures r == "" || !IsSpace(r[0])
    ensures |r| <= |s| && r == s[|s| - |r|..]
  {
    if s == "" then "" else if IsSpace(s[0]) then TrimStart(s[1..]) else s
  }

  function TrimEnd(s: string): (r: string)
    ensures r == "" || !IsSpace(r[|r| - 1])
    ensures |r| <= |s| && r == s[..|r|]
  {
    if s == "" then "" else if IsSpace(s[|s| - 1]) then TrimEnd(s[..|s| - 1]) else s
  }

  function Trim(s: string): (r: string)
    ensures r == "" || (!IsSpace(r[0]) && !IsSpace(r[|r| - 1]))
    ensures forall c :: c in r ==> c in s
  {
    TrimEnd(TrimStart(s))
  }

  lemma TrimNoop(s: string)
    requires s != "" && !IsSpace(s[0]) && !IsSpace(s[|s| - 1])
    ensures Trim(s) == s
  {
  }

  // ----- what trimming is -----

  /** White_Space of the Unicode character database, by code point. */
  predicate IsWhiteSpace(n: int) {
    || 0x9 <= n <= 0xD || n == 0x20 || n == 0x85 || n == 0xA0 || n == 0x1680 || 0x2000 <= n <= 0x200A
    || n == 0x2028 || n == 0x2029 || n == 0x202F || n == 0x205F || n == 0x3000
  }

  predicate AllWhiteSpace(s: string) {
    forall i :: 0 <= i < |s| ==> IsWhiteSpace(s[i] as int)
  }

  lemma SpaceByCode(c: char)
    ensures IsSpace(c) <==> IsWhiteSpace(c as int)
  {
  }

  lemma {:induction false} StartTaken(s: string)
    ensures AllWhiteSpace(s[..|s| - |TrimStart(s)|])
  {
    hide IsSpace, IsWhiteSpace;
    if s != "" && IsSpace(s[0]) {
      SpaceByCode(s[0]);
      StartTaken(s[1..]);
      var n := |s| - |TrimStart(s)|;
      assert forall i :: 0 < i < n ==> s[..n][i] == s[1..][..n - 1][i - 1];
    }
  }

  lemma {:induction false} EndTaken(s: string)
    ensures AllWhiteSpace(s[|TrimEnd(s)|..])
  {
    hide IsSpace, IsWhiteSpace;
    if s != "" && IsSpace(s[|s| - 1]) {
      var init := s[..|s| - 1];
      SpaceByCode(s[|s| - 1]);
      EndTaken(init);
      assert s[|TrimEnd(s)|..] == init[|TrimEnd(s)|..] + [s[|s| - 1]];
    }
  }

  /** Trimming takes away exactly the white space at both ends. */
  lemma TrimIs(s: string) returns (before: string, after: string)
    ensures s == before + Trim(s) + after && AllWhiteSpace(before) && AllWhiteSpace(after)
    ensures Trim(s) != "" ==>
              !IsWhiteSpace(Trim(s)[0] as int) && !IsWhiteSpace(Trim(s)[|Trim(s)| - 1] as int)
  {
    hide IsSpace, IsWhiteSpace, AllWhiteSpace, TrimStart, TrimEnd;
    var rest := TrimStart(s);
    before, after := s[..|s| - |rest|], rest[|TrimEnd(rest)|..];
    StartTaken(s);
    EndTaken(rest);
    Parted(s, rest, TrimEnd(rest));
    if Trim(s) != "" {
      SpaceByCode(Trim(s)[0]);
      SpaceByCode(Trim(s)[|Trim(s)| - 1]);
    }
  }

  lemma Parted(s: string, rest: string, t: string)
    requires |t| <= |rest| <= |s| && rest == s[|s| - |rest|..] && t == rest[..|t|]
    ensures s == s[..|s| - |rest|] + t + rest[|t|..]
  {
    assert t + rest[|t|..] == rest;
  }

  lemma {:induction false} TrimEndAppend(a: string, b: string)
    requires a != "" && !IsSpace(a[|a| - 1])
    ensures TrimEnd(a + b) == a + TrimEnd(b)
    decreases |b|
  {
    hide IsSpace;
    if b == "" {
      assert a + b == a;
    } else {
      var init := b[..|b| - 1];
      assert (a + b)[..|a + b| - 1] == a + init;
      TrimEndAppend(a, init);
    }
  }

  lemma {:induction false} TrimStartSnoc(s: string, c: char)
    requires IsSpace(c)
    ensures TrimStart(s + [c]) == if TrimStart(s) == "" then "" else TrimStart(s) + [c]
  {
    hide IsSpace;
    if s == "" {
      assert s + [c] == [c] && [c][1..] == "";
    } else {
      assert (s + [c])[1..] == s[1..] + [c];
      TrimStartSnoc(s[1..], c);
    }
  }

  lemma TrimEndSnoc(s: string, c: char)
    ensures IsSpace(c) ==> TrimEnd(s + [c]) == TrimEnd(s)
    ensures !IsSpace(c) ==> TrimEnd(s + [c]) == s + [c]
  {
    hide IsSpace;
    assert (s + [c])[..|s|] == s;
  }

  /** Nothing is left exactly of white space. */
  lemma BlankIff(s: string)
    ensures Trim(s) == "" <==> AllWhiteSpace(s)
  {
    hide IsSpace, IsWhiteSpace, Trim;
    var before, after := TrimIs(s);
    if Trim(s) == "" {
      assert s == before + after;
    } else {
      assert s[|before|] == Trim(s)[0];
    }
  }

  lemma TrimEmpty()
    ensures TrimStart("") == "" && TrimEnd("") == ""
  {
  }

  lemma TrimSnoc(s: string, c: char)
    requires IsSpace(c)
    ensures Trim(s + [c]) == Trim(s)
  {
    hide IsSpace, TrimStart, TrimEnd;
    TrimStartSnoc(s, c);
    TrimEndSnoc(TrimStart(s), c);
  }

  lemma TrimOneBehind(s: string, c: char)
    requires Trim(TrimEnd(s)) == Trim(s)
    ensures Trim(TrimEnd(s + [c])) == Trim(s + [c])
  {
    hide IsSpace, Trim, TrimEnd;
    TrimEndSnoc(s, c);
    if IsSpace(c) {
      TrimSnoc(s, c);
    }
  }

  /** The white space behind a text may be taken away first. */
  lemma {:induction false} TrimBehind(s: string)
    ensures Trim(TrimEnd(s)) == Trim(s)
    decreases |s|
  {
    hide IsSpace, Trim, TrimStart, TrimEnd;
    if s == "" {
      TrimEmpty();
      assert TrimEnd(s) == s;
    } else {
      var init, c := s[..|s| - 1], s[|s| - 1];
      assert init + [c] == s;
      TrimBehind(init);
      TrimOneBehind(init, c);
    }
  }

  // ----- upper case -----

  /** Upper case of the letters a to z. */
  function AsciiUpper(s: string): string {
    if s == "" then ""
    else [if 'a' <= s[0] <= 'z' then (s[0] as int - 32) as char else s[0]] + AsciiUpper(s[1..])
  }

  lemma {:induction false} UpperAt(s: string)
    ensures |AsciiUpper(s)| == |s|
    ensures forall i :: 0 <= i < |s| ==>
              AsciiUpper(s)[i] == if 'a' <= s[i] <= 'z' then (s[i] as int - 32) as char else s[i]
  {
    if s != "" {
      UpperAt(s[1..]);
    }
  }

  // ----- doubling a quote character, and reading it back -----

  function Double(s: string, q: char): (r: string)
    ensures forall c :: c in r ==> c in s
  {
    if s == "" then "" else (if s[0] == q then [q, q] else [s[0]]) + Double(s[1..], q)
  }

  /** Left-to-right replacement of `qq` by `q`. */
  function Undouble(s: string, q: char): (r: string)
    ensures forall c :: c in r ==> c in s
  {
    if |s| < 2 then s
    else if s[0] == q && s[1] == q then [q] + Undouble(s[2..], q)
    else [s[0]] + Undouble(s[1..], q)
  }

  /** A text without two quote characters in a row stays as it is. */
  lemma {:induction false} UndoubleKeeps(s: string, q: char)
    requires forall i :: 0 <= i < |s| - 1 ==> s[i] != q || s[i + 1] != q
    ensures Undouble(s, q) == s
  {
    if |s| >= 2 {
      UndoubleKeeps(s[1..], q);
    }
  }

  lemma {:induction false} UndoubleDouble(s: string, q: char)
    ensures Undouble(Double(s, q), q) == s
  {
    if s != "" {
      UndoubleDouble(s[1..], q);
      var d := Double(s, q);
      if s[0] == q {
        assert d[2..] == Double(s[1..], q);
      } else {
        assert d[1..] == Double(s[1..], q);
      }
    }
  }

  /** Reads a quoted form from just behind its opening quote `q`, as ISO/IEC 9075-2
      does for delimited identifiers (section 5.2) and character literals (section
      5.3): `qq` stands for one `q`, a single `q` ends it. */
  function LexQuoted(s: string, q: char): (r: Option<(string, string)>)
    ensures r.Some? ==> |r.value.1| < |s|
  {
    if s == "" then None
    else if s[0] == q && !(|s| > 1 && s[1] == q) then Some(("", s[1..]))
    else
      var k := if s[0] == q then 2 else 1;
      match LexQuoted(s[k..], q)
      case None => None
      case Some((v, rest)) => Some(([s[0]] + v, rest))
  }

  /** A doubled value between quotes reads back to itself and ends at its own
      closing quote, whatever text follows. */
  lemma {:induction false} LexQuotedDouble(v: string, q: char, rest: string)
    requires rest == "" || rest[0] != q
    ensures LexQuoted(Double(v, q) + [q] + rest, q) == Some((v, rest))
  {
    if v == "" {
      assert Double(v, q) + [q] + rest == [q] + rest;
      assert ([q] + rest)[1..] == rest;
    } else {
      LexQuotedDouble(v[1..], q, rest);
      var head := if v[0] == q then [q, q] else [v[0]];
      var tail := Double(v[1..], q) + [q] + rest;
      Assoc(head, Double(v[1..], q), [q]);
      Assoc(head, Double(v[1..], q) + [q], rest);
      LexQuotedStep(v[0], q, tail);
      assert [v[0]] + v[1..] == v;
    }
  }

  lemma LexQuotedStep(c: char, q: char, tail: string)
    ensures var s := (if c == q then [q, q] else [c]) + tail;
            LexQuoted(s, q) == match LexQuoted(tail, q)
                               case None => None
                               case Some((v, rest)) => Some(([c] + v, rest))
  {
    if c == q {
      assert ([q, q] + tail)[2..] == tail;
    } else {
      assert ([c] + tail)[1..] == tail;
    }
  }

  // ----- splitting and joining -----

  function Join(parts: seq<string>, sep: string): string {
    if parts == [] then ""
    else if |parts| == 1 then parts[0]
    else parts[0] + sep + Join(parts[1..], sep)
  }

  /** Rust's `str::split` on one character: always at least one part. */
  function SplitOn(s: string, sep: char): (r: seq<string>)
    ensures |r| >= 1
  {
    if s == "" then [""]
    else
      var rest := SplitOn(s[1..], sep);
      if s[0] == sep then [""] + rest else [[s[0]] + rest[0]] + rest[1..]
  }

  lemma {:induction false} SplitParts(s: string, sep: char)
    ensures forall i :: 0 <= i < |SplitOn(s, sep)| ==> sep !in SplitOn(s, sep)[i]
  {
    if s != "" {
      SplitParts(s[1..], sep);
    }
  }

  lemma {:induction false} SplitPart(p: string, rest: string, sep: char)
    requires sep !in p
    ensures SplitOn(p + [sep] + rest, sep) == [p] + SplitOn(rest, sep)
    ensures SplitOn(p, sep) == [p]
  {
    if p == "" {
      assert (p + [sep] + rest)[1..] == rest;
    } else {
      SplitPart(p[1..], rest, sep);
      assert (p + [sep] + rest)[1..] == p[1..] + [sep] + rest;
      assert [p[0]] + p[1..] == p;
    }
  }

  lemma {:induction false} SplitJoin(parts: seq<string>, sep: char)
    requires parts != []
    requires forall i :: 0 <= i < |parts| ==> sep !in parts[i]
    ensures SplitOn(Join(parts, [sep]), sep) == parts
  {
    if |parts| == 1 {
      SplitPart(parts[0], "", sep);
    } else {
      SplitJoin(parts[1..], sep);
      SplitPart(parts[0], Join(parts[1..], [sep]), sep);
      assert [parts[0]] + parts[1..] == parts;
    }
  }
}
