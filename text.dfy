/** String helpers shared by the client (JavaScript) and the server and CLI (Python).
    The two languages disagree on what whitespace is, so both sets are defined. */
module Text {

  /** Whitespace for JavaScript's `String.prototype.trim` and for the regular-expression class `\s`
      (WhiteSpace and LineTerminator of ECMAScript). */
  predicate IsJsSpace(c: char) {
    c == '\t' || c == '\n' || c == '\U{B}' || c == '\U{C}' || c == '\r' || c == ' '
    || c == '\U{A0}' || c == '\U{1680}' || ('\U{2000}' <= c <= '\U{200A}')
    || c == '\U{2028}' || c == '\U{2029}' || c == '\U{202F}' || c == '\U{205F}'
    || c == '\U{3000}' || c == '\U{FEFF}'
  }

  /** Whitespace for Python's `str.strip()` with no argument (`str.isspace`). Unlike JavaScript it
      includes U+001C..U+001F and U+0085, and it excludes U+FEFF. */
  predicate IsPySpace(c: char) {
    c == '\t' || c == '\n' || c == '\U{B}' || c == '\U{C}' || c == '\r'
    || ('\U{1C}' <= c <= '\U{1F}') || c == ' ' || c == '\U{85}' || c == '\U{A0}'
    || c == '\U{1680}' || ('\U{2000}' <= c <= '\U{200A}') || c == '\U{2028}'
    || c == '\U{2029}' || c == '\U{202F}' || c == '\U{205F}' || c == '\U{3000}'
  }

  /** The quote characters of Python's `strip('"\'')`. */
  predicate IsQuote(c: char) {
    c == '"' || c == '\''
  }

  /** Drops the leading characters satisfying `ws`: what is left is a suffix of `s` that starts
      with a kept character, and everything dropped satisfied `ws`. */
  function TrimStart(s: string, ws: char -> bool): (r: string)
    ensures |r| <= |s| && r == s[|s| - |r|..]
    ensures r == [] || !ws(r[0])
    ensures forall k :: 0 <= k < |s| - |r| ==> ws(s[k])
  {
    if s != [] && ws(s[0]) then TrimStart(s[1..], ws) else s
  }

  /** Drops the trailing characters satisfying `ws`: a prefix of `s` ending in a kept character. */
  function TrimEnd(s: string, ws: char -> bool): (r: string)
    ensures |r| <= |s| && r == s[..|r|]
    ensures r == [] || !ws(r[|r| - 1])
    ensures forall k :: |r| <= k < |s| ==> ws(s[k])
  {
    if s != [] && ws(s[|s| - 1]) then TrimEnd(s[..|s| - 1], ws) else s
  }

  /** Both ends trimmed: the result is the slice `s[lead..lead + |r|]`, neither end of it satisfies
      `ws`, and every character outside the slice does. */
  function Trim(s: string, ws: char -> bool): (r: string)
    ensures r == [] || (!ws(r[0]) && !ws(r[|r| - 1]))
    ensures var lead := |s| - |TrimStart(s, ws)|;
      lead + |r| <= |s| && r == s[lead..lead + |r|]
      && (forall k :: 0 <= k < lead ==> ws(s[k]))
      && (forall k :: lead + |r| <= k < |s| ==> ws(s[k]))
  {
    TrimEnd(TrimStart(s, ws), ws)
  }

  /** JavaScript's `s.trim()`. */
  function JsTrim(s: string): string {
    Trim(s, IsJsSpace)
  }

  /** Python's `s.strip()`. */
  function PyStrip(s: string): string {
    Trim(s, IsPySpace)
  }

  /** Trimming twice trims nothing more. */
  lemma TrimIdempotent(s: string, ws: char -> bool)
    ensures Trim(Trim(s, ws), ws) == Trim(s, ws)
  {
    var r := Trim(s, ws);
    assert TrimStart(r, ws) == r;
    assert TrimEnd(r, ws) == r;
  }

  /** A string whose two ends are kept characters is its own trim. */
  lemma TrimNoop(s: string, ws: char -> bool)
    requires s == [] || (!ws(s[0]) && !ws(s[|s| - 1]))
    ensures TrimStart(s, ws) == s && TrimEnd(s, ws) == s && Trim(s, ws) == s
  {
  }

  /** One trimmed character on each side of a string with kept ends is removed, and nothing more. */
  lemma TrimAround(c: char, p: string, ws: char -> bool)
    requires ws(c) && p != [] && !ws(p[0]) && !ws(p[|p| - 1])
    ensures Trim([c] + p + [c], ws) == p
  {
    var q := [c] + p + [c];
    var pc := p + [c];
    assert q[1..] == pc;
    assert TrimStart(pc, ws) == pc;
    assert TrimStart(q, ws) == pc;
    assert pc[..|pc| - 1] == p;
    TrimNoop(p, ws);
    assert TrimEnd(pc, ws) == p;
  }

  /** Trimming never introduces a character: the result is a slice of the input. */
  lemma TrimKeepsOut(s: string, ws: char -> bool, c: char)
    requires c !in s
    ensures c !in Trim(s, ws)
  {
    var r := Trim(s, ws);
    var lead := |s| - |TrimStart(s, ws)|;
    forall k | 0 <= k < |r| ensures r[k] != c {
      assert r[k] == s[lead + k];
    }
  }

  /** ASCII upper case to lower case; every other character is left alone. */
  function LowerChar(c: char): char {
    if 'A' <= c <= 'Z' then (c as int + 32) as char else c
  }

  /** Lower-casing, character by character (JavaScript `toLowerCase`, Python `lower`, restricted to ASCII). */
  function Lower(s: string): (r: string)
    ensures |r| == |s|
    ensures forall k :: 0 <= k < |s| ==> r[k] == LowerChar(s[k])
  {
    if s == [] then [] else [LowerChar(s[0])] + Lower(s[1..])
  }

  /** A string without upper-case ASCII letters is its own lower case. */
  lemma {:induction false} LowerFixed(s: string)
    requires forall k :: 0 <= k < |s| ==> !('A' <= s[k] <= 'Z')
    ensures Lower(s) == s
  {
  }

  /** `t` occurs somewhere in `s` as a contiguous piece (JavaScript `includes`, Python `in`). */
  predicate Contains(s: string, t: string)
    decreases |s|
  {
    t <= s || (s != [] && Contains(s[1..], t))
  }

  /** An occurrence at a known position makes `t` a piece of `s`. */
  lemma {:induction false} ContainsAt(s: string, t: string, k: nat)
    requires k + |t| <= |s| && s[k..k + |t|] == t
    ensures Contains(s, t)
    decreases k
  {
    if k > 0 {
      assert s[1..][k - 1..k - 1 + |t|] == s[k..k + |t|];
      ContainsAt(s[1..], t, k - 1);
    }
  }

  /** A piece whose first character never appears in `s` does not occur in it. */
  lemma {:induction false} NotContainsHead(s: string, t: string)
    requires t != [] && t[0] !in s
    ensures !Contains(s, t)
    decreases |s|
  {
    if s != [] {
      assert s[0] != t[0];
      NotContainsHead(s[1..], t);
    }
  }

  /** A two-character piece is absent when no neighbouring pair of `s` spells it. */
  lemma {:induction false} NotContainsPair(s: string, t: string)
    requires |t| == 2
    requires forall k :: 0 <= k < |s| - 1 ==> s[k] != t[0] || s[k + 1] != t[1]
    ensures !Contains(s, t)
    decreases |s|
  {
    if s != [] {
      assert !(t <= s) by {
        if |s| >= 2 {
          assert s[0] != t[0] || s[1] != t[1];
        }
      }
      NotContainsPair(s[1..], t);
    }
  }

  /** The index of the first `c` in `s`, or `|s|` when there is none. */
  function IndexOf(s: string, c: char): (r: nat)
    ensures r <= |s|
    ensures r < |s| ==> s[r] == c
    ensures forall k :: 0 <= k < r ==> s[k] != c
  {
    if s == [] || s[0] == c then 0 else 1 + IndexOf(s[1..], c)
  }

  /** Python's `s.split(c)[0]`: the part before the first `c`, all of `s` when there is none. */
  function BeforeFirst(s: string, c: char): (r: string)
    ensures r <= s
    ensures c !in r
    ensures |r| < |s| ==> s[|r|] == c
  {
    s[..IndexOf(s, c)]
  }

  /** Python's `s.split(c)`: the pieces between the occurrences of `c`; never empty, and no piece holds `c`. */
  function Split(s: string, c: char): (parts: seq<string>)
    ensures |parts| >= 1
    ensures forall k :: 0 <= k < |parts| ==> c !in parts[k]
    decreases |s|
  {
    var i := IndexOf(s, c);
    if i == |s| then [s] else [s[..i]] + Split(s[i + 1..], c)
  }

  /** Python's `sep.join(parts)`. */
  function Join(parts: seq<string>, sep: string): string
    decreases |parts|
  {
    if parts == [] then ""
    else if |parts| == 1 then parts[0]
    else parts[0] + sep + Join(parts[1..], sep)
  }

  /** Splitting at a character and joining with it again gives back the input. */
  lemma {:induction false} JoinSplit(s: string, c: char)
    ensures Join(Split(s, c), [c]) == s
    decreases |s|
  {
    var i := IndexOf(s, c);
    if i < |s| {
      var rest := s[i + 1..];
      var tail := Split(rest, c);
      JoinSplit(rest, c);
      assert Split(s, c) == [s[..i]] + tail;
      assert ([s[..i]] + tail)[1..] == tail;
      assert Join(Split(s, c), [c]) == s[..i] + [c] + Join(tail, [c]);
      assert s == s[..i] + [c] + rest;
    }
  }

  /** `[p.strip() for p in parts if p.strip()]`. */
  function StrippedNonBlank(parts: seq<string>): (r: seq<string>)
    ensures forall k :: 0 <= k < |r| ==> r[k] != ""
  {
    if parts == [] then []
    else (if PyStrip(parts[0]) != "" then [PyStrip(parts[0])] else []) + StrippedNonBlank(parts[1..])
  }

  /** `[s.strip() for s in text.split(",") if s.strip()] if text else []`. */
  function CommaList(text: string): seq<string> {
    if text == "" then [] else StrippedNonBlank(Split(text, ','))
  }

  /** An entry is listed exactly when it is the non-blank strip of some piece between commas. */
  lemma {:induction false} StrippedNonBlankKeeps(parts: seq<string>, x: string)
    ensures x in StrippedNonBlank(parts) <==> x != "" && exists k :: 0 <= k < |parts| && PyStrip(parts[k]) == x
  {
    if parts != [] {
      var rest := parts[1..];
      var h := PyStrip(parts[0]);
      var tail := StrippedNonBlank(rest);
      StrippedNonBlankKeeps(rest, x);
      assert StrippedNonBlank(parts) == (if h != "" then [h] else []) + tail;
      assert x in StrippedNonBlank(parts) <==> (h != "" && x == h) || x in tail;
      if x in tail {
        var k :| 0 <= k < |rest| && PyStrip(rest[k]) == x;
        assert PyStrip(parts[k + 1]) == x;
      }
      if x != "" && exists k :: 0 <= k < |parts| && PyStrip(parts[k]) == x {
        var k :| 0 <= k < |parts| && PyStrip(parts[k]) == x;
        if k > 0 {
          assert PyStrip(rest[k - 1]) == x;
        }
      }
    }
  }

  /** Every listed entry is non-empty, already stripped and free of commas. */
  lemma CommaListShape(text: string)
    ensures forall k :: 0 <= k < |CommaList(text)| ==>
      CommaList(text)[k] != "" && PyStrip(CommaList(text)[k]) == CommaList(text)[k] && ',' !in CommaList(text)[k]
  {
    var r := CommaList(text);
    forall k | 0 <= k < |r|
      ensures r[k] != "" && PyStrip(r[k]) == r[k] && ',' !in r[k]
    {
      var parts := Split(text, ',');
      StrippedNonBlankKeeps(parts, r[k]);
      var j :| 0 <= j < |parts| && PyStrip(parts[j]) == r[k];
      TrimIdempotent(parts[j], IsPySpace);
      TrimKeepsOut(parts[j], IsPySpace, ',');
    }
  }

  /** JavaScript's `s.replace(/\s+/g, ' ')`: every maximal run of whitespace becomes one space. */
  function CollapseSpaces(s: string): (r: string)
    ensures |r| <= |s|
    decreases |s|
  {
    if s == [] then []
    else if IsJsSpace(s[0]) then
      var rest := TrimStart(s, IsJsSpace);
      assert |rest| < |s|;
      [' '] + CollapseSpaces(rest)
    else [s[0]] + CollapseSpaces(s[1..])
  }

  /** No two neighbouring characters are both whitespace. */
  predicate NoDoubleSpace(s: string) {
    forall k :: 0 <= k < |s| - 1 ==> !(IsJsSpace(s[k]) && IsJsSpace(s[k + 1]))
  }

  /** The only whitespace character present is the plain space. */
  predicate OnlyPlainSpaces(s: string) {
    forall k :: 0 <= k < |s| && IsJsSpace(s[k]) ==> s[k] == ' '
  }

  /** Collapsing leaves no whitespace run longer than one, and that one is a plain space; the
      result starts with a space exactly when the input starts with whitespace. */
  lemma {:induction false} CollapseShape(s: string)
    ensures NoDoubleSpace(CollapseSpaces(s)) && OnlyPlainSpaces(CollapseSpaces(s))
    ensures s != [] ==> CollapseSpaces(s) != [] && (IsJsSpace(CollapseSpaces(s)[0]) <==> IsJsSpace(s[0]))
    decreases |s|
  {
    if s != [] {
      if IsJsSpace(s[0]) {
        var rest := TrimStart(s, IsJsSpace);
        CollapseShape(rest);
        var tail := CollapseSpaces(rest);
        assert CollapseSpaces(s) == [' '] + tail;
        assert rest != [] ==> !IsJsSpace(rest[0]);
      } else {
        CollapseShape(s[1..]);
        var tail := CollapseSpaces(s[1..]);
        assert CollapseSpaces(s) == [s[0]] + tail;
      }
    }
  }

  /** The text with every whitespace character deleted. */
  function DropSpaces(s: string): (r: string)
    ensures |r| <= |s|
    ensures forall k :: 0 <= k < |r| ==> !IsJsSpace(r[k])
  {
    if s == [] then [] else (if IsJsSpace(s[0]) then [] else [s[0]]) + DropSpaces(s[1..])
  }

  /** Leading whitespace contributes nothing once whitespace is deleted. */
  lemma {:induction false} DropSpacesTrimStart(s: string)
    ensures DropSpaces(TrimStart(s, IsJsSpace)) == DropSpaces(s)
    decreases |s|
  {
    if s != [] && IsJsSpace(s[0]) {
      DropSpacesTrimStart(s[1..]);
    }
  }

  /** Collapsing changes only the whitespace: the other characters are kept, all of them and in
      their order. */
  lemma {:induction false} CollapseKeepsText(s: string)
    ensures DropSpaces(CollapseSpaces(s)) == DropSpaces(s)
    decreases |s|
  {
    if s != [] {
      if IsJsSpace(s[0]) {
        var rest := TrimStart(s, IsJsSpace);
        CollapseKeepsText(rest);
        DropSpacesTrimStart(s);
        var r := [' '] + CollapseSpaces(rest);
        assert r[1..] == CollapseSpaces(rest);
      } else {
        CollapseKeepsText(s[1..]);
        var r := [s[0]] + CollapseSpaces(s[1..]);
        assert r[0] == s[0] && r[1..] == CollapseSpaces(s[1..]);
      }
    }
  }

  /** A text already in collapsed shape is left as it is, so collapsing twice collapses once. */
  lemma {:induction false} CollapseFixed(s: string)
    requires NoDoubleSpace(s) && OnlyPlainSpaces(s)
    ensures CollapseSpaces(s) == s
    decreases |s|
  {
    if s != [] {
      SliceKeepsShape(s, 1, |s|);
      CollapseFixed(s[1..]);
      assert IsJsSpace(s[0]) ==> s[0] == ' ' && (|s| == 1 || !IsJsSpace(s[1]));
      CollapseFixedStep(s);
    }
  }

  /** The step of `CollapseFixed`: a first character that is a lone plain space, or not whitespace at
      all, is kept as it is when the rest is. */
  lemma CollapseFixedStep(s: string)
    requires s != [] && CollapseSpaces(s[1..]) == s[1..]
    requires IsJsSpace(s[0]) ==> s[0] == ' ' && (|s| == 1 || !IsJsSpace(s[1]))
    ensures CollapseSpaces(s) == s
  {
    if IsJsSpace(s[0]) {
      assert TrimStart(s[1..], IsJsSpace) == s[1..];
      assert s == [' '] + s[1..];
    } else {
      assert s == [s[0]] + s[1..];
    }
  }

  /** Collapsing is idempotent. */
  lemma CollapseIdempotent(s: string)
    ensures CollapseSpaces(CollapseSpaces(s)) == CollapseSpaces(s)
  {
    CollapseShape(s);
    CollapseFixed(CollapseSpaces(s));
  }

  /** A slice of a string keeps both shape properties. */
  lemma SliceKeepsShape(s: string, i: nat, j: nat)
    requires i <= j <= |s|
    requires NoDoubleSpace(s) && OnlyPlainSpaces(s)
    ensures NoDoubleSpace(s[i..j]) && OnlyPlainSpaces(s[i..j])
  {
    var t := s[i..j];
    forall k | 0 <= k < |t| - 1 ensures !(IsJsSpace(t[k]) && IsJsSpace(t[k + 1])) {
      assert t[k] == s[i + k] && t[k + 1] == s[i + k + 1];
    }
    forall k | 0 <= k < |t| && IsJsSpace(t[k]) ensures t[k] == ' ' {
      assert t[k] == s[i + k];
    }
  }

  /** Trimming keeps both shape properties and never lengthens. */
  lemma TrimKeepsShape(s: string)
    requires NoDoubleSpace(s) && OnlyPlainSpaces(s)
    ensures NoDoubleSpace(JsTrim(s)) && OnlyPlainSpaces(JsTrim(s)) && |JsTrim(s)| <= |s|
  {
    var lead := |s| - |TrimStart(s, IsJsSpace)|;
    SliceKeepsShape(s, lead, lead + |JsTrim(s)|);
  }

  /** Python's `s.replace(c, "")`: every `c` removed, everything else kept in order. */
  function RemoveAll(s: string, c: char): (r: string)
    ensures c !in r
    ensures |r| <= |s|
  {
    if s == [] then [] else (if s[0] == c then [] else [s[0]]) + RemoveAll(s[1..], c)
  }

  /** Removal works piecewise, so the kept characters stay in their original order. */
  lemma {:induction false} RemoveAllAppend(a: string, b: string, c: char)
    ensures RemoveAll(a + b, c) == RemoveAll(a, c) + RemoveAll(b, c)
    decreases |a|
  {
    if a != [] {
      assert (a + b)[1..] == a[1..] + b;
      RemoveAllAppend(a[1..], b, c);
      assert (a + b)[0] == a[0];
    } else {
      assert a + b == b;
    }
  }

  /** A string without `c` is left exactly as it was. */
  lemma {:induction false} RemoveAllAbsent(s: string, c: char)
    requires c !in s
    ensures RemoveAll(s, c) == s
  {
    if s != [] {
      RemoveAllAbsent(s[1..], c);
    }
  }
}
