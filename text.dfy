/** String primitives of JavaScript that the validators and the search use:
    `trim`, ASCII case mapping, `split` on one character and `join`. */
module Text {

  /** The characters `String.prototype.trim` removes: WhiteSpace and LineTerminator
      of ECMAScript (tab, line tab, form feed, space, no-break space, BOM, the Zs
      category, LF, CR, LINE and PARAGRAPH SEPARATOR). */
  predicate IsJsWhitespace(c: char)
  {
    c == '\t' || c == '\n' || c == '\U{000B}' || c == '\U{000C}' || c == '\r' || c == ' '
    || c == '\U{00A0}' || c == '\U{1680}' || ('\U{2000}' <= c <= '\U{200A}')
    || c == '\U{2028}' || c == '\U{2029}' || c == '\U{202F}' || c == '\U{205F}'
    || c == '\U{3000}' || c == '\U{FEFF}'
  }

  predicate IsAsciiDigit(c: char) { '0' <= c <= '9' }
  predicate IsAsciiLower(c: char) { 'a' <= c <= 'z' }
  predicate IsAsciiUpper(c: char) { 'A' <= c <= 'Z' }

  predicate AllDigits(s: string) { forall i :: 0 <= i < |s| ==> IsAsciiDigit(s[i]) }

  /** Removes leading whitespace: what is cut is whitespace, what remains does not start with it. */
  function TrimStart(s: string): (r: string)
    ensures |r| <= |s| && r == s[|s| - |r|..]
    ensures r != [] ==> !IsJsWhitespace(r[0])
    ensures forall i :: 0 <= i < |s| - |r| ==> IsJsWhitespace(s[i])
    decreases |s|
  {
    if s != [] && IsJsWhitespace(s[0]) then TrimStart(s[1..]) else s
  }

  /** Removes trailing whitespace: what is cut is whitespace, what remains does not end with it. */
  function TrimEnd(s: string): (r: string)
    ensures |r| <= |s| && r == s[..|r|]
    ensures r != [] ==> !IsJsWhitespace(r[|r| - 1])
    ensures forall i :: |r| <= i < |s| ==> IsJsWhitespace(s[i])
    decreases |s|
  {
    if s != [] && IsJsWhitespace(s[|s| - 1]) then TrimEnd(s[..|s| - 1]) else s
  }

  /** JavaScript `s.trim()`: `s` without its leading and trailing whitespace, which leaves an
      infix that neither starts nor ends with whitespace. */
  function Trim(s: string): (r: string)
    ensures exists a, b :: 0 <= a <= b <= |s| && r == s[a..b] && BlankOutside(s, a, b)
    ensures r != [] ==> !IsJsWhitespace(r[0]) && !IsJsWhitespace(r[|r| - 1])
  {
    var t := TrimStart(s);
    var r := TrimEnd(t);
    var a, b := |s| - |t|, |s| - |t| + |r|;
    TrimCut(s, t, r, a, b);
    r
  }

  lemma TrimCut(s: string, t: string, r: string, a: int, b: int)
    requires t == TrimStart(s) && r == TrimEnd(t) && a == |s| - |t| && b == a + |r|
    ensures 0 <= a <= b <= |s| && r == s[a..b] && BlankOutside(s, a, b)
  {
    PrefixOfSuffix(s, a, |r|);
    TrimEndCut(s, t, r, a);
  }

  /** Everything of `s` before `a` and from `b` on is whitespace. */
  predicate BlankOutside(s: string, a: int, b: int)
  {
    && (forall i :: 0 <= i < a && i < |s| ==> IsJsWhitespace(s[i]))
    && (forall i :: 0 <= b <= i < |s| ==> IsJsWhitespace(s[i]))
  }

  lemma TrimEndCut(s: string, t: string, r: string, a: nat)
    requires a <= |s| && t == s[a..] && |r| <= |t| && r == t[..|r|]
    requires forall i :: 0 <= i < a ==> IsJsWhitespace(s[i])
    requires forall i :: |r| <= i < |t| ==> IsJsWhitespace(t[i])
    ensures BlankOutside(s, a, a + |r|)
  {
    forall i | a + |r| <= i < |s| ensures IsJsWhitespace(s[i]) {
      assert s[i] == t[i - a];
    }
  }

  lemma PrefixOfSuffix(s: string, a: nat, n: nat)
    requires a + n <= |s|
    ensures s[a..][..n] == s[a..a + n]
  {
  }

  /** A string trims to nothing exactly when every character of it is whitespace. */
  lemma TrimEmptyIffBlank(s: string)
    ensures Trim(s) == "" <==> forall i :: 0 <= i < |s| ==> IsJsWhitespace(s[i])
  {
    var t := TrimStart(s);
    if Trim(s) == "" {
      assert t == "";
    } else {
      assert s != [];
      if forall i :: 0 <= i < |s| ==> IsJsWhitespace(s[i]) {
        BlankTrimStart(s);
        assert false;
      }
    }
  }

  lemma {:induction false} BlankTrimStart(s: string)
    requires forall i :: 0 <= i < |s| ==> IsJsWhitespace(s[i])
    ensures TrimStart(s) == ""
    decreases |s|
  {
    if s != [] {
      BlankTrimStart(s[1..]);
    }
  }

  /** Trimming twice is trimming once (the `@Transform` and a second look agree). */
  lemma TrimIdempotent(s: string)
    ensures Trim(Trim(s)) == Trim(s)
  {
    var r := Trim(s);
    if r != [] {
      assert TrimStart(r) == r;
      assert TrimEnd(r) == r;
    }
  }

  function ToAsciiUpper(c: char): (u: char)
    ensures IsAsciiLower(c) ==> IsAsciiUpper(u)
    ensures !IsAsciiLower(c) ==> u == c
  {
    if IsAsciiLower(c) then (c as int - 32) as char else c
  }

  function ToAsciiLower(c: char): (l: char)
    ensures IsAsciiUpper(c) ==> IsAsciiLower(l)
    ensures !IsAsciiUpper(c) ==> l == c
  {
    if IsAsciiUpper(c) then (c as int + 32) as char else c
  }

  /** `s.toLowerCase()` restricted to the ASCII letters. */
  function LowerAll(s: string): (r: string)
    ensures |r| == |s|
    ensures forall i :: 0 <= i < |s| ==> r[i] == ToAsciiLower(s[i])
  {
    if s == [] then [] else [ToAsciiLower(s[0])] + LowerAll(s[1..])
  }

  /** `s.split(sep)` for a one-character separator: the pieces between separators,
      at least one piece, none containing the separator. */
  function Split(s: string, sep: char): (parts: seq<string>)
    ensures |parts| >= 1
    ensures forall i :: 0 <= i < |parts| ==> sep !in parts[i]
    decreases |s|
  {
    if s == [] then [""]
    else if s[0] == sep then [""] + Split(s[1..], sep)
    else
      var rest := Split(s[1..], sep);
      [[s[0]] + rest[0]] + rest[1..]
  }

  /** `parts.join(sep)`. */
  function Join(parts: seq<string>, sep: char): string
    requires |parts| >= 1
    decreases |parts|
  {
    if |parts| == 1 then parts[0] else parts[0] + [sep] + Join(parts[1..], sep)
  }

  /** Joining the pieces of a split with the same separator gives the string back. */
  lemma {:induction false} JoinSplit(s: string, sep: char)
    ensures Join(Split(s, sep), sep) == s
    decreases |s|
  {
    if s == [] {
    } else if s[0] == sep {
      JoinSplit(s[1..], sep);
      assert Split(s, sep)[1..] == Split(s[1..], sep);
    } else {
      JoinSplit(s[1..], sep);
      var rest := Split(s[1..], sep);
      var parts := [[s[0]] + rest[0]] + rest[1..];
      if |rest| == 1 {
        assert Join(parts, sep) == [s[0]] + rest[0];
      } else {
        assert parts[1..] == rest[1..];
        assert Join(parts, sep) == [s[0]] + rest[0] + [sep] + Join(rest[1..], sep);
        assert Join(rest, sep) == rest[0] + [sep] + Join(rest[1..], sep);
      }
    }
  }

  /** `needle` occurs in `hay` at some offset (Prisma's `contains`). */
  predicate Contains(hay: string, needle: string)
  {
    exists k :: 0 <= k <= |hay| && OccursAt(hay, needle, k)
  }

  predicate OccursAt(hay: string, needle: string, k: int)
  {
    0 <= k <= |hay| - |needle| && hay[k..k + |needle|] == needle
  }
}
