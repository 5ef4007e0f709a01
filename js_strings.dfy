/**
 * The few JavaScript string operations the initials helpers use, on strings
 * as sequences of characters: the regular-expression character classes
 * `[a-zA-Z0-9]` and `\s`, `trim`, `split(/\s+/)`, `filter(Boolean)` and
 * `toUpperCase` as it acts on ASCII letters and digits.
 *
 * `WordStarts` is an independent description of what the initials are made
 * of: the characters that begin a run of non-whitespace.
 */
module JsStrings {

  /**
   * `\s`, which is also the set `trim` removes: the ECMAScript WhiteSpace
   * and LineTerminator code points.
   */
  predicate IsSpace(c: char) {
    var n := c as int;
    || n == 0x09 || n == 0x0A || n == 0x0B || n == 0x0C || n == 0x0D || n == 0x20
    || n == 0xA0 || n == 0x1680 || (0x2000 <= n <= 0x200A) || n == 0x2028 || n == 0x2029
    || n == 0x202F || n == 0x205F || n == 0x3000 || n == 0xFEFF
  }

  /** `[a-zA-Z0-9]` */
  predicate IsAsciiAlnum(c: char) {
    ('a' <= c <= 'z') || ('A' <= c <= 'Z') || ('0' <= c <= '9')
  }

  /** An upper-case ASCII letter or a digit. */
  predicate IsUpperAlnum(c: char) {
    ('A' <= c <= 'Z') || ('0' <= c <= '9')
  }

  /** `s.replace(/[^a-zA-Z0-9\s]/g, "")`: drop everything but ASCII letters, digits and whitespace. */
  function StripSpecial(s: string): (r: string)
    ensures |r| <= |s|
    ensures forall c :: c in r <==> c in s && (IsAsciiAlnum(c) || IsSpace(c))
  {
    if s == [] then []
    else
      var rest := StripSpecial(s[1..]);
      assert forall c :: c in s <==> c == s[0] || c in s[1..];
      if IsAsciiAlnum(s[0]) || IsSpace(s[0]) then [s[0]] + rest else rest
  }

  /** A single character is kept exactly when it is an ASCII letter or digit or whitespace. */
  lemma StripSpecialChar(c: char)
    ensures StripSpecial([c]) == if IsAsciiAlnum(c) || IsSpace(c) then [c] else []
  {
    assert [c][1..] == [];
  }

  lemma StripSpecialHead(s: string)
    requires s != []
    ensures StripSpecial(s) == StripSpecial([s[0]]) + StripSpecial(s[1..])
  {
    StripSpecialChar(s[0]);
  }

  lemma ConcatAssoc(x: string, y: string, z: string)
    ensures x + (y + z) == (x + y) + z
  {
  }

  /** Stripping works character by character: the kept characters stay in their order. */
  lemma {:induction false} StripSpecialAppend(a: string, b: string)
    ensures StripSpecial(a + b) == StripSpecial(a) + StripSpecial(b)
  {
    if a == [] {
      assert a + b == b;
    } else {
      var head := StripSpecial([a[0]]);
      StripSpecialAppend(a[1..], b);
      assert (a + b)[1..] == a[1..] + b && (a + b)[0] == a[0];
      StripSpecialHead(a + b);
      StripSpecialHead(a);
      ConcatAssoc(head, StripSpecial(a[1..]), StripSpecial(b));
    }
  }

  /** `trimStart`: drop the leading whitespace. */
  function TrimStart(s: string): (r: string)
    ensures |r| <= |s| && r == s[|s| - |r|..]
    ensures forall k :: 0 <= k < |s| - |r| ==> IsSpace(s[k])
    ensures r == [] || !IsSpace(r[0])
  {
    if s != [] && IsSpace(s[0]) then TrimStart(s[1..]) else s
  }

  /** `trimEnd`: drop the trailing whitespace. */
  function TrimEnd(s: string): (r: string)
    ensures |r| <= |s| && r == s[..|r|]
    ensures forall k :: |r| <= k < |s| ==> IsSpace(s[k])
    ensures r == [] || !IsSpace(r[|r| - 1])
  {
    if s != [] && IsSpace(s[|s| - 1]) then TrimEnd(s[..|s| - 1]) else s
  }

  /** `trim` */
  function Trim(s: string): string {
    TrimEnd(TrimStart(s))
  }

  /** The longest prefix of `s` without whitespace. */
  function TakeWord(s: string): (r: string)
    ensures |r| <= |s| && r == s[..|r|]
    ensures forall c :: c in r ==> !IsSpace(c)
    ensures |r| < |s| ==> IsSpace(s[|r|])
  {
    if s == [] || IsSpace(s[0]) then [] else [s[0]] + TakeWord(s[1..])
  }

  /**
   * `s.split(/\s+/)`: the pieces between maximal runs of whitespace. As in
   * JavaScript, whitespace at either end yields an empty first or last
   * piece, and the empty string yields one empty piece.
   */
  function SplitWs(s: string): (r: seq<string>)
    ensures |r| >= 1 && r[0] == TakeWord(s)
    decreases |s|
  {
    var w := TakeWord(s);
    var rest := s[|w|..];
    if rest == [] then [w]
    else
      [w] + SplitWs(TrimStart(rest))
  }

  /** `filter(Boolean)` on strings: keep the non-empty ones. */
  function NonEmpty(parts: seq<string>): (r: seq<string>)
    ensures |r| <= |parts|
    ensures forall p :: p in r <==> p in parts && p != []
    ensures forall k :: 0 <= k < |r| ==> r[k] != []
  {
    if parts == [] then []
    else
      var rest := NonEmpty(parts[1..]);
      assert forall p :: p in parts <==> p == parts[0] || p in parts[1..];
      if parts[0] != [] then [parts[0]] + rest else rest
  }

  /** The first character of each of a list of non-empty strings. */
  function Heads(parts: seq<string>): (r: seq<char>)
    requires forall k :: 0 <= k < |parts| ==> parts[k] != []
    ensures |r| == |parts| && forall k :: 0 <= k < |r| ==> r[k] == parts[k][0]
  {
    if parts == [] then [] else [parts[0][0]] + Heads(parts[1..])
  }

  /** `toUpperCase` on one character, for the ASCII range. */
  function UpperChar(c: char): char {
    if 'a' <= c <= 'z' then (c as int - 32) as char else c
  }

  /** `toUpperCase`, character by character, for the ASCII range. */
  function Upper(s: string): (r: string)
    ensures |r| == |s| && forall k :: 0 <= k < |s| ==> r[k] == UpperChar(s[k])
  {
    if s == [] then [] else [UpperChar(s[0])] + Upper(s[1..])
  }

  /**
   * Reference: the characters of `s` that begin a word, that is, are not
   * whitespace and come first or right after whitespace. `afterSpace` says
   * whether the character before `s` was whitespace (or there was none).
   */
  function WordStarts(s: string, afterSpace: bool): seq<char> {
    if s == [] then []
    else
      (if afterSpace && !IsSpace(s[0]) then [s[0]] else [])
      + WordStarts(s[1..], IsSpace(s[0]))
  }

  // ---------------------------------------------------------------------
  // Lemmas

  /** Upper-casing an ASCII letter or digit gives an upper-case letter or a digit. */
  lemma UpperCharAlnum(c: char)
    requires IsAsciiAlnum(c)
    ensures IsUpperAlnum(UpperChar(c))
  {
  }

  /** Word starts are characters of the string that are not whitespace. */
  lemma {:induction false} WordStartsChars(s: string, b: bool)
    ensures forall c :: c in WordStarts(s, b) ==> c in s && !IsSpace(c)
  {
    if s != [] {
      WordStartsChars(s[1..], IsSpace(s[0]));
    }
  }

  /** After whitespace, there is a word start exactly when there is a non-whitespace character. */
  lemma {:induction false} WordStartsEmpty(s: string)
    ensures WordStarts(s, true) == [] <==> forall c :: c in s ==> IsSpace(c)
  {
    if s != [] {
      WordStartsEmpty(s[1..]);
      assert forall c :: c in s <==> c == s[0] || c in s[1..];
    }
  }

  /** Whether the flag matters: not when the string starts with whitespace or is empty. */
  lemma WordStartsAtSpace(s: string, b: bool)
    requires s == [] || IsSpace(s[0])
    ensures WordStarts(s, b) == WordStarts(s, true)
  {
  }

  /** A run of whitespace has no word starts. */
  lemma {:induction false} WordStartsSpaces(s: string, b: bool)
    requires forall k :: 0 <= k < |s| ==> IsSpace(s[k])
    ensures WordStarts(s, b) == []
  {
    if s != [] {
      WordStartsSpaces(s[1..], true);
    }
  }

  /** Word starts of a concatenation. */
  lemma {:induction false} WordStartsAppend(x: string, y: string, b: bool)
    ensures WordStarts(x + y, b)
         == WordStarts(x, b) + WordStarts(y, if x == [] then b else IsSpace(x[|x| - 1]))
  {
    if x == [] {
      assert x + y == y;
    } else {
      var z := x + y;
      var head := if b && !IsSpace(x[0]) then [x[0]] else [];
      assert z[0] == x[0] && z[1..] == x[1..] + y;
      assert WordStarts(z, b) == head + WordStarts(x[1..] + y, IsSpace(x[0]));
      assert WordStarts(x, b) == head + WordStarts(x[1..], IsSpace(x[0]));
      var tail := x[1..];
      WordStartsAppend(tail, y, IsSpace(x[0]));
      var f := if tail == [] then IsSpace(x[0]) else IsSpace(tail[|tail| - 1]);
      assert f == IsSpace(x[|x| - 1]);
      var inner := WordStarts(tail, IsSpace(x[0]));
      var rest := WordStarts(y, f);
      assert head + (inner + rest) == (head + inner) + rest;
    }
  }

  /** Leading whitespace has no word starts. */
  lemma WordStartsTrimStart(s: string)
    ensures WordStarts(TrimStart(s), true) == WordStarts(s, true)
  {
    var t := TrimStart(s);
    var lead := s[..|s| - |t|];
    assert s == lead + t;
    WordStartsAppend(lead, t, true);
    WordStartsSpaces(lead, true);
    assert lead != [] ==> IsSpace(lead[|lead| - 1]);
  }

  /** Trailing whitespace has no word starts. */
  lemma WordStartsTrimEnd(t: string)
    ensures WordStarts(TrimEnd(t), true) == WordStarts(t, true)
  {
    var u := TrimEnd(t);
    var trail := t[|u|..];
    assert t == u + trail;
    WordStartsAppend(u, trail, true);
    WordStartsSpaces(trail, if u == [] then true else IsSpace(u[|u| - 1]));
  }

  /** Trimming does not change the word starts. */
  lemma WordStartsTrim(s: string)
    ensures WordStarts(Trim(s), true) == WordStarts(s, true)
  {
    WordStartsTrimStart(s);
    WordStartsTrimEnd(TrimStart(s));
  }

  /** A word followed by whitespace or nothing. */
  lemma WordStartsWord(w: string, rest: string)
    requires forall c :: c in w ==> !IsSpace(c)
    requires rest == [] || IsSpace(rest[0])
    ensures WordStarts(w + rest, true) == (if w == [] then [] else [w[0]]) + WordStarts(rest, true)
  {
    WordStartsAppend(w, rest, true);
    if w != [] {
      assert w == [w[0]] + w[1..];
      WordStartsAppend([w[0]], w[1..], true);
      WordStartsSpaces([], false);
      assert forall k :: 0 <= k < |w[1..]| ==> !IsSpace(w[1..][k]) by {
        forall k | 0 <= k < |w[1..]| ensures !IsSpace(w[1..][k]) {
          assert w[1..][k] in w;
        }
      }
      WordStartsNoSpace(w[1..]);
      WordStartsAtSpace(rest, IsSpace(w[|w| - 1]));
    }
  }

  /** Inside a word there are no further word starts. */
  lemma {:induction false} WordStartsNoSpace(s: string)
    requires forall k :: 0 <= k < |s| ==> !IsSpace(s[k])
    ensures WordStarts(s, false) == []
  {
    if s != [] {
      WordStartsNoSpace(s[1..]);
    }
  }

  /** A trimmed string that is not empty has at least one non-empty piece. */
  lemma TrimmedHasWord(s: string)
    requires s != [] && s == Trim(s)
    ensures |NonEmpty(SplitWs(s))| >= 1
  {
    var t := TrimStart(s);
    assert TrimEnd(t) == s;
    assert t[0] == s[0];
    assert TakeWord(s) != [];
    assert TakeWord(s) in NonEmpty(SplitWs(s));
  }

  /** The heads of the non-empty pieces of a list with one more piece in front. */
  lemma HeadsCons(w: string, parts: seq<string>)
    ensures Heads(NonEmpty([w] + parts)) == (if w == [] then [] else [w[0]]) + Heads(NonEmpty(parts))
  {
    assert ([w] + parts)[1..] == parts;
  }

  /**
   * The first characters of the non-empty pieces of `split(/\s+/)` are
   * exactly the word starts.
   */
  lemma {:induction false} SplitHeads(s: string)
    ensures Heads(NonEmpty(SplitWs(s))) == WordStarts(s, true)
    decreases |s|
  {
    var w := TakeWord(s);
    var rest := s[|w|..];
    assert s == w + rest;
    WordStartsWord(w, rest);
    if rest != [] {
      var t := TrimStart(rest);
      WordStartsTrimStart(rest);
      SplitHeads(t);
      HeadsCons(w, SplitWs(t));
    } else {
      HeadsCons(w, []);
    }
  }
}
