/**
 * The Python string operations the bot relies on: `startswith`, `split(sep, 1)`,
 * the substring test `w in s`, `strip()` and `lower()`.
 */
module Text {
  import opened Wrappers

  predicate StartsWith(s: string, prefix: string) {
    |prefix| <= |s| && s[..|prefix|] == prefix
  }

  /** `w` occurs in `s` starting at position `i`. */
  predicate OccursAt(s: string, w: string, i: int) {
    0 <= i <= |s| - |w| && s[i..i + |w|] == w
  }

  /** `w in s` on strings: `w` occurs in `s` at some position. */
  predicate Contains(s: string, w: string) {
    exists i | 0 <= i <= |s| - |w| :: OccursAt(s, w, i)
  }

  /**
   * `s.split(sep, 1)` when `sep` occurs in `s`: the text before the first `sep`
   * and the text after it.
   */
  function SplitOnce(s: string, sep: char): (r: Option<(string, string)>)
    ensures r.None? <==> sep !in s
    ensures r.Some? ==> s == r.value.0 + [sep] + r.value.1 && sep !in r.value.0
  {
    if s == [] then None
    else if s[0] == sep then Some(([], s[1..]))
    else match SplitOnce(s[1..], sep)
      case None => None
      case Some(parts) => Some(([s[0]] + parts.0, parts.1))
  }

  /** Splitting `a + [sep] + b` once on `sep` gives back `a` and `b` when `a` has no `sep`. */
  lemma {:induction false} SplitOnceJoined(a: string, sep: char, b: string)
    requires sep !in a
    ensures SplitOnce(a + [sep] + b, sep) == Some((a, b))
  {
    if a != [] {
      assert (a + [sep] + b)[1..] == a[1..] + [sep] + b;
      SplitOnceJoined(a[1..], sep, b);
      assert [a[0]] + a[1..] == a;
    }
  }

  /** The characters for which Python's `str.isspace()` holds. */
  predicate IsSpace(c: char) {
    c == ' ' || '\t' <= c <= '\r' || '\U{1c}' <= c <= '\U{1f}' || c == '\U{85}' || c == '\U{a0}'
    || c == '\U{1680}' || '\U{2000}' <= c <= '\U{200a}' || c == '\U{2028}' || c == '\U{2029}'
    || c == '\U{202f}' || c == '\U{205f}' || c == '\U{3000}'
  }

  function TrimStart(s: string): string {
    if s != [] && IsSpace(s[0]) then TrimStart(s[1..]) else s
  }

  function TrimEnd(s: string): string {
    if s != [] && IsSpace(s[|s| - 1]) then TrimEnd(s[..|s| - 1]) else s
  }

  /** `s.strip()`: leading and trailing whitespace removed. */
  function Strip(s: string): string {
    TrimEnd(TrimStart(s))
  }

  /**
   * `str.lower()` on one character, for the Latin and Cyrillic capitals
   * (A-Z, U+0400-U+042F); every other character is kept.
   */
  function LowerChar(c: char): char {
    if 'A' <= c <= 'Z' then (c as int + 32) as char
    else if 'А' <= c <= 'Я' then (c as int + 32) as char
    else if 'Ѐ' <= c <= 'Џ' then (c as int + 80) as char
    else c
  }

  /** `s.lower()`: same length, and whitespace stays exactly where it was. */
  function Lower(s: string): (r: string)
    ensures |r| == |s| && forall i :: 0 <= i < |s| ==> (IsSpace(r[i]) <==> IsSpace(s[i]))
  {
    seq(|s|, i requires 0 <= i < |s| => LowerChar(s[i]))
  }

  predicate NoSpace(w: string) {
    forall i :: 0 <= i < |w| ==> !IsSpace(w[i])
  }

  /** An occurrence of `w` that does not start at 0 is an occurrence in `s[1..]`, and back. */
  lemma ContainsDropFirst(s: string, w: string)
    requires s != [] && w != [] && w[0] != s[0]
    ensures Contains(s, w) <==> Contains(s[1..], w)
  {
    if Contains(s, w) {
      var i :| 0 <= i <= |s| - |w| && OccursAt(s, w, i);
      assert s[i..i + |w|][0] == s[i];
      assert OccursAt(s[1..], w, i - 1);
    }
    if Contains(s[1..], w) {
      var i :| 0 <= i <= |s| - 1 - |w| && OccursAt(s[1..], w, i);
      assert OccursAt(s, w, i + 1);
    }
  }

  /** An occurrence of `w` that does not end at `|s|` is an occurrence in `s[..|s|-1]`, and back. */
  lemma ContainsDropLast(s: string, w: string)
    requires s != [] && w != [] && w[|w| - 1] != s[|s| - 1]
    ensures Contains(s, w) <==> Contains(s[..|s| - 1], w)
  {
    var t := s[..|s| - 1];
    if Contains(s, w) {
      var i :| 0 <= i <= |s| - |w| && OccursAt(s, w, i);
      assert s[i..i + |w|][|w| - 1] == s[i + |w| - 1];
      assert OccursAt(t, w, i);
    }
    if Contains(t, w) {
      var i :| 0 <= i <= |t| - |w| && OccursAt(t, w, i);
      assert OccursAt(s, w, i);
    }
  }

  lemma {:induction false} TrimStartKeepsWords(s: string, w: string)
    requires w != [] && NoSpace(w)
    ensures Contains(TrimStart(s), w) <==> Contains(s, w)
  {
    if s != [] && IsSpace(s[0]) {
      ContainsDropFirst(s, w);
      TrimStartKeepsWords(s[1..], w);
    }
  }

  lemma {:induction false} TrimEndKeepsWords(s: string, w: string)
    requires w != [] && NoSpace(w)
    ensures Contains(TrimEnd(s), w) <==> Contains(s, w)
  {
    if s != [] && IsSpace(s[|s| - 1]) {
      ContainsDropLast(s, w);
      TrimEndKeepsWords(s[..|s| - 1], w);
    }
  }

  /** `strip()` never creates or destroys an occurrence of a non-empty word without whitespace. */
  lemma StripKeepsWords(s: string, w: string)
    requires w != [] && NoSpace(w)
    ensures Contains(Strip(s), w) <==> Contains(s, w)
  {
    TrimStartKeepsWords(s, w);
    TrimEndKeepsWords(TrimStart(s), w);
  }

  lemma {:induction false} LowerTrimStart(s: string)
    ensures Lower(TrimStart(s)) == TrimStart(Lower(s))
  {
    if s != [] && IsSpace(s[0]) {
      assert Lower(s)[1..] == Lower(s[1..]);
      LowerTrimStart(s[1..]);
    } else if s != [] {
      assert !IsSpace(Lower(s)[0]);
    }
  }

  lemma {:induction false} LowerTrimEnd(s: string)
    ensures Lower(TrimEnd(s)) == TrimEnd(Lower(s))
  {
    if s != [] && IsSpace(s[|s| - 1]) {
      assert Lower(s)[..|s| - 1] == Lower(s[..|s| - 1]);
      LowerTrimEnd(s[..|s| - 1]);
    } else if s != [] {
      assert !IsSpace(Lower(s)[|s| - 1]);
    }
  }

  /**
   * Lower-casing a stripped string finds a non-empty word without whitespace exactly
   * when lower-casing the unstripped string does.
   */
  lemma LowerStripKeepsWords(s: string, w: string)
    requires w != [] && NoSpace(w)
    ensures Contains(Lower(Strip(s)), w) <==> Contains(Lower(s), w)
  {
    LowerTrimStart(s);
    LowerTrimEnd(TrimStart(s));
    StripKeepsWords(Lower(s), w);
  }

  /** A word whose first letter is nowhere in `s` does not occur in `s`. */
  lemma FirstLetterAbsent(s: string, w: string)
    requires w != [] && w[0] !in s
    ensures !Contains(s, w)
  {
  }
}
