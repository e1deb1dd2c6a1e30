/** The JavaScript string operations the pages rely on: `trim`, `toLowerCase`, `includes`,
    and `startsWith`. Strings are sequences of Unicode scalar values. */
module Text {

  /** ECMAScript WhiteSpace and LineTerminator code points: what `String.prototype.trim`
      strips from both ends. */
  predicate IsJsWhitespace(c: char) {
    c == '\t' || c == '\U{000B}' || c == '\U{000C}' || c == ' ' || c == '\U{00A0}' || c == '\U{FEFF}'
    || c == '\n' || c == '\r' || c == '\U{2028}' || c == '\U{2029}'
    // Unicode category Zs besides U+0020 and U+00A0
    || c == '\U{1680}' || ('\U{2000}' <= c <= '\U{200A}') || c == '\U{202F}' || c == '\U{205F}'
    || c == '\U{3000}'
  }

  function TrimStart(s: string): (r: string)
    ensures |r| <= |s| && r == s[|s| - |r|..]
    ensures r == [] || !IsJsWhitespace(r[0])
    ensures forall i :: 0 <= i < |s| - |r| ==> IsJsWhitespace(s[i])
  {
    if s != [] && IsJsWhitespace(s[0]) then TrimStart(s[1..]) else s
  }

  function TrimEnd(s: string): (r: string)
    ensures |r| <= |s| && r == s[..|r|]
    ensures r == [] || !IsJsWhitespace(r[|r| - 1])
    ensures forall i :: |r| <= i < |s| ==> IsJsWhitespace(s[i])
  {
    if s != [] && IsJsWhitespace(s[|s| - 1]) then TrimEnd(s[..|s| - 1]) else s
  }

  /** `s.trim()`. */
  function Trim(s: string): (r: string)
    ensures r == [] || (!IsJsWhitespace(r[0]) && !IsJsWhitespace(r[|r| - 1]))
    ensures exists i, j ::
              && 0 <= i <= j <= |s| && r == s[i..j]
              && (forall k :: 0 <= k < i ==> IsJsWhitespace(s[k]))
              && (forall k :: j <= k < |s| ==> IsJsWhitespace(s[k]))
  {
    var t := TrimStart(s);
    var i := |s| - |t|;
    var r := TrimEnd(t);
    assert r == s[i..i + |r|];
    assert forall k :: i + |r| <= k < |s| ==> s[k] == t[k - i];
    r
  }

  /** `!s.trim()`: the trimmed string is empty (the only falsy string). */
  predicate IsBlank(s: string) {
    Trim(s) == []
  }

  /** A string is blank exactly when every character of it is white space. */
  lemma BlankIffAllWhitespace(s: string)
    ensures IsBlank(s) <==> forall i :: 0 <= i < |s| ==> IsJsWhitespace(s[i])
  {
    var t := TrimStart(s);
    if forall i :: 0 <= i < |s| ==> IsJsWhitespace(s[i]) {
      assert t == [];
    } else {
      var i :| 0 <= i < |s| && !IsJsWhitespace(s[i]);
      assert t != [] && t[i - (|s| - |t|)] == s[i];
      assert TrimEnd(t) != [];
    }
  }

  /** `c.toLowerCase()` on the ASCII letters; every other character is left as it is. */
  function LowerChar(c: char): (r: char)
    ensures !('A' <= r <= 'Z')
    ensures ('a' <= r <= 'z') <==> ('A' <= c <= 'Z' || 'a' <= c <= 'z')
  {
    if 'A' <= c <= 'Z' then (c as int + 32) as char else c
  }

  /** `s.toLowerCase()`, character by character. */
  function Lower(s: string): (r: string)
    ensures |r| == |s|
    ensures forall i :: 0 <= i < |s| ==> r[i] == LowerChar(s[i])
  {
    if s == [] then [] else [LowerChar(s[0])] + Lower(s[1..])
  }

  /** `hay.includes(needle)`: `needle` occurs in `hay` at some position. */
  predicate Includes(hay: string, needle: string)
    decreases |hay|
  {
    needle <= hay || (hay != [] && Includes(hay[1..], needle))
  }

  /** `needle` occurs in `hay` starting at offset `k`. */
  predicate OccursAt(hay: string, needle: string, k: int) {
    0 <= k <= |hay| - |needle| && hay[k..k + |needle|] == needle
  }

  /** The reference meaning of "substring": an offset where `needle` occurs. */
  ghost predicate Occurs(hay: string, needle: string) {
    exists k :: OccursAt(hay, needle, k)
  }

  /** `Includes` is "occurs at some offset". */
  lemma {:induction false} IncludesIffOccurs(hay: string, needle: string)
    ensures Includes(hay, needle) <==> Occurs(hay, needle)
  {
    if needle <= hay {
      assert OccursAt(hay, needle, 0);
    } else if hay != [] {
      IncludesIffOccurs(hay[1..], needle);
      if Includes(hay[1..], needle) {
        var k :| OccursAt(hay[1..], needle, k);
        assert OccursAt(hay, needle, k + 1);
      } else if exists k :: OccursAt(hay, needle, k) {
        var k :| OccursAt(hay, needle, k);
        assert k != 0;
        assert OccursAt(hay[1..], needle, k - 1);
      }
    }
  }

  /** The empty string occurs in every string, so an empty search term matches everything. */
  lemma EmptyIncluded(hay: string)
    ensures Includes(hay, "")
  {
  }

  /** `s.startsWith(prefix)`. */
  predicate StartsWith(s: string, prefix: string) {
    prefix <= s
  }

  /** `word` followed by `s` unless `count` is 1: the results labels
      "student{count !== 1 ? 's' : ''} found". */
  function Pluralize(count: int, word: string): (r: string)
    ensures word <= r
    ensures |r| == |word| + 1 <==> count != 1
    ensures |r| == |word| || (|r| == |word| + 1 && r[|word|] == 's')
  {
    if count != 1 then word + "s" else word
  }
}
