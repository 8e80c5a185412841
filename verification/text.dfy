/** String operations the handlers rely on, as JavaScript defines them:
    `trim`, ASCII `toLowerCase`, `includes`, `startsWith`, the default
    string order used by `Array.prototype.sort`, and `substring`-based
    truncation. */
module Text {

  /** ECMAScript WhiteSpace and LineTerminator code points (what `trim`
      strips): TAB, LF, VT, FF, CR, SPACE, NBSP, U+1680, U+2000..U+200A,
      LS, PS, U+202F, U+205F, U+3000 and the BOM. */
  predicate IsSpace(c: char) {
    var n := c as int;
    n == 0x09 || n == 0x0A || n == 0x0B || n == 0x0C || n == 0x0D || n == 0x20
    || n == 0xA0 || n == 0x1680 || (0x2000 <= n <= 0x200A)
    || n == 0x2028 || n == 0x2029 || n == 0x202F || n == 0x205F
    || n == 0x3000 || n == 0xFEFF
  }

  /** Leading white space removed. */
  function TrimStart(s: string): (r: string)
    ensures |r| <= |s| && r == s[|s| - |r|..]
    ensures r == [] || !IsSpace(r[0])
    ensures forall i :: 0 <= i < |s| - |r| ==> IsSpace(s[i])
    decreases |s|
  {
    if |s| > 0 && IsSpace(s[0]) then TrimStart(s[1..]) else s
  }

  /** Trailing white space removed. */
  function TrimEnd(s: string): (r: string)
    ensures |r| <= |s| && r == s[..|r|]
    ensures r == [] || !IsSpace(r[|r| - 1])
    ensures forall i :: |r| <= i < |s| ==> IsSpace(s[i])
    decreases |s|
  {
    if |s| > 0 && IsSpace(s[|s| - 1]) then TrimEnd(s[..|s| - 1]) else s
  }

  /** `s.trim()`: a contiguous piece of `s` that neither starts nor ends
      with white space, everything cut off being white space. */
  function Trim(s: string): (r: string)
    ensures exists i ::
              && WindowAt(s, r, i)
              && (forall j :: 0 <= j < i ==> IsSpace(s[j]))
              && (forall j :: i + |r| <= j < |s| ==> IsSpace(s[j]))
    ensures r == [] || (!IsSpace(r[0]) && !IsSpace(r[|r| - 1]))
  {
    var t := TrimStart(s);
    var r := TrimEnd(t);
    assert r == s[|s| - |t|..|s| - |t| + |r|];
    assert WindowAt(s, r, |s| - |t|);
    r
  }

  /** `!s.trim()`: the string is empty after trimming. */
  predicate IsBlank(s: string) {
    Trim(s) == []
  }

  /** A string is blank exactly when every character is white space. */
  lemma {:induction false} BlankIffAllSpace(s: string)
    ensures IsBlank(s) <==> forall i :: 0 <= i < |s| ==> IsSpace(s[i])
  {
    var t := TrimStart(s);
    if !(forall i :: 0 <= i < |s| ==> IsSpace(s[i])) {
      var k :| 0 <= k < |s| && !IsSpace(s[k]);
      assert k >= |s| - |t|;
      assert t[k - (|s| - |t|)] == s[k];
      assert TrimEnd(t) != [];
    }
  }

  /** ASCII `toLowerCase` of one character. */
  function LowerChar(c: char): (r: char)
    ensures 'A' <= c <= 'Z' ==> r as int == c as int + 32
    ensures !('A' <= c <= 'Z') ==> r == c
    ensures !('A' <= r <= 'Z')
  {
    if 'A' <= c <= 'Z' then (c as int + 32) as char else c
  }

  /** ASCII `toLowerCase` of a string. */
  function Lower(s: string): (r: string)
    ensures |r| == |s|
    ensures forall i :: 0 <= i < |s| ==> r[i] == LowerChar(s[i])
  {
    seq(|s|, i requires 0 <= i < |s| => LowerChar(s[i]))
  }

  /** Lower-casing never turns a character into white space or back. */
  lemma LowerCharSpace(c: char)
    ensures IsSpace(LowerChar(c)) <==> IsSpace(c)
  {
    if 'A' <= c <= 'Z' {
      assert 0x61 <= LowerChar(c) as int <= 0x7A;
    }
  }

  /** Lower-casing twice is lower-casing once. */
  lemma LowerIdempotent(s: string)
    ensures Lower(Lower(s)) == Lower(s)
  {
  }

  /** `s.startsWith(p)`. */
  predicate StartsWith(s: string, p: string) {
    |p| <= |s| && s[..|p|] == p
  }

  /** `hay.includes(needle)`: some window of `hay` spells `needle`. */
  predicate Occurs(hay: string, needle: string) {
    exists i :: 0 <= i <= |hay| - |needle| && WindowAt(hay, needle, i)
  }

  /** `needle` spelled by `hay` from position `i` on. */
  predicate WindowAt(hay: string, needle: string, i: int) {
    0 <= i <= |hay| - |needle| && hay[i..i + |needle|] == needle
  }

  /** The search that decides `includes`, scanning from the left. */
  function Includes(hay: string, needle: string): (r: bool)
    ensures r <==> Occurs(hay, needle)
    decreases |hay|
  {
    if StartsWith(hay, needle) then
      assert WindowAt(hay, needle, 0);
      true
    else if |hay| == 0 then
      false
    else
      var r := Includes(hay[1..], needle);
      OccursStep(hay, needle);
      r
  }

  /** A window of `hay` past its first character is a window of `hay[1..]`. */
  lemma OccursStep(hay: string, needle: string)
    requires |hay| > 0 && !StartsWith(hay, needle)
    ensures Occurs(hay, needle) <==> Occurs(hay[1..], needle)
  {
    if Occurs(hay[1..], needle) {
      var i :| 0 <= i <= |hay| - 1 - |needle| && WindowAt(hay[1..], needle, i);
      assert hay[i + 1..i + 1 + |needle|] == hay[1..][i..i + |needle|];
      assert WindowAt(hay, needle, i + 1);
    }
    if Occurs(hay, needle) {
      var i :| 0 <= i <= |hay| - |needle| && WindowAt(hay, needle, i);
      assert i != 0;
      assert hay[1..][i - 1..i - 1 + |needle|] == hay[i..i + |needle|];
      assert WindowAt(hay[1..], needle, i - 1);
    }
  }

  /** The order JavaScript's default `sort` puts strings in: character by
      character, a proper prefix first. */
  predicate LexLess(a: string, b: string)
    decreases |a|
  {
    if |a| == 0 then |b| > 0
    else if |b| == 0 then false
    else if a[0] == b[0] then LexLess(a[1..], b[1..])
    else a[0] < b[0]
  }

  /** The string order is a strict total order: exactly one of `a < b`,
      `a == b`, `b < a` holds. */
  lemma {:induction false} LexTrichotomy(a: string, b: string)
    ensures a == b ==> !LexLess(a, b)
    ensures a != b ==> (LexLess(a, b) <==> !LexLess(b, a))
    decreases |a|
  {
    if |a| > 0 && |b| > 0 && a[0] == b[0] {
      LexTrichotomy(a[1..], b[1..]);
      if a != b {
        assert a == [a[0]] + a[1..] && b == [b[0]] + b[1..];
      }
    }
  }

  /** What a card shows of a long text: in full when expanded or not longer
      than `limit`, otherwise the first `limit` characters and "...". */
  function Clip(text: string, limit: nat, expanded: bool): string {
    if expanded || |text| <= limit then text else text[..limit] + "..."
  }

  /** Whether the "Show Less" control appears under a text. */
  predicate ShowsLess(text: string, limit: nat, expanded: bool) {
    expanded && |text| > limit
  }

  /** Whether the "Read More" control appears under a text. */
  predicate ShowsReadMore(text: string, limit: nat, expanded: bool) {
    !expanded && |text| > limit
  }

  /** What a clipped text promises the reader: it is either the whole text,
      or a proper prefix of it followed by "..." exactly when "Read More" is
      offered, so that expanding reveals the rest; and a text never shows
      both controls. */
  lemma ClipShowsPrefix(text: string, limit: nat, expanded: bool)
    ensures var shown := Clip(text, limit, expanded);
      && (ShowsReadMore(text, limit, expanded) ==>
            |shown| == limit + 3 && shown[..limit] == text[..limit]
            && shown[limit..] == "..." && |text[..limit]| < |text|)
      && (!ShowsReadMore(text, limit, expanded) ==> shown == text)
      && !(ShowsReadMore(text, limit, expanded) && ShowsLess(text, limit, expanded))
      && Clip(text, limit, true) == text
  {
  }

  /** `s.split(c)[0]`: the part of `s` before the first `c`, or all of `s`
      when it has none. */
  function BeforeFirst(s: string, c: char): (r: string)
    ensures |r| <= |s| && r == s[..|r|]
    ensures c !in r
    ensures |r| < |s| ==> s[|r|] == c
    decreases |s|
  {
    if |s| == 0 then []
    else if s[0] == c then []
    else [s[0]] + BeforeFirst(s[1..], c)
  }
}
