/** The string operations the components rely on, with JavaScript's meaning:
    `trim`, `join` with a separator and `split` on a single character. */
module Text {

  /** ECMAScript WhiteSpace and LineTerminator code points: exactly what
      `String.prototype.trim` strips and what `parseInt` skips. */
  predicate IsWhitespace(c: char) {
    || ('\t' <= c <= '\r') || c == ' '
    || ('\U{00A0}' <= c && (
         || c == '\U{00A0}' || c == '\U{1680}'
         || ('\U{2000}' <= c <= '\U{200A}')
         || c == '\U{2028}' || c == '\U{2029}' || c == '\U{202F}' || c == '\U{205F}'
         || c == '\U{3000}' || c == '\U{FEFF}'))
  }

  /** Every character is whitespace (the empty string included). */
  predicate IsBlank(s: string) {
    forall i | 0 <= i < |s| :: IsWhitespace(s[i])
  }

  /** `trimStart`: the suffix left after dropping leading whitespace. */
  function TrimStart(s: string): (r: string)
    ensures |r| <= |s| && r == s[|s| - |r|..]
    ensures IsBlank(s[..|s| - |r|])
    ensures |r| > 0 ==> !IsWhitespace(r[0])
  {
    if |s| > 0 && IsWhitespace(s[0]) then TrimStart(s[1..]) else s
  }

  lemma TrimStartKeeps(s: string)
    requires |s| > 0 && !IsWhitespace(s[0])
    ensures TrimStart(s) == s
  {
  }

  /** `trimEnd`: the prefix left after dropping trailing whitespace. */
  function TrimEnd(s: string): (r: string)
    ensures |r| <= |s| && r == s[..|r|]
    ensures IsBlank(s[|r|..])
    ensures |r| > 0 ==> !IsWhitespace(r[|r| - 1])
  {
    if |s| > 0 && IsWhitespace(s[|s| - 1]) then TrimEnd(s[..|s| - 1]) else s
  }

  /** `trim`: what lies between the leading and the trailing whitespace. */
  function Trim(s: string): (r: string)
    ensures |r| <= |s|
    ensures exists k | 0 <= k <= |s| - |r| ::
      r == s[k..k + |r|] && IsBlank(s[..k]) && IsBlank(s[k + |r|..])
    ensures |r| > 0 ==> !IsWhitespace(r[0]) && !IsWhitespace(r[|r| - 1])
  {
    var t := TrimStart(s);
    var r := TrimEnd(t);
    TrimEndOfSuffix(s, t, r);
    r
  }

  /** Trimming the end of the suffix `t` of `s` leaves a piece of `s` with
      whitespace on both sides. */
  lemma TrimEndOfSuffix(s: string, t: string, r: string)
    requires |t| <= |s| && t == s[|s| - |t|..] && IsBlank(s[..|s| - |t|])
    requires |t| > 0 ==> !IsWhitespace(t[0])
    requires |r| <= |t| && r == t[..|r|] && IsBlank(t[|r|..])
    requires |r| > 0 ==> !IsWhitespace(r[|r| - 1])
    ensures var k := |s| - |t|;
      r == s[k..k + |r|] && IsBlank(s[..k]) && IsBlank(s[k + |r|..])
    ensures |r| > 0 ==> !IsWhitespace(r[0])
  {
    var k := |s| - |t|;
    assert s[k + |r|..] == t[|r|..];
  }

  /** `s.trim()` is the empty (falsy) string exactly when `s` is all whitespace. */
  lemma TrimEmptyIffBlank(s: string)
    ensures Trim(s) == "" <==> IsBlank(s)
  {
    var t := TrimStart(s);
    if Trim(s) == "" {
      assert IsBlank(t[0..]);
      assert s == s[..|s| - |t|] + t;
    }
  }

  /** The characters of all the lines together. */
  function TotalLength(lines: seq<string>): nat {
    if |lines| == 0 then 0 else |lines[0]| + TotalLength(lines[1..])
  }

  /** `lines.join(sep)`: the lines in order with one separator between each
      two. The empty array joins to the empty string. */
  function Join(lines: seq<string>, sep: string): (r: string)
    ensures |lines| == 0 ==> r == ""
    ensures |lines| > 0 ==> lines[0] <= r
    ensures |lines| > 0 ==> |r| == TotalLength(lines) + (|lines| - 1) * |sep|
  {
    if |lines| == 0 then ""
    else if |lines| == 1 then lines[0]
    else lines[0] + sep + Join(lines[1..], sep)
  }

  /** The position of the first `c` in `s`. */
  function IndexOf(s: string, c: char): (k: nat)
    requires c in s
    ensures k < |s| && s[k] == c
    ensures forall j | 0 <= j < k :: s[j] != c
  {
    if s[0] == c then 0 else 1 + IndexOf(s[1..], c)
  }

  /** `s.split(c)` for a one-character separator: the maximal pieces
      between occurrences of `c`, always at least one. */
  function Split(s: string, c: char): (r: seq<string>)
    ensures |r| >= 1
    ensures forall i | 0 <= i < |r| :: c !in r[i]
    decreases |s|
  {
    if c !in s then [s]
    else
      var k := IndexOf(s, c);
      [s[..k]] + Split(s[k + 1..], c)
  }

  /** `s.split(c)[0]`: the longest prefix of `s` that does not contain `c`. */
  function FirstSegment(s: string, c: char): (r: string)
    ensures |r| <= |s| && r == s[..|r|]
    ensures c !in r
    ensures |r| < |s| ==> s[|r|] == c
  {
    Split(s, c)[0]
  }

  /** The first `c` in `a + [c] + b` is the one right after `a` when `a`
      has none. */
  lemma IndexOfAfterPiece(a: string, c: char, b: string)
    requires c !in a
    ensures c in a + [c] + b
    ensures IndexOf(a + [c] + b, c) == |a|
  {
    var s := a + [c] + b;
    assert s[|a|] == c;
  }

  /** Splitting a join on a separator that occurs in no piece gives the
      pieces back, so a non-empty list of lines survives `join`. */
  lemma {:induction false} SplitJoin(lines: seq<string>, c: char)
    requires |lines| >= 1
    requires forall i | 0 <= i < |lines| :: c !in lines[i]
    ensures Split(Join(lines, [c]), c) == lines
  {
    if |lines| > 1 {
      var head := lines[0];
      var rest := Join(lines[1..], [c]);
      var s := head + [c] + rest;
      assert Join(lines, [c]) == s;
      IndexOfAfterPiece(head, c, rest);
      assert s[..|head|] == head;
      assert s[|head| + 1..] == rest;
      assert Split(s, c) == [head] + Split(rest, c);
      SplitJoin(lines[1..], c);
      assert lines == [head] + lines[1..];
    } else {
      assert c !in lines[0];
    }
  }

  /** Joining the pieces of a split with the same separator restores the string. */
  lemma {:induction false} JoinSplit(s: string, c: char)
    ensures Join(Split(s, c), [c]) == s
    decreases |s|
  {
    if c in s {
      var k := IndexOf(s, c);
      var rest := Split(s[k + 1..], c);
      JoinSplit(s[k + 1..], c);
      assert Split(s, c) == [s[..k]] + rest;
      assert Split(s, c)[1..] == rest;
      assert s == s[..k] + [c] + s[k + 1..];
    }
  }
}
