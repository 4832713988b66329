/**
 * The JavaScript string operations the core relies on (`includes`, `indexOf`,
 * `lastIndexOf`, `substring`, `trim`, global `replace` of a literal, `join`),
 * over Dafny strings. A JavaScript string is a sequence of UTF-16 code units;
 * here it is a sequence of Unicode scalar values, which agree on the Basic
 * Multilingual Plane.
 */
module Text {
  import opened Wrappers

  /**
   * The WhiteSpace and LineTerminator code points of ECMAScript: the set that
   * `String.prototype.trim` removes and that the regular-expression class `\s`
   * matches.
   */
  predicate IsJsWhitespace(c: char) {
    || c == '\t' || c == '\n' || c == '\U{B}' || c == '\U{C}' || c == '\r' || c == ' '
    || c == '\U{A0}' || c == '\U{1680}' || ('\U{2000}' <= c <= '\U{200A}')
    || c == '\U{2028}' || c == '\U{2029}' || c == '\U{202F}' || c == '\U{205F}'
    || c == '\U{3000}' || c == '\U{FEFF}'
  }

  predicate AllWhitespace(s: string) {
    forall k :: 0 <= k < |s| ==> IsJsWhitespace(s[k])
  }

  /** `lit` occurs in `s` starting at position `i`. */
  predicate HasAt(s: string, i: nat, lit: string) {
    i + |lit| <= |s| && s[i..i + |lit|] == lit
  }

  /** `s.includes(t)` */
  predicate Contains(s: string, t: string) {
    exists i :: 0 <= i <= |s| && HasAt(s, i, t)
  }

  lemma HasAtHead(s: string, i: nat, lit: string)
    requires HasAt(s, i, lit) && |lit| > 0
    ensures s[i] == lit[0]
  {
    assert s[i..i + |lit|][0] == s[i];
  }

  /** Containment is transitive: an infix of an infix is an infix. */
  lemma ContainsTransitive(s: string, t: string, u: string)
    requires Contains(s, t) && Contains(t, u)
    ensures Contains(s, u)
  {
    var i :| 0 <= i <= |s| && HasAt(s, i, t);
    var j :| 0 <= j <= |t| && HasAt(t, j, u);
    assert t == s[i..i + |t|];
    assert forall k :: i + j <= k < i + j + |u| ==> s[k] == t[k - i];
    assert s[i + j..i + j + |u|] == t[j..j + |u|];
    assert HasAt(s, i + j, u);
  }

  /** The middle of a concatenation is an infix of it. */
  lemma ContainsInfix(a: string, b: string, c: string)
    ensures Contains(a + b + c, b)
  {
    assert (a + b + c)[|a|..|a| + |b|] == b;
    assert HasAt(a + b + c, |a|, b);
  }

  /** A text lacking one of the characters of `t` does not contain `t`. */
  lemma MissingCharNotContained(s: string, t: string, k: nat)
    requires k < |t| && t[k] !in s
    ensures !Contains(s, t)
  {
  }

  /** JavaScript's `value || fallback` for a string property that may be absent. */
  function OrElse(value: Option<string>, fallback: string): (r: string)
    ensures r == fallback || (value.Some? && r == value.value && r != "")
  {
    if value.Some? && value.value != "" then value.value else fallback
  }

  /** `s.indexOf(c, from)`: the first position at or after `from` holding `c`, or -1. */
  function IndexFrom(s: string, c: char, from: nat): (r: int)
    requires from <= |s|
    ensures r == -1 || from <= r < |s|
    ensures r == -1 ==> forall k :: from <= k < |s| ==> s[k] != c
    ensures r != -1 ==> s[r] == c && forall k :: from <= k < r ==> s[k] != c
    decreases |s| - from
  {
    if from == |s| then -1
    else if s[from] == c then from
    else IndexFrom(s, c, from + 1)
  }

  /** `s.indexOf(c)` */
  function IndexOf(s: string, c: char): (r: int)
    ensures r == -1 <==> c !in s
    ensures r != -1 ==> 0 <= r < |s| && s[r] == c && forall k :: 0 <= k < r ==> s[k] != c
  {
    IndexFrom(s, c, 0)
  }

  /** `s.lastIndexOf(c)` restricted to `s[..to]`: the last position before `to` holding `c`, or -1. */
  function LastIndexBefore(s: string, c: char, to: nat): (r: int)
    requires to <= |s|
    ensures r == -1 || 0 <= r < to
    ensures r == -1 ==> forall k :: 0 <= k < to ==> s[k] != c
    ensures r != -1 ==> s[r] == c && forall k :: r < k < to ==> s[k] != c
  {
    if to == 0 then -1
    else if s[to - 1] == c then to - 1
    else LastIndexBefore(s, c, to - 1)
  }

  /** `s.lastIndexOf(c)` */
  function LastIndexOf(s: string, c: char): (r: int)
    ensures r == -1 <==> c !in s
    ensures r != -1 ==> 0 <= r < |s| && s[r] == c && forall k :: r < k < |s| ==> s[k] != c
  {
    LastIndexBefore(s, c, |s|)
  }

  /** The argument clamping of `substring`: negative becomes 0, past the end becomes the length. */
  function Clamp(x: int, len: nat): (r: nat)
    ensures r <= len
  {
    if x < 0 then 0 else if x > len then len else x
  }

  /** `s.substring(a, b)`: both bounds clamped to the string, and swapped when reversed. */
  function JsSubstring(s: string, a: int, b: int): (r: string)
    ensures Contains(s, r)
    ensures 0 <= a <= b <= |s| ==> r == s[a..b]
  {
    var x, y := Clamp(a, |s|), Clamp(b, |s|);
    if x <= y then
      assert HasAt(s, x, s[x..y]);
      s[x..y]
    else
      assert HasAt(s, y, s[y..x]);
      s[y..x]
  }

  /** With its bounds reversed, `substring` cuts between them the other way round. */
  lemma JsSubstringSwapped(s: string, a: int, b: int)
    requires 0 <= b <= a <= |s|
    ensures JsSubstring(s, a, b) == s[b..a]
  {
  }

  /** The first position at or after `i` that is not whitespace. */
  function TrimStartIndex(s: string, i: nat): (k: nat)
    requires i <= |s|
    ensures i <= k <= |s|
    ensures forall m :: i <= m < k ==> IsJsWhitespace(s[m])
    ensures k == |s| || !IsJsWhitespace(s[k])
    decreases |s| - i
  {
    if i < |s| && IsJsWhitespace(s[i]) then TrimStartIndex(s, i + 1) else i
  }

  /** The end of `s[lo..j]` once its trailing whitespace is dropped. */
  function TrimEndIndex(s: string, lo: nat, j: nat): (k: nat)
    requires lo <= j <= |s|
    ensures lo <= k <= j
    ensures forall m :: k <= m < j ==> IsJsWhitespace(s[m])
    ensures k == lo || !IsJsWhitespace(s[k - 1])
    decreases j
  {
    if lo < j && IsJsWhitespace(s[j - 1]) then TrimEndIndex(s, lo, j - 1) else j
  }

  /**
   * `s.trim()`: `s` is the result framed by a whitespace prefix and a
   * whitespace suffix, and the result neither starts nor ends with whitespace.
   */
  function Trim(s: string): (r: string)
    ensures r == "" || (!IsJsWhitespace(r[0]) && !IsJsWhitespace(r[|r| - 1]))
    ensures exists i :: 0 <= i <= |s| - |r| && HasAt(s, i, r) && AllWhitespace(s[..i]) && AllWhitespace(s[i + |r|..])
  {
    var i := TrimStartIndex(s, 0);
    var j := TrimEndIndex(s, i, |s|);
    assert HasAt(s, i, s[i..j]);
    assert AllWhitespace(s[..i]) && AllWhitespace(s[j..]);
    s[i..j]
  }

  /** `trim` cuts at the first and past the last non-whitespace character, dropping only whitespace. */
  lemma TrimFrame(s: string)
    ensures var i := TrimStartIndex(s, 0);
            var j := TrimEndIndex(s, i, |s|);
            Trim(s) == s[i..j] && AllWhitespace(s[..i]) && AllWhitespace(s[j..])
  {
  }

  /** Trimming keeps every character from the first to the last non-whitespace one. */
  lemma TrimKeeps(s: string, o: nat, c: nat)
    requires o <= c < |s| && !IsJsWhitespace(s[o]) && !IsJsWhitespace(s[c])
    ensures var i := TrimStartIndex(s, 0);
            i <= o && c < TrimEndIndex(s, i, |s|) && Trim(s) == s[i..TrimEndIndex(s, i, |s|)]
  {
  }

  lemma TrimContained(s: string)
    ensures Contains(s, Trim(s))
  {
  }

  /**
   * `s.replace(/pat/g, rep)` for a literal pattern: occurrences are found left
   * to right and do not overlap.
   */
  function ReplaceAll(s: string, pat: string, rep: string): string
    requires |pat| > 0
    decreases |s|
  {
    if |s| < |pat| then s
    else if s[..|pat|] == pat then rep + ReplaceAll(s[|pat|..], pat, rep)
    else [s[0]] + ReplaceAll(s[1..], pat, rep)
  }

  /** A pattern that starts with a backtick leaves a text without backticks alone. */
  lemma {:induction false} ReplaceAllNoTick(s: string, pat: string, rep: string)
    requires |pat| > 0 && pat[0] == '`' && '`' !in s
    ensures ReplaceAll(s, pat, rep) == s
    decreases |s|
  {
    if |s| >= |pat| {
      assert s[..|pat|][0] == s[0];
      ReplaceAllNoTick(s[1..], pat, rep);
      assert s == [s[0]] + s[1..];
    }
  }

  /** ... and passes over such a text at the front to go on with the rest. */
  lemma {:induction false} ReplaceAllSkipsHead(a: string, b: string, pat: string, rep: string)
    requires |pat| > 0 && pat[0] == '`' && '`' !in a
    ensures ReplaceAll(a + b, pat, rep) == a + ReplaceAll(b, pat, rep)
    decreases |a|
  {
    if |a| > 0 {
      var s := a + b;
      if |s| < |pat| {
        assert ReplaceAll(b, pat, rep) == b;
      } else {
        assert s[..|pat|][0] == a[0];
        assert s[1..] == a[1..] + b;
        ReplaceAllSkipsHead(a[1..], b, pat, rep);
        assert a == [a[0]] + a[1..];
      }
    } else {
      assert a + b == b;
    }
  }

  /** A Markdown code fence. */
  const Fence := "```"

  /** A result of removing every fence starts with a backtick only if its input does. */
  lemma RemovalKeepsHead(s: string)
    ensures var r := ReplaceAll(s, Fence, "");
            |r| > 0 && r[0] == '`' ==> |s| > 0 && s[0] == '`'
  {
  }

  /** ... and starts with two backticks only if its input does. */
  lemma RemovalKeepsTwoHeads(s: string)
    ensures var r := ReplaceAll(s, Fence, "");
            |r| > 1 && r[0] == '`' && r[1] == '`' ==> |s| > 1 && s[0] == '`' && s[1] == '`'
  {
    if |s| >= 3 && s[..3] != Fence {
      RemovalKeepsHead(s[1..]);
    }
  }

  /**
   * Removing every fence left to right cannot join leftover backticks into a
   * new fence: the result holds no "```".
   */
  lemma {:induction false} NoFenceAfterRemoval(s: string)
    ensures !Contains(ReplaceAll(s, Fence, ""), Fence)
    decreases |s|
  {
    var r := ReplaceAll(s, Fence, "");
    if |s| < 3 {
      assert r == s;
    } else if s[..3] == Fence {
      NoFenceAfterRemoval(s[3..]);
      assert r == ReplaceAll(s[3..], Fence, "");
    } else {
      var t := ReplaceAll(s[1..], Fence, "");
      NoFenceAfterRemoval(s[1..]);
      assert r == [s[0]] + t;
      forall i | 0 <= i <= |r|
        ensures !HasAt(r, i, Fence)
      {
        if i == 0 {
          if |r| >= 3 {
            RemovalKeepsTwoHeads(s[1..]);
            assert s[..3] == [s[0], s[1], s[2]];
            assert s[0] != '`' || t[0] != '`' || t[1] != '`';
            assert r[..3] == [s[0], t[0], t[1]];
          }
        } else if i + 3 <= |r| {
          assert r[i..i + 3] == t[i - 1..i + 2];
          assert !HasAt(t, i - 1, Fence);
        }
      }
    }
  }

  /** `String(n)` for a natural number. */
  function NatToString(n: nat): (r: string)
    ensures |r| > 0
    ensures forall k :: 0 <= k < |r| ==> '0' <= r[k] <= '9'
  {
    var d := ['0', '1', '2', '3', '4', '5', '6', '7', '8', '9'];
    if n < 10 then [d[n]] else NatToString(n / 10) + [d[n % 10]]
  }

  /** `String(i)`, as a template literal renders an integer. */
  function IntToString(i: int): (r: string)
    ensures '\n' !in r
  {
    if i < 0 then "-" + NatToString(-i) else NatToString(i)
  }

  /** `lines.join(sep)` */
  function Join(lines: seq<string>, sep: string): string
  {
    if |lines| == 0 then ""
    else if |lines| == 1 then lines[0]
    else lines[0] + sep + Join(lines[1..], sep)
  }

  /** `s.split('\n')`: the pieces between the line feeds, in order. */
  function SplitLines(s: string): seq<string>
    decreases |s|
  {
    var i := IndexOf(s, '\n');
    if i == -1 then [s] else [s[..i]] + SplitLines(s[i + 1..])
  }

  /** Splitting at line feeds undoes joining with them, when no line holds a line feed. */
  lemma {:induction false} SplitJoin(lines: seq<string>)
    requires |lines| > 0
    requires forall k :: 0 <= k < |lines| ==> '\n' !in lines[k]
    ensures SplitLines(Join(lines, "\n")) == lines
    decreases |lines|
  {
    if |lines| > 1 {
      SplitAtFirst(lines[0], Join(lines[1..], "\n"));
      SplitJoin(lines[1..]);
      assert lines == [lines[0]] + lines[1..];
    }
  }

  /** A line without a line feed, then one, then anything: the line is the first piece. */
  lemma SplitAtFirst(head: string, rest: string)
    requires '\n' !in head
    ensures SplitLines(head + "\n" + rest) == [head] + SplitLines(rest)
  {
    var s := head + "\n" + rest;
    assert s[|head|] == '\n';
    assert forall k :: 0 <= k < |head| ==> s[k] == head[k];
    assert IndexOf(s, '\n') == |head|;
    assert s[..|head|] == head;
    assert s[|head| + 1..] == rest;
  }
}
