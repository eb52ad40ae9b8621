/** Hand-written scanners for the pieces of regular-expression and string
    behaviour the extractor relies on: greedy runs, leftmost search,
    `.*` up to the end of the line, str.split(), str.replace(pat, '') and
    readlines(). */
module Scan {
  import opened Wrappers
  import opened Chars

  /** `pat` occurs in `s` starting at position `i`. */
  predicate OccursAt(s: string, i: nat, pat: string) {
    i + |pat| <= |s| && s[i..i + |pat|] == pat
  }

  predicate NotSpace(c: char) { !IsSpace(c) }

  predicate NotNewline(c: char) { c != '\n' }

  /** End of the longest run of characters satisfying `p` that starts at `i`:
      what a greedy `p*` consumes. */
  function RunEnd(s: string, i: nat, p: char -> bool): (j: nat)
    requires i <= |s|
    ensures i <= j <= |s|
    ensures forall k :: i <= k < j ==> p(s[k])
    ensures j == |s| || !p(s[j])
    decreases |s| - i
  {
    if i < |s| && p(s[i]) then RunEnd(s, i + 1, p) else i
  }

  /** What `.*` captures from position `j`: everything up to the next line
      feed, which `.` does not match. */
  function RestOfLine(s: string, j: nat): (r: string)
    requires j <= |s|
    ensures OccursAt(s, j, r)
    ensures forall k :: 0 <= k < |r| ==> r[k] != '\n'
    ensures j + |r| == |s| || s[j + |r|] == '\n'
  {
    s[j..RunEnd(s, j, NotNewline)]
  }

  /** The leftmost position in `i..n` at which `at` matches: the order in
      which a regular-expression search tries start positions. */
  function FirstMatch<T>(at: nat -> Option<T>, i: nat, n: nat): (r: Option<nat>)
    ensures r.None? ==> forall k :: i <= k <= n ==> at(k).None?
    ensures r.Some? ==> i <= r.value <= n && at(r.value).Some?
    ensures r.Some? ==> forall k :: i <= k < r.value ==> at(k).None?
    decreases n - i
  {
    if i > n then None
    else if at(i).Some? then Some(i)
    else FirstMatch(at, i + 1, n)
  }

  /** A piece of str.split() output: non-empty, no whitespace inside. */
  predicate IsToken(t: string) {
    t != [] && forall k :: 0 <= k < |t| ==> !IsSpace(t[k])
  }

  /** `s` with every whitespace character removed. */
  function NonSpace(s: string): (r: string)
    ensures |r| <= |s|
    ensures forall k :: 0 <= k < |r| ==> !IsSpace(r[k])
  {
    if s == [] then [] else (if IsSpace(s[0]) then [] else [s[0]]) + NonSpace(s[1..])
  }

  /** A leading run without whitespace survives the filter unchanged. */
  lemma {:induction false} NonSpacePrefix(s: string, b: nat)
    requires b <= |s| && forall k :: 0 <= k < b ==> !IsSpace(s[k])
    ensures NonSpace(s) == s[..b] + NonSpace(s[b..])
  {
    if b > 0 {
      NonSpacePrefix(s[1..], b - 1);
      assert s[1..][..b - 1] == s[1..b] && s[1..][b - 1..] == s[b..];
      assert s[..b] == [s[0]] + s[1..b];
    }
  }

  /** Python's str.split() with no argument: the maximal runs of
      non-whitespace characters, in order. */
  function SplitWhitespace(s: string): (tokens: seq<string>)
    ensures forall k :: 0 <= k < |tokens| ==> IsToken(tokens[k])
    decreases |s|
  {
    if s == [] then []
    else if IsSpace(s[0]) then SplitWhitespace(s[1..])
    else
      var b := RunEnd(s, 0, NotSpace);
      [s[..b]] + SplitWhitespace(s[b..])
  }

  /** Together the tokens hold exactly the non-whitespace characters of `s`,
      in order: nothing is lost and nothing is added. */
  lemma {:induction false} SplitKeepsNonSpace(s: string)
    ensures Concat(SplitWhitespace(s)) == NonSpace(s)
    decreases |s|
  {
    if s == [] {
    } else if IsSpace(s[0]) {
      SplitKeepsNonSpace(s[1..]);
      assert NonSpace(s) == [] + NonSpace(s[1..]);
    } else {
      var b := RunEnd(s, 0, NotSpace);
      var rest := SplitWhitespace(s[b..]);
      SplitToken(s, b);
      SplitKeepsNonSpace(s[b..]);
      NonSpacePrefix(s, b);
      assert ([s[..b]] + rest)[0] == s[..b] && ([s[..b]] + rest)[1..] == rest;
    }
  }

  /** A run of whitespace separates: what stands on either side is split on
      its own. */
  lemma {:induction false} SplitAround(a: string, w: string, b: string)
    requires w != [] && forall k :: 0 <= k < |w| ==> IsSpace(w[k])
    ensures SplitWhitespace(a + w + b) == SplitWhitespace(a) + SplitWhitespace(b)
    decreases |a|
  {
    var s := a + w + b;
    if a == [] {
      assert s == w + b;
      SplitLeadingSpaces(w, b);
    } else if IsSpace(a[0]) {
      assert s[1..] == a[1..] + w + b;
      SplitAround(a[1..], w, b);
    } else {
      var c := RunEnd(a, 0, NotSpace);
      SplitToken(a, c);
      SplitAround(a[c..], w, b);
      SplitTokenBefore(a, w, b, c);
      assert [a[..c]] + (SplitWhitespace(a[c..]) + SplitWhitespace(b))
          == ([a[..c]] + SplitWhitespace(a[c..])) + SplitWhitespace(b);
    }
  }

  /** The first token of `a`, ending before `a` does, is also the first
      token of `a + w + b`. */
  lemma {:induction false} SplitTokenBefore(a: string, w: string, b: string, c: nat)
    requires w != [] && forall k :: 0 <= k < |w| ==> IsSpace(w[k])
    requires 0 < c <= |a| && forall k :: 0 <= k < c ==> NotSpace(a[k])
    requires c == |a| || IsSpace(a[c])
    ensures SplitWhitespace(a + w + b) == [a[..c]] + SplitWhitespace(a[c..] + w + b)
  {
    var s := a + w + b;
    assert forall k :: 0 <= k < c ==> s[k] == a[k];
    assert c < |a| ==> s[c] == a[c];
    assert c == |a| ==> s[c] == w[0];
    SplitToken(s, c);
    assert s[..c] == a[..c];
    assert s[c..] == a[c..] + w + b;
  }

  /** A text that starts with a token splits into that token and the split
      of what follows it. */
  lemma {:induction false} SplitToken(s: string, c: nat)
    requires 0 < c <= |s| && forall k :: 0 <= k < c ==> NotSpace(s[k])
    requires c == |s| || IsSpace(s[c])
    ensures SplitWhitespace(s) == [s[..c]] + SplitWhitespace(s[c..])
  {
    RunEndIs(s, 0, c, NotSpace);
  }

  /** Leading whitespace does not change the split. */
  lemma {:induction false} SplitLeadingSpaces(w: string, b: string)
    requires forall k :: 0 <= k < |w| ==> IsSpace(w[k])
    ensures SplitWhitespace(w + b) == SplitWhitespace(b)
  {
    if w != [] {
      assert (w + b)[1..] == w[1..] + b;
      SplitLeadingSpaces(w[1..], b);
    } else {
      assert w + b == b;
    }
  }

  /** Tokens joined by single spaces: the partner of SplitWhitespace. */
  function JoinSpaced(tokens: seq<string>): string {
    if tokens == [] then []
    else if |tokens| == 1 then tokens[0]
    else tokens[0] + " " + JoinSpaced(tokens[1..])
  }

  /** The run end is determined by its two defining facts. */
  lemma {:induction false} RunEndIs(s: string, i: nat, j: nat, p: char -> bool)
    requires i <= j <= |s|
    requires forall k :: i <= k < j ==> p(s[k])
    requires j == |s| || !p(s[j])
    ensures RunEnd(s, i, p) == j
    decreases j - i
  {
    if i < j {
      RunEndIs(s, i + 1, j, p);
    }
  }

  lemma {:induction false} RunEndOfToken(t: string, rest: string)
    requires IsToken(t)
    requires rest == [] || IsSpace(rest[0])
    ensures RunEnd(t + rest, 0, NotSpace) == |t|
  {
    RunEndIs(t + rest, 0, |t|, NotSpace);
  }

  /** Splitting tokens joined by spaces gives the tokens back. */
  lemma {:induction false} SplitJoinRoundTrip(tokens: seq<string>)
    requires forall k :: 0 <= k < |tokens| ==> IsToken(tokens[k])
    ensures SplitWhitespace(JoinSpaced(tokens)) == tokens
  {
    if tokens == [] {
    } else if |tokens| == 1 {
      var t := tokens[0];
      RunEndOfToken(t, []);
      assert t + [] == t;
      assert t[..|t|] == t && t[|t|..] == [];
    } else {
      var t := tokens[0];
      var rest := JoinSpaced(tokens[1..]);
      var s := t + " " + rest;
      assert s == t + (" " + rest);
      RunEndOfToken(t, " " + rest);
      assert s[..|t|] == t && s[|t|..] == " " + rest;
      SplitJoinRoundTrip(tokens[1..]);
      assert (" " + rest)[1..] == rest;
    }
  }

  /** Python's str.replace(pat, '') for a non-empty `pat`: occurrences are
      removed left to right, without overlap. */
  function RemoveAll(s: string, pat: string): (r: string)
    requires pat != []
    ensures |r| <= |s|
    ensures forall c :: c in r ==> c in s
    ensures (forall i :: 0 <= i < |s| ==> !OccursAt(s, i, pat)) ==> r == s
    ensures |pat| == 1 ==> pat[0] !in r
    decreases |s|
  {
    if s == [] then []
    else if OccursAt(s, 0, pat) then RemoveAll(s[|pat|..], pat)
    else
      assert forall i :: 0 <= i < |s| - 1 && OccursAt(s[1..], i, pat) ==> OccursAt(s, i + 1, pat) by {
        forall i | 0 <= i < |s| - 1 && OccursAt(s[1..], i, pat) ensures OccursAt(s, i + 1, pat) {
          assert s[1..][i..i + |pat|] == s[i + 1..i + 1 + |pat|];
        }
      }
      [s[0]] + RemoveAll(s[1..], pat)
  }

  /** Concatenation of a sequence of lines. */
  function Concat(lines: seq<string>): string {
    if lines == [] then [] else lines[0] + Concat(lines[1..])
  }

  /** A line as readlines() returns it: not empty, no line feed before its
      end, and ending in a line feed unless it is the last line. */
  predicate IsLine(line: string, last: bool) {
    && line != []
    && (forall j :: 0 <= j < |line| - 1 ==> line[j] != '\n')
    && (!last ==> line[|line| - 1] == '\n')
  }

  /** readlines(): the text cut after every line feed, each line keeping its
      terminator; a last line without one is kept as it is. */
  function ReadLines(text: string): (lines: seq<string>)
    ensures Concat(lines) == text
    ensures forall k :: 0 <= k < |lines| ==> IsLine(lines[k], k == |lines| - 1)
    decreases |text|
  {
    if text == [] then []
    else
      var e := RunEnd(text, 0, NotNewline);
      if e == |text| then [text]
      else
        var head := text[..e + 1];
        var rest := ReadLines(text[e + 1..]);
        assert head + text[e + 1..] == text;
        assert IsLine(head, false);
        LinesCons(head, rest);
        [head] + rest
  }

  /** A terminated line in front of readlines() output is readlines() output. */
  lemma {:induction false} LinesCons(head: string, rest: seq<string>)
    requires IsLine(head, false)
    requires forall k :: 0 <= k < |rest| ==> IsLine(rest[k], k == |rest| - 1)
    ensures Concat([head] + rest) == head + Concat(rest)
    ensures forall k :: 0 <= k < |rest| + 1 ==> IsLine(([head] + rest)[k], k == |rest|)
  {
    assert ([head] + rest)[1..] == rest;
    forall k | 0 <= k < |rest| + 1 ensures IsLine(([head] + rest)[k], k == |rest|) {
      if k > 0 {
        assert ([head] + rest)[k] == rest[k - 1];
      }
    }
  }
}
