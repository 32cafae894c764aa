/**
  The few ECMAScript string operations the LIRI core relies on, with their
  standard semantics: `String.prototype.trim`, `split` on a one-character
  separator, `Array.prototype.join`, and the legacy `substr`.
 */
module JsString {

  /** The WhiteSpace and LineTerminator code points of ECMAScript, the set `trim` removes. */
  predicate IsWhitespace(c: char) {
    || c == '\t' || c == '\n' || c == '\U{000B}' || c == '\U{000C}' || c == '\r' || c == ' '
    || c == '\U{00A0}' || c == '\U{1680}' || ('\U{2000}' <= c <= '\U{200A}')
    || c == '\U{2028}' || c == '\U{2029}' || c == '\U{202F}' || c == '\U{205F}'
    || c == '\U{3000}' || c == '\U{FEFF}'
  }

  predicate AllWhitespace(s: string) {
    forall i :: 0 <= i < |s| ==> IsWhitespace(s[i])
  }

  /** Neither the first nor the last character is whitespace. */
  predicate Unpadded(s: string) {
    s == [] || (!IsWhitespace(s[0]) && !IsWhitespace(s[|s| - 1]))
  }

  /** Index of the first non-whitespace character at or after `i`, or `|s|` when there is none. */
  function SkipSpace(s: string, i: nat): (r: nat)
    requires i <= |s|
    ensures i <= r <= |s|
    ensures forall k :: i <= k < r ==> IsWhitespace(s[k])
    ensures r < |s| ==> !IsWhitespace(s[r])
    decreases |s| - i
  {
    if i < |s| && IsWhitespace(s[i]) then SkipSpace(s, i + 1) else i
  }

  /** End of the text in `s[lo..j]` once the whitespace run in front of `j` is dropped. */
  function SkipSpaceBack(s: string, lo: nat, j: nat): (r: nat)
    requires lo <= j <= |s|
    ensures lo <= r <= j
    ensures forall k :: r <= k < j ==> IsWhitespace(s[k])
    ensures r > lo ==> !IsWhitespace(s[r - 1])
    decreases j
  {
    if j > lo && IsWhitespace(s[j - 1]) then SkipSpaceBack(s, lo, j - 1) else j
  }

  /** `s.trim()`: `s` with leading and trailing whitespace removed. */
  function Trim(s: string): (r: string)
    ensures Unpadded(r)
    ensures |r| <= |s|
  {
    var i := SkipSpace(s, 0);
    var j := SkipSpaceBack(s, i, |s|);
    s[i..j]
  }

  /**
    The trimmed string is the middle of `s`, starting after the leading run of
    whitespace, and everything around it is whitespace.
   */
  lemma TrimCutsPadding(s: string)
    ensures SkipSpace(s, 0) + |Trim(s)| <= |s|
    ensures s[SkipSpace(s, 0)..SkipSpace(s, 0) + |Trim(s)|] == Trim(s)
    ensures forall k :: 0 <= k < SkipSpace(s, 0) ==> IsWhitespace(s[k])
    ensures forall k :: SkipSpace(s, 0) + |Trim(s)| <= k < |s| ==> IsWhitespace(s[k])
  {
    var i := SkipSpace(s, 0);
    var j := SkipSpaceBack(s, i, |s|);
    assert Trim(s) == s[i..j];
  }

  /** Every character of the trimmed string occurs in `s`. */
  lemma TrimKeepsCharacters(s: string)
    ensures forall c :: c in Trim(s) ==> c in s
  {
    var i := SkipSpace(s, 0);
    var j := SkipSpaceBack(s, i, |s|);
    assert forall k :: 0 <= k < j - i ==> s[i..j][k] == s[i + k];
  }

  /** A whitespace run from `i` to `m` that is followed by text or the end is what `SkipSpace` skips. */
  lemma {:induction false} SkipSpaceExact(s: string, i: nat, m: nat)
    requires i <= m <= |s|
    requires forall k :: i <= k < m ==> IsWhitespace(s[k])
    requires m == |s| || !IsWhitespace(s[m])
    ensures SkipSpace(s, i) == m
    decreases m - i
  {
    if i < m {
      SkipSpaceExact(s, i + 1, m);
    }
  }

  /** A whitespace run from `m` to `j` that follows text (or `lo`) is what `SkipSpaceBack` drops. */
  lemma {:induction false} SkipSpaceBackExact(s: string, lo: nat, m: nat, j: nat)
    requires lo <= m <= j <= |s|
    requires forall k :: m <= k < j ==> IsWhitespace(s[k])
    requires m == lo || !IsWhitespace(s[m - 1])
    ensures SkipSpaceBack(s, lo, j) == m
    decreases j - m
  {
    if m < j {
      SkipSpaceBackExact(s, lo, m, j - 1);
    }
  }

  /** Trimming is determined by the unpadded core: padding on either side is removed, nothing else. */
  lemma TrimPadded(p: string, c: string, q: string)
    requires AllWhitespace(p) && AllWhitespace(q) && Unpadded(c)
    ensures Trim(p + c + q) == c
  {
    var s := p + c + q;
    assert forall k :: 0 <= k < |p| ==> s[k] == p[k];
    assert forall k :: |p| + |c| <= k < |s| ==> s[k] == q[k - |p| - |c|];
    if c == [] {
      SkipSpaceExact(s, 0, |s|);
      assert s[|s|..|s|] == c;
    } else {
      assert s[|p|] == c[0];
      assert s[|p| + |c| - 1] == c[|c| - 1];
      SkipSpaceExact(s, 0, |p|);
      SkipSpaceBackExact(s, |p|, |p| + |c|, |s|);
      assert s[|p|..|p| + |c|] == c;
    }
  }

  /** A string without padding is its own trim. */
  lemma TrimUnpadded(c: string)
    requires Unpadded(c)
    ensures Trim(c) == c
  {
    if c != [] {
      SkipSpaceExact(c, 0, 0);
      SkipSpaceBackExact(c, 0, |c|, |c|);
    }
    assert c[0..|c|] == c;
  }

  /** `parts.join(sep)`. */
  function Join(parts: seq<string>, sep: string): string {
    if |parts| == 0 then ""
    else if |parts| == 1 then parts[0]
    else parts[0] + sep + Join(parts[1..], sep)
  }

  function TotalLength(parts: seq<string>): nat {
    if |parts| == 0 then 0 else |parts[0]| + TotalLength(parts[1..])
  }

  /** A join is as long as its parts plus one separator between each neighbouring pair. */
  lemma {:induction false} JoinLength(parts: seq<string>, sep: string)
    requires |parts| > 0
    ensures |Join(parts, sep)| == TotalLength(parts) + |sep| * (|parts| - 1)
  {
    if |parts| > 1 {
      JoinLength(parts[1..], sep);
    }
  }

  /** Index of the first occurrence of `c` in `s`, or `|s|` when there is none. */
  function IndexOf(s: string, c: char): (i: nat)
    ensures i <= |s|
    ensures c !in s[..i]
    ensures i < |s| ==> s[i] == c
  {
    if |s| == 0 || s[0] == c then 0 else 1 + IndexOf(s[1..], c)
  }

  /** `s.split(sep)` for a one-character separator: the maximal separator-free pieces, in order. */
  function Split(s: string, sep: char): (parts: seq<string>)
    ensures |parts| >= 1
    ensures |parts| == 1 <==> sep !in s
    ensures forall i :: 0 <= i < |parts| ==> sep !in parts[i]
    ensures Join(parts, [sep]) == s
    decreases |s|
  {
    var i := IndexOf(s, sep);
    if i == |s| then
      assert s[..i] == s;
      [s]
    else
      var rest := Split(s[i + 1..], sep);
      assert s == s[..i] + [sep] + s[i + 1..];
      [s[..i]] + rest
  }

  /** The first separator after a separator-free prefix `a` is the one right behind it. */
  lemma {:induction false} IndexOfAfter(a: string, t: string, sep: char)
    requires sep !in a
    requires t == [] || t[0] == sep
    ensures IndexOf(a + t, sep) == |a|
  {
    if a != [] {
      assert (a + t)[0] == a[0];
      assert (a + t)[1..] == a[1..] + t;
      IndexOfAfter(a[1..], t, sep);
    }
  }

  /** Splitting a string that begins with a separator-free piece `a` followed by a separator or the end. */
  lemma SplitFirst(a: string, t: string, sep: char)
    requires sep !in a
    requires t == [] || t[0] == sep
    ensures Split(a + t, sep)[0] == a
    ensures t != [] ==> Split(a + t, sep) == [a] + Split(t[1..], sep)
  {
    var s := a + t;
    IndexOfAfter(a, t, sep);
    assert s[..|a|] == a;
    if t != [] {
      assert s[|a| + 1..] == t[1..];
    }
  }

  /** Split undoes Join when no part contains the separator. */
  lemma {:induction false} SplitJoin(parts: seq<string>, sep: char)
    requires |parts| > 0
    requires forall i :: 0 <= i < |parts| ==> sep !in parts[i]
    ensures Split(Join(parts, [sep]), sep) == parts
  {
    if |parts| == 1 {
      assert sep !in parts[0];
    } else {
      var tail := Join(parts[1..], [sep]);
      assert Join(parts, [sep]) == parts[0] + ([sep] + tail);
      SplitFirst(parts[0], [sep] + tail, sep);
      assert ([sep] + tail)[1..] == tail;
      SplitJoin(parts[1..], sep);
    }
  }

  function Min(a: int, b: int): int {
    if a <= b then a else b
  }

  /**
    `s.substr(start, length)` for a non-negative `start`: at most `length`
    characters from `start`, none when `length` is not positive.
   */
  function Substr(s: string, start: nat, length: int): (r: string)
    ensures |r| <= |s|
    ensures start + length <= |s| && length >= 0 ==> r == s[start..start + length]
    ensures length <= 0 ==> r == []
  {
    if start >= |s| || length <= 0 then "" else s[start..Min(start + length, |s|)]
  }
}
