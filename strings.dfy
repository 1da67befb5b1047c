/**
 * The Python `str` operations the nodes are built from, restricted to the
 * ASCII whitespace set and to '\n' as the only line break.
 */
module Strings {

  /** The ASCII characters for which Python's `str.isspace()` holds. */
  const Whitespace: string := " \t\n\r\U{B}\U{C}\U{1C}\U{1D}\U{1E}\U{1F}"

  predicate IsSpace(c: char) {
    c in Whitespace
  }

  /** `str.lower()` on ASCII letters; every other character is unchanged. */
  function LowerChar(c: char): char {
    if 'A' <= c <= 'Z' then (c as int + 32) as char else c
  }

  function Lower(s: string): (r: string)
    ensures |r| == |s|
    ensures forall i :: 0 <= i < |s| ==> r[i] == LowerChar(s[i])
  {
    seq(|s|, i requires 0 <= i < |s| => LowerChar(s[i]))
  }

  // ---------------------------------------------------------------------
  // Searching
  // ---------------------------------------------------------------------

  /** `t` occurs in `s` starting at index `i`. */
  predicate OccursAt(s: string, t: string, i: int) {
    0 <= i && i + |t| <= |s| && s[i..i + |t|] == t
  }

  /** Python's `t in s`. */
  predicate Contains(s: string, t: string) {
    exists i | 0 <= i <= |s| - |t| :: OccursAt(s, t, i)
  }

  /** `s.startswith(t)` and `s.endswith(t)`. */
  predicate StartsWith(s: string, t: string) {
    t <= s
  }

  predicate EndsWith(s: string, t: string) {
    |t| <= |s| && s[|s| - |t|..] == t
  }

  /** Python's `s.find(t, start)`: the first index at or after `start` where
      `t` occurs, or -1. */
  function Find(s: string, t: string, start: nat): (r: int)
    ensures r == -1 || (start <= r && OccursAt(s, t, r))
    ensures r == -1 ==> forall i :: start <= i ==> !OccursAt(s, t, i)
    ensures r >= 0 ==> forall i :: start <= i < r ==> !OccursAt(s, t, i)
    decreases |s| - start
  {
    if start + |t| > |s| then -1
    else if s[start..start + |t|] == t then start
    else Find(s, t, start + 1)
  }

  lemma FindIffContains(s: string, t: string)
    ensures Find(s, t, 0) >= 0 <==> Contains(s, t)
  {
    if Find(s, t, 0) >= 0 {
      assert OccursAt(s, t, Find(s, t, 0));
    }
  }

  /** Python's `s.count(t)`: occurrences found left to right without
      overlapping; the empty string is counted `|s| + 1` times. */
  function CountDisjoint(s: string, t: string): (n: nat)
    decreases |s|
  {
    if t == [] then |s| + 1
    else
      var i := Find(s, t, 0);
      if i < 0 then 0 else 1 + CountDisjoint(s[i + |t|..], t)
  }

  // ---------------------------------------------------------------------
  // Replace
  // ---------------------------------------------------------------------

  /** Python's `s.replace(pattern, replacement, count)`; a negative count
      replaces every occurrence. An empty pattern matches before every
      character and at the end. */
  function Replace(s: string, pattern: string, replacement: string, count: int): (r: string)
    decreases |s|
  {
    var rest := if count > 0 then count - 1 else count;
    if count == 0 then s
    else if pattern == [] then
      if s == [] then replacement
      else replacement + [s[0]] + Replace(s[1..], pattern, replacement, rest)
    else
      var i := Find(s, pattern, 0);
      if i < 0 then s
      else s[..i] + replacement + Replace(s[i + |pattern|..], pattern, replacement, rest)
  }

  /** How many replacements `Replace(s, pattern, _, count)` performs. */
  function Replacements(s: string, pattern: string, count: int): nat {
    var n := CountDisjoint(s, pattern);
    if count < 0 || n <= count then n else count
  }

  lemma {:induction false} ReplaceLength(s: string, pattern: string, replacement: string, count: int)
    ensures LengthBalance(s, pattern, replacement, count)
    decreases |s|
  {
    var rest := if count > 0 then count - 1 else count;
    if count != 0 && pattern == [] && s != [] {
      ReplaceLength(s[1..], pattern, replacement, rest);
      ReplaceLengthEmptyStep(s, pattern, replacement, count);
    } else if count != 0 && pattern != [] && Find(s, pattern, 0) >= 0 {
      ReplaceLength(s[Find(s, pattern, 0) + |pattern|..], pattern, replacement, rest);
      ReplaceLengthFoundStep(s, pattern, replacement, count);
    } else {
      ReplaceLengthBase(s, pattern, replacement, count);
    }
  }

  /** What `ReplaceLength` states: each replacement trades the pattern's
      length for the replacement's. */
  predicate LengthBalance(s: string, pattern: string, replacement: string, count: int) {
    var k := Replacements(s, pattern, count);
    |Replace(s, pattern, replacement, count)| + k * |pattern| == |s| + k * |replacement|
  }

  lemma ReplaceLengthBase(s: string, pattern: string, replacement: string, count: int)
    requires count == 0 || (pattern == [] && s == []) || (pattern != [] && Find(s, pattern, 0) < 0)
    ensures LengthBalance(s, pattern, replacement, count)
  {
    var k := Replacements(s, pattern, count);
    if count == 0 || pattern != [] {
      assert k == 0 && |Replace(s, pattern, replacement, count)| == |s|;
    } else {
      assert k == 1 && |Replace(s, pattern, replacement, count)| == |replacement|;
    }
  }

  lemma ReplaceLengthEmptyStep(s: string, pattern: string, replacement: string, count: int)
    requires count != 0 && pattern == [] && s != []
    requires LengthBalance(s[1..], pattern, replacement, if count > 0 then count - 1 else count)
    ensures LengthBalance(s, pattern, replacement, count)
  {
    var rest := if count > 0 then count - 1 else count;
    var tail := s[1..];
    var tailResult := |Replace(tail, pattern, replacement, rest)|;
    var result := |Replace(s, pattern, replacement, count)|;
    assert result == 1 + |replacement| + tailResult;
    assert Replacements(s, pattern, count) == Replacements(tail, pattern, rest) + 1;
    BalanceStep(|s|, |tail|, result, tailResult, Replacements(s, pattern, count),
                Replacements(tail, pattern, rest), 1, 0, |replacement|);
  }

  lemma ReplaceLengthFoundStep(s: string, pattern: string, replacement: string, count: int)
    requires count != 0 && pattern != [] && Find(s, pattern, 0) >= 0
    requires LengthBalance(s[Find(s, pattern, 0) + |pattern|..], pattern, replacement,
                           if count > 0 then count - 1 else count)
    ensures LengthBalance(s, pattern, replacement, count)
  {
    var rest := if count > 0 then count - 1 else count;
    var i := Find(s, pattern, 0);
    var tail := s[i + |pattern|..];
    var tailResult := |Replace(tail, pattern, replacement, rest)|;
    var result := |Replace(s, pattern, replacement, count)|;
    ReplaceFound(s, pattern, replacement, count);
    assert result == i + |replacement| + tailResult;
    BalanceStep(|s|, |tail|, result, tailResult, Replacements(s, pattern, count),
                Replacements(tail, pattern, rest), i, |pattern|, |replacement|);
  }

  /** The first occurrence is replaced and the rest is processed with one
      replacement fewer. */
  lemma ReplaceFound(s: string, pattern: string, replacement: string, count: int)
    requires count != 0 && pattern != [] && Find(s, pattern, 0) >= 0
    ensures var i, rest := Find(s, pattern, 0), if count > 0 then count - 1 else count;
      var tail := s[i + |pattern|..];
      && Replace(s, pattern, replacement, count) == s[..i] + replacement + Replace(tail, pattern, replacement, rest)
      && Replacements(s, pattern, count) == Replacements(tail, pattern, rest) + 1
  {
  }

  /** A pattern at the very start is the first one replaced. */
  lemma ReplaceLeading(pattern: string, rest: string, replacement: string)
    requires pattern != []
    ensures Replace(pattern + rest, pattern, replacement, -1) == replacement + Replace(rest, pattern, replacement, -1)
  {
    var s := pattern + rest;
    assert s[0..|pattern|] == pattern;
    assert Find(s, pattern, 0) == 0;
    ReplaceFound(s, pattern, replacement, -1);
    assert s[|pattern|..] == rest;
  }

  /** A string without the pattern comes back unchanged. */
  lemma ReplaceNotFound(s: string, pattern: string, replacement: string)
    requires pattern != [] && !Contains(s, pattern)
    ensures Replace(s, pattern, replacement, -1) == s
  {
    FindIffContains(s, pattern);
  }

  /** The length balance of one replacement step. */
  lemma BalanceStep(whole: nat, tail: nat, result: nat, tailResult: nat, k: nat, kt: nat, skipped: nat, p: nat, r: nat)
    requires whole == skipped + p + tail
    requires result == skipped + r + tailResult
    requires tailResult + kt * p == tail + kt * r
    requires k == kt + 1
    ensures result + k * p == whole + k * r
  {
    MulSucc(kt, p);
    MulSucc(kt, r);
  }

  lemma MulSucc(k: nat, n: nat)
    ensures (k + 1) * n == k * n + n
  {
  }

  /** A count at least the number of occurrences replaces all of them. */
  lemma {:induction false} ReplaceEnoughIsAll(s: string, pattern: string, replacement: string, count: int)
    requires count >= CountDisjoint(s, pattern)
    ensures Replace(s, pattern, replacement, count) == Replace(s, pattern, replacement, -1)
    decreases |s|
  {
    if pattern == [] {
      if s != [] {
        ReplaceEnoughIsAll(s[1..], pattern, replacement, count - 1);
        EnoughEmptyStep(s, replacement, count);
      }
    } else if Find(s, pattern, 0) >= 0 {
      var tail := s[Find(s, pattern, 0) + |pattern|..];
      CountDisjointFound(s, pattern);
      ReplaceEnoughIsAll(tail, pattern, replacement, count - 1);
      EnoughFoundStep(s, pattern, replacement, count);
    }
  }

  lemma CountDisjointFound(s: string, pattern: string)
    requires pattern != [] && Find(s, pattern, 0) >= 0
    ensures CountDisjoint(s, pattern) == 1 + CountDisjoint(s[Find(s, pattern, 0) + |pattern|..], pattern)
  {
  }

  lemma EnoughEmptyStep(s: string, replacement: string, count: int)
    requires s != [] && count >= |s| + 1
    requires Replace(s[1..], [], replacement, count - 1) == Replace(s[1..], [], replacement, -1)
    ensures Replace(s, [], replacement, count) == Replace(s, [], replacement, -1)
  {
  }

  lemma EnoughFoundStep(s: string, pattern: string, replacement: string, count: int)
    requires pattern != [] && Find(s, pattern, 0) >= 0 && count >= CountDisjoint(s, pattern)
    requires var tail := s[Find(s, pattern, 0) + |pattern|..];
      Replace(tail, pattern, replacement, count - 1) == Replace(tail, pattern, replacement, -1)
    ensures Replace(s, pattern, replacement, count) == Replace(s, pattern, replacement, -1)
  {
    var i := Find(s, pattern, 0);
    var tail := s[i + |pattern|..];
    assert count >= 1;
    ReplaceFound(s, pattern, replacement, count);
    ReplaceFound(s, pattern, replacement, -1);
  }

  /** Removing every occurrence of one character keeps the other characters in order. */
  function Without(s: string, c: char): (r: string)
    ensures c !in r
    ensures |r| <= |s|
  {
    if s == [] then []
    else (if s[0] == c then [] else [s[0]]) + Without(s[1..], c)
  }

  lemma {:induction false} ReplaceCharByEmpty(s: string, c: char)
    ensures Replace(s, [c], [], -1) == Without(s, c)
    decreases |s|
  {
    var i := Find(s, [c], 0);
    if i < 0 {
      CharAbsentBefore(s, c, |s|);
      assert s[..|s|] == s;
      WithoutAbsent(s, c);
    } else {
      ReplaceCharStep(s, c, i);
      CharAbsentBefore(s, c, i);
      WithoutStep(s, c, i);
      ReplaceCharByEmpty(s[i + 1..], c);
    }
  }

  lemma ReplaceCharStep(s: string, c: char, i: nat)
    requires i == Find(s, [c], 0)
    ensures Replace(s, [c], [], -1) == s[..i] + Replace(s[i + 1..], [c], [], -1)
  {
  }

  lemma WithoutStep(s: string, c: char, i: nat)
    requires i < |s| && s[i] == c && c !in s[..i]
    ensures Without(s, c) == s[..i] + Without(s[i + 1..], c)
  {
    var pre, tail := s[..i], s[i + 1..];
    assert s == pre + ([c] + tail);
    WithoutAppend(pre, [c] + tail, c);
    WithoutAbsent(pre, c);
    assert ([c] + tail)[1..] == tail;
  }

  lemma CharAbsentBefore(s: string, c: char, n: nat)
    requires n <= |s|
    requires forall j :: 0 <= j < n ==> !OccursAt(s, [c], j)
    ensures c !in s[..n]
  {
    forall j | 0 <= j < n
      ensures s[j] != c
    {
      assert !OccursAt(s, [c], j);
      assert s[j..j + 1] == [s[j]];
    }
  }

  lemma {:induction false} WithoutAbsent(s: string, c: char)
    requires c !in s
    ensures Without(s, c) == s
  {
    if s != [] {
      WithoutAbsent(s[1..], c);
    }
  }

  lemma {:induction false} WithoutAppend(a: string, b: string, c: char)
    ensures Without(a + b, c) == Without(a, c) + Without(b, c)
  {
    if a != [] {
      assert (a + b)[1..] == a[1..] + b;
      WithoutAppend(a[1..], b, c);
    } else {
      assert a + b == b;
    }
  }

  // ---------------------------------------------------------------------
  // Split and join
  // ---------------------------------------------------------------------

  /** Python's `sep.join(parts)`. */
  function Join(sep: string, parts: seq<string>): (r: string)
    ensures parts == [] ==> r == []
    ensures parts != [] ==> |r| == TotalLength(parts) + (|parts| - 1) * |sep|
  {
    if parts == [] then []
    else if |parts| == 1 then parts[0]
    else parts[0] + sep + Join(sep, parts[1..])
  }

  function TotalLength(parts: seq<string>): nat {
    if parts == [] then 0 else |parts[0]| + TotalLength(parts[1..])
  }

  lemma {:induction false} JoinAppend(sep: string, parts: seq<string>, last: string)
    requires parts != []
    ensures Join(sep, parts + [last]) == Join(sep, parts) + sep + last
  {
    if |parts| == 1 {
      assert parts + [last] == [parts[0], last];
    } else {
      assert (parts + [last])[1..] == parts[1..] + [last];
      JoinAppend(sep, parts[1..], last);
    }
  }

  /** Python's `s.split(sep)` for a non-empty separator. */
  function SplitOn(s: string, sep: string): (parts: seq<string>)
    requires sep != []
    ensures |parts| == CountDisjoint(s, sep) + 1
    decreases |s|
  {
    var i := Find(s, sep, 0);
    if i < 0 then [s] else [s[..i]] + SplitOn(s[i + |sep|..], sep)
  }

  /** Joining the parts of a split with the same separator gives the text back. */
  lemma {:induction false} JoinSplitOn(s: string, sep: string)
    requires sep != []
    ensures Join(sep, SplitOn(s, sep)) == s
    decreases |s|
  {
    var i := Find(s, sep, 0);
    if i >= 0 {
      var tail := SplitOnFound(s, sep);
      JoinSplitOn(tail, sep);
      JoinCons(sep, s[..i], SplitOn(tail, sep));
      AroundOccurrence(s, sep, i);
    }
  }

  /** `replace` is split-then-join: the first `k` separators between the
      parts become the replacement and the later ones stay, where `k` is the
      number of replacements. */
  lemma {:induction false} ReplaceSplitJoin(s: string, pattern: string, replacement: string, count: int)
    requires pattern != []
    ensures var parts, k := SplitOn(s, pattern), Replacements(s, pattern, count);
      k < |parts| && Replace(s, pattern, replacement, count) == Join(replacement, parts[..k] + [Join(pattern, parts[k..])])
    decreases |s|
  {
    var parts, k := SplitOn(s, pattern), Replacements(s, pattern, count);
    var i := Find(s, pattern, 0);
    if count == 0 || i < 0 {
      JoinSplitOn(s, pattern);
      assert k == 0 && parts[0..] == parts;
    } else {
      var rest := if count > 0 then count - 1 else count;
      var tail := SplitOnFound(s, pattern);
      ReplaceFound(s, pattern, replacement, count);
      ReplaceSplitJoin(tail, pattern, replacement, rest);
      var tailParts, kt := SplitOn(tail, pattern), Replacements(tail, pattern, rest);
      PartsCons(s[..i], tailParts, kt, pattern);
      JoinCons(replacement, s[..i], tailParts[..kt] + [Join(pattern, tailParts[kt..])]);
    }
  }

  /** One more part in front: the first `k + 1` parts and the rest. */
  lemma PartsCons(first: string, parts: seq<string>, k: nat, pattern: string)
    requires k < |parts|
    ensures var all := [first] + parts;
      all[..k + 1] + [Join(pattern, all[k + 1..])] == [first] + (parts[..k] + [Join(pattern, parts[k..])])
  {
    var all := [first] + parts;
    assert all[..k + 1] == [first] + parts[..k];
    assert all[k + 1..] == parts[k..];
  }

  /** Each character of `s` as a one-character string. */
  function Singles(s: string): seq<string> {
    if s == [] then [] else [[s[0]]] + Singles(s[1..])
  }

  /** An empty pattern matches before every character and at the end: the
      first k of those k + 1 places receive the replacement, so
      `"abc".replace("", "-")` is `"-a-b-c-"`. */
  lemma {:induction false} ReplaceEmptyPattern(s: string, replacement: string, count: int)
    requires count != 0
    ensures var k := Replacements(s, [], count);
      1 <= k <= |s| + 1
      && Replace(s, [], replacement, count) == Join(replacement, [[]] + Singles(s[..k - 1]) + [s[k - 1..]])
    decreases |s|
  {
    var k := Replacements(s, [], count);
    assert k == if count < 0 || |s| + 1 <= count then |s| + 1 else count;
    if s == [] {
      assert [[]] + Singles(s[..0]) + [s[0..]] == [[], []];
    } else if count == 1 {
      ReplaceEmptyUnfold(s, replacement, count);
      assert [[]] + Singles(s[..0]) + [s[0..]] == [[], s];
      assert [s[0]] + s[1..] == s;
    } else {
      var t, rest := s[1..], if count > 0 then count - 1 else count;
      ReplaceEmptyPattern(t, replacement, rest);
      var k' := Replacements(t, [], rest);
      assert k' == if rest < 0 || |t| + 1 <= rest then |t| + 1 else rest;
      var tail := Singles(t[..k' - 1]) + [t[k' - 1..]];
      assert [[]] + Singles(t[..k' - 1]) + [t[k' - 1..]] == [[]] + tail;
      ReplaceEmptyUnfold(s, replacement, count);
      SinglesStep(s, k');
      JoinEmptyHead(replacement, [s[0]], tail);
      calc {
        Replace(s, [], replacement, count);
        replacement + [s[0]] + Replace(t, [], replacement, rest);
        replacement + [s[0]] + Join(replacement, [[]] + tail);
        Join(replacement, [[]] + ([[s[0]]] + tail));
        Join(replacement, [[]] + Singles(s[..k - 1]) + [s[k - 1..]]);
      }
    }
  }

  lemma ReplaceEmptyUnfold(s: string, replacement: string, count: int)
    requires s != [] && count != 0
    ensures Replace(s, [], replacement, count)
      == replacement + [s[0]] + Replace(s[1..], [], replacement, if count > 0 then count - 1 else count)
  {
  }

  lemma SinglesStep(s: string, m: nat)
    requires 1 <= m <= |s|
    ensures [[]] + Singles(s[..m]) + [s[m..]] == [[]] + ([[s[0]]] + (Singles(s[1..][..m - 1]) + [s[1..][m - 1..]]))
  {
    assert s[..m][1..] == s[1..][..m - 1];
    assert s[m..] == s[1..][m - 1..];
  }

  lemma JoinEmptyHead(sep: string, c: string, tail: seq<string>)
    requires tail != []
    ensures Join(sep, [[]] + ([c] + tail)) == sep + c + Join(sep, [[]] + tail)
  {
    JoinCons(sep, [], [c] + tail);
    JoinCons(sep, c, tail);
    JoinCons(sep, [], tail);
  }

  lemma AroundOccurrence(s: string, t: string, i: nat)
    requires OccursAt(s, t, i)
    ensures s == s[..i] + t + s[i + |t|..]
  {
  }

  /** A split at the first separator: the part before it, then the split of
      the text after it. */
  lemma SplitOnFound(s: string, sep: string) returns (tail: string)
    requires sep != [] && Find(s, sep, 0) >= 0
    ensures tail == s[Find(s, sep, 0) + |sep|..] && |tail| < |s|
    ensures SplitOn(s, sep) == [s[..Find(s, sep, 0)]] + SplitOn(tail, sep)
  {
    tail := s[Find(s, sep, 0) + |sep|..];
  }

  lemma JoinCons(sep: string, first: string, rest: seq<string>)
    requires rest != []
    ensures Join(sep, [first] + rest) == first + sep + Join(sep, rest)
  {
    assert ([first] + rest)[1..] == rest;
  }

  /** No part of a split contains the separator. */
  lemma {:induction false} SplitOnPartsFree(s: string, sep: string)
    requires sep != []
    ensures forall p <- SplitOn(s, sep) :: !Contains(p, sep)
    decreases |s|
  {
    var i := Find(s, sep, 0);
    if i < 0 {
      FindIffContains(s, sep);
    } else {
      var tail := SplitOnFound(s, sep);
      SplitOnPartsFree(tail, sep);
      PrefixBeforeFirstFree(s, sep, i);
    }
  }

  lemma PrefixBeforeFirstFree(s: string, t: string, i: nat)
    requires t != [] && i <= |s|
    requires forall j :: 0 <= j < i ==> !OccursAt(s, t, j)
    ensures !Contains(s[..i], t)
  {
    forall j | 0 <= j <= i - |t|
      ensures !OccursAt(s[..i], t, j)
    {
      assert !OccursAt(s, t, j);
    }
  }

  // ---------------------------------------------------------------------
  // Strip
  // ---------------------------------------------------------------------

  /** Length of the maximal leading run of characters drawn from `chars`. */
  function LeadingRun(s: string, chars: string): (k: nat)
    ensures k <= |s|
    ensures forall j :: 0 <= j < k ==> s[j] in chars
    ensures k < |s| ==> s[k] !in chars
  {
    if s == [] || s[0] !in chars then 0 else 1 + LeadingRun(s[1..], chars)
  }

  /** Length of the maximal trailing run of characters drawn from `chars`. */
  function TrailingRun(s: string, chars: string): (k: nat)
    ensures k <= |s|
    ensures forall j :: |s| - k <= j < |s| ==> s[j] in chars
    ensures k < |s| ==> s[|s| - k - 1] !in chars
  {
    if s == [] || s[|s| - 1] !in chars then 0 else 1 + TrailingRun(s[..|s| - 1], chars)
  }

  /** `s.lstrip(chars)`, `s.rstrip(chars)` and `s.strip(chars)`. */
  function LStrip(s: string, chars: string): (r: string)
    ensures r == s[LeadingRun(s, chars)..]
  {
    s[LeadingRun(s, chars)..]
  }

  function RStrip(s: string, chars: string): (r: string)
    ensures r == s[..|s| - TrailingRun(s, chars)]
  {
    s[..|s| - TrailingRun(s, chars)]
  }

  function Strip(s: string, chars: string): (r: string) {
    RStrip(LStrip(s, chars), chars)
  }

  /** `s.strip()` with no argument strips whitespace. */
  function Trim(s: string): string {
    Strip(s, Whitespace)
  }

  /** Neither end of `s` is a character of `chars`. */
  predicate StrippedOf(s: string, chars: string) {
    s == [] || (s[0] !in chars && s[|s| - 1] !in chars)
  }

  /** `s.strip(chars)` removes a maximal run at each end and nothing else. */
  lemma StripSpec(s: string, chars: string)
    ensures StrippedOf(Strip(s, chars), chars)
    ensures exists i, j ::
      && 0 <= i <= j <= |s| && Strip(s, chars) == s[i..j]
      && (forall k :: 0 <= k < i ==> s[k] in chars)
      && (forall k :: j <= k < |s| ==> s[k] in chars)
  {
    var l := LStrip(s, chars);
    var i := LeadingRun(s, chars);
    var j := |l| - TrailingRun(l, chars);
    assert Strip(s, chars) == s[i..i + j];
    forall k | i + j <= k < |s|
      ensures s[k] in chars
    {
      assert s[k] == l[k - i];
    }
  }

  lemma StripStripped(s: string, chars: string)
    requires StrippedOf(s, chars)
    ensures Strip(s, chars) == s
  {
  }

  /** Stripping twice is stripping once. */
  lemma TrimIdempotent(s: string)
    ensures Trim(Trim(s)) == Trim(s)
  {
    StripSpec(s, Whitespace);
    StripStripped(Trim(s), Whitespace);
  }

  // ---------------------------------------------------------------------
  // Words and lines
  // ---------------------------------------------------------------------

  /** Length of the maximal leading run of non-whitespace characters. */
  function WordLength(s: string): (k: nat)
    ensures k <= |s|
    ensures forall j :: 0 <= j < k ==> !IsSpace(s[j])
    ensures k < |s| ==> IsSpace(s[k])
  {
    if s == [] || IsSpace(s[0]) then 0 else 1 + WordLength(s[1..])
  }

  /** A word as Python's `s.split()` returns it. */
  predicate IsWord(w: string) {
    w != [] && forall c <- w :: !IsSpace(c)
  }

  /** Python's `s.split()`: the maximal runs of non-whitespace characters. */
  function Words(s: string): (ws: seq<string>)
    ensures forall w <- ws :: IsWord(w)
    decreases |s|
  {
    var t := LStrip(s, Whitespace);
    if t == [] then []
    else
      var k := WordLength(t);
      [t[..k]] + Words(t[k..])
  }

  lemma WordsLeadingSpace(c: char, s: string)
    requires IsSpace(c)
    ensures Words([c] + s) == Words(s)
  {
    assert ([c] + s)[1..] == s;
    assert LStrip([c] + s, Whitespace) == LStrip(s, Whitespace);
  }

  /** Splitting words joined by single spaces gives the words back. */
  lemma {:induction false} WordsOfJoin(ws: seq<string>)
    requires forall w <- ws :: IsWord(w)
    ensures Words(Join(" ", ws)) == ws
  {
    if ws != [] {
      var w := ws[0];
      assert w in ws;
      if |ws| == 1 {
        WordThen(w, []);
        assert w + [] == w;
      } else {
        var rest := Join(" ", ws[1..]);
        assert forall v <- ws[1..] :: v in ws;
        JoinCons(" ", w, ws[1..]);
        assert ws == [w] + ws[1..];
        assert w + " " + rest == w + (" " + rest);
        WordThen(w, " " + rest);
        WordsLeadingSpace(' ', rest);
        WordsOfJoin(ws[1..]);
      }
    }
  }

  /** A word followed by nothing or by whitespace is the first word. */
  lemma WordThen(w: string, rest: string)
    requires IsWord(w)
    requires rest == [] || IsSpace(rest[0])
    ensures Words(w + rest) == [w] + Words(rest)
  {
    var j := w + rest;
    assert j[0] == w[0] && w[0] in w;
    assert LStrip(j, Whitespace) == j;
    WordLengthOfWord(w, rest);
    assert j[..|w|] == w && j[|w|..] == rest;
  }

  lemma {:induction false} WordLengthOfWord(w: string, rest: string)
    requires IsWord(w)
    requires rest == [] || IsSpace(rest[0])
    ensures WordLength(w + rest) == |w|
  {
    if |w| > 1 {
      assert (w + rest)[1..] == w[1..] + rest;
      WordLengthOfWord(w[1..], rest);
    } else {
      assert (w + rest)[1..] == rest;
    }
  }

  /** Python's `s.splitlines()` with '\n' as the only line break. */
  function SplitLines(s: string): (lines: seq<string>)
    ensures forall l <- lines :: '\n' !in l
    ensures |lines| <= |s|
    decreases |s|
  {
    if s == [] then []
    else
      var i := Find(s, "\n", 0);
      if i < 0 then
        assert forall k :: 0 <= k < |s| ==> s[k] != '\n' by {
          forall k | 0 <= k < |s| ensures s[k] != '\n' {
            assert !OccursAt(s, "\n", k);
            assert s[k..k + 1] == [s[k]];
          }
        }
        [s]
      else
        assert forall k :: 0 <= k < i ==> s[k] != '\n' by {
          forall k | 0 <= k < i ensures s[k] != '\n' {
            assert !OccursAt(s, "\n", k);
            assert s[k..k + 1] == [s[k]];
          }
        }
        [s[..i]] + SplitLines(s[i + 1..])
  }

  /** Joining lines that hold no '\n' with "\n" and splitting them again gives
      the same lines, provided the last one is not empty. */
  lemma {:induction false} SplitLinesOfJoin(lines: seq<string>)
    requires forall l <- lines :: '\n' !in l
    requires lines == [] || lines[|lines| - 1] != []
    ensures SplitLines(Join("\n", lines)) == lines
  {
    if lines != [] {
      var l := lines[0];
      var j := Join("\n", lines);
      NoNewlineFind(l);
      if |lines| == 1 {
      } else {
        var tail := Join("\n", lines[1..]);
        assert j == l + "\n" + tail;
        FindAfterNoNewline(l, tail);
        assert j[..|l|] == l && j[|l| + 1..] == tail;
        SplitLinesOfJoin(lines[1..]);
      }
    }
  }

  lemma NoNewlineFind(l: string)
    requires '\n' !in l
    ensures Find(l, "\n", 0) == -1
  {
    forall i | 0 <= i < |l|
      ensures !OccursAt(l, "\n", i)
    {
      assert l[i..i + 1] == [l[i]];
    }
  }

  lemma FindAfterNoNewline(l: string, tail: string)
    requires '\n' !in l
    ensures Find(l + "\n" + tail, "\n", 0) == |l|
  {
    var s := l + "\n" + tail;
    assert OccursAt(s, "\n", |l|) by {
      assert s[|l|..|l| + 1] == "\n";
    }
    forall i | 0 <= i < |l|
      ensures !OccursAt(s, "\n", i)
    {
      assert s[i..i + 1] == [l[i]];
    }
  }

  /** `[l.strip() for l in text.strip().split('\n') if l.strip()]`. */
  function CleanLines(text: string): (r: seq<string>)
    ensures forall l <- r :: l != [] && StrippedOf(l, Whitespace) && '\n' !in l
  {
    var parts := SplitOn(Trim(text), "\n");
    SplitOnPartsFree(Trim(text), "\n");
    forall p <- parts
      ensures '\n' !in p
    {
      NotContainsChar(p, '\n');
    }
    StrippedNonBlank(parts)
  }

  lemma NotContainsChar(s: string, c: char)
    requires !Contains(s, [c])
    ensures c !in s
  {
    forall k | 0 <= k < |s|
      ensures s[k] != c
    {
      assert s[k..k + 1] == [s[k]];
      assert !OccursAt(s, [c], k);
    }
  }

  function StrippedNonBlank(lines: seq<string>): (r: seq<string>)
    ensures |r| <= |lines|
    ensures forall l <- r :: l != [] && StrippedOf(l, Whitespace)
    ensures (forall l <- lines :: '\n' !in l) ==> forall l <- r :: '\n' !in l
  {
    if lines == [] then []
    else
      var t := Trim(lines[0]);
      TrimInside(lines[0]);
      assert lines[0] in lines;
      assert forall l <- lines[1..] :: l in lines;
      (if t == [] then [] else [t]) + StrippedNonBlank(lines[1..])
  }

  /** A trimmed line is stripped and holds only characters of the line. */
  lemma TrimInside(l: string)
    ensures StrippedOf(Trim(l), Whitespace)
    ensures forall c <- Trim(l) :: c in l
  {
    StripSpec(l, Whitespace);
    var i, j :| 0 <= i <= j <= |l| && Trim(l) == l[i..j];
    forall c <- Trim(l)
      ensures c in l
    {
      var k :| 0 <= k < j - i && l[i..j][k] == c;
      assert l[i + k] == c;
    }
  }

  /** Lines already stripped and non-blank pass through unchanged. */
  lemma {:induction false} StrippedNonBlankFixed(lines: seq<string>)
    requires forall l <- lines :: l != [] && StrippedOf(l, Whitespace)
    ensures StrippedNonBlank(lines) == lines
  {
    if lines != [] {
      assert lines[0] in lines;
      StripStripped(lines[0], Whitespace);
      assert forall l <- lines[1..] :: l in lines;
      StrippedNonBlankFixed(lines[1..]);
    }
  }

  /** Joining non-empty pieces whose ends avoid `chars` leaves nothing to strip. */
  lemma {:induction false} JoinStripped(sep: string, parts: seq<string>, chars: string)
    requires forall p <- parts :: p != [] && StrippedOf(p, chars)
    ensures StrippedOf(Join(sep, parts), chars)
  {
    if |parts| > 1 {
      assert parts[0] in parts && parts[1] in parts;
      assert forall p <- parts[1..] :: p in parts;
      JoinStripped(sep, parts[1..], chars);
      var rest := Join(sep, parts[1..]);
      var j := Join(sep, parts);
      assert j == parts[0] + sep + rest;
      assert rest != [];
      assert j[|j| - 1] == rest[|rest| - 1];
    } else if parts != [] {
      assert parts[0] in parts;
    }
  }

  /** Splitting on '\n' undoes joining lines that hold no '\n'. */
  lemma {:induction false} SplitOnJoinNewline(lines: seq<string>)
    requires lines != []
    requires forall l <- lines :: '\n' !in l
    ensures SplitOn(Join("\n", lines), "\n") == lines
  {
    var l := lines[0];
    assert l in lines;
    if |lines| == 1 {
      NoNewlineFind(l);
    } else {
      var tail := Join("\n", lines[1..]);
      assert Join("\n", lines) == l + "\n" + tail;
      FindAfterNoNewline(l, tail);
      assert (l + "\n" + tail)[|l| + 1..] == tail;
      assert (l + "\n" + tail)[..|l|] == l;
      assert forall m <- lines[1..] :: m in lines;
      SplitOnJoinNewline(lines[1..]);
    }
  }

  // ---------------------------------------------------------------------
  // Numbers and slices
  // ---------------------------------------------------------------------

  function DigitChar(d: nat): (c: char)
    requires d < 10
    ensures '0' <= c <= '9'
  {
    ('0' as int + d) as char
  }

  /** `str(n)` for a natural number. */
  function NatToString(n: nat): (r: string)
    ensures r != []
    ensures forall i :: 0 <= i < |r| ==> '0' <= r[i] <= '9'
  {
    if n < 10 then [DigitChar(n)] else NatToString(n / 10) + [DigitChar(n % 10)]
  }

  /** `str(i)` for any integer. */
  function IntToString(i: int): string {
    if i < 0 then "-" + NatToString(-i) else NatToString(i)
  }

  function ParseDigits(s: string): nat
    requires forall i :: 0 <= i < |s| ==> '0' <= s[i] <= '9'
  {
    if s == [] then 0
    else ParseDigits(s[..|s| - 1]) * 10 + (s[|s| - 1] as int - '0' as int)
  }

  /** Decimal rendering loses nothing: distinct numbers render differently. */
  lemma {:induction false} ParseNatToString(n: nat)
    ensures ParseDigits(NatToString(n)) == n
  {
    if n >= 10 {
      ParseNatToString(n / 10);
      var r := NatToString(n);
      assert r[..|r| - 1] == NatToString(n / 10);
    }
  }

  /** Python's `s[start:end]` with step 1: negative bounds count from the end
      and every bound is clamped into the sequence. */
  function PySlice<T>(s: seq<T>, start: int, end: int): (r: seq<T>)
    ensures |r| <= |s|
    ensures 0 <= start <= end <= |s| ==> r == s[start..end]
  {
    var a := SliceBound(|s|, start);
    var b := SliceBound(|s|, end);
    if a < b then s[a..b] else []
  }

  function SliceBound(len: nat, i: int): (r: nat)
    ensures r <= len
  {
    if i < 0 then (if i + len < 0 then 0 else i + len) else if i > len then len else i
  }

  // ---------------------------------------------------------------------
  // Subsequences
  // ---------------------------------------------------------------------

  /** `a` is `b` with some elements left out. */
  predicate IsSubsequence<T(==)>(a: seq<T>, b: seq<T>)
    decreases |b|
  {
    if a == [] then true
    else if b == [] then false
    else (a[0] == b[0] && IsSubsequence(a[1..], b[1..])) || IsSubsequence(a, b[1..])
  }

  lemma {:induction false} SubsequenceMembers<T>(a: seq<T>, b: seq<T>)
    requires IsSubsequence(a, b)
    ensures forall x <- a :: x in b
    decreases |b|
  {
    if a != [] && b != [] {
      if a[0] == b[0] && IsSubsequence(a[1..], b[1..]) {
        SubsequenceMembers(a[1..], b[1..]);
        assert a == [a[0]] + a[1..];
      } else {
        SubsequenceMembers(a, b[1..]);
      }
    }
  }

  /** A relation that holds between every earlier and later element of `b`
      holds likewise in any subsequence of `b`. */
  lemma {:induction false} SubsequencePairs<T>(a: seq<T>, b: seq<T>, p: (T, T) -> bool)
    requires IsSubsequence(a, b)
    requires forall i, j :: 0 <= i < j < |b| ==> p(b[i], b[j])
    ensures forall i, j :: 0 <= i < j < |a| ==> p(a[i], a[j])
    decreases |b|
  {
    if a != [] && b != [] {
      if a[0] == b[0] && IsSubsequence(a[1..], b[1..]) {
        SubsequencePairs(a[1..], b[1..], p);
        SubsequenceMembers(a[1..], b[1..]);
        forall i, j | 0 <= i < j < |a|
          ensures p(a[i], a[j])
        {
          assert a[j] == a[1..][j - 1];
          if i == 0 {
            assert a[j] in b[1..];
            var k :| 0 <= k < |b[1..]| && b[1..][k] == a[j];
            assert b[k + 1] == a[j];
          } else {
            assert a[i] == a[1..][i - 1];
          }
        }
      } else {
        SubsequencePairs(a, b[1..], p);
      }
    }
  }
}
