/**
 * The advanced string nodes that work without regular expressions or
 * format mini-languages: join, pad, remove characters, extract and count.
 */
module AdvancedStringNodes {
  import opened Strings

  // ---------------------------------------------------------------------
  // StringJoin
  // ---------------------------------------------------------------------

  /** The cleaned lines of `text` joined by `sep`, between `prefix` and
      `suffix` (an empty prefix or suffix adds nothing). */
  function StringJoin(text: string, sep: string, prefix: string, suffix: string): (r: string)
    ensures r == prefix + Join(sep, CleanLines(text)) + suffix
  {
    var result := Join(sep, CleanLines(text));
    var result := if prefix != [] then prefix + result else result;
    if suffix != [] then result + suffix else result
  }

  /** Joining with "\n" normalises: doing it a second time changes nothing. */
  lemma StringJoinIdempotent(text: string)
    ensures var once := StringJoin(text, "\n", "", "");
      StringJoin(once, "\n", "", "") == once
  {
    var lines := CleanLines(text);
    var j := Join("\n", lines);
    assert StringJoin(text, "\n", "", "") == j;
    JoinStripped("\n", lines, Whitespace);
    StripStripped(j, Whitespace);
    if lines == [] {
      assert SplitOn(j, "\n") == [[]];
    } else {
      SplitOnJoinNewline(lines);
      StrippedNonBlankFixed(lines);
    }
  }

  // ---------------------------------------------------------------------
  // StringPad
  // ---------------------------------------------------------------------

  datatype PadMode = PadLeft | PadRight | PadCenter

  function Max(a: int, b: int): int {
    if a < b then b else a
  }

  /** The pad character: the first character of `fillChar`, space if empty. */
  function FillChar(fillChar: string): char {
    if fillChar == [] then ' ' else fillChar[0]
  }

  /** `c * n`. */
  function Fill(c: char, n: int): (r: string)
    ensures |r| == Max(n, 0)
    ensures forall i :: 0 <= i < |r| ==> r[i] == c
  {
    seq(Max(n, 0), _ => c)
  }

  /** `text.ljust(width, c)`. */
  function LJust(text: string, width: int, c: char): (r: string)
    ensures |r| == Max(width, |text|)
    ensures StartsWith(r, text)
    ensures forall i :: |text| <= i < |r| ==> r[i] == c
  {
    text + Fill(c, width - |text|)
  }

  /** `text.rjust(width, c)`. */
  function RJust(text: string, width: int, c: char): (r: string)
    ensures |r| == Max(width, |text|)
    ensures EndsWith(r, text)
    ensures forall i :: 0 <= i < |r| - |text| ==> r[i] == c
  {
    Fill(c, width - |text|) + text
  }

  /** Padding CPython's `str.center` puts on the left for a margin `marg`:
      half of it, plus one when both the margin and the width are odd. */
  function CenterLeft(marg: int, width: int): int {
    marg / 2 + (if marg % 2 == 1 && width % 2 == 1 then 1 else 0)
  }

  /** `text.center(width, c)`. */
  function Center(text: string, width: int, c: char): (r: string)
    ensures |r| == Max(width, |text|)
    ensures var left := if width <= |text| then 0 else CenterLeft(width - |text|, width);
      var right := |r| - |text| - left;
      && 0 <= left && 0 <= right
      && (left == right || left == right + 1 || right == left + 1)
      && r[left..left + |text|] == text
      && (forall i :: 0 <= i < left ==> r[i] == c)
      && (forall i :: left + |text| <= i < |r| ==> r[i] == c)
  {
    var marg := width - |text|;
    if marg <= 0 then text
    else
      var left := CenterLeft(marg, width);
      Fill(c, left) + text + Fill(c, marg - left)
  }

  function StringPad(text: string, width: int, mode: PadMode, fillChar: string): (r: string)
    ensures |r| == Max(width, |text|)
    ensures forall i :: 0 <= i < |r| ==> r[i] == FillChar(fillChar) || r[i] in text
    ensures mode == PadLeft ==> StartsWith(r, text)
    ensures mode == PadLeft ==> forall i :: |text| <= i < |r| ==> r[i] == FillChar(fillChar)
    ensures mode == PadRight ==> EndsWith(r, text)
    ensures mode == PadRight ==> forall i :: 0 <= i < |r| - |text| ==> r[i] == FillChar(fillChar)
    ensures mode == PadCenter ==>
      var left := if width <= |text| then 0 else CenterLeft(width - |text|, width);
      var right := |r| - |text| - left;
      && 0 <= left && 0 <= right
      && (left == right || left == right + 1 || right == left + 1)
      && r[left..left + |text|] == text
      && (forall i :: 0 <= i < left ==> r[i] == FillChar(fillChar))
      && (forall i :: left + |text| <= i < |r| ==> r[i] == FillChar(fillChar))
  {
    var c := FillChar(fillChar);
    match mode
    case PadLeft => LJust(text, width, c)
    case PadRight => RJust(text, width, c)
    case PadCenter =>
      var r := Center(text, width, c);
      var left := if width <= |text| then 0 else CenterLeft(width - |text|, width);
      assert forall i :: left <= i < left + |text| ==> r[i] == text[i - left];
      r
  }

  // ---------------------------------------------------------------------
  // StringRemoveChars
  // ---------------------------------------------------------------------

  datatype RemoveMode = RemoveAll | RemoveLeading | RemoveTrailing | RemoveBothEnds

  /** The characters of `text` that are not in `chars`, in order. */
  function KeepNotIn(text: string, chars: string): (r: string)
    ensures forall c <- r :: c !in chars && c in text
    ensures IsSubsequence(r, text)
    ensures (forall c <- text :: c !in chars) ==> r == text
  {
    if text == [] then []
    else
      var rest := KeepNotIn(text[1..], chars);
      assert forall c <- text[1..] :: c in text;
      if text[0] in chars then rest else [text[0]] + rest
  }

  /** Removing one more character from a filtered text filters by the
      larger set. */
  lemma {:induction false} KeepNotInStep(text: string, chars: string, c: char)
    ensures Without(KeepNotIn(text, chars), c) == KeepNotIn(text, chars + [c])
  {
    if text != [] {
      KeepNotInStep(text[1..], chars, c);
      var rest := KeepNotIn(text[1..], chars);
      if text[0] !in chars {
        assert ([text[0]] + rest)[1..] == rest;
      }
    }
  }

  /** Mode `all`: each character of `chars` in turn is replaced by
      nothing. */
  method RemoveEach(text: string, chars: string) returns (result: string)
    ensures result == KeepNotIn(text, chars)
  {
    result := text;
    for i := 0 to |chars|
      invariant result == KeepNotIn(text, chars[..i])
    {
      RemoveStep(text, chars, i);
      result := Replace(result, [chars[i]], [], -1);
    }
    assert chars[..|chars|] == chars;
  }

  lemma RemoveStep(text: string, chars: string, i: nat)
    requires i < |chars|
    ensures Replace(KeepNotIn(text, chars[..i]), [chars[i]], [], -1) == KeepNotIn(text, chars[..i + 1])
  {
    assert chars[..i + 1] == chars[..i] + [chars[i]];
    RemoveOne(text, chars[..i], chars[i]);
  }

  lemma RemoveOne(text: string, removed: string, c: char)
    ensures Replace(KeepNotIn(text, removed), [c], [], -1) == KeepNotIn(text, removed + [c])
  {
    ReplaceCharByEmpty(KeepNotIn(text, removed), c);
    KeepNotInStep(text, removed, c);
  }

  method StringRemoveChars(text: string, chars: string, mode: RemoveMode) returns (result: string)
    ensures mode == RemoveAll ==> result == KeepNotIn(text, chars)
    ensures mode == RemoveLeading ==> result == LStrip(text, chars)
    ensures mode == RemoveTrailing ==> result == RStrip(text, chars)
    ensures mode == RemoveBothEnds ==> result == Strip(text, chars)
  {
    match mode {
      case RemoveAll =>
        result := RemoveEach(text, chars);
      case RemoveLeading =>
        result := LStrip(text, chars);
      case RemoveTrailing =>
        result := RStrip(text, chars);
      case RemoveBothEnds =>
        result := Strip(text, chars);
    }
  }

  // ---------------------------------------------------------------------
  // StringExtract
  // ---------------------------------------------------------------------

  datatype ExtractMode = Between | Before | After | LinesRange

  /** Mode `before`: the text up to the first occurrence of the marker, or
      all of it when the marker is absent. */
  function ExtractBefore(text: string, marker: string): (r: string)
    ensures StartsWith(text, r)
    ensures Contains(text, marker) ==>
      OccursAt(text, marker, |r|) && forall k :: 0 <= k < |r| ==> !OccursAt(text, marker, k)
    ensures !Contains(text, marker) ==> r == text
  {
    FindIffContains(text, marker);
    if Contains(text, marker) then text[..Find(text, marker, 0)] else text
  }

  /** Mode `after`: the text following the first occurrence of the marker,
      or "" when the marker is absent. */
  function ExtractAfter(text: string, marker: string): (r: string)
    ensures EndsWith(text, r)
    ensures Contains(text, marker) ==>
      var p := |text| - |r| - |marker|;
      OccursAt(text, marker, p) && forall k :: 0 <= k < p ==> !OccursAt(text, marker, k)
    ensures !Contains(text, marker) ==> r == []
  {
    FindIffContains(text, marker);
    if Contains(text, marker) then text[Find(text, marker, 0) + |marker|..] else []
  }

  /** Before, marker and after put back together give the text. */
  lemma BeforeMarkerAfter(text: string, marker: string)
    requires Contains(text, marker)
    ensures ExtractBefore(text, marker) + marker + ExtractAfter(text, marker) == text
  {
    FindIffContains(text, marker);
    var i := Find(text, marker, 0);
    assert text == text[..i] + text[i..i + |marker|] + text[i + |marker|..];
  }

  /** Where the text between the markers starts: just after the first start
      marker. */
  function BetweenStart(text: string, start: string): nat {
    var i := Find(text, start, 0);
    if i < 0 then 0 else i + |start|
  }

  /** Mode `between` as written: when the end marker occurs only before the
      first start marker ends, `find` gives -1, which then slices as "up to
      the last character". */
  function ExtractBetweenAsWritten(text: string, start: string, end: string): (r: string)
    ensures !Contains(text, start) || !Contains(text, end) ==> r == []
  {
    if Contains(text, start) && Contains(text, end) then
      var si := Find(text, start, 0) + |start|;
      var ei := Find(text, end, si);
      PySlice(text, si, ei)
    else []
  }

  /** Mode `between`: the text after the first start marker up to the first
      end marker after it, or "" when there is no such pair. */
  function ExtractBetween(text: string, start: string, end: string): (r: string)
    ensures !Contains(text, start) || Find(text, end, BetweenStart(text, start)) < 0 ==> r == []
    ensures Contains(text, start) && Find(text, end, BetweenStart(text, start)) >= 0 ==>
      var p := BetweenStart(text, start);
      && OccursAt(text, r, p)
      && OccursAt(text, end, p + |r|)
      && forall k :: p <= k < p + |r| ==> !OccursAt(text, end, k)
  {
    FindIffContains(text, start);
    if Contains(text, start) && Contains(text, end) then
      var si := Find(text, start, 0) + |start|;
      var ei := Find(text, end, si);
      if ei < 0 then [] else text[si..ei]
    else []
  }

  /** Whenever an end marker follows the start marker, the code as written
      and the corrected one agree. */
  lemma BetweenAgrees(text: string, start: string, end: string)
    requires Contains(text, start) && Find(text, end, BetweenStart(text, start)) >= 0
    ensures ExtractBetweenAsWritten(text, start, end) == ExtractBetween(text, start, end)
  {
    FindIffContains(text, start);
    var si := BetweenStart(text, start);
    var ei := Find(text, end, si);
    assert OccursAt(text, end, ei);
    assert Contains(text, end);
  }

  /** With the end marker only in front of the start marker, the code as
      written returns a piece of the text instead of "". */
  lemma BetweenAsWrittenCounterexample()
    ensures ExtractBetweenAsWritten("]abc[def", "[", "]") == "de"
    ensures ExtractBetween("]abc[def", "[", "]") == ""
  {
    assert "]abc[def" == [']'] + "abc" + ['['] + "def";
    EndOnlyBeforeStart("abc", "def", '[', ']');
    assert "def"[..2] == "de";
  }

  /** The general shape: an end marker, text without the start marker, the
      start marker, then text without the end marker. */
  lemma EndOnlyBeforeStart(x: string, y: string, open: char, close: char)
    requires open != close && open !in x && close !in y && y != []
    ensures ExtractBetweenAsWritten([close] + x + [open] + y, [open], [close]) == y[..|y| - 1]
    ensures ExtractBetween([close] + x + [open] + y, [open], [close]) == []
  {
    var text := [close] + x + [open] + y;
    var p := |x| + 1;
    assert text[p..p + 1] == [open];
    assert OccursAt(text, [open], p) && OccursAt(text, [close], 0);
    forall k | 0 <= k < p
      ensures !OccursAt(text, [open], k)
    {
      if k > 0 {
        assert text[k] == x[k - 1];
      }
    }
    assert Find(text, [open], 0) == p;
    forall k | p + 1 <= k
      ensures !OccursAt(text, [close], k)
    {
      if k < |text| {
        assert text[k] == y[k - p - 1];
      }
    }
    assert Find(text, [close], p + 1) == -1;
    assert text[p + 1..|text| - 1] == y[..|y| - 1];
  }

  /** Mode `lines_range`: lines `line_start - 1` up to `line_end` (Python
      slice bounds) joined by "\n". */
  function ExtractLines(text: string, lineStart: int, lineEnd: int): (r: string)
    ensures var lines := SplitLines(text);
      1 <= lineStart <= lineEnd <= |lines| ==> r == Join("\n", lines[lineStart - 1..lineEnd])
    ensures var lines := SplitLines(text);
      1 <= lineStart <= lineEnd ==>
        r == Join("\n", lines[Min(lineStart - 1, |lines|)..Min(lineEnd, |lines|)])
    ensures 1 <= lineEnd < lineStart ==> r == []
  {
    Join("\n", PySlice(SplitLines(text), lineStart - 1, lineEnd))
  }

  function Min(a: int, b: int): int {
    if a <= b then a else b
  }

  /** `StringExtract.extract`: each mode is the extraction defined above, with
      `between` in its corrected form, which agrees with the code as written
      whenever an end marker follows the start marker. */
  function StringExtract(text: string, mode: ExtractMode, start: string, end: string,
                         lineStart: int, lineEnd: int): (r: string)
    ensures mode == Before ==> r == ExtractBefore(text, start)
    ensures mode == After ==> r == ExtractAfter(text, start)
    ensures mode == LinesRange ==> r == ExtractLines(text, lineStart, lineEnd)
    ensures mode == Between ==> r == ExtractBetween(text, start, end)
    ensures mode == Between && Contains(text, start) && Find(text, end, BetweenStart(text, start)) >= 0 ==>
      r == ExtractBetweenAsWritten(text, start, end)
  {
    match mode
    case Between =>
      if Contains(text, start) && Find(text, end, BetweenStart(text, start)) >= 0 then
        BetweenAgrees(text, start, end);
        ExtractBetween(text, start, end)
      else ExtractBetween(text, start, end)
    case Before => ExtractBefore(text, start)
    case After => ExtractAfter(text, start)
    case LinesRange => ExtractLines(text, lineStart, lineEnd)
  }

  // ---------------------------------------------------------------------
  // StringCount
  // ---------------------------------------------------------------------

  /** Occurrences of `t` in `s` starting at or after `i`, overlaps included. */
  function OccurrencesFrom(s: string, t: string, i: nat): nat
    decreases |s| + 1 - i
  {
    if i > |s| then 0 else (if OccursAt(s, t, i) then 1 else 0) + OccurrencesFrom(s, t, i + 1)
  }

  /** Every position where `t` occurs. */
  function Occurrences(s: string, t: string): nat {
    OccurrencesFrom(s, t, 0)
  }

  /** Positions without an occurrence do not count. */
  lemma {:induction false} OccurrencesSkip(s: string, t: string, i: nat, j: nat)
    requires i <= j
    requires forall k :: i <= k < j ==> !OccursAt(s, t, k)
    ensures OccurrencesFrom(s, t, i) == OccurrencesFrom(s, t, j)
    decreases j - i
  {
    if i < j && i <= |s| {
      OccurrencesSkip(s, t, i + 1, j);
    }
  }

  /** Counting from the next match: one more than counting after it. */
  lemma OccurrencesAtFind(s: string, t: string, start: nat)
    ensures var pos := Find(s, t, start);
      && (pos < 0 ==> OccurrencesFrom(s, t, start) == 0)
      && (pos >= 0 ==> OccurrencesFrom(s, t, start) == 1 + OccurrencesFrom(s, t, pos + 1))
  {
    var pos := Find(s, t, start);
    if pos < 0 {
      if start <= |s| {
        OccurrencesSkip(s, t, start, |s| + 1);
      }
    } else {
      OccurrencesSkip(s, t, start, pos);
    }
  }

  datatype CountOutput = CountOutput(count: nat, info: string)

  /** The `overlap` loop: searches again one position past each hit. */
  method CountOverlapping(t: string, q: string) returns (count: nat)
    ensures count == Occurrences(t, q)
  {
    count := 0;
    var start: nat := 0;
    while true
      invariant start <= |t| + 1
      invariant count + OccurrencesFrom(t, q, start) == Occurrences(t, q)
      decreases |t| + 1 - start
    {
      var pos := Find(t, q, start);
      OccurrencesAtFind(t, q, start);
      if pos == -1 {
        break;
      }
      count := count + 1;
      start := pos + 1;
    }
  }

  /** Occurrences of `search` (lower-cased unless case-sensitive), counting
      overlaps or only the left-to-right disjoint ones. */
  method StringCount(text: string, search: string, caseSensitive: bool, overlap: bool)
    returns (r: CountOutput)
    ensures search == [] ==> r == CountOutput(0, "Search string is empty")
    ensures search != [] ==>
      var t := if caseSensitive then text else Lower(text);
      var q := if caseSensitive then search else Lower(search);
      && r.count == (if overlap then Occurrences(t, q) else CountDisjoint(t, q))
      && r.info == "Found '" + q + "' " + NatToString(r.count) + " times"
  {
    if search == [] {
      return CountOutput(0, "Search string is empty");
    }
    var t := if caseSensitive then text else Lower(text);
    var q := if caseSensitive then search else Lower(search);
    var count: nat;
    if overlap {
      count := CountOverlapping(t, q);
    } else {
      count := CountDisjoint(t, q);
    }
    r := CountOutput(count, "Found '" + q + "' " + NatToString(count) + " times");
  }

  /** Disjoint occurrences never outnumber all occurrences. */
  lemma {:induction false} DisjointAtMostOverlapping(s: string, t: string)
    requires t != []
    ensures CountDisjoint(s, t) <= Occurrences(s, t)
    decreases |s|
  {
    if Find(s, t, 0) >= 0 {
      var tail := DisjointRest(s, t);
      DisjointAtMostOverlapping(tail, t);
      OccurrencesPastFirst(s, t);
    }
  }

  /** The text after the first occurrence, where disjoint counting
      resumes. */
  lemma DisjointRest(s: string, t: string) returns (tail: string)
    requires t != [] && Find(s, t, 0) >= 0
    ensures |tail| < |s| && tail == s[Find(s, t, 0) + |t|..]
    ensures CountDisjoint(s, t) == 1 + CountDisjoint(tail, t)
  {
    tail := s[Find(s, t, 0) + |t|..];
  }

  /** The occurrences after the first one, counted from its end, are
      fewer than all occurrences. */
  lemma OccurrencesPastFirst(s: string, t: string)
    requires t != [] && Find(s, t, 0) >= 0
    ensures Occurrences(s[Find(s, t, 0) + |t|..], t) < Occurrences(s, t)
  {
    var i := Find(s, t, 0);
    OccurrencesAtFind(s, t, 0);
    OccurrencesMonotone(s, t, i + 1, i + |t|);
    OccurrencesShift(s, t, i + |t|, 0);
  }

  lemma {:induction false} OccurrencesMonotone(s: string, t: string, i: nat, j: nat)
    requires i <= j
    ensures OccurrencesFrom(s, t, i) >= OccurrencesFrom(s, t, j)
    decreases j - i
  {
    if i < j && i <= |s| {
      OccurrencesMonotone(s, t, i + 1, j);
    }
  }

  /** Counting in a suffix is counting in the whole from the same place. */
  lemma {:induction false} OccurrencesShift(s: string, t: string, d: nat, k: nat)
    requires d <= |s|
    ensures OccurrencesFrom(s[d..], t, k) == OccurrencesFrom(s, t, d + k)
    decreases |s| + 1 - (d + k)
  {
    if d + k <= |s| {
      OccurrencesShift(s, t, d, k + 1);
      if k + |t| <= |s| - d {
        assert s[d..][k..k + |t|] == s[d + k..d + k + |t|];
      }
    }
  }
}
