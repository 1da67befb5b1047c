/**
 * The basic string nodes: concatenate, split, replace, trim, length,
 * repeat, slice, reverse and contains. Each node is one function from its
 * inputs to its outputs.
 */
module StringNodes {
  import opened Strings
  import opened Wrappers

  // ---------------------------------------------------------------------
  // StringConcatenate
  // ---------------------------------------------------------------------

  /** The first two texts are always joined; the third and fourth only when
      they are non-empty. */
  function Concatenate(text1: string, text2: string, text3: string, text4: string, sep: string): (r: string)
    ensures text3 == [] && text4 == [] ==> r == text1 + sep + text2
    ensures text3 != [] && text4 == [] ==> r == text1 + sep + text2 + sep + text3
    ensures text3 == [] && text4 != [] ==> r == text1 + sep + text2 + sep + text4
    ensures text3 != [] && text4 != [] ==> r == text1 + sep + text2 + sep + text3 + sep + text4
  {
    var texts := [text1, text2]
      + (if text3 != [] then [text3] else [])
      + (if text4 != [] then [text4] else []);
    JoinCons(sep, text1, texts[1..]);
    JoinCons(sep, text2, texts[2..]);
    if |texts| == 4 then JoinCons(sep, text3, [text4]); Join(sep, texts)
    else Join(sep, texts)
  }

  lemma JoinCons(sep: string, first: string, rest: seq<string>)
    ensures rest != [] ==> Join(sep, [first] + rest) == first + sep + Join(sep, rest)
    ensures rest == [] ==> Join(sep, [first] + rest) == first
  {
    assert ([first] + rest)[1..] == rest;
  }

  // ---------------------------------------------------------------------
  // StringSplit
  // ---------------------------------------------------------------------

  datatype SplitOutput = SplitOutput(result: string, allParts: string, count: nat)

  /** `text.split(sep)`, then the part at `index` (all parts when it is -1,
      "" past the end). An empty separator raises `ValueError`. */
  function StringSplit(text: string, sep: string, index: int): (r: Result<SplitOutput>)
    requires index >= -1
    ensures r.Err? <==> sep == []
    ensures r.Ok? ==>
      && r.value.count == CountDisjoint(text, sep) + 1
      && r.value.allParts == Join("\n", SplitOn(text, sep))
      && (index == -1 ==> r.value.result == r.value.allParts)
      && (index >= r.value.count ==> r.value.result == [])
      && (0 <= index < r.value.count ==> r.value.result == SplitOn(text, sep)[index])
  {
    if sep == [] then Err("empty separator")
    else
      var parts := SplitOn(text, sep);
      var count := |parts|;
      var result := if index == -1 then Join("\n", parts) else if index < count then parts[index] else [];
      Ok(SplitOutput(result, Join("\n", parts), count))
  }

  /** The parts rejoin to the text, and the selected part is a piece of the
      text that holds no separator. */
  lemma {:induction false} SplitPartOfText(text: string, sep: string, index: nat)
    requires sep != [] && index <= CountDisjoint(text, sep)
    ensures Join(sep, SplitOn(text, sep)) == text
    ensures !Contains(StringSplit(text, sep, index).value.result, sep)
  {
    JoinSplitOn(text, sep);
    SplitOnPartsFree(text, sep);
    assert SplitOn(text, sep)[index] in SplitOn(text, sep);
  }

  // ---------------------------------------------------------------------
  // StringReplace
  // ---------------------------------------------------------------------

  /** `text.replace(pattern, replacement)` when `count` is -1, otherwise
      `text.replace(pattern, replacement, count)`. */
  function StringReplace(text: string, pattern: string, replacement: string, count: int): (r: string)
    ensures var k := Replacements(text, pattern, count);
      |r| + k * |pattern| == |text| + k * |replacement|
    ensures count == -1 ==> Replacements(text, pattern, count) == CountDisjoint(text, pattern)
    ensures count >= 0 ==> Replacements(text, pattern, count) <= count
    ensures count == 0 ==> r == text
    ensures pattern != [] ==> var parts, k := SplitOn(text, pattern), Replacements(text, pattern, count);
      k < |parts| && r == Join(replacement, parts[..k] + [Join(pattern, parts[k..])])
    ensures pattern != [] && count < 0 ==> r == Join(replacement, SplitOn(text, pattern))
    ensures pattern == [] && count != 0 ==> var k := Replacements(text, pattern, count);
      1 <= k <= |text| + 1 && r == Join(replacement, [[]] + Singles(text[..k - 1]) + [text[k - 1..]])
  {
    ReplaceLength(text, pattern, replacement, count);
    ReplaceContent(text, pattern, replacement, count);
    if pattern == [] && count != 0 then
      ReplaceEmptyPattern(text, replacement, count);
      Replace(text, pattern, replacement, count)
    else if count == -1 then Replace(text, pattern, replacement, -1)
    else Replace(text, pattern, replacement, count)
  }

  /** The replaced text is the split text joined back: by the replacement
      at the first `k` separators and by the pattern after them; a negative
      count joins every part with the replacement. */
  lemma ReplaceContent(text: string, pattern: string, replacement: string, count: int)
    ensures pattern != [] ==> var parts, k := SplitOn(text, pattern), Replacements(text, pattern, count);
      k < |parts| && Replace(text, pattern, replacement, count) == Join(replacement, parts[..k] + [Join(pattern, parts[k..])])
    ensures pattern != [] && count < 0 ==> Replace(text, pattern, replacement, count) == Join(replacement, SplitOn(text, pattern))
  {
    if pattern != [] {
      var parts, k := SplitOn(text, pattern), Replacements(text, pattern, count);
      ReplaceSplitJoin(text, pattern, replacement, count);
      if count < 0 {
        assert k == |parts| - 1;
        assert parts[k..] == [parts[k]];
        assert parts[..k] + [parts[k]] == parts;
      }
    }
  }

  /** A count at least the number of occurrences replaces them all. */
  lemma StringReplaceEnough(text: string, pattern: string, replacement: string, count: int)
    requires count >= CountDisjoint(text, pattern)
    ensures StringReplace(text, pattern, replacement, count) == StringReplace(text, pattern, replacement, -1)
  {
    ReplaceEnoughIsAll(text, pattern, replacement, count);
  }

  /** With no occurrence of a non-empty pattern nothing changes. */
  lemma ReplaceAbsent(text: string, pattern: string, replacement: string, count: int)
    requires pattern != [] && !Contains(text, pattern)
    ensures StringReplace(text, pattern, replacement, count) == text
  {
    FindIffContains(text, pattern);
  }

  // ---------------------------------------------------------------------
  // StringTrim
  // ---------------------------------------------------------------------

  datatype TrimMode = BothEnds | LeftSide | RightSide | AllWhitespace

  /** The characters a trim removes: `chars` when given, else whitespace. */
  function TrimSet(chars: string): (cs: string)
    ensures cs != []
  {
    if chars != [] then chars else Whitespace
  }

  function StringTrim(text: string, mode: TrimMode, chars: string): (r: string)
    ensures mode == LeftSide ==> (r == [] || r[0] !in TrimSet(chars)) && EndsWith(text, r)
    ensures mode == RightSide ==> (r == [] || r[|r| - 1] !in TrimSet(chars)) && StartsWith(text, r)
    ensures mode == BothEnds ==> StrippedOf(r, TrimSet(chars))
    ensures mode == BothEnds ==> exists i, j ::
      && 0 <= i <= j <= |text| && r == text[i..j]
      && (forall k :: 0 <= k < i ==> text[k] in TrimSet(chars))
      && (forall k :: j <= k < |text| ==> text[k] in TrimSet(chars))
    ensures mode == AllWhitespace ==>
      && Words(r) == Words(text)
      && r == Join(" ", Words(r))
      && StrippedOf(r, Whitespace)
  {
    match mode
    case AllWhitespace => TrimAllWhitespace(text); Join(" ", Words(text))
    case BothEnds => StripSpec(text, TrimSet(chars)); Strip(text, TrimSet(chars))
    case LeftSide => LStrip(text, TrimSet(chars))
    case RightSide => RStrip(text, TrimSet(chars))
  }

  /** Left and right trims remove exactly the maximal run of trimmed
      characters at their end. */
  lemma TrimSidesSpec(text: string, chars: string)
    ensures var l := StringTrim(text, LeftSide, chars);
      forall k :: 0 <= k < |text| - |l| ==> text[k] in TrimSet(chars)
    ensures var r := StringTrim(text, RightSide, chars);
      forall k :: |r| <= k < |text| ==> text[k] in TrimSet(chars)
  {
  }

  /** Mode 所有空白 keeps the words, separates them by single spaces and
      leaves no whitespace at either end. */
  lemma TrimAllWhitespace(text: string)
    ensures var r := Join(" ", Words(text));
      && Words(r) == Words(text)
      && r == Join(" ", Words(r))
      && StrippedOf(r, Whitespace)
  {
    var ws := Words(text);
    WordsOfJoin(ws);
    forall w <- ws
      ensures w != [] && StrippedOf(w, Whitespace)
    {
      assert w[0] in w && w[|w| - 1] in w;
    }
    JoinStripped(" ", ws, Whitespace);
  }

  // ---------------------------------------------------------------------
  // StringLength
  // ---------------------------------------------------------------------

  datatype LengthMode = CharMode | WordMode | LineMode | ByteMode

  function LengthModeLabel(mode: LengthMode): string {
    match mode
    case CharMode => "字符"
    case WordMode => "单词"
    case LineMode => "行"
    case ByteMode => "字节"
  }

  /** Bytes of `c` in UTF-8. */
  function Utf8Width(c: char): (w: nat)
    ensures 1 <= w <= 4
    ensures w == 1 <==> c as int < 0x80
  {
    if c as int < 0x80 then 1 else if c as int < 0x800 then 2 else if c as int < 0x10000 then 3 else 4
  }

  /** `len(s.encode('utf-8'))`. */
  function Utf8Length(s: string): (n: nat)
    ensures |s| <= n <= 4 * |s|
    ensures n == |s| <==> forall i :: 0 <= i < |s| ==> s[i] as int < 0x80
  {
    if s == [] then 0
    else
      var n := Utf8Width(s[0]) + Utf8Length(s[1..]);
      assert forall i :: 1 <= i < |s| ==> s[i] == s[1..][i - 1];
      n
  }

  datatype LengthOutput = LengthOutput(length: nat, info: string)

  function StringLength(text: string, mode: LengthMode): (r: LengthOutput)
    ensures mode == CharMode ==> r.length == |text|
    ensures mode == WordMode ==> r.length == WordStarts(text, true)
    ensures mode == LineMode ==> r.length == NewlineCount(text) + (if text != [] && text[|text| - 1] != '\n' then 1 else 0)
    ensures mode == ByteMode ==> |text| <= r.length <= 4 * |text|
    ensures r.info == "长度: " + NatToString(r.length) + " " + LengthModeLabel(mode)
  {
    var length := (match mode
      case CharMode => |text|
      case WordMode => (WordCountSpec(text); |Words(text)|)
      case LineMode => (LineCountSpec(text); |SplitLines(text)|)
      case ByteMode => Utf8Length(text));
    LengthOutput(length, "长度: " + NatToString(length) + " " + LengthModeLabel(mode))
  }

  /** Positions where a word starts: a non-space after a space or at the
      beginning (`afterSpace` says whether the previous character was one). */
  function WordStarts(s: string, afterSpace: bool): nat {
    if s == [] then 0
    else (if afterSpace && !IsSpace(s[0]) then 1 else 0) + WordStarts(s[1..], IsSpace(s[0]))
  }

  lemma {:induction false} WordCountSpec(s: string)
    ensures |Words(s)| == WordStarts(s, true)
    decreases |s|
  {
    if s != [] {
      if IsSpace(s[0]) {
        assert s == [s[0]] + s[1..];
        WordsLeadingSpace(s[0], s[1..]);
        WordCountSpec(s[1..]);
      } else {
        assert LStrip(s, Whitespace) == s;
        var k := WordLength(s);
        WordCountSpec(s[k..]);
        WordStartsInWord(s, 1, k);
        assert s[1..][k - 1..] == s[k..];
      }
    }
  }

  /** Inside a word no new word starts. */
  lemma {:induction false} WordStartsInWord(s: string, j: nat, k: nat)
    requires 0 < j <= k <= |s|
    requires forall i :: 0 <= i < k ==> !IsSpace(s[i])
    requires k == |s| || IsSpace(s[k])
    ensures WordStarts(s[j..], false) == WordStarts(s[k..], true)
    decreases k - j
  {
    if j < k {
      assert s[j..][1..] == s[j + 1..];
      WordStartsInWord(s, j + 1, k);
    }
  }

  function NewlineCount(s: string): nat {
    multiset(s)['\n']
  }

  /** Every '\n' ends a line, and so does the end of a text that does not
      finish with one. */
  lemma {:induction false} LineCountSpec(s: string)
    ensures |SplitLines(s)| == NewlineCount(s) + (if s != [] && s[|s| - 1] != '\n' then 1 else 0)
    decreases |s|
  {
    if s != [] {
      var i := Find(s, "\n", 0);
      if i < 0 {
        CharAbsentBefore(s, '\n', |s|);
        assert s[..|s|] == s;
      } else {
        var tail := s[i + 1..];
        LineCountSpec(tail);
        CharAbsentBefore(s, '\n', i);
        NewlineCountSplit(s, i);
        if tail != [] {
          assert s[|s| - 1] == tail[|tail| - 1];
        }
      }
    }
  }

  lemma NewlineCountSplit(s: string, i: nat)
    requires i < |s| && OccursAt(s, "\n", i) && '\n' !in s[..i]
    ensures NewlineCount(s) == 1 + NewlineCount(s[i + 1..])
  {
    assert s[i] == s[i..i + 1][0] == '\n';
    assert s == s[..i] + [s[i]] + s[i + 1..];
    assert multiset(s) == multiset(s[..i]) + multiset([s[i]]) + multiset(s[i + 1..]);
  }

  // ---------------------------------------------------------------------
  // StringRepeat
  // ---------------------------------------------------------------------

  /** `[text] * n`: no copies when `n` is not positive. */
  function Copies(text: string, n: int): (r: seq<string>)
    ensures |r| == if n < 0 then 0 else n
    ensures forall t <- r :: t == text
    decreases n
  {
    if n <= 0 then [] else [text] + Copies(text, n - 1)
  }

  /** `text * n`. */
  function Times(text: string, n: int): (r: string)
    decreases n
  {
    if n <= 0 then [] else text + Times(text, n - 1)
  }

  function StringRepeat(text: string, n: int, sep: string): (r: string)
    ensures n <= 0 ==> r == []
    ensures r == Join(sep, Copies(text, n))
  {
    if sep != [] then Join(sep, Copies(text, n))
    else
      RepeatIsJoin(text, n);
      Times(text, n)
  }

  /** Without a separator, `text * n` is the same as joining the copies. */
  lemma {:induction false} RepeatIsJoin(text: string, n: int)
    ensures Times(text, n) == Join([], Copies(text, n))
    decreases n
  {
    if n > 1 {
      RepeatIsJoin(text, n - 1);
    }
  }

  lemma {:induction false} RepeatLength(text: string, n: nat, sep: string)
    ensures n >= 1 ==> |StringRepeat(text, n, sep)| == n * |text| + (n - 1) * |sep|
    ensures |StringRepeat(text, n, []) | == n * |text|
  {
    CopiesLength(text, n);
  }

  lemma {:induction false} CopiesLength(text: string, n: nat)
    ensures TotalLength(Copies(text, n)) == n * |text|
  {
    if n > 0 {
      CopiesLength(text, n - 1);
      MulSucc(n - 1, |text|);
    }
  }

  // ---------------------------------------------------------------------
  // StringSlice
  // ---------------------------------------------------------------------

  /** How Python adjusts a slice bound against a length for a step's sign
      (an absent bound is adjusted from an unboundedly large one). */
  function AdjustBound(len: nat, i: int, step: int): (r: int)
    requires step != 0
    ensures step > 0 ==> 0 <= r <= len
    ensures step < 0 ==> -1 <= r < len
  {
    if i < 0 then (if i + len < 0 then (if step < 0 then -1 else 0) else if step < 0 && i + len >= len then len - 1 else i + len)
    else if i >= len then (if step < 0 then len - 1 else len)
    else i
  }

  /** `r` is the progression `s[i]`, `s[i + step]`, ... that stops before
      passing `stop`: each index lies strictly on `i`'s side of `stop`, and
      the next one would not. */
  ghost predicate Progression(s: string, r: string, i: int, stop: int, step: int) {
    && (step > 0 ==> i + |r| * step >= stop)
    && (step < 0 ==> i + |r| * step <= stop)
    && forall k :: 0 <= k < |r| ==>
         && (if step > 0 then i + k * step < stop else i + k * step > stop)
         && 0 <= i + k * step < |s| && r[k] == s[i + k * step]
  }

  /** The characters at `i`, `i + step`, ... up to (excluding) `stop`. */
  function Stepped(s: string, i: int, stop: int, step: int): (r: string)
    requires step != 0
    requires step > 0 ==> 0 <= i && stop <= |s|
    requires step < 0 ==> -1 <= stop && i < |s|
    ensures forall k :: 0 <= k < |r| ==> r[k] in s
    decreases if step > 0 then stop - i else i - stop
  {
    if (step > 0 && i < stop) || (step < 0 && i > stop) then [s[i]] + Stepped(s, i + step, stop, step)
    else []
  }

  /** The stepped characters are exactly the progression from `i` towards
      `stop`: how many there are, and which character each one is. */
  lemma {:induction false} SteppedProgression(s: string, i: int, stop: int, step: int)
    requires step != 0
    requires step > 0 ==> 0 <= i && stop <= |s|
    requires step < 0 ==> -1 <= stop && i < |s|
    ensures var r := Stepped(s, i, stop, step);
      && (step > 0 ==> i + |r| * step >= stop)
      && (step < 0 ==> i + |r| * step <= stop)
      && forall k :: 0 <= k < |r| ==>
           && (if step > 0 then i + k * step < stop else i + k * step > stop)
           && 0 <= i + k * step < |s| && r[k] == s[i + k * step]
    decreases if step > 0 then stop - i else i - stop
  {
    if (step > 0 && i < stop) || (step < 0 && i > stop) {
      var tail := Stepped(s, i + step, stop, step);
      var r := [s[i]] + tail;
      assert Stepped(s, i, stop, step) == r;
      SteppedProgression(s, i + step, stop, step);
      forall k | 0 <= k < |r|
        ensures && (if step > 0 then i + k * step < stop else i + k * step > stop)
                && 0 <= i + k * step < |s| && r[k] == s[i + k * step]
      {
        if k > 0 {
          StepShift(i, step, k - 1);
          assert r[k] == tail[k - 1];
        }
      }
      StepShift(i, step, |tail|);
    }
  }

  /** Index `k + 1` from `i` is index `k` from `i + step`. */
  lemma StepShift(i: int, step: int, k: nat)
    ensures i + (k + 1) * step == (i + step) + k * step
  {
  }

  /** `text[start::step]` when `end` is -1, otherwise `text[start:end:step]`;
      a zero step raises `ValueError`. The slice starts at the adjusted
      start and steps until it would pass the adjusted end. */
  function StringSlice(text: string, start: int, end: int, step: int): (r: Result<string>)
    ensures r.Err? <==> step == 0
    ensures r.Ok? ==> Progression(text, r.value, AdjustBound(|text|, start, step), SliceEnd(|text|, end, step), step)
    ensures r.Ok? ==> forall k :: 0 <= k < |r.value| ==> r.value[k] in text
  {
    if step == 0 then Err("slice step cannot be zero")
    else
      var a := AdjustBound(|text|, start, step);
      var b := SliceEnd(|text|, end, step);
      SteppedProgression(text, a, b, step);
      Ok(Stepped(text, a, b, step))
  }

  /** The adjusted end of the slice; -1 stands for an absent end. */
  function SliceEnd(len: nat, end: int, step: int): (b: int)
    requires step != 0
    ensures step > 0 ==> 0 <= b <= len
    ensures step < 0 ==> -1 <= b < len
  {
    if end == -1 then (if step < 0 then -1 else len) else AdjustBound(len, end, step)
  }

  /** With step 1 the slice is the contiguous piece between the bounds. */
  lemma SliceStepOne(text: string, start: int, end: int)
    ensures StringSlice(text, start, end, 1)
         == Ok(PySlice(text, start, if end == -1 then |text| else end))
  {
    var a := AdjustBound(|text|, start, 1);
    var b := if end == -1 then |text| else AdjustBound(|text|, end, 1);
    SteppedContiguous(text, a, b);
  }

  lemma {:induction false} SteppedContiguous(s: string, i: nat, stop: nat)
    requires stop <= |s|
    ensures Stepped(s, i, stop, 1) == if i < stop then s[i..stop] else []
    decreases stop - i
  {
    if i < stop {
      SteppedContiguous(s, i + 1, stop);
    }
  }

  // ---------------------------------------------------------------------
  // StringReverse
  // ---------------------------------------------------------------------

  function Reversed<T>(s: seq<T>): (r: seq<T>)
    ensures |r| == |s|
    ensures forall i :: 0 <= i < |s| ==> r[i] == s[|s| - 1 - i]
  {
    seq(|s|, i requires 0 <= i < |s| => s[|s| - 1 - i])
  }

  lemma ReversedInvolution<T>(s: seq<T>)
    ensures Reversed(Reversed(s)) == s
  {
  }

  datatype ReverseMode = ReverseChars | ReverseWords | ReverseLines

  function StringReverse(text: string, mode: ReverseMode): (r: string)
    ensures mode == ReverseChars ==> |r| == |text| && forall i :: 0 <= i < |r| ==> r[i] == text[|text| - 1 - i]
  {
    match mode
    case ReverseChars => Reversed(text)
    case ReverseWords => Join(" ", Reversed(Words(text)))
    case ReverseLines => Join("\n", Reversed(SplitLines(text)))
  }

  /** `text[::-1]` is the `Reversed` text, and the slice with start -1 and no
      end gives the same. */
  lemma ReverseIsSlice(text: string)
    ensures StringSlice(text, -1, -1, -1) == Ok(StringReverse(text, ReverseChars))
  {
    SteppedBackwards(text, |text| - 1);
    assert text[..|text|] == text;
  }

  lemma {:induction false} SteppedBackwards(s: string, i: int)
    requires -1 <= i < |s|
    ensures Stepped(s, i, -1, -1) == Reversed(s[..i + 1])
    decreases i + 1
  {
    if i >= 0 {
      SteppedBackwards(s, i - 1);
      assert s[..i + 1][..i] == s[..i];
    }
  }

  /** Reversing characters twice gives the text back. */
  lemma ReverseCharsInvolution(text: string)
    ensures StringReverse(StringReverse(text, ReverseChars), ReverseChars) == text
  {
    ReversedInvolution(text);
  }

  /** Word mode gives the words in reverse order. */
  lemma ReverseWordsSpec(text: string)
    ensures Words(StringReverse(text, ReverseWords)) == Reversed(Words(text))
  {
    var ws := Reversed(Words(text));
    assert forall w <- ws :: IsWord(w);
    WordsOfJoin(ws);
  }

  /** Line mode gives the lines in reverse order, provided the first line is
      not empty (an empty last line would vanish when splitting again). */
  lemma ReverseLinesSpec(text: string)
    requires text == [] || text[0] != '\n'
    ensures SplitLines(StringReverse(text, ReverseLines)) == Reversed(SplitLines(text))
  {
    var lines := SplitLines(text);
    if text != [] {
      FirstLineNonEmpty(text);
    }
    var rev := Reversed(lines);
    assert forall l <- rev :: l in lines;
    SplitLinesOfJoin(rev);
  }

  lemma FirstLineNonEmpty(text: string)
    requires text != [] && text[0] != '\n'
    ensures SplitLines(text) != [] && SplitLines(text)[0] != []
  {
    assert !OccursAt(text, "\n", 0) by {
      assert text[0..1] == [text[0]];
    }
  }

  // ---------------------------------------------------------------------
  // StringContains
  // ---------------------------------------------------------------------

  datatype ContainsOutput = ContainsOutput(contains: bool, result: string, position: int)

  function StringContains(text: string, search: string, caseSensitive: bool): (r: ContainsOutput)
    ensures var t := if caseSensitive then text else Lower(text);
      var q := if caseSensitive then search else Lower(search);
      && (r.contains <==> Contains(t, q))
      && (r.contains ==> OccursAt(t, q, r.position) && forall i :: 0 <= i < r.position ==> !OccursAt(t, q, i))
      && (!r.contains ==> r.position == -1)
    ensures r.result == if r.contains then "是" else "否"
  {
    var t := if caseSensitive then text else Lower(text);
    var q := if caseSensitive then search else Lower(search);
    var found := Contains(t, q);
    FindIffContains(t, q);
    ContainsOutput(found, if found then "是" else "否", Find(t, q, 0))
  }
}
