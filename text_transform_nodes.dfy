/**
 * The line-oriented text nodes: text to lines and back, sort, unique,
 * filter and map. Lines are what `str.splitlines()` gives for '\n' breaks.
 */
module TextTransformNodes {
  import opened Strings
  import opened Ordering

  // ---------------------------------------------------------------------
  // Subsequences built by appending
  // ---------------------------------------------------------------------

  lemma {:induction false} SubsequenceAppend<T>(a: seq<T>, b: seq<T>, x: T)
    requires IsSubsequence(a, b)
    ensures IsSubsequence(a, b + [x])
    decreases |b|
  {
    if a != [] {
      assert (b + [x])[1..] == b[1..] + [x];
      if a[0] == b[0] && IsSubsequence(a[1..], b[1..]) {
        SubsequenceAppend(a[1..], b[1..], x);
      } else {
        SubsequenceAppend(a, b[1..], x);
      }
    }
  }

  lemma {:induction false} SubsequenceSnoc<T>(a: seq<T>, b: seq<T>, x: T)
    requires IsSubsequence(a, b)
    ensures IsSubsequence(a + [x], b + [x])
    decreases |b|
  {
    if a == [] {
      SingletonSubsequence(b, x);
      assert a + [x] == [x];
    } else {
      assert (a + [x])[1..] == a[1..] + [x];
      assert (b + [x])[1..] == b[1..] + [x];
      if a[0] == b[0] && IsSubsequence(a[1..], b[1..]) {
        SubsequenceSnoc(a[1..], b[1..], x);
      } else {
        SubsequenceSnoc(a, b[1..], x);
      }
    }
  }

  lemma {:induction false} SingletonSubsequence<T>(b: seq<T>, x: T)
    ensures IsSubsequence([x], b + [x])
    decreases |b|
  {
    if b != [] {
      assert (b + [x])[1..] == b[1..] + [x];
      SingletonSubsequence(b[1..], x);
    }
  }

  // ---------------------------------------------------------------------
  // TextToLines
  // ---------------------------------------------------------------------

  /** The lines of `text`, each stripped when `strip`, blank ones dropped
      when `removeEmpty`. */
  function CleanedLines(text: string, removeEmpty: bool, strip: bool): (r: seq<string>)
    ensures forall l <- r :: '\n' !in l
    ensures removeEmpty ==> forall l <- r :: l != []
    ensures strip ==> forall l <- r :: StrippedOf(l, Whitespace)
    ensures !removeEmpty ==> |r| == |SplitLines(text)|
  {
    var lines := SplitLines(text);
    StripAllProperties(lines);
    var lines := if strip then StripAll(lines) else lines;
    if removeEmpty then NonEmpty(lines) else lines
  }

  /** `[line.strip() for line in lines]`. */
  function StripAll(lines: seq<string>): (r: seq<string>)
    ensures |r| == |lines|
    ensures forall i :: 0 <= i < |r| ==> r[i] == Trim(lines[i])
  {
    seq(|lines|, i requires 0 <= i < |lines| => Trim(lines[i]))
  }

  /** Stripped lines have nothing left to strip, and stripping adds no
      line break. */
  lemma StripAllProperties(lines: seq<string>)
    ensures forall l <- StripAll(lines) :: StrippedOf(l, Whitespace)
    ensures (forall l <- lines :: '\n' !in l) ==> forall l <- StripAll(lines) :: '\n' !in l
  {
    var r := StripAll(lines);
    forall i | 0 <= i < |r|
      ensures StrippedOf(r[i], Whitespace)
      ensures '\n' !in lines[i] ==> '\n' !in r[i]
    {
      StripSpec(lines[i], Whitespace);
    }
  }

  /** `[line for line in lines if line]`. */
  function NonEmpty(lines: seq<string>): (r: seq<string>)
    ensures forall l <- r :: l != [] && l in lines
    ensures IsSubsequence(r, lines)
    ensures forall l <- lines :: l != [] ==> l in r
  {
    if lines == [] then []
    else
      assert forall l <- lines[1..] :: l in lines;
      if lines[0] == [] then NonEmpty(lines[1..]) else [lines[0]] + NonEmpty(lines[1..])
  }

  datatype ToLinesOutput = ToLinesOutput(lines: string, count: nat)

  function TextToLines(text: string, removeEmpty: bool, strip: bool): (r: ToLinesOutput)
    ensures var ls := CleanedLines(text, removeEmpty, strip);
      r.lines == Join("\n", ls) && r.count == |ls|
  {
    var ls := CleanedLines(text, removeEmpty, strip);
    ToLinesOutput(Join("\n", ls), |ls|)
  }

  /** With empty lines removed, splitting the output again gives exactly the
      returned lines, so `count` is the number of lines in `lines`. */
  lemma ToLinesCount(text: string, strip: bool)
    ensures var r := TextToLines(text, true, strip);
      SplitLines(r.lines) == CleanedLines(text, true, strip)
      && r.count == |SplitLines(r.lines)|
  {
    var ls := CleanedLines(text, true, strip);
    if ls != [] {
      assert ls[|ls| - 1] in ls;
    }
    SplitLinesOfJoin(ls);
  }

  // ---------------------------------------------------------------------
  // TextFromLines
  // ---------------------------------------------------------------------

  /** `[f"{i+1}. {line}" for i, line in enumerate(lines)]`. */
  function Numbered(lines: seq<string>): (r: seq<string>)
    ensures |r| == |lines|
    ensures forall i :: 0 <= i < |r| ==> r[i] == NatToString(i + 1) + ". " + lines[i]
  {
    seq(|lines|, i requires 0 <= i < |lines| => NatToString(i + 1) + ". " + lines[i])
  }

  function TextFromLines(lines: string, sep: string, numbering: bool): (r: string)
    ensures !numbering ==> r == Join(sep, SplitLines(lines))
    ensures numbering ==> r == Join(sep, Numbered(SplitLines(lines)))
  {
    var lineList := SplitLines(lines);
    var lineList := if numbering then Numbered(lineList) else lineList;
    Join(sep, lineList)
  }

  /** Lines joined by "\n" come back unchanged when the last one is not empty. */
  lemma FromLinesRoundTrip(lines: seq<string>)
    requires forall l <- lines :: '\n' !in l
    requires lines == [] || lines[|lines| - 1] != []
    ensures TextFromLines(Join("\n", lines), "\n", false) == Join("\n", lines)
  {
    SplitLinesOfJoin(lines);
  }

  // ---------------------------------------------------------------------
  // TextSort
  // ---------------------------------------------------------------------

  /** The sort modes other than `random`. */
  datatype SortMode = Alphabetical | ReverseAlphabetical | ByLength

  /** `[line for line in lines if line.strip()]`. */
  function NonBlank(lines: seq<string>): (r: seq<string>)
    ensures forall l <- r :: Trim(l) != [] && l in lines
    ensures IsSubsequence(r, lines)
  {
    if lines == [] then []
    else
      assert forall l <- lines[1..] :: l in lines;
      if Trim(lines[0]) == [] then NonBlank(lines[1..]) else [lines[0]] + NonBlank(lines[1..])
  }

  /** The sort key: the line (lower-cased unless case-sensitive), or its
      length. */
  function SortKey(mode: SortMode, caseSensitive: bool): string -> seq<Atom> {
    match mode
    case ByLength => (l: string) => [Num(|l|)]
    case _ => if caseSensitive then (l: string) => [Str(l)] else (l: string) => [Str(Lower(l))]
  }

  function SortedLines(text: string, mode: SortMode, caseSensitive: bool): (r: seq<string>)
    ensures multiset(r) == multiset(NonBlank(SplitLines(text)))
    ensures SortedBy(r, SortKey(mode, caseSensitive), mode == ReverseAlphabetical)
  {
    var lines := NonBlank(SplitLines(text));
    SortSorted(lines, SortKey(mode, caseSensitive), mode == ReverseAlphabetical);
    SortBy(lines, SortKey(mode, caseSensitive), mode == ReverseAlphabetical)
  }

  function TextSort(text: string, mode: SortMode, caseSensitive: bool): (r: string)
    ensures r == Join("\n", SortedLines(text, mode, caseSensitive))
  {
    Join("\n", SortedLines(text, mode, caseSensitive))
  }

  /** Case-sensitive alphabetical mode puts the lines in ascending order. */
  lemma SortAlphabeticalAscending(text: string)
    ensures var r := SortedLines(text, Alphabetical, true);
      forall i, j :: 0 <= i < j < |r| ==> !LexLess(r[j], r[i])
  {
    var r := SortedLines(text, Alphabetical, true);
    forall i, j | 0 <= i < j < |r|
      ensures !LexLess(r[j], r[i])
    {
      assert !Precedes(SortKey(Alphabetical, true), false, r[j], r[i]);
    }
  }

  /** Length mode orders by non-decreasing length. */
  lemma SortByLength(text: string)
    ensures var r := SortedLines(text, ByLength, true);
      forall i, j :: 0 <= i < j < |r| ==> |r[i]| <= |r[j]|
  {
    var r := SortedLines(text, ByLength, true);
    var key := SortKey(ByLength, true);
    forall i, j | 0 <= i < j < |r|
      ensures |r[i]| <= |r[j]|
    {
      assert !Precedes(key, false, r[j], r[i]);
      assert !KeyLess([Num(|r[j]|)], [Num(|r[i]|)]);
    }
  }

  /** In length mode lines of equal length keep their order. */
  lemma SortByLengthStable(text: string, n: nat)
    ensures var key := SortKey(ByLength, true);
      WithKey(SortedLines(text, ByLength, true), key, [Num(n)])
      == WithKey(NonBlank(SplitLines(text)), key, [Num(n)])
  {
    SortStable(NonBlank(SplitLines(text)), SortKey(ByLength, true), false, [Num(n)]);
  }

  // ---------------------------------------------------------------------
  // TextUnique
  // ---------------------------------------------------------------------

  /** What two lines are compared by. */
  function UniqueKey(line: string, caseSensitive: bool): string {
    if caseSensitive then line else Lower(line)
  }

  function KeysOf(lines: seq<string>, caseSensitive: bool): set<string> {
    set l <- lines :: UniqueKey(l, caseSensitive)
  }

  /** Every line whose key did not occur on an earlier line, in order. */
  function FirstOccurrences(lines: seq<string>, caseSensitive: bool): seq<string> {
    if lines == [] then []
    else
      var init := lines[..|lines| - 1];
      var last := lines[|lines| - 1];
      var prev := FirstOccurrences(init, caseSensitive);
      if UniqueKey(last, caseSensitive) in KeysOf(init, caseSensitive) then prev else prev + [last]
  }

  /** No two lines of `r` share a key. */
  predicate DistinctKeys(r: seq<string>, caseSensitive: bool) {
    forall i, j :: 0 <= i < j < |r| ==> UniqueKey(r[i], caseSensitive) != UniqueKey(r[j], caseSensitive)
  }

  /** The first occurrences form a subsequence of the lines with every key
      exactly once. */
  lemma FirstOccurrencesSpec(lines: seq<string>, caseSensitive: bool)
    ensures IsSubsequence(FirstOccurrences(lines, caseSensitive), lines)
    ensures |FirstOccurrences(lines, caseSensitive)| <= |lines|
    ensures KeysOf(FirstOccurrences(lines, caseSensitive), caseSensitive) == KeysOf(lines, caseSensitive)
    ensures DistinctKeys(FirstOccurrences(lines, caseSensitive), caseSensitive)
  {
    FirstOccurrencesOrder(lines, caseSensitive);
    FirstOccurrencesKeys(lines, caseSensitive);
    FirstOccurrencesDistinct(lines, caseSensitive);
  }

  lemma {:induction false} FirstOccurrencesOrder(lines: seq<string>, caseSensitive: bool)
    ensures IsSubsequence(FirstOccurrences(lines, caseSensitive), lines)
    ensures |FirstOccurrences(lines, caseSensitive)| <= |lines|
  {
    if lines != [] {
      var init := lines[..|lines| - 1];
      var last := lines[|lines| - 1];
      var prev := FirstOccurrences(init, caseSensitive);
      FirstOccurrencesOrder(init, caseSensitive);
      assert lines == init + [last];
      SubsequenceAppend(prev, init, last);
      SubsequenceSnoc(prev, init, last);
    }
  }

  lemma KeysSnoc(lines: seq<string>, x: string, caseSensitive: bool)
    ensures KeysOf(lines + [x], caseSensitive) == KeysOf(lines, caseSensitive) + {UniqueKey(x, caseSensitive)}
  {
    assert forall l :: l in lines + [x] <==> l in lines || l == x;
  }

  lemma {:induction false} FirstOccurrencesKeys(lines: seq<string>, caseSensitive: bool)
    ensures KeysOf(FirstOccurrences(lines, caseSensitive), caseSensitive) == KeysOf(lines, caseSensitive)
  {
    if lines != [] {
      var init := lines[..|lines| - 1];
      var last := lines[|lines| - 1];
      var prev := FirstOccurrences(init, caseSensitive);
      FirstOccurrencesKeys(init, caseSensitive);
      assert lines == init + [last];
      KeysSnoc(init, last, caseSensitive);
      KeysSnoc(prev, last, caseSensitive);
    }
  }

  lemma {:induction false} FirstOccurrencesDistinct(lines: seq<string>, caseSensitive: bool)
    ensures DistinctKeys(FirstOccurrences(lines, caseSensitive), caseSensitive)
  {
    if lines != [] {
      var init := lines[..|lines| - 1];
      var last := lines[|lines| - 1];
      var prev := FirstOccurrences(init, caseSensitive);
      FirstOccurrencesDistinct(init, caseSensitive);
      if UniqueKey(last, caseSensitive) !in KeysOf(init, caseSensitive) {
        FirstOccurrencesKeys(init, caseSensitive);
        DistinctKeysSnoc(prev, last, caseSensitive);
      }
    }
  }

  lemma DistinctKeysSnoc(r: seq<string>, x: string, caseSensitive: bool)
    requires DistinctKeys(r, caseSensitive) && UniqueKey(x, caseSensitive) !in KeysOf(r, caseSensitive)
    ensures DistinctKeys(r + [x], caseSensitive)
  {
    forall i, j | 0 <= i < j < |r| + 1
      ensures UniqueKey((r + [x])[i], caseSensitive) != UniqueKey((r + [x])[j], caseSensitive)
    {
      assert (r + [x])[i] == r[i];
      if j == |r| {
        assert r[i] in r;
      }
    }
  }

  /** One more line: it is kept exactly when its key is new. */
  lemma FirstOccurrencesStep(lines: seq<string>, i: nat, caseSensitive: bool)
    requires i < |lines|
    ensures var key := UniqueKey(lines[i], caseSensitive);
      && KeysOf(lines[..i + 1], caseSensitive) == KeysOf(lines[..i], caseSensitive) + {key}
      && FirstOccurrences(lines[..i + 1], caseSensitive)
         == if key in KeysOf(lines[..i], caseSensitive) then FirstOccurrences(lines[..i], caseSensitive)
            else FirstOccurrences(lines[..i], caseSensitive) + [lines[i]]
  {
    assert lines[..i + 1][..i] == lines[..i];
    assert lines[..i + 1] == lines[..i] + [lines[i]];
  }

  datatype UniqueOutput = UniqueOutput(result: string, originalCount: nat, uniqueCount: nat)

  /** With `preserveOrder`, or without case sensitivity (a dict keeps its
      insertion order), the first line of each key in input order. Without
      either, the distinct lines in an order the caller cannot rely on. */
  method TextUnique(text: string, caseSensitive: bool, preserveOrder: bool) returns (r: UniqueOutput)
    ensures r.originalCount == |SplitLines(text)|
    ensures r.uniqueCount <= r.originalCount
    ensures preserveOrder || !caseSensitive ==>
      r.result == Join("\n", FirstOccurrences(SplitLines(text), caseSensitive))
      && r.uniqueCount == |FirstOccurrences(SplitLines(text), caseSensitive)|
    ensures !preserveOrder && caseSensitive ==>
      exists u: seq<string> ::
        && r.result == Join("\n", u) && r.uniqueCount == |u|
        && (set l <- u) == (set l <- SplitLines(text))
        && (forall i, j :: 0 <= i < j < |u| ==> u[i] != u[j])
  {
    var lines := SplitLines(text);
    var unique: seq<string>;
    if preserveOrder {
      unique := KeepFirstSeen(lines, caseSensitive);
    } else if caseSensitive {
      unique := DistinctInSomeOrder(lines);
    } else {
      unique := FirstByLowerKey(lines);
    }
    FirstOccurrencesSpec(lines, caseSensitive);
    r := UniqueOutput(Join("\n", unique), |lines|, |unique|);
  }

  /** The loop with a `seen` set that keeps a line when its key is new. */
  method KeepFirstSeen(lines: seq<string>, caseSensitive: bool) returns (unique: seq<string>)
    ensures unique == FirstOccurrences(lines, caseSensitive)
  {
    var seen: set<string> := {};
    unique := [];
    for i := 0 to |lines|
      invariant unique == FirstOccurrences(lines[..i], caseSensitive)
      invariant seen == KeysOf(lines[..i], caseSensitive)
    {
      var line := lines[i];
      var check := if caseSensitive then line else Lower(line);
      FirstOccurrencesStep(lines, i, caseSensitive);
      if check !in seen {
        seen := seen + {check};
        unique := unique + [line];
      }
    }
    assert lines[..|lines|] == lines;
  }

  /** `list(set(lines))`: the distinct lines, in whatever order the set
      yields them. */
  method DistinctInSomeOrder(lines: seq<string>) returns (u: seq<string>)
    ensures (set l <- u) == (set l <- lines)
    ensures forall i, j :: 0 <= i < j < |u| ==> u[i] != u[j]
    ensures |u| <= |lines|
  {
    var rest := set l <- lines;
    u := [];
    SetOfSeqSize(lines);
    while rest != {}
      invariant Drawn(u, rest, set l <- lines, |lines|)
      decreases rest
    {
      var l :| l in rest;
      DrawStep(u, rest, set l <- lines, |lines|, l);
      u := u + [l];
      rest := rest - {l};
    }
  }

  /** `u` holds distinct elements drawn from `all`, and `rest` the ones not
      drawn yet. */
  ghost predicate Drawn<T>(u: seq<T>, rest: set<T>, all: set<T>, bound: nat) {
    && (set l <- u) + rest == all
    && (forall l <- u :: l !in rest)
    && (forall i, j :: 0 <= i < j < |u| ==> u[i] != u[j])
    && |u| + |rest| <= bound
  }

  lemma DrawStep<T>(u: seq<T>, rest: set<T>, all: set<T>, bound: nat, l: T)
    requires Drawn(u, rest, all, bound) && l in rest
    ensures Drawn(u + [l], rest - {l}, all, bound)
  {
    assert (set x <- u + [l]) == (set x <- u) + {l};
    forall i, j | 0 <= i < j < |u| + 1
      ensures (u + [l])[i] != (u + [l])[j]
    {
      assert (u + [l])[i] == u[i];
      if j == |u| {
        assert u[i] in u;
      }
    }
  }

  lemma {:induction false} SetOfSeqSize<T>(s: seq<T>)
    ensures |(set x <- s)| <= |s|
  {
    if s != [] {
      SetOfSeqSize(s[1..]);
      assert (set x <- s) == (set x <- s[1..]) + {s[0]};
    }
  }

  /** The dict `{line.lower(): line}` filled first-wins, read back in key
      insertion order. */
  method FirstByLowerKey(lines: seq<string>) returns (u: seq<string>)
    ensures u == FirstOccurrences(lines, false)
  {
    var seen: map<string, string> := map[];
    var order: seq<string> := [];
    for i := 0 to |lines|
      invariant LowerDict(lines[..i], seen, order)
    {
      var line := lines[i];
      LowerDictStep(lines, i, seen, order);
      if Lower(line) !in seen {
        seen := seen[Lower(line) := line];
        order := order + [Lower(line)];
      }
    }
    assert lines[..|lines|] == lines;
    u := seq(|order|, k requires 0 <= k < |order| => seen[order[k]]);
  }

  /** The dictionary after the lines `done`: its keys in insertion order
      are the lower-cased first occurrences, each mapped to that line. */
  ghost predicate LowerDict(done: seq<string>, seen: map<string, string>, order: seq<string>) {
    var firsts := FirstOccurrences(done, false);
    && seen.Keys == KeysOf(done, false)
    && |order| == |firsts|
    && (forall k :: 0 <= k < |order| ==> order[k] == Lower(firsts[k]))
    && (forall k :: 0 <= k < |order| ==> order[k] in seen && seen[order[k]] == firsts[k])
  }

  lemma LowerDictStep(lines: seq<string>, i: nat, seen: map<string, string>, order: seq<string>)
    requires i < |lines| && LowerDict(lines[..i], seen, order)
    ensures var line := lines[i];
      if Lower(line) in seen then LowerDict(lines[..i + 1], seen, order)
      else LowerDict(lines[..i + 1], seen[Lower(line) := line], order + [Lower(line)])
  {
    if Lower(lines[i]) in seen {
      LowerDictKnown(lines, i, seen, order);
    } else {
      LowerDictNew(lines, i, seen, order);
    }
  }

  lemma LowerDictKnown(lines: seq<string>, i: nat, seen: map<string, string>, order: seq<string>)
    requires i < |lines| && LowerDict(lines[..i], seen, order) && Lower(lines[i]) in seen
    ensures LowerDict(lines[..i + 1], seen, order)
  {
    FirstOccurrencesStep(lines, i, false);
  }

  lemma LowerDictNew(lines: seq<string>, i: nat, seen: map<string, string>, order: seq<string>)
    requires i < |lines| && LowerDict(lines[..i], seen, order) && Lower(lines[i]) !in seen
    ensures LowerDict(lines[..i + 1], seen[Lower(lines[i]) := lines[i]], order + [Lower(lines[i])])
  {
    FirstOccurrencesStep(lines, i, false);
    LowerEntriesNew(FirstOccurrences(lines[..i], false), seen, order, lines[i]);
  }

  /** Appending a line with a new key to the dictionary's entries. */
  lemma LowerEntriesNew(firsts: seq<string>, seen: map<string, string>, order: seq<string>, line: string)
    requires |order| == |firsts| && Lower(line) !in seen
    requires forall k :: 0 <= k < |order| ==> order[k] == Lower(firsts[k])
    requires forall k :: 0 <= k < |order| ==> order[k] in seen && seen[order[k]] == firsts[k]
    ensures var seen', order' := seen[Lower(line) := line], order + [Lower(line)];
      && (forall k :: 0 <= k < |order'| ==> order'[k] == Lower((firsts + [line])[k]))
      && (forall k :: 0 <= k < |order'| ==> order'[k] in seen' && seen'[order'[k]] == (firsts + [line])[k])
  {
    var seen', order' := seen[Lower(line) := line], order + [Lower(line)];
    forall k | 0 <= k < |order'|
      ensures order'[k] == Lower((firsts + [line])[k])
      ensures order'[k] in seen' && seen'[order'[k]] == (firsts + [line])[k]
    {
      if k < |order| {
        assert order'[k] == order[k] && (firsts + [line])[k] == firsts[k];
      }
    }
  }

  // ---------------------------------------------------------------------
  // TextFilter
  // ---------------------------------------------------------------------

  /** The filter modes other than `regex_match`. */
  datatype FilterMode = ContainsValue | NotContainsValue | StartsWithValue | EndsWithValue
                      | MinLength | MaxLength

  predicate Keeps(mode: FilterMode, value: string, length: int, line: string) {
    match mode
    case ContainsValue => Contains(line, value)
    case NotContainsValue => !Contains(line, value)
    case StartsWithValue => StartsWith(line, value)
    case EndsWithValue => EndsWith(line, value)
    case MinLength => |line| >= length
    case MaxLength => |line| <= length
  }

  /** The lines the filter keeps, in order. */
  function Kept(lines: seq<string>, mode: FilterMode, value: string, length: int): seq<string> {
    if lines == [] then []
    else
      var prev := Kept(lines[..|lines| - 1], mode, value, length);
      var last := lines[|lines| - 1];
      if Keeps(mode, value, length, last) then prev + [last] else prev
  }

  /** The filter keeps the lines that pass, in order, and no other. */
  lemma KeptSpec(lines: seq<string>, mode: FilterMode, value: string, length: int)
    ensures IsSubsequence(Kept(lines, mode, value, length), lines)
    ensures forall l <- Kept(lines, mode, value, length) :: Keeps(mode, value, length, l)
    ensures forall l <- lines :: Keeps(mode, value, length, l) ==> l in Kept(lines, mode, value, length)
    ensures forall l :: multiset(Kept(lines, mode, value, length))[l]
                     == if Keeps(mode, value, length, l) then multiset(lines)[l] else 0
  {
    KeptOrder(lines, mode, value, length);
    KeptMembers(lines, mode, value, length);
    KeptCounts(lines, mode, value, length);
  }

  /** A passing line is kept as often as it occurs; any other never. */
  lemma {:induction false} KeptCounts(lines: seq<string>, mode: FilterMode, value: string, length: int)
    ensures forall l :: multiset(Kept(lines, mode, value, length))[l]
                     == if Keeps(mode, value, length, l) then multiset(lines)[l] else 0
  {
    if lines != [] {
      var init := lines[..|lines| - 1];
      var last := lines[|lines| - 1];
      KeptCounts(init, mode, value, length);
      assert lines == init + [last];
      assert multiset(lines) == multiset(init) + multiset{last};
    }
  }

  lemma {:induction false} KeptOrder(lines: seq<string>, mode: FilterMode, value: string, length: int)
    ensures IsSubsequence(Kept(lines, mode, value, length), lines)
  {
    if lines != [] {
      var init := lines[..|lines| - 1];
      var last := lines[|lines| - 1];
      var prev := Kept(init, mode, value, length);
      KeptOrder(init, mode, value, length);
      assert lines == init + [last];
      SubsequenceAppend(prev, init, last);
      if Keeps(mode, value, length, last) {
        SubsequenceSnoc(prev, init, last);
      }
    }
  }

  lemma {:induction false} KeptMembers(lines: seq<string>, mode: FilterMode, value: string, length: int)
    ensures forall l :: l in Kept(lines, mode, value, length) <==> l in lines && Keeps(mode, value, length, l)
  {
    if lines != [] {
      var init := lines[..|lines| - 1];
      var last := lines[|lines| - 1];
      KeptMembers(init, mode, value, length);
      assert lines == init + [last];
      assert forall l :: l in lines <==> l in init || l == last;
    }
  }

  datatype FilterOutput = FilterOutput(result: string, count: nat)

  lemma KeptStep(lines: seq<string>, i: nat, mode: FilterMode, value: string, length: int)
    requires i < |lines|
    ensures Kept(lines[..i + 1], mode, value, length)
         == if Keeps(mode, value, length, lines[i]) then Kept(lines[..i], mode, value, length) + [lines[i]]
            else Kept(lines[..i], mode, value, length)
  {
    assert lines[..i + 1][..i] == lines[..i];
  }

  method TextFilter(text: string, mode: FilterMode, value: string, length: int) returns (r: FilterOutput)
    ensures var kept := Kept(SplitLines(text), mode, value, length);
      r.result == Join("\n", kept) && r.count == |kept|
  {
    var lines := SplitLines(text);
    var filtered: seq<string> := [];
    for i := 0 to |lines|
      invariant filtered == Kept(lines[..i], mode, value, length)
    {
      var line := lines[i];
      KeptStep(lines, i, mode, value, length);
      if Keeps(mode, value, length, line) {
        filtered := filtered + [line];
      }
    }
    assert lines[..|lines|] == lines;
    r := FilterOutput(Join("\n", filtered), |filtered|);
  }

  /** `contains` and `not_contains` with the same value split the lines
      between them: together they hold every line exactly as often as the
      input. */
  lemma {:induction false} ContainsPartition(lines: seq<string>, value: string, length: int)
    ensures multiset(Kept(lines, ContainsValue, value, length))
          + multiset(Kept(lines, NotContainsValue, value, length)) == multiset(lines)
  {
    if lines != [] {
      var init := lines[..|lines| - 1];
      var last := lines[|lines| - 1];
      ContainsPartition(init, value, length);
      assert lines == init + [last];
      var yes := Kept(init, ContainsValue, value, length);
      var no := Kept(init, NotContainsValue, value, length);
      if Contains(last, value) {
        assert Kept(lines, ContainsValue, value, length) == yes + [last];
        assert Kept(lines, NotContainsValue, value, length) == no;
      } else {
        assert Kept(lines, ContainsValue, value, length) == yes;
        assert Kept(lines, NotContainsValue, value, length) == no + [last];
      }
    }
  }

  // ---------------------------------------------------------------------
  // TextMap
  // ---------------------------------------------------------------------

  datatype MapOp = AddPrefix | AddSuffix | Wrap | Quote | Number | Bullet | Indent

  /** What an operation puts in front of the line at (1-based) position `i`. */
  function MapPrefix(op: MapOp, i: nat, value: string): string {
    match op
    case AddPrefix => value
    case Wrap => value
    case Quote => if value != [] then value else "\""
    case Number => NatToString(i) + (if value != [] then value else ". ")
    case Bullet => if value != [] then value else "• "
    case Indent => if value != [] then value else "    "
    case AddSuffix => []
  }

  /** What an operation puts after the line. */
  function MapSuffix(op: MapOp, value: string, value2: string): string {
    match op
    case AddSuffix => value
    case Wrap => if value2 != [] then value2 else value
    case Quote => if value != [] then value else "\""
    case _ => []
  }

  /** The line at (1-based) position `i` after the operation. */
  function MapLine(op: MapOp, i: nat, line: string, value: string, value2: string): string {
    match op
    case AddPrefix => value + line
    case AddSuffix => line + value
    case Wrap =>
      var suffix := if value2 != [] then value2 else value;
      value + line + suffix
    case Quote =>
      var q := if value != [] then value else "\"";
      q + line + q
    case Number =>
      var sep := if value != [] then value else ". ";
      NatToString(i) + sep + line
    case Bullet =>
      var bullet := if value != [] then value else "• ";
      bullet + line
    case Indent =>
      var indent := if value != [] then value else "    ";
      indent + line
  }

  /** Every operation keeps the line whole and only adds text around it. */
  lemma MapLineFrames(op: MapOp, i: nat, line: string, value: string, value2: string)
    ensures MapLine(op, i, line, value, value2) == MapPrefix(op, i, value) + line + MapSuffix(op, value, value2)
    ensures op == AddPrefix ==> MapLine(op, i, line, value, value2) == value + line
    ensures op == Number && value == [] ==> MapLine(op, i, line, value, value2) == NatToString(i) + ". " + line
  {
  }

  function MappedLines(lines: seq<string>, op: MapOp, value: string, value2: string): (r: seq<string>)
    ensures |r| == |lines|
    ensures forall k :: 0 <= k < |r| ==> r[k] == MapLine(op, k + 1, lines[k], value, value2)
  {
    seq(|lines|, k requires 0 <= k < |lines| => MapLine(op, k + 1, lines[k], value, value2))
  }

  method TextMap(text: string, op: MapOp, value: string, value2: string) returns (result: string)
    ensures result == Join("\n", MappedLines(SplitLines(text), op, value, value2))
  {
    var lines := SplitLines(text);
    var resultLines: seq<string> := [];
    for i := 0 to |lines|
      invariant resultLines == MappedLines(lines[..i], op, value, value2)
    {
      assert lines[..i + 1][..i] == lines[..i];
      resultLines := resultLines + [MapLine(op, i + 1, lines[i], value, value2)];
    }
    assert lines[..|lines|] == lines;
    result := Join("\n", resultLines);
  }
}
