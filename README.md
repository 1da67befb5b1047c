# HAIGC node pack for ComfyUI, modelled in Dafny

This project models the core of the HAIGC custom-node pack for ComfyUI and
proves properties of that model. The pack has four groups of logic.

- **Text nodes.** Concatenate, split, replace, trim, length, repeat, slice,
  reverse and contains (`string_nodes.py`). Join, pad, remove characters,
  extract and count (`advanced_string_nodes.py`). Lines to text and back,
  sort, unique, filter and map (`text_transform_nodes.py`).
- **Package scanner** (`node_package_loader.py`). It merges node records
  from several sources into a first-wins dictionary keyed by class name. It
  then sorts them by (category, display name, class name), optionally
  filters them by category, and groups them by category.
- **Workflow generator** (`workflow_generator.py`). It places N nodes on a
  canvas in one of five layouts and assembles the workflow document. It
  also chooses the file a workflow is saved to, de-duplicates the
  candidate directories and deletes old workflow files by prefix and
  keyword.
- **Quick-load node** (`quick_load_by_name.py`). It offers the list of
  installed packages and maps a layout mode to a layout. It edits the
  stored cleanup presets and fills the cleanup filters from them. It
  generates the workflows of one or all packages and writes the report
  text.

The modules follow the source files:

| module | file |
|---|---|
| `Wrappers` | `Option` and `Result` |
| `Strings` | the Python `str` operations the nodes use |
| `Ordering` | string and tuple-key order; a stable insertion sort |
| `StringNodes` | `string_nodes.py` |
| `AdvancedStringNodes` | `advanced_string_nodes.py` |
| `TextTransformNodes` | `text_transform_nodes.py` |
| `NodePackageLoader` | `node_package_loader.py` |
| `WorkflowGenerator` | `workflow_generator.py` |
| `QuickLoadByName` | `quick_load_by_name.py` |

In `Strings`, a string is a `seq<char>`. Whitespace is the ASCII set that
Python's `str.isspace()` accepts, `lower()` changes only ASCII letters, and
`'\n'` is the only line break.

The filesystem is an input. The model receives:
- the directory listings;
- whether a path exists or is a directory;
- whether `mkdir` or `unlink` succeeds;
- what the preset file holds.

The import of a package, the `exec` of its `__init__.py` and the regular
expression scrape of a file are each an opaque list of records. The seeded
shuffle is a permutation supplied by the caller.

Code that changes state step by step is written as methods. Examples are
the scanner's dictionary (class `NodeMap`), the loops of `_scan_package`,
`get_workflow_directories`, `delete_workflows`, the overlapping count and
the unique-lines loops, and the way the report is assembled. Each method is
proved equal to a function, and the functions carry the lemmas.

## Model

| member | source | states |
|---|---|---|
| Strings.Lower | string_nodes.py:317-319 | Lower-casing keeps the length and maps each character on its own. |
| Strings.Find | string_nodes.py:326 | `find` returns -1 only when no occurrence starts at or after `start`; otherwise it returns the first such occurrence. |
| Strings.FindIffContains | string_nodes.py:324-326 | `find` returns a non-negative position exactly when `in` holds. |
| Strings.ReplaceLength | string_nodes.py:87-92 | Each replacement trades the pattern's length for the replacement's length, and nothing else changes the length. |
| Strings.ReplaceEnoughIsAll | string_nodes.py:88-91 | A count at least the number of disjoint occurrences replaces everything, just as count -1 does. |
| Strings.ReplaceNotFound | string_nodes.py:89 | A text without the pattern comes back unchanged. |
| Strings.ReplaceCharByEmpty | advanced_string_nodes.py:296-297 | Replacing one character by "" removes exactly that character and keeps the rest in order. |
| Strings.Without | advanced_string_nodes.py:296-297 | Removing a character leaves a text that is no longer and no longer holds it. |
| Strings.WithoutAppend | advanced_string_nodes.py:296-297 | Removing a character from two joined texts removes it from each part separately. |
| Strings.Join | string_nodes.py:33 | The joined length is the sum of the parts plus one separator between each two parts. |
| Strings.SplitOn | string_nodes.py:56-57 | `split(sep)` has one more part than there are disjoint occurrences of `sep`. |
| Strings.JoinSplitOn | string_nodes.py:56 | Joining the parts of a split with the same separator gives the text back. |
| Strings.SplitOnPartsFree | string_nodes.py:56 | No part of a split contains the separator. |
| Strings.ReplaceSplitJoin | string_nodes.py:87-92 | `replace` with k replacements equals splitting on the pattern and joining the first k+1 parts by the replacement and the rest by the pattern. |
| Strings.ReplaceEmptyPattern | string_nodes.py:87-92 | `replace` with an empty pattern inserts the replacement at the first k of the \|s\|+1 places around the characters ("abc" becomes "-a-b-c-" with no count). |
| Strings.StripSpec | string_nodes.py:117-130 | `strip(chars)` removes a run of characters from `chars` at each end, and what remains starts and ends outside `chars`. |
| Strings.StripStripped | string_nodes.py:119 | A string with nothing to strip is left unchanged. |
| Strings.TrimIdempotent | advanced_string_nodes.py:231 | Stripping twice is the same as stripping once. |
| Strings.Words | string_nodes.py:155 | Every word of `split()` is non-empty and holds no whitespace. |
| Strings.WordsOfJoin | string_nodes.py:116 | Splitting words joined by single spaces gives the same words back. |
| Strings.SplitLines | string_nodes.py:157 | No line returned by `splitlines()` holds a line break. |
| Strings.SplitLinesOfJoin | text_transform_nodes.py:62 | Lines joined by "\n" split back into the same lines, provided the last line is not empty. |
| Strings.CleanLines | advanced_string_nodes.py:230-231 | Each cleaned line is non-empty, already stripped and free of line breaks. |
| Strings.StrippedNonBlank | advanced_string_nodes.py:231 | Stripping and dropping blank lines never adds lines, and every kept line is non-empty and stripped. |
| Strings.StrippedNonBlankFixed | advanced_string_nodes.py:231 | Lines that are already stripped and non-blank pass through unchanged. |
| Strings.JoinStripped | advanced_string_nodes.py:233 | Joining non-empty pieces whose ends lie outside `chars` leaves nothing to strip. |
| Strings.SplitOnJoinNewline | advanced_string_nodes.py:230 | Splitting on "\n" undoes joining lines that hold no "\n". |
| Strings.NatToString | string_nodes.py:161 | `str(n)` is a non-empty string of decimal digits. |
| Strings.ParseNatToString | string_nodes.py:161 | Reading the digits of `str(n)` gives `n` back, so distinct counts print differently. |
| Strings.PySlice | advanced_string_nodes.py:335 | A slice is never longer than the text, and with bounds inside the text it is the plain sub-sequence. |
| Strings.SliceBound | advanced_string_nodes.py:353 | A slice bound is clamped into the sequence. |
| Strings.SubsequenceMembers | node_package_loader.py:199-202 | Everything in a subsequence comes from the original. |
| Strings.SubsequencePairs | node_package_loader.py:199-202 | Any relation between every earlier and later element survives in a subsequence, so a filter keeps a sorted order. |
| Ordering.LexLessIrreflexive | text_transform_nodes.py:93 | No string sorts before itself. |
| Ordering.LexLessTransitive | text_transform_nodes.py:93 | String order is transitive. |
| Ordering.LexLessTotal | text_transform_nodes.py:93 | Any two distinct strings are ordered one way or the other. |
| Ordering.KeyLessIrreflexive | node_package_loader.py:190-194 | No tuple key sorts before itself. |
| Ordering.KeyLessTransitive | node_package_loader.py:190-194 | Tuple-key order is transitive. |
| Ordering.KeyLessTotal | node_package_loader.py:190-194 | Any two distinct tuple keys are ordered one way or the other. |
| Ordering.Insert | node_package_loader.py:188-195 | Inserting adds exactly one copy of the element. |
| Ordering.SortBy | node_package_loader.py:188-195 | The sort returns a permutation of its input. |
| Ordering.InsertSorted | node_package_loader.py:188-195 | Inserting into a sorted list keeps it sorted. |
| Ordering.SortSorted | node_package_loader.py:188-195 | The sort's output is ordered by the key, ascending or (with `reverse`) descending. |
| Ordering.WithKey | text_transform_nodes.py:104 | The elements with a given key are drawn from the list and carry that key. |
| Ordering.SortStable | text_transform_nodes.py:104 | The sort is stable: elements with equal keys keep their relative order. |
| Ordering.SortUnique | node_package_loader.py:188-195 | When no two elements share a key, there is only one sorted permutation. |
| StringNodes.Concatenate | string_nodes.py:27-34 | The first two texts are always joined; the third and fourth are joined only when non-empty. |
| StringNodes.StringSplit | string_nodes.py:55-66 | An empty separator is an error. Otherwise the count is the number of parts, index -1 gives all parts newline-joined, an index past the end gives "", and any other index gives that part. |
| StringNodes.SplitPartOfText | string_nodes.py:55-66 | The parts join back to the text, and the selected part holds no separator. |
| StringNodes.StringReplace | string_nodes.py:87-92 | For a non-empty pattern the result is the text split on the pattern, joined back with the replacement at the first k separators and with the pattern after them, where k is the number of replacements. Count -1 joins every part with the replacement, count n replaces at most n, and count 0 changes nothing. An empty pattern puts the replacement before each of the first k characters, and at the end when k is one more than the length. The length changes by k times the length difference. |
| StringNodes.ReplaceContent | string_nodes.py:87-92 | The replaced text is the split text joined back, by the replacement at the replaced separators and by the pattern at the rest. With count -1 every part is joined by the replacement. |
| StringNodes.StringReplaceEnough | string_nodes.py:88-91 | Any count at least the number of occurrences acts like -1. |
| StringNodes.ReplaceAbsent | string_nodes.py:87-92 | An absent non-empty pattern leaves the text unchanged, whatever the count. |
| StringNodes.TrimSet | string_nodes.py:117-130 | The character set is never empty: it defaults to whitespace. |
| StringNodes.StringTrim | string_nodes.py:114-131 | The left trim leaves a suffix of the text that starts outside the set, and the right trim a prefix that ends outside it. Both ends give the slice of the text left after removing every set character at each end, with nothing left to strip. Mode 所有空白 keeps the words, puts single spaces between them and leaves no whitespace at the ends. |
| StringNodes.TrimSidesSpec | string_nodes.py:120-130 | The left and right trims remove only characters of the set. |
| StringNodes.TrimAllWhitespace | string_nodes.py:115-116 | Joining the words of a text with single spaces keeps the words and leaves no whitespace at the ends. |
| StringNodes.Utf8Width | string_nodes.py:159 | A character takes 1 to 4 UTF-8 bytes, and 1 exactly when it is ASCII. |
| StringNodes.Utf8Length | string_nodes.py:159 | The byte length lies between the character count and four times it, and equals the count exactly for ASCII text. |
| StringNodes.StringLength | string_nodes.py:151-162 | Character mode counts characters. Word mode counts word starts. Line mode counts line breaks plus an unterminated last line. Byte mode is bounded by the UTF-8 widths. The info line repeats the length and the mode. |
| StringNodes.WordCountSpec | string_nodes.py:155 | The number of words of `split()` is the number of word starts. |
| StringNodes.LineCountSpec | string_nodes.py:157 | `splitlines()` yields one line per "\n", plus one for a non-empty text not ending in "\n". |
| StringNodes.Copies | string_nodes.py:186 | `[text] * n` has max(n, 0) copies, all equal to the text. |
| StringNodes.StringRepeat | string_nodes.py:184-189 | A non-positive count gives "". Otherwise the result is n copies joined by the separator. |
| StringNodes.RepeatIsJoin | string_nodes.py:185-188 | `text * n` equals joining n copies with "", so both branches agree. |
| StringNodes.RepeatLength | string_nodes.py:185-188 | The length is n·\|text\| + (n−1)·\|sep\| for n ≥ 1, and n·\|text\| without a separator. |
| StringNodes.AdjustBound | string_nodes.py:211-214 | Slice bounds are adjusted into [0, len] for a positive step and into [-1, len) for a negative one. |
| StringNodes.SteppedProgression | string_nodes.py:211-214 | The stepped characters are exactly text[i], text[i+step], … for every index strictly on the start's side of the stop, and the next index would reach or pass the stop. This fixes how many characters there are and which ones they are. |
| StringNodes.StringSlice | string_nodes.py:210-215 | A zero step is an error. Otherwise the slice is the progression from the adjusted start, by the step, up to the adjusted end. An end of -1 means "to the end" (or to the beginning for a negative step). |
| StringNodes.SliceEnd | string_nodes.py:211-214 | The adjusted end lies in [0, len] for a positive step and in [-1, len) for a negative one. |
| StringNodes.SliceStepOne | string_nodes.py:211-214 | With step 1 the slice is the plain slice between the bounds, and an end of -1 means the end of the text. |
| StringNodes.Reversed | string_nodes.py:236 | Reversal keeps the length and mirrors the positions. |
| StringNodes.StringReverse | string_nodes.py:234-243 | Character mode mirrors the text position by position. |
| StringNodes.ReverseIsSlice | string_nodes.py:236 | Character reversal is the slice with step -1. |
| StringNodes.ReverseCharsInvolution | string_nodes.py:235-236 | Reversing the characters twice gives the text back. |
| StringNodes.ReverseWordsSpec | string_nodes.py:237-239 | Word mode yields the words in reverse order. |
| StringNodes.ReverseLinesSpec | string_nodes.py:240-242 | Line mode yields the lines in reverse order. |
| StringNodes.StringContains | string_nodes.py:316-328 | The flag holds exactly when the (lower-cased unless case-sensitive) search occurs. The position is then its first occurrence, and -1 otherwise. 是/否 follows the flag. |
| AdvancedStringNodes.StringJoin | advanced_string_nodes.py:229-239 | The result is the prefix, then the stripped non-blank lines joined by the separator, then the suffix. |
| AdvancedStringNodes.StringJoinIdempotent | advanced_string_nodes.py:230-233 | Joining with "\n" normalises the text, so a second pass changes nothing. |
| AdvancedStringNodes.Fill | advanced_string_nodes.py:264 | `c * n` has max(n, 0) copies of `c`. |
| AdvancedStringNodes.LJust | advanced_string_nodes.py:267 | `ljust` keeps the text as a prefix and pads with the fill character to max(width, \|text\|). |
| AdvancedStringNodes.RJust | advanced_string_nodes.py:269 | `rjust` keeps the text as a suffix and pads with the fill character to max(width, \|text\|). |
| AdvancedStringNodes.Center | advanced_string_nodes.py:271 | `center` places the text in the middle, and the left and right padding differ by at most one. |
| AdvancedStringNodes.StringPad | advanced_string_nodes.py:260-273 | The length is max(width, \|text\|), and only the first fill character (space by default) is added. Left mode keeps the text as a prefix and fills after it. Right mode keeps it as a suffix and fills before it. Center mode places the text after CPython's left margin, fills both sides, and the two margins differ by at most one. |
| AdvancedStringNodes.KeepNotIn | advanced_string_nodes.py:294-297 | The result is a subsequence of the text with no character from the set, and it is the whole text when none occurs. |
| AdvancedStringNodes.KeepNotInStep | advanced_string_nodes.py:296-297 | Removing one more character is the same as filtering by the larger set. |
| AdvancedStringNodes.RemoveEach | advanced_string_nodes.py:294-297 | The loop that replaces each character by "" in turn keeps exactly the characters outside the set. |
| AdvancedStringNodes.StringRemoveChars | advanced_string_nodes.py:293-305 | Mode `all` keeps the characters outside the set. `leading`, `trailing` and `both_ends` are `lstrip`, `rstrip` and `strip` with the set. |
| AdvancedStringNodes.ExtractBefore | advanced_string_nodes.py:339-343 | The result is the prefix up to the first occurrence of the marker, or the whole text when the marker is absent. |
| AdvancedStringNodes.ExtractAfter | advanced_string_nodes.py:345-349 | The result is the suffix after the first occurrence of the marker, or "" when the marker is absent. |
| AdvancedStringNodes.BeforeMarkerAfter | advanced_string_nodes.py:339-349 | Before, marker and after put together give the text back. |
| AdvancedStringNodes.ExtractBetweenAsWritten | advanced_string_nodes.py:331-337 | Mode `between` as written gives "" unless both markers occur. |
| AdvancedStringNodes.ExtractBetween | advanced_string_nodes.py:331-337 | Corrected `between`: the text after the first start marker, up to the first end marker after it. It is "" when no such end marker exists. |
| AdvancedStringNodes.BetweenAgrees | advanced_string_nodes.py:331-337 | When an end marker follows the start marker, the as-written and the corrected `between` agree. |
| AdvancedStringNodes.BetweenAsWrittenCounterexample | advanced_string_nodes.py:334-335 | For "]abc[def" with markers "[" and "]", the code as written gives "de" where "" is meant. |
| AdvancedStringNodes.EndOnlyBeforeStart | advanced_string_nodes.py:334-335 | Whenever the end marker occurs only before the start marker, the code as written drops the last character instead of returning "". |
| AdvancedStringNodes.ExtractLines | advanced_string_nodes.py:351-353 | `lines_range` gives lines line_start..line_end newline-joined, clamped to the lines that exist (lines 2..10 of a 3-line text are lines 2 and 3). It gives "" when the range is reversed. |
| AdvancedStringNodes.StringExtract | advanced_string_nodes.py:330-355 | Each mode is its extraction: `before`, `after`, `lines_range`, and `between` in its corrected form. `between` agrees with the code as written whenever an end marker follows the start marker. |
| AdvancedStringNodes.OccurrencesSkip | advanced_string_nodes.py:388-393 | Positions without an occurrence add nothing to the count. |
| AdvancedStringNodes.OccurrencesAtFind | advanced_string_nodes.py:388-393 | Each search step finds one occurrence and then resumes one position later without missing any. |
| AdvancedStringNodes.CountOverlapping | advanced_string_nodes.py:385-393 | The `overlap` loop counts every position where the search occurs. |
| AdvancedStringNodes.StringCount | advanced_string_nodes.py:377-398 | An empty search gives (0, "Search string is empty"). Otherwise, after optional lower-casing, the count is all occurrences (`overlap`) or the disjoint ones, and the info line reports it. |
| AdvancedStringNodes.DisjointAtMostOverlapping | advanced_string_nodes.py:385-395 | The disjoint count never exceeds the overlapping count. |
| AdvancedStringNodes.OccurrencesMonotone | advanced_string_nodes.py:388-393 | Starting later never finds more occurrences. |
| AdvancedStringNodes.OccurrencesShift | advanced_string_nodes.py:388-393 | Counting in a suffix is counting in the whole text from the same place. |
| TextTransformNodes.CleanedLines | text_transform_nodes.py:29-36 | No line holds a break. With `remove_empty` no line is empty, with `strip_lines` every line is stripped, and without removal the line count is kept. |
| TextTransformNodes.StripAll | text_transform_nodes.py:33 | Each line is replaced by its own strip, one for one. |
| TextTransformNodes.StripAllProperties | text_transform_nodes.py:33 | Stripped lines have nothing left to strip and gain no line break. |
| TextTransformNodes.NonEmpty | text_transform_nodes.py:36 | The kept lines are the non-empty ones, in order, and every non-empty line is kept. |
| TextTransformNodes.TextToLines | text_transform_nodes.py:29-41 | The text is the cleaned lines newline-joined, and `count` is their number. |
| TextTransformNodes.ToLinesCount | text_transform_nodes.py:38-39 | With empty lines removed, splitting the output again gives the same lines, so `count` is the number of lines in the output. |
| TextTransformNodes.Numbered | text_transform_nodes.py:65 | Line i (from 0) becomes "i+1. " followed by the line. |
| TextTransformNodes.TextFromLines | text_transform_nodes.py:61-68 | The lines are joined by the separator, numbered first when asked. |
| TextTransformNodes.FromLinesRoundTrip | text_transform_nodes.py:62-67 | Lines joined by "\n" come back unchanged through the node with separator "\n". |
| TextTransformNodes.NonBlank | text_transform_nodes.py:89 | The kept lines are a subsequence with something besides whitespace. |
| TextTransformNodes.SortedLines | text_transform_nodes.py:88-104 | The output is a permutation of the non-blank lines, ordered by the mode's key and reversed in `reverse` mode. |
| TextTransformNodes.TextSort | text_transform_nodes.py:88-110 | The result is the sorted lines newline-joined. |
| TextTransformNodes.SortAlphabeticalAscending | text_transform_nodes.py:91-93 | Case-sensitive alphabetical mode is ascending. |
| TextTransformNodes.SortByLength | text_transform_nodes.py:103-104 | Length mode orders lines by non-decreasing length. |
| TextTransformNodes.SortByLengthStable | text_transform_nodes.py:103-104 | In length mode, lines of equal length keep their input order. |
| TextTransformNodes.FirstOccurrencesSpec | text_transform_nodes.py:135-142 | The first occurrences form a subsequence of the lines that holds each key exactly once. |
| TextTransformNodes.FirstOccurrencesOrder | text_transform_nodes.py:135-142 | The kept lines are a subsequence of the input, in input order. |
| TextTransformNodes.FirstOccurrencesKeys | text_transform_nodes.py:135-142 | Every key of the input survives in the result. |
| TextTransformNodes.FirstOccurrencesDistinct | text_transform_nodes.py:135-142 | No key occurs twice in the result. |
| TextTransformNodes.FirstOccurrencesStep | text_transform_nodes.py:138-142 | Each further line is kept exactly when its key has not been seen. |
| TextTransformNodes.KeepFirstSeen | text_transform_nodes.py:135-142 | The loop with a `seen` set keeps exactly the first occurrence of each key. |
| TextTransformNodes.DistinctInSomeOrder | text_transform_nodes.py:145 | `list(set(lines))` holds every distinct line exactly once, in some order. |
| TextTransformNodes.FirstByLowerKey | text_transform_nodes.py:147-151 | The first-wins dictionary keyed by lower case yields the first line of each key, in first-seen order. |
| TextTransformNodes.LowerDictStep | text_transform_nodes.py:148-150 | One turn of the dictionary loop keeps the dictionary's invariant. |
| TextTransformNodes.TextUnique | text_transform_nodes.py:131-156 | `original_count` is the number of lines and `unique_count` never exceeds it. With order preserved, or ignoring case, the result is the first occurrence of each key in order. Otherwise it is each distinct line once. |
| TextTransformNodes.KeptSpec | text_transform_nodes.py:186-216 | The filter keeps a subsequence of the lines. A line that passes the mode's test is kept as often as it occurs, and any other line never. |
| TextTransformNodes.KeptMembers | text_transform_nodes.py:186-216 | A line is in the result exactly when it is an input line that passes the test. |
| TextTransformNodes.KeptCounts | text_transform_nodes.py:186-216 | Each passing line is kept exactly as many times as the input holds it, and a failing line zero times. |
| TextTransformNodes.TextFilter | text_transform_nodes.py:181-221 | The result is the kept lines newline-joined, and `count` is their number. |
| TextTransformNodes.ContainsPartition | text_transform_nodes.py:187-193 | `contains` and `not_contains` with the same value together return every line exactly as often as the input holds it. |
| TextTransformNodes.MapLineFrames | text_transform_nodes.py:249-274 | Every operation keeps the line whole and only adds text around it. `add_prefix` is value + line, and `number` without a value is "i. " + line. |
| TextTransformNodes.MappedLines | text_transform_nodes.py:249-274 | The line count is kept, and line k becomes its mapped form at position k+1. |
| TextTransformNodes.TextMap | text_transform_nodes.py:245-277 | The result is the mapped lines newline-joined. |
| NodePackageLoader.AddOneSpec | node_package_loader.py:150-155 | Offering one record keeps the stored records, keeps names unique, and stores the name of a named record. |
| NodePackageLoader.AddAllKeeps | node_package_loader.py:149-155 | The merge never moves or replaces a stored record. It keeps names unique and present, and stores every named record offered. |
| NodePackageLoader.AddAllFirst | node_package_loader.py:149-155 | First wins: the record stored under a name is the first with that name among the stored and then the offered records. |
| NodePackageLoader.StoredFirst | node_package_loader.py:150-155 | In a dictionary without duplicate names, each stored record is the first with its name. |
| NodePackageLoader.AddAllConcat | node_package_loader.py:158-180 | Merging list after list is merging their concatenation. |
| NodePackageLoader.NodeMap.Values | node_package_loader.py:147 | The dictionary's values are listed in key insertion order. |
| NodePackageLoader.NodeMap.constructor | node_package_loader.py:147 | The dictionary starts empty. |
| NodePackageLoader.NodeMap.AddNodes | node_package_loader.py:149-155 | `add_nodes` changes the dictionary to the first-wins merge of the old values with the list. |
| NodePackageLoader.NodeMap.Offer | node_package_loader.py:151-155 | One record is skipped when unnamed or already present, and appended otherwise. |
| NodePackageLoader.NodeMap.AddFiles | node_package_loader.py:173-180 | The per-file pass merges the records of every file except `__init__.py`, in listing order. |
| NodePackageLoader.LoadFromFile | node_package_loader.py:339-340 | A file whose text never mentions NODE_CLASS_MAPPINGS yields no record. |
| NodePackageLoader.InitFileSkipped | node_package_loader.py:173-175 | Files named `__init__.py` contribute nothing to the per-file pass. |
| NodePackageLoader.CategoryFilterSpec | node_package_loader.py:198-202 | The filter keeps, in order, exactly the records whose lower-cased category contains the lower-cased filter. |
| NodePackageLoader.CategoryFilterKeeps | node_package_loader.py:198-202 | Filtering keeps the list sorted and the names unique. |
| NodePackageLoader.PermutationUniqueNames | node_package_loader.py:188-195 | Reordering records keeps their names unique. |
| NodePackageLoader.NodeOrderUnique | node_package_loader.py:188-195 | The sorted list does not depend on the order in which the dictionary was filled. |
| NodePackageLoader.IndexStep | node_package_loader.py:205-209 | One turn of the category loop keeps the category index. |
| NodePackageLoader.GroupByCategory | node_package_loader.py:205-209 | Each class name is filed under its own category, in list order. The category order is `CategoryOrder`, so categories come in first-seen order, each once. The group sizes add up to the number of nodes. |
| NodePackageLoader.ScanPackage | node_package_loader.py:137-211 | The scan returns the merged, sorted and filtered node list, with its category index. |
| NodePackageLoader.MergedInOrder | node_package_loader.py:157-180 | Import results, then `__init__.py`, then the other files are merged as one list. |
| NodePackageLoader.ScannedNodesOrdered | node_package_loader.py:188-202 | The scanned list has unique, present class names and is sorted by (category, display name or class name, class name). |
| NodePackageLoader.ScannedNodesFirst | node_package_loader.py:149-202 | Each listed record is the first one offered under its name and passes the filter. The first record under any name is listed exactly when it passes the filter. |
| NodePackageLoader.ScannedMembers | node_package_loader.py:147-202 | The scan lists exactly the merged records that pass the filter. |
| NodePackageLoader.MergedHasFirst | node_package_loader.py:149-155 | The first record offered under a name is the one merged. |
| NodePackageLoader.FormatSimple | node_package_loader.py:454-468 | The plain listing fails with a missing `display_name` key exactly when some node lacks one. Otherwise the text is the package, node-count and category-count lines followed by either one line per category in sorted order with its sorted class names, or one line of the sorted display names, all newline-joined. |
| NodePackageLoader.CategoryLinesSorted | node_package_loader.py:462-463 | Categories are listed once each, in strictly ascending order. |
| NodePackageLoader.LoadNodes | node_package_loader.py:72-135 | A missing path or a non-directory gives the error text, count 0 and no names. Otherwise the count is the number of scanned nodes and the list is their class names in order. Only the text format returns a text: the simple rendering of the scanned package, starting with the package line. |
| WorkflowGenerator.RoundSqrt | workflow_generator.py:275 | `int(sqrt(t) + 0.5)` is the integer nearest to √t, stated without floating point. |
| WorkflowGenerator.ScaledSqrt | workflow_generator.py:293 | `int(sqrt(t) * 1.5)` is the largest c with c ≤ 1.5·√t, stated without floating point. |
| WorkflowGenerator.PositionBounds | workflow_generator.py:260-307 | Vertical keeps x at 50 and horizontal keeps y at 50. With non-negative spacing no node lies left of or above the anchor, and the grids stay within their columns. |
| WorkflowGenerator.LinearLayouts | workflow_generator.py:281-289 | Vertical and horizontal layouts start at the anchor and step by exactly one spacing per node. |
| WorkflowGenerator.GridPlacement | workflow_generator.py:273-279 | The grid has at least 3 columns and places index = row·cols + col at (50 + col·sx, 50 + row·sy). |
| WorkflowGenerator.FallbackPlacement | workflow_generator.py:299-305 | An unknown layout is a 3-column grid anchored at (50, 50). |
| WorkflowGenerator.CellsDistinct | workflow_generator.py:273-279 | With positive spacings, distinct indices get distinct grid cells. |
| WorkflowGenerator.TruncScaledStrict | workflow_generator.py:296-297 | Truncating 0.7 times a spacing multiple stays strictly increasing for spacings of at least 2. |
| WorkflowGenerator.CompactCellsDistinct | workflow_generator.py:291-297 | With spacings of at least 2, distinct indices get distinct compact cells. |
| WorkflowGenerator.PositionsDistinct | workflow_generator.py:260-307 | With spacings of at least 2, no two nodes share a position in any layout. |
| WorkflowGenerator.Types | workflow_generator.py:237 | There is one node type per node. |
| WorkflowGenerator.CreateWorkflow | workflow_generator.py:191-258 | There is one node per record, and node k has id k+1, order k and the k-th record's class name as type, class type and S&R name. A description appears exactly when the record has a non-empty one. `last_node_id` is N, `last_link_id` is 0, links and groups are empty, and a shuffle only permutes the types. |
| WorkflowGenerator.NamesPermutation | workflow_generator.py:201-205 | Permuting the records permutes their class names. |
| WorkflowGenerator.NodeIdsDistinct | workflow_generator.py:226-236 | Node ids are distinct and lie in 1..`last_node_id`. |
| WorkflowGenerator.DedupDirsSpec | workflow_generator.py:359-366 | The de-duplicated directories keep priority order, lose no key and hold no key twice. |
| WorkflowGenerator.DedupStep | workflow_generator.py:361-365 | A directory is kept exactly when its key has not been seen. |
| WorkflowGenerator.WorkflowDirectories | workflow_generator.py:351-366 | The loop with a `seen` set yields exactly the first directory of each key. |
| WorkflowGenerator.FileNameRoundTrip | workflow_generator.py:339 | The package name can be read back from the automatic file name. |
| WorkflowGenerator.FirstCreatable | workflow_generator.py:324-332 | The chosen directory is a candidate that can be created, and there is none exactly when no candidate can be. |
| WorkflowGenerator.SaveWorkflow | workflow_generator.py:309-349 | A non-blank output path is used as given. Otherwise the file goes to the automatic name in the first directory that can be created, or in the fallback directory. |
| WorkflowGenerator.RemovedSpec | workflow_generator.py:388-399 | A path is removed from a directory exactly when its name passes the prefix and keyword test and unlinking it succeeds. |
| WorkflowGenerator.DeletionsSpec | workflow_generator.py:384-399 | A path is deleted exactly when it is removed from some existing directory. |
| WorkflowGenerator.RemoveMatching | workflow_generator.py:388-399 | The inner loop collects exactly the removed paths of one directory, in order. |
| WorkflowGenerator.DeleteWorkflows | workflow_generator.py:368-400 | Blank filters (after trimming) delete nothing. Otherwise the trimmed filters are applied to every existing de-duplicated directory. |
| WorkflowGenerator.GenerateWorkflow | workflow_generator.py:95-189 | A missing package or no nodes gives the error and count 0. Otherwise node k has id k+1 and the position the layout gives it, `last_node_id` is the node count, and the types are the scanned class names in order. With a seeded shuffle, node k is the k-th node of that permutation. The path is the save path when saving. |
| WorkflowGenerator.ManualRecords | workflow_generator.py:478-486 | There is one record per typed name, carrying that name. |
| WorkflowGenerator.WorkflowFromList | workflow_generator.py:453-521 | No usable line gives the error and count 0. Otherwise the node types are the stripped non-blank lines in order, and no node has a description. |
| WorkflowGenerator.FromListKeepsNames | workflow_generator.py:466-470 | Names that are already clean, typed one per line, come back as the node types unchanged. |
| QuickLoadByName.PackageNamesSpec | quick_load_by_name.py:35-42 | A name is listed exactly when some entry with it is a visible directory holding Python code. |
| QuickLoadByName.CustomNodesList | quick_load_by_name.py:23-54 | The collect-then-sort method yields the package list. |
| QuickLoadByName.PackageListSpec | quick_load_by_name.py:30-54 | The list is never empty. Its placeholder is 未找到节点包 when nothing qualifies and 扫描失败 when listing fails. Otherwise it holds the qualifying names, each as often as it occurs, in ascending order. |
| QuickLoadByName.LayoutFor | quick_load_by_name.py:355-386 | 紧凑布局 is compact 350×220, 宽松布局 is grid 550×350, and anything else is grid 450×300. |
| QuickLoadByName.LayoutLabel | quick_load_by_name.py:357-386 | The label is the mode itself exactly for the three named modes, and it looks up the same configuration. |
| QuickLoadByName.LayoutPositionsDistinct | quick_load_by_name.py:363-385 | Every mode spaces nodes so that no two share a position. |
| QuickLoadByName.EditWithKeeps | quick_load_by_name.py:146-161 | Presets other than the added and the removed one are unchanged. |
| QuickLoadByName.EditWithStores | quick_load_by_name.py:146-153 | An added preset is stored and selected. |
| QuickLoadByName.FillFromPreset | quick_load_by_name.py:163-169 | An empty filter takes the selected preset's value. |
| QuickLoadByName.ApplyPresets | quick_load_by_name.py:144-181 | The step-by-step preset block computes the cleanup plan. |
| QuickLoadByName.EditPart | quick_load_by_name.py:146-161 | Adding and then removing presets computes the edited presets and the selection. |
| QuickLoadByName.FillPart | quick_load_by_name.py:163-169 | Each filter is filled from the preset only when it is empty. |
| QuickLoadByName.PresetEdits | quick_load_by_name.py:146-161 | Adding stores the trimmed name with the trimmed filters, removing deletes the trimmed name, and no other preset changes. |
| QuickLoadByName.OtherPresetsKept | quick_load_by_name.py:146-161 | Presets that are neither added nor removed keep their presence and value. |
| QuickLoadByName.AddedPresetStored | quick_load_by_name.py:146-150 | An added preset holds the trimmed prefix and keyword. |
| QuickLoadByName.PlanTrimmed | quick_load_by_name.py:180-181 | The planned filters are already trimmed. |
| QuickLoadByName.AddedPresetApplies | quick_load_by_name.py:146-169 | A preset added in the same call is selected and supplies both filters when none is typed. |
| QuickLoadByName.TypedFiltersWin | quick_load_by_name.py:166-169 | A typed filter always wins over the preset. |
| QuickLoadByName.RemovedPresetNotApplied | quick_load_by_name.py:155-169 | A removed preset is gone and never supplies a filter. |
| QuickLoadByName.StoredPresetApplies | quick_load_by_name.py:163-169 | A selected stored preset fills both empty filters with its trimmed values. |
| QuickLoadByName.DefaultPresetCoversGeneratedFiles | quick_load_by_name.py:477-491 | Without a preset file, the default preset selects prefix "workflow", which matches every automatically named workflow file. |
| QuickLoadByName.GeneratedNameSelected | workflow_generator.py:339 | Every automatic file name passes the deletion test with prefix "workflow". |
| QuickLoadByName.LastIndex | quick_load_by_name.py:435 | `rfind` returns the last position of the character, or -1. |
| QuickLoadByName.StemOfFile | quick_load_by_name.py:435 | The stem of a file saved under the automatic name is `workflow_<pkg>_all_nodes`. |
| QuickLoadByName.BatchNameOfFile | quick_load_by_name.py:435 | The corrected recovery returns the package name from any automatic file path. |
| QuickLoadByName.SavePathAuto | workflow_generator.py:318-340 | With no output path, the file is the automatic name in the chosen directory. |
| QuickLoadByName.BatchNameOfSavePath | quick_load_by_name.py:435 | The corrected recovery names the package of every file a batch writes. |
| QuickLoadByName.BatchNameAsWrittenCounterexample | quick_load_by_name.py:435 | The package "workflow_x" is reported as "x" by the code as written, and as "workflow_x" by the corrected recovery. |
| QuickLoadByName.BatchNameAsWrittenMerges | quick_load_by_name.py:435 | The package "myworkflow" holds neither "workflow_" nor "_all_nodes", yet the code as written reports it as "myall_nodes". The corrected recovery gives "myworkflow". |
| QuickLoadByName.BatchNameAsWrittenOfFile | quick_load_by_name.py:435 | The code as written recovers a package name from its automatic file name when the name holds no "_" and does not end in "workflow". |
| QuickLoadByName.BatchNameAsWrittenOfSavePath | quick_load_by_name.py:435 | On such names, the code as written reports every batch file under the package it was generated for. |
| QuickLoadByName.PreviewLines | quick_load_by_name.py:421-422 | There is one "  - name" line per path, showing only its file name. |
| QuickLoadByName.CleanupPart | quick_load_by_name.py:410-424 | The cleanup lines, built one by one, are the cleanup section. |
| QuickLoadByName.PreviewPart | quick_load_by_name.py:421-422 | The preview loop builds the preview lines. |
| QuickLoadByName.BatchPart | quick_load_by_name.py:434-437 | The batch loop builds two lines per written workflow, naming each by the corrected recovery. |
| QuickLoadByName.GenerateInstructions | quick_load_by_name.py:388-474 | The report is its lines newline-joined; batch lines name packages by the corrected recovery. |
| QuickLoadByName.CleanupSectionShape | quick_load_by_name.py:410-424 | The cleanup section appears only when a filter is set. It reports the count, lists at most the first five files by name, and ends with "  ..." exactly when more than five were deleted. |
| QuickLoadByName.CleanupListed | quick_load_by_name.py:420-422 | The first min(5, n) deleted files are listed by name, in order. |
| QuickLoadByName.CleanupEllipsis | quick_load_by_name.py:423-424 | "  ..." appears exactly when more than five files were deleted. |
| QuickLoadByName.BatchLinesSpec | quick_load_by_name.py:434-437 | Workflow k gets line 2k with its number, package (corrected recovery) and count, and line 2k+1 with its path. |
| QuickLoadByName.Paths | quick_load_by_name.py:300 | The paths of the results, in order. |
| QuickLoadByName.BatchResultsSpec | quick_load_by_name.py:213-248 | Exactly the packages that exist and yield nodes are written, each with a positive count. |
| QuickLoadByName.TotalCountBound | quick_load_by_name.py:299 | The total is at least the number of files written. |
| QuickLoadByName.BatchReportNames | quick_load_by_name.py:435 | With the corrected recovery, the report names a listed, generating package for every written file. |
| QuickLoadByName.BatchReportNamesAsWritten | quick_load_by_name.py:435 | With the code as written, and no package name holding "_" or ending in "workflow", the report names a listed, generating package for every written file. |
| QuickLoadByName.GenerateAll | quick_load_by_name.py:213-251 | The batch loop collects the batch results. |
| QuickLoadByName.LoadNothing | quick_load_by_name.py:321-335 | With nothing generated, the output is empty apart from the report saying so. |
| QuickLoadByName.LoadBatch | quick_load_by_name.py:296-302 | Batch mode returns no workflow, the newline-joined paths, the summed count and the report. With no result it returns the nothing-generated output. |
| QuickLoadByName.LoadSingle | quick_load_by_name.py:252-293 | A missing package path or no nodes gives its error. Otherwise the output is the workflow, the saved path, the node count and the report. Node k of the workflow has id k+1 and sits where the chosen layout configuration puts it. |
| QuickLoadByName.SingleNodesApart | quick_load_by_name.py:252-293 | Whatever the layout mode, no two nodes of the generated workflow share a position. |
| QuickLoadByName.QuickLoad | quick_load_by_name.py:120-342 | A placeholder package is refused before any deletion. Otherwise the plan's files are deleted, then nothing, the batch or the single package is generated, the single package laid out by the mode's configuration. The presets end as planned. |

## Left out

- Rendering as JSON (`json.dumps`, `_format_json`), the text of `_format_detailed`, the `config`, `extra` and `version` keys of a workflow document, and the constant per-node keys `flags`, `inputs`, `outputs` and `widgets_values`. Their text is not modelled.
- The regular-expression scrape in `_load_from_file`. It becomes the `scraped` field of a source file, used once the file mentions NODE_CLASS_MAPPINGS.
- `_load_via_import` and `_load_from_init`. They become opaque record lists (`imported`, `initFile`).
- The `errors` list of `_scan_package`, filled when a file cannot be read. It is not modelled.
- Exceptions raised inside the outer `try` blocks. These include `[错误] 加载失败` of `quick_load_by_name`, `[ERROR] 生成失败` of the generators, and the per-package exception of the batch loop. The one exception path modelled is the missing `display_name` key of `_format_simple`.
- Filesystem effects. The model takes as inputs the directory listings, the existence checks, the `mkdir` and `unlink` outcomes, the preset file's content and the resolved keys. Writing the workflow file, writing the preset file and path normalisation (`absolute`, `resolve`, backslashes) are not modelled.
- Random choices. The seeded shuffle of `generate_workflow` is a permutation of the scanned nodes that the caller supplies; `random.Random(seed)` itself is not modelled, and every caller in the package passes no seed. `TextSort`'s random mode and `TextRandomString` are not modelled.
- WorkflowGenerator.CompactCell: computes `col·spacing·7/10` exactly. The source multiplies by the float 0.7, and `350 * 0.7` is 244.99999999999997, so the source can place a compact node one unit further left or up.
- WorkflowGenerator.RoundSqrt: the nearest integer to √t is characterised exactly. Float rounding of `sqrt` for very large totals is not modelled.
- Non-ASCII behaviour of `lower()` and `isspace()`, and line breaks other than "\n" in `splitlines()`.
- The regex nodes, `TextFilter`'s regex mode, `StringCase`, `StringFormat`, `StringTemplate`, `TextHash`, the base64 nodes and `TextRandomString`. They depend on Python's `re`, format mini-languages, hashing or encoding libraries.
- `INPUT_TYPES`, the node registration dictionaries, and the Chinese/English input aliases of `quick_load_by_name`. The model takes the resolved inputs as one request.
- Console output (`print`, tracebacks).
- StringNodes.StringSplit: requires index ≥ -1, the minimum the node declares for that input. More negative indices are not modelled.
- StringNodes.ReverseLinesSpec: assumes the text does not start with "\n". Otherwise the reversed text ends in a blank line that `splitlines()` drops.
- StringNodes.StringLength: byte mode is stated by its bounds. The exact count is `Utf8Length`.
- TextTransformNodes.TextUnique: in case-sensitive mode without preserved order, the result is each distinct line once, in an order the caller cannot rely on, because `list(set(...))` fixes none.
- NodePackageLoader.LoadNodes: the JSON and detailed renderings are represented as no text. Only the text format's text is modelled.

- QuickLoadByName.BatchPart: names each batch file by the corrected recovery `BatchName`. The code as written strips every "workflow_" and "_all_nodes" from the stem (`BatchNameAsWritten`), which differs for names such as "workflow_x" and "myworkflow". `BatchNameAsWrittenOfFile` gives the names on which both agree.
- QuickLoadByName.BatchLinesSpec: states line 2k with the corrected package name, not the source's replace chain. The two differ as described for `BatchPart`.
- QuickLoadByName.GenerateInstructions: its batch lines use the corrected package name, as for `BatchPart`.
- QuickLoadByName.LoadBatch: its report goes through `GenerateInstructions` and so uses the corrected package name.
- QuickLoadByName.ItemLine: names the package by the corrected recovery, and so do `BatchLines` and `ReportLines`, which build on it.
- QuickLoadByName.QuickLoad: in batch mode the report names packages by the corrected recovery, as for `BatchPart`.
- AdvancedStringNodes.StringExtract: mode `between` is the corrected `ExtractBetween`. When the end marker occurs only before the start marker, the code as written returns the text after the start marker minus its last character instead of "" (`EndOnlyBeforeStart`).

## Findings

| source | as written | input that shows it | evidently intended | confidence | as-written member | corrected member |
|---|---|---|---|---|---|---|
| advanced_string_nodes.py:331-337 | `between` checks only that both markers occur anywhere. `find(end, start_idx)` can then return -1, and the slice `text[start_idx:-1]` drops the last character. | text "]abc[def", start "[", end "]" gives "de" | "" when no end marker follows the start marker | not executed | AdvancedStringNodes.BetweenAsWrittenCounterexample | AdvancedStringNodes.ExtractBetween |
| quick_load_by_name.py:435 | The batch report deletes every "workflow_" and every "_all_nodes" from the file stem, including those inside the package name. | package "workflow_x" is reported as "x"; package "myworkflow" as "myall_nodes" | the package name, with only the file name's own prefix and suffix removed | not executed | QuickLoadByName.BatchNameAsWrittenCounterexample | QuickLoadByName.BatchNameOfSavePath |
