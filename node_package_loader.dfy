/**
 * The node-package scanner: node records gathered from several sources and
 * merged with first-wins precedence into a dictionary keyed by class name,
 * the sorted and category-filtered node list, the category index and the
 * plain-text summary.
 */
module NodePackageLoader {
  import opened Wrappers
  import opened Strings
  import opened Ordering

  /** One node record as the scanner collects it. A record whose
      `class_name` is absent and one whose `class_name` is empty are both
      represented by `className == ""`: the scanner treats them alike. */
  datatype NodeRecord = NodeRecord(
    className: string,
    displayName: Option<string>,
    category: Option<string>,
    sourceFile: string,
    description: string)

  function Names(rs: seq<NodeRecord>): (r: seq<string>)
    ensures |r| == |rs|
    ensures forall i :: 0 <= i < |rs| ==> r[i] == rs[i].className
  {
    seq(|rs|, i requires 0 <= i < |rs| => rs[i].className)
  }

  predicate Distinct<T(==)>(s: seq<T>) {
    forall i, j :: 0 <= i < j < |s| ==> s[i] != s[j]
  }

  predicate UniqueNames(rs: seq<NodeRecord>) {
    forall i, j :: 0 <= i < j < |rs| ==> rs[i].className != rs[j].className
  }

  /** Records as a dictionary keeps them: named, and no name twice. */
  predicate WellFormed(rs: seq<NodeRecord>) {
    UniqueNames(rs) && forall r <- rs :: r.className != []
  }

  // ---------------------------------------------------------------------
  // The `add_nodes` merge (first wins)
  // ---------------------------------------------------------------------

  /** One record offered to the dictionary: skipped when unnamed or when
      its name is already present, appended otherwise. */
  function AddOne(rs: seq<NodeRecord>, n: NodeRecord): seq<NodeRecord> {
    if n.className == [] || n.className in Names(rs) then rs else rs + [n]
  }

  /** The dictionary's values after offering every record of `list`. */
  function AddAll(rs: seq<NodeRecord>, list: seq<NodeRecord>): seq<NodeRecord>
    decreases |list|
  {
    if list == [] then rs else AddAll(AddOne(rs, list[0]), list[1..])
  }

  /** The first record of `s` named `name`. */
  function FirstNamed(s: seq<NodeRecord>, name: string): Option<NodeRecord>
    decreases |s|
  {
    if s == [] then None
    else if s[0].className == name then Some(s[0])
    else FirstNamed(s[1..], name)
  }

  lemma {:induction false} FirstNamedAppend(a: seq<NodeRecord>, b: seq<NodeRecord>, name: string)
    ensures FirstNamed(a + b, name)
         == if name in Names(a) then FirstNamed(a, name) else FirstNamed(b, name)
    decreases |a|
  {
    if a == [] {
      assert a + b == b;
    } else {
      assert (a + b)[0] == a[0] && (a + b)[1..] == a[1..] + b;
      assert Names(a) == [a[0].className] + Names(a[1..]);
      if a[0].className != name {
        FirstNamedAppend(a[1..], b, name);
      }
    }
  }

  lemma {:induction false} FirstNamedDistinct(rs: seq<NodeRecord>, k: nat)
    requires UniqueNames(rs) && k < |rs|
    ensures FirstNamed(rs, rs[k].className) == Some(rs[k])
    decreases k
  {
    if k > 0 {
      assert rs[1..][k - 1] == rs[k];
      FirstNamedDistinct(rs[1..], k - 1);
    }
  }

  lemma {:induction false} AddAllConcat(rs: seq<NodeRecord>, a: seq<NodeRecord>, b: seq<NodeRecord>)
    ensures AddAll(AddAll(rs, a), b) == AddAll(rs, a + b)
    decreases |a|
  {
    if a == [] {
      assert a + b == b;
    } else {
      assert (a + b)[0] == a[0] && (a + b)[1..] == a[1..] + b;
      AddAllConcat(AddOne(rs, a[0]), a[1..], b);
    }
  }

  lemma AddOneSpec(rs: seq<NodeRecord>, h: NodeRecord)
    requires WellFormed(rs)
    ensures var r := AddOne(rs, h);
      && WellFormed(r) && rs <= r
      && (h.className != [] ==> h.className in Names(r))
  {
    if h.className != [] && h.className !in Names(rs) {
      var r := rs + [h];
      forall i, j | 0 <= i < j < |r|
        ensures r[i].className != r[j].className
      {
        if j == |rs| {
          assert Names(rs)[i] == r[i].className;
        }
      }
      assert Names(r)[|rs|] == h.className;
    }
  }

  /** Merging never moves or replaces a stored record, keeps every name
      unique, and stores the name of every named record offered. */
  lemma AddAllKeeps(rs: seq<NodeRecord>, list: seq<NodeRecord>)
    requires WellFormed(rs)
    ensures rs <= AddAll(rs, list)
    ensures WellFormed(AddAll(rs, list))
    ensures forall n <- list :: n.className != [] ==> n.className in Names(AddAll(rs, list))
  {
    AddAllGrows(rs, list);
    AddAllStores(rs, list);
  }

  lemma {:induction false} AddAllGrows(rs: seq<NodeRecord>, list: seq<NodeRecord>)
    requires WellFormed(rs)
    ensures rs <= AddAll(rs, list) && WellFormed(AddAll(rs, list))
    decreases |list|
  {
    if list != [] {
      AddOneSpec(rs, list[0]);
      AddAllGrows(AddOne(rs, list[0]), list[1..]);
    }
  }

  lemma {:induction false} AddAllStores(rs: seq<NodeRecord>, list: seq<NodeRecord>)
    requires WellFormed(rs)
    ensures forall n <- list :: n.className != [] ==> n.className in Names(AddAll(rs, list))
    decreases |list|
  {
    if list != [] {
      var h := list[0];
      var rs' := AddOne(rs, h);
      var r := AddAll(rs, list);
      assert r == AddAll(rs', list[1..]);
      AddOneSpec(rs, h);
      AddAllStores(rs', list[1..]);
      AddAllGrows(rs', list[1..]);
      forall n <- list | n.className != []
        ensures n.className in Names(r)
      {
        if n != h {
          assert n in list[1..] by {
            assert list == [h] + list[1..];
          }
        } else {
          PrefixName(rs', r, n.className);
        }
      }
    }
  }

  lemma PrefixName(a: seq<NodeRecord>, b: seq<NodeRecord>, c: string)
    requires a <= b && c in Names(a)
    ensures c in Names(b)
  {
    var k :| 0 <= k < |a| && Names(a)[k] == c;
    assert Names(b)[k] == b[k].className == a[k].className;
  }

  /** First wins: the record stored under a name is the first record with
      that name among those already stored followed by those offered. */
  lemma {:induction false} AddAllFirst(rs: seq<NodeRecord>, list: seq<NodeRecord>)
    requires WellFormed(rs)
    ensures forall x <- AddAll(rs, list) :: FirstNamed(rs + list, x.className) == Some(x)
    decreases |list|
  {
    if list == [] {
      assert rs + list == rs;
      StoredFirst(rs);
    } else {
      var h, tail := list[0], list[1..];
      assert list == [h] + tail;
      AddOneSpec(rs, h);
      AddAllFirst(AddOne(rs, h), tail);
      AddAllFirstStep(rs, h, tail);
    }
  }

  lemma AddAllFirstStep(rs: seq<NodeRecord>, h: NodeRecord, tail: seq<NodeRecord>)
    requires WellFormed(rs)
    requires forall x <- AddAll(AddOne(rs, h), tail) ::
      FirstNamed(AddOne(rs, h) + tail, x.className) == Some(x)
    ensures forall x <- AddAll(AddOne(rs, h), tail) ::
      FirstNamed(rs + ([h] + tail), x.className) == Some(x)
  {
    var rs' := AddOne(rs, h);
    AddOneSpec(rs, h);
    AddAllGrows(rs', tail);
    if h.className != [] && h.className !in Names(rs) {
      assert rs' == rs + [h];
      SnocAssoc(rs, h, tail);
    } else {
      forall x <- AddAll(rs', tail)
        ensures FirstNamed(rs + ([h] + tail), x.className) == Some(x)
      {
        FirstNamedSkip(rs, h, tail, x.className);
      }
    }
  }

  lemma SnocAssoc<T>(a: seq<T>, x: T, b: seq<T>)
    ensures (a + [x]) + b == a + ([x] + b)
  {
  }

  /** In a dictionary's values every record is the first with its name. */
  lemma StoredFirst(rs: seq<NodeRecord>)
    requires WellFormed(rs)
    ensures forall x <- rs :: FirstNamed(rs, x.className) == Some(x)
  {
    forall x <- rs
      ensures FirstNamed(rs, x.className) == Some(x)
    {
      var k :| 0 <= k < |rs| && rs[k] == x;
      FirstNamedDistinct(rs, k);
    }
  }

  /** A record that the dictionary skips never is the first with any
      other name. */
  lemma FirstNamedSkip(rs: seq<NodeRecord>, h: NodeRecord, tail: seq<NodeRecord>, c: string)
    requires h.className == [] || h.className in Names(rs)
    requires c != []
    ensures FirstNamed(rs + ([h] + tail), c) == FirstNamed(rs + tail, c)
  {
    FirstNamedAppend(rs, [h] + tail, c);
    FirstNamedAppend(rs, tail, c);
    if c !in Names(rs) {
      assert h.className != c;
      assert ([h] + tail)[1..] == tail;
    }
  }

  /** The scanner's `node_map`: a dictionary from class name to record,
      which, like every Python dictionary, remembers insertion order. */
  class NodeMap {
    var keys: seq<string>
    var entries: map<string, NodeRecord>

    ghost predicate Valid()
      reads this
    {
      && Distinct(keys)
      && (forall k <- keys :: k in entries && k != [] && entries[k].className == k)
      && (forall k <- entries :: k in keys)
    }

    /** `node_map.values()`, in insertion order. */
    function Values(): (r: seq<NodeRecord>)
      reads this
      requires Valid()
      ensures Names(r) == keys
    {
      ValuesOf(keys, entries)
    }

    constructor ()
      ensures Valid() && keys == [] && entries == map[]
    {
      keys := [];
      entries := map[];
    }

    /** The `add_nodes` closure: offers every record of `list`. */
    method AddNodes(list: seq<NodeRecord>)
      requires Valid()
      modifies this
      ensures Valid()
      ensures Values() == AddAll(old(Values()), list)
    {
      ghost var start := Values();
      for i := 0 to |list|
        invariant Valid()
        invariant AddAll(Values(), list[i..]) == AddAll(start, list)
      {
        var node := list[i];
        ghost var before := Values();
        AddAllStep(before, list, i);
        Offer(node);
      }
      assert list[|list|..] == [];
    }

    /** Offers one record: stored under its name unless unnamed or the
        name is already present. */
    method Offer(node: NodeRecord)
      requires Valid()
      modifies this
      ensures Valid()
      ensures Values() == AddOne(old(Values()), node)
    {
      var name := node.className;
      assert name in Names(Values()) <==> name in entries;
      if name != [] && name !in entries {
        ValuesSnoc(keys, entries, node);
        keys := keys + [name];
        entries := entries[name := node];
      }
    }

    /** The walk over the listed files: every file but `__init__.py` is
        read and its records offered. */
    method AddFiles(files: seq<SourceFile>)
      requires Valid()
      modifies this
      ensures Valid()
      ensures Values() == AddAll(old(Values()), FileRecords(files))
    {
      ghost var start := Values();
      for i := 0 to |files|
        invariant Valid()
        invariant Values() == AddAll(start, FileRecords(files[..i]))
      {
        FileRecordsSnoc(files, i);
        AddAllConcat(start, FileRecords(files[..i]), FileLoad(files[i]));
        if files[i].name == "__init__.py" {
          continue;
        }
        var info := LoadFromFile(files[i]);
        if info != [] {
          AddNodes(info);
        }
      }
      assert files[..|files|] == files;
    }
  }

  /** The values of a dictionary given by its keys in insertion order. */
  function ValuesOf(ks: seq<string>, es: map<string, NodeRecord>): (r: seq<NodeRecord>)
    requires forall k <- ks :: k in es && es[k].className == k
    ensures Names(r) == ks
  {
    seq(|ks|, i requires 0 <= i < |ks| => es[ks[i]])
  }

  lemma ValuesSnoc(ks: seq<string>, es: map<string, NodeRecord>, node: NodeRecord)
    requires forall k <- ks :: k in es && es[k].className == k
    requires node.className !in es
    ensures var ks', es' := ks + [node.className], es[node.className := node];
      (forall k <- ks' :: k in es' && es'[k].className == k)
      && ValuesOf(ks', es') == ValuesOf(ks, es) + [node]
  {
    var ks', es' := ks + [node.className], es[node.className := node];
    forall k <- ks' ensures k in es' && es'[k].className == k {
      if k != node.className {
        assert k in ks;
      }
    }
    var a, b := ValuesOf(ks', es'), ValuesOf(ks, es) + [node];
    assert |a| == |b|;
    forall i | 0 <= i < |a| ensures a[i] == b[i] {
      if i < |ks| {
        assert ks[i] in ks;
      }
    }
  }

  lemma AddAllStep(v: seq<NodeRecord>, list: seq<NodeRecord>, i: nat)
    requires i < |list|
    ensures AddAll(v, list[i..]) == AddAll(AddOne(v, list[i]), list[i + 1..])
  {
    assert list[i..][0] == list[i] && list[i..][1..] == list[i + 1..];
  }

  // ---------------------------------------------------------------------
  // Sources of records
  // ---------------------------------------------------------------------

  /** A `.py` file of the package: its file name, its text, and the records
      the regular-expression scrape of that text yields. */
  datatype SourceFile = SourceFile(name: string, content: string, scraped: seq<NodeRecord>)

  /** What the scanner sees of a package directory: whether the stripped
      path exists and is a directory, its last path component, the records
      an import of the package yields, the records `__init__.py` yields when
      that file exists, and the `.py` files of the top level and of the
      whole tree. */
  datatype PackageDir = PackageDir(
    name: string,
    present: bool,
    isDir: bool,
    imported: seq<NodeRecord>,
    initFile: Option<seq<NodeRecord>>,
    topFiles: seq<SourceFile>,
    allFiles: seq<SourceFile>)

  /** `_load_from_file`: a file whose text never mentions the mapping name
      yields nothing. */
  function LoadFromFile(f: SourceFile): (r: seq<NodeRecord>)
    ensures !Contains(f.content, "NODE_CLASS_MAPPINGS") ==> r == []
    ensures Contains(f.content, "NODE_CLASS_MAPPINGS") ==> r == f.scraped
  {
    if !Contains(f.content, "NODE_CLASS_MAPPINGS") then [] else f.scraped
  }

  /** What one listed file contributes: `__init__.py` is skipped, since it
      was read on its own before the walk. */
  function FileLoad(f: SourceFile): seq<NodeRecord> {
    if f.name == "__init__.py" then [] else LoadFromFile(f)
  }

  function FileRecords(files: seq<SourceFile>): seq<NodeRecord>
    decreases |files|
  {
    if files == [] then []
    else FileRecords(files[..|files| - 1]) + FileLoad(files[|files| - 1])
  }

  lemma FileRecordsSnoc(files: seq<SourceFile>, i: nat)
    requires i < |files|
    ensures FileRecords(files[..i + 1]) == FileRecords(files[..i]) + FileLoad(files[i])
  {
    assert files[..i + 1][..i] == files[..i];
  }

  function InitRecords(pkg: PackageDir): seq<NodeRecord> {
    if pkg.initFile.Some? then pkg.initFile.value else []
  }

  function Listing(pkg: PackageDir, scanSubdirs: bool): seq<SourceFile> {
    if scanSubdirs then pkg.allFiles else pkg.topFiles
  }

  /** Every record offered to the dictionary, in the order offered: import
      results, then `__init__.py`, then the other files. */
  function Sources(pkg: PackageDir, scanSubdirs: bool): seq<NodeRecord> {
    pkg.imported + InitRecords(pkg) + FileRecords(Listing(pkg, scanSubdirs))
  }

  lemma InitFileSkipped(files: seq<SourceFile>)
    requires forall f <- files :: f.name == "__init__.py"
    ensures FileRecords(files) == []
  {
  }

  // ---------------------------------------------------------------------
  // Sorting, filtering, grouping
  // ---------------------------------------------------------------------

  function CategoryOr(n: NodeRecord, default: string): string {
    if n.category.Some? then n.category.value else default
  }

  /** `display_name or class_name`: an absent or empty display name falls
      back to the class name. */
  function ShownName(n: NodeRecord): string {
    if n.displayName.Some? && n.displayName.value != [] then n.displayName.value else n.className
  }

  /** The sort key (category, display name or class name, class name). */
  function NodeKey(n: NodeRecord): seq<Atom> {
    [Str(CategoryOr(n, "")), Str(ShownName(n)), Str(n.className)]
  }

  predicate CategoryMatches(n: NodeRecord, filter: string) {
    Contains(Lower(CategoryOr(n, "")), Lower(filter))
  }

  /** The records whose category contains `filter`, ignoring case. */
  function CategoryFilter(nodes: seq<NodeRecord>, filter: string): seq<NodeRecord>
    decreases |nodes|
  {
    if nodes == [] then []
    else (if CategoryMatches(nodes[0], filter) then [nodes[0]] else [])
         + CategoryFilter(nodes[1..], filter)
  }

  lemma {:induction false} CategoryFilterSpec(nodes: seq<NodeRecord>, filter: string)
    ensures var r := CategoryFilter(nodes, filter);
      && IsSubsequence(r, nodes)
      && (forall x <- r :: CategoryMatches(x, filter))
      && (forall x <- nodes :: CategoryMatches(x, filter) ==> x in r)
    decreases |nodes|
  {
    if nodes != [] {
      CategoryFilterSpec(nodes[1..], filter);
      var rest := CategoryFilter(nodes[1..], filter);
      if CategoryMatches(nodes[0], filter) {
        assert ([nodes[0]] + rest)[1..] == rest;
      } else {
        assert [] + rest == rest;
      }
      assert nodes == [nodes[0]] + nodes[1..];
    }
  }

  /** Filtering keeps the sorted order and the uniqueness of names. */
  lemma CategoryFilterKeeps(nodes: seq<NodeRecord>, filter: string)
    requires SortedBy(nodes, NodeKey, false) && WellFormed(nodes)
    ensures SortedBy(CategoryFilter(nodes, filter), NodeKey, false)
    ensures WellFormed(CategoryFilter(nodes, filter))
  {
    var r := CategoryFilter(nodes, filter);
    CategoryFilterSpec(nodes, filter);
    SubsequenceMembers(r, nodes);
    SubsequencePairs(r, nodes, (x: NodeRecord, y: NodeRecord) => !Precedes(NodeKey, false, y, x));
    SubsequencePairs(r, nodes, (x: NodeRecord, y: NodeRecord) => x.className != y.className);
  }

  lemma {:induction false} DistinctCount<T>(s: seq<T>, x: T)
    requires Distinct(s)
    ensures multiset(s)[x] <= 1
    decreases |s|
  {
    if s != [] {
      assert s == [s[0]] + s[1..];
      DistinctCount(s[1..], x);
      if s[0] == x {
        forall k | 0 <= k < |s| - 1
          ensures s[1..][k] != x
        {
          assert s[k + 1] != s[0];
        }
      }
    }
  }

  lemma PermutationDistinct<T>(s: seq<T>, t: seq<T>)
    requires multiset(s) == multiset(t) && Distinct(s)
    ensures Distinct(t)
  {
    forall i, j | 0 <= i < j < |t|
      ensures t[i] != t[j]
    {
      DistinctCount(s, t[i]);
      assert t == t[..i] + [t[i]] + t[i + 1..];
      assert t[j] in multiset(t[i + 1..]) by {
        assert t[i + 1..][j - i - 1] == t[j];
      }
    }
  }

  /** A permutation of records with unique names has unique names. */
  lemma PermutationUniqueNames(s: seq<NodeRecord>, t: seq<NodeRecord>)
    requires multiset(s) == multiset(t) && UniqueNames(s)
    ensures UniqueNames(t)
  {
    PermutationDistinct(s, t);
    forall i, j | 0 <= i < j < |t|
      ensures t[i].className != t[j].className
    {
      assert t[i] in multiset(s) && t[j] in multiset(s);
      var p :| 0 <= p < |s| && s[p] == t[i];
      var q :| 0 <= q < |s| && s[q] == t[j];
    }
  }

  /** The key includes the class name, so records with distinct names have
      distinct keys and the sorted order does not depend on the order in
      which the dictionary was filled. */
  lemma NodeOrderUnique(s: seq<NodeRecord>, t: seq<NodeRecord>)
    requires multiset(s) == multiset(t) && UniqueNames(s)
    ensures SortBy(s, NodeKey, false) == SortBy(t, NodeKey, false)
  {
    var a := SortBy(s, NodeKey, false);
    var b := SortBy(t, NodeKey, false);
    SortSorted(s, NodeKey, false);
    SortSorted(t, NodeKey, false);
    PermutationUniqueNames(s, a);
    forall i, j | 0 <= i < j < |a|
      ensures NodeKey(a[i]) != NodeKey(a[j])
    {
      assert NodeKey(a[i])[2] == Str(a[i].className);
      assert NodeKey(a[j])[2] == Str(a[j].className);
    }
    SortUnique(a, b, NodeKey, false);
  }

  /** The grouping category: `category`, or the "uncategorised" label. */
  function GroupOf(n: NodeRecord): string {
    CategoryOr(n, "未分类")
  }

  /** The class names filed under category `c`, in list order. */
  function NamesIn(nodes: seq<NodeRecord>, c: string): seq<string>
    decreases |nodes|
  {
    if nodes == [] then []
    else
      var last := nodes[|nodes| - 1];
      NamesIn(nodes[..|nodes| - 1], c) + (if GroupOf(last) == c then [last.className] else [])
  }

  /** The sum of the group sizes, over the categories of `order`. */
  function TotalSize(order: seq<string>, groups: map<string, seq<string>>): nat
    decreases |order|
  {
    if order == [] then 0
    else
      var last := order[|order| - 1];
      TotalSize(order[..|order| - 1], groups) + (if last in groups then |groups[last]| else 0)
  }

  lemma {:induction false} TotalSizeFrame(order: seq<string>, groups: map<string, seq<string>>, c: string, v: seq<string>)
    requires c !in order
    ensures TotalSize(order, groups[c := v]) == TotalSize(order, groups)
    decreases |order|
  {
    if order != [] {
      var init := order[..|order| - 1];
      assert forall x <- init :: x in order;
      TotalSizeFrame(init, groups, c, v);
    }
  }

  lemma {:induction false} TotalSizeGrow(order: seq<string>, groups: map<string, seq<string>>, c: string, v: seq<string>)
    requires c in order && c in groups && Distinct(order)
    ensures TotalSize(order, groups[c := v]) == TotalSize(order, groups) - |groups[c]| + |v|
    decreases |order|
  {
    var init := order[..|order| - 1];
    var last := order[|order| - 1];
    if last == c {
      assert c !in init by {
        forall k | 0 <= k < |init|
          ensures init[k] != c
        {
          assert order[k] != order[|order| - 1];
        }
      }
      TotalSizeFrame(init, groups, c, v);
    } else {
      assert order == init + [last];
      assert c in init;
      assert Distinct(init);
      TotalSizeGrow(init, groups, c, v);
    }
  }

  /** The categories of a node list in order of first occurrence. */
  function CategoryOrder(nodes: seq<NodeRecord>): (order: seq<string>)
    decreases |nodes|
  {
    if nodes == [] then []
    else
      var init, last := nodes[..|nodes| - 1], nodes[|nodes| - 1];
      var prev := CategoryOrder(init);
      if GroupOf(last) in prev then prev else prev + [GroupOf(last)]
  }

  /** The category index of a node list. */
  ghost predicate IndexOf(nodes: seq<NodeRecord>, order: seq<string>, groups: map<string, seq<string>>) {
    && order == CategoryOrder(nodes)
    && Distinct(order)
    && (forall c <- order :: c in groups)
    && (forall c <- groups :: c in order)
    && GroupsMatch(nodes, groups)
    && (forall n <- nodes :: GroupOf(n) in groups)
    && TotalSize(order, groups) == |nodes|
  }

  /** Each group holds exactly the class names filed under it, in list
      order. */
  ghost predicate GroupsMatch(nodes: seq<NodeRecord>, groups: map<string, seq<string>>) {
    && (forall c <- groups :: groups[c] == NamesIn(nodes, c))
    && (forall c :: c !in groups ==> NamesIn(nodes, c) == [])
  }

  /** The group of `n` after filing it. */
  function Filed(groups: map<string, seq<string>>, n: NodeRecord): map<string, seq<string>> {
    var c := GroupOf(n);
    groups[c := (if c in groups then groups[c] else []) + [n.className]]
  }

  lemma NamesInSnoc(nodes: seq<NodeRecord>, n: NodeRecord, c: string)
    ensures NamesIn(nodes + [n], c)
         == NamesIn(nodes, c) + (if GroupOf(n) == c then [n.className] else [])
  {
    assert (nodes + [n])[..|nodes|] == nodes;
  }

  lemma GroupsMatchSnoc(nodes: seq<NodeRecord>, n: NodeRecord, groups: map<string, seq<string>>)
    requires GroupsMatch(nodes, groups)
    ensures GroupsMatch(nodes + [n], Filed(groups, n))
  {
    var c := GroupOf(n);
    var groups' := Filed(groups, n);
    forall d | d in groups'
      ensures groups'[d] == NamesIn(nodes + [n], d)
    {
      NamesInSnoc(nodes, n, d);
    }
    forall d | d !in groups'
      ensures NamesIn(nodes + [n], d) == []
    {
      NamesInSnoc(nodes, n, d);
    }
  }

  lemma FiledCovers(nodes: seq<NodeRecord>, n: NodeRecord, groups: map<string, seq<string>>)
    requires forall m <- nodes :: GroupOf(m) in groups
    ensures forall m <- nodes + [n] :: GroupOf(m) in Filed(groups, n)
  {
    forall m <- nodes + [n]
      ensures GroupOf(m) in Filed(groups, n)
    {
      if m != n {
        assert m in nodes;
      }
    }
  }

  /** Filing a node under a category seen for the first time. */
  lemma IndexNewCategory(nodes: seq<NodeRecord>, n: NodeRecord, order: seq<string>, groups: map<string, seq<string>>)
    requires IndexOf(nodes, order, groups) && GroupOf(n) !in groups
    ensures IndexOf(nodes + [n], order + [GroupOf(n)], Filed(groups, n))
  {
    var c := GroupOf(n);
    var order', groups' := order + [c], Filed(groups, n);
    assert (nodes + [n])[..|nodes|] == nodes;
    assert c !in order;
    assert [] + [n.className] == [n.className];
    assert groups' == groups[c := [n.className]];
    GroupsMatchSnoc(nodes, n, groups);
    FiledCovers(nodes, n, groups);
    TotalSizeFrame(order, groups, c, [n.className]);
    assert order'[..|order'| - 1] == order;
    assert TotalSize(order', groups') == |nodes + [n]|;
    SnocDistinct(order, c);
    forall d <- groups'
      ensures d in order'
    {
      if d != c {
        assert d in groups;
      }
    }
  }

  lemma SnocDistinct<T>(s: seq<T>, x: T)
    requires Distinct(s) && x !in s
    ensures Distinct(s + [x])
  {
    forall i, j | 0 <= i < j < |s| + 1
      ensures (s + [x])[i] != (s + [x])[j]
    {
      assert (s + [x])[i] == s[i];
    }
  }

  /** Filing a node under a category already present. */
  lemma IndexKnownCategory(nodes: seq<NodeRecord>, n: NodeRecord, order: seq<string>, groups: map<string, seq<string>>)
    requires IndexOf(nodes, order, groups) && GroupOf(n) in groups
    ensures IndexOf(nodes + [n], order, Filed(groups, n))
  {
    var c := GroupOf(n);
    assert (nodes + [n])[..|nodes|] == nodes;
    assert c in order;
    GroupsMatchSnoc(nodes, n, groups);
    FiledCovers(nodes, n, groups);
    TotalSizeGrow(order, groups, c, groups[c] + [n.className]);
  }

  /** The category loop of `_scan_package`: every class name is filed under
      its category, the categories are listed in first-seen order, and no
      name is lost or duplicated (the group sizes add up to the number of
      nodes). */
  method GroupByCategory(nodes: seq<NodeRecord>) returns (order: seq<string>, groups: map<string, seq<string>>)
    ensures IndexOf(nodes, order, groups)
  {
    order := [];
    groups := map[];
    for i := 0 to |nodes|
      invariant IndexOf(nodes[..i], order, groups)
    {
      var node := nodes[i];
      var category := GroupOf(node);
      IndexStep(nodes, i, order, groups);
      if category !in groups {
        order := order + [category];
      }
      groups := Filed(groups, node);
    }
    assert nodes[..|nodes|] == nodes;
  }

  /** One turn of the category loop keeps the index. */
  lemma IndexStep(nodes: seq<NodeRecord>, i: nat, order: seq<string>, groups: map<string, seq<string>>)
    requires i < |nodes| && IndexOf(nodes[..i], order, groups)
    ensures var c := GroupOf(nodes[i]);
      IndexOf(nodes[..i + 1], if c in groups then order else order + [c], Filed(groups, nodes[i]))
  {
    var next := nodes[..i] + [nodes[i]];
    assert nodes[..i + 1] == next;
    var c := GroupOf(nodes[i]);
    var order' := if c in groups then order else order + [c];
    if c in groups {
      IndexKnownCategory(nodes[..i], nodes[i], order, groups);
    } else {
      IndexNewCategory(nodes[..i], nodes[i], order, groups);
    }
    IndexOfSame(next, nodes[..i + 1], order', Filed(groups, nodes[i]));
  }

  lemma IndexOfSame(a: seq<NodeRecord>, b: seq<NodeRecord>, order: seq<string>, groups: map<string, seq<string>>)
    requires a == b && IndexOf(a, order, groups)
    ensures IndexOf(b, order, groups)
  {
  }

  // ---------------------------------------------------------------------
  // The scan
  // ---------------------------------------------------------------------

  /** `nodes_data` as the scan returns it (the per-file error list is not
      part of this model). */
  datatype ScanData = ScanData(
    packageName: string,
    nodes: seq<NodeRecord>,
    categoryOrder: seq<string>,
    categories: map<string, seq<string>>)

  /** The node list the scan produces: the merged records sorted by key,
      then filtered by category when a filter is given. */
  function ScannedNodes(pkg: PackageDir, scanSubdirs: bool, filter: string): seq<NodeRecord> {
    var sorted := SortBy(AddAll([], Sources(pkg, scanSubdirs)), NodeKey, false);
    if filter == [] then sorted else CategoryFilter(sorted, filter)
  }

  method ScanPackage(pkg: PackageDir, scanSubdirs: bool, filterCategory: string) returns (data: ScanData)
    ensures data.packageName == pkg.name
    ensures data.nodes == ScannedNodes(pkg, scanSubdirs, filterCategory)
    ensures IndexOf(data.nodes, data.categoryOrder, data.categories)
  {
    var nodeMap := new NodeMap();
    nodeMap.AddNodes(pkg.imported);
    if pkg.initFile.Some? {
      nodeMap.AddNodes(pkg.initFile.value);
    }
    nodeMap.AddFiles(Listing(pkg, scanSubdirs));
    MergedInOrder(pkg, scanSubdirs);
    var nodes := SortBy(nodeMap.Values(), NodeKey, false);
    if filterCategory != [] {
      nodes := CategoryFilter(nodes, filterCategory);
    }
    var order, groups := GroupByCategory(nodes);
    data := ScanData(pkg.name, nodes, order, groups);
  }

  /** Offering the three sources one after another merges their
      concatenation. */
  lemma MergedInOrder(pkg: PackageDir, scanSubdirs: bool)
    ensures AddAll(AddAll(AddAll([], pkg.imported), InitRecords(pkg)), FileRecords(Listing(pkg, scanSubdirs)))
         == AddAll([], Sources(pkg, scanSubdirs))
  {
    AddAllConcat([], pkg.imported, InitRecords(pkg));
    AddAllConcat([], pkg.imported + InitRecords(pkg), FileRecords(Listing(pkg, scanSubdirs)));
  }

  /** The scanned list has unique, present names and is sorted by
      (category, shown name, class name). */
  lemma ScannedNodesOrdered(pkg: PackageDir, scanSubdirs: bool, filter: string)
    ensures WellFormed(ScannedNodes(pkg, scanSubdirs, filter))
    ensures SortedBy(ScannedNodes(pkg, scanSubdirs, filter), NodeKey, false)
  {
    var merged := AddAll([], Sources(pkg, scanSubdirs));
    var sorted := SortBy(merged, NodeKey, false);
    AddAllKeeps([], Sources(pkg, scanSubdirs));
    SortSorted(merged, NodeKey, false);
    PermutationUniqueNames(merged, sorted);
    forall x <- sorted
      ensures x.className != []
    {
      assert x in multiset(merged);
    }
    if filter != [] {
      CategoryFilterKeeps(sorted, filter);
    }
  }

  /** First wins across sources, and the filter decides membership: a
      listed record is the first record offered under its name (import
      results beat `__init__.py`, which beats the other files) and passes the
      filter; the first record offered under any name is listed exactly when
      it passes the filter. */
  lemma ScannedNodesFirst(pkg: PackageDir, scanSubdirs: bool, filter: string)
    ensures forall x <- ScannedNodes(pkg, scanSubdirs, filter) ::
      FirstNamed(Sources(pkg, scanSubdirs), x.className) == Some(x)
    ensures forall x <- ScannedNodes(pkg, scanSubdirs, filter) ::
      filter == [] || CategoryMatches(x, filter)
    ensures forall n <- Sources(pkg, scanSubdirs) | n.className != [] ::
      var f := FirstNamed(Sources(pkg, scanSubdirs), n.className);
      f.Some? && (f.value in ScannedNodes(pkg, scanSubdirs, filter) <==> filter == [] || CategoryMatches(f.value, filter))
  {
    var src := Sources(pkg, scanSubdirs);
    ScannedMembers(pkg, scanSubdirs, filter);
    MergedFirst(src);
    forall n <- src | n.className != []
      ensures var f := FirstNamed(src, n.className);
        f.Some? && f.value in AddAll([], src)
    {
      MergedHasFirst(src, n);
    }
  }

  /** What the scan lists: the merged records that pass the filter. */
  lemma ScannedMembers(pkg: PackageDir, scanSubdirs: bool, filter: string)
    ensures forall x :: x in ScannedNodes(pkg, scanSubdirs, filter) <==>
      x in AddAll([], Sources(pkg, scanSubdirs)) && (filter == [] || CategoryMatches(x, filter))
  {
    var merged := AddAll([], Sources(pkg, scanSubdirs));
    var sorted := SortBy(merged, NodeKey, false);
    assert forall x :: x in sorted <==> x in multiset(merged);
    if filter != [] {
      CategoryFilterSpec(sorted, filter);
      SubsequenceMembers(CategoryFilter(sorted, filter), sorted);
    }
  }

  lemma MergedFirst(src: seq<NodeRecord>)
    ensures forall x <- AddAll([], src) :: FirstNamed(src, x.className) == Some(x)
  {
    AddAllFirst([], src);
    assert [] + src == src;
  }

  /** The first record offered under a name is the one merged. */
  lemma MergedHasFirst(src: seq<NodeRecord>, n: NodeRecord)
    requires n in src && n.className != []
    ensures var f := FirstNamed(src, n.className);
      f.Some? && f.value in AddAll([], src)
  {
    var merged := AddAll([], src);
    AddAllKeeps([], src);
    MergedFirst(src);
    var k :| 0 <= k < |merged| && Names(merged)[k] == n.className;
    assert merged[k] in merged;
  }

  // ---------------------------------------------------------------------
  // Output
  // ---------------------------------------------------------------------

  function StrKey(s: string): seq<Atom> {
    [Str(s)]
  }

  function SortedStrings(s: seq<string>): seq<string> {
    SortBy(s, StrKey, false)
  }

  function CategoryLines(cats: seq<string>, groups: map<string, seq<string>>): (r: seq<string>)
    ensures |r| == |cats|
  {
    seq(|cats|, k requires 0 <= k < |cats| =>
      cats[k] + ": " + Join(", ", SortedStrings(if cats[k] in groups then groups[cats[k]] else [])))
  }

  predicate AllDisplayNamed(nodes: seq<NodeRecord>) {
    forall n <- nodes :: n.displayName.Some?
  }

  function DisplayNames(nodes: seq<NodeRecord>): (r: seq<string>)
    requires AllDisplayNamed(nodes)
    ensures |r| == |nodes|
  {
    seq(|nodes|, i requires 0 <= i < |nodes| => nodes[i].displayName.value)
  }

  function Header(data: ScanData): seq<string> {
    [ "节点包: " + data.packageName,
      "节点数: " + NatToString(|data.nodes|),
      "分类数: " + NatToString(|data.categoryOrder|) + "\n" ]
  }

  /** `_format_simple`: the header, then one line per category in ascending
      order listing its class names in ascending order, or one line of all
      display names. A node without a display name makes the plain listing
      fail with a missing-key error. */
  function FormatSimple(data: ScanData, showCategories: bool): (r: Result<string>)
    ensures r.Err? <==> !showCategories && !AllDisplayNamed(data.nodes)
    ensures r.Err? ==> r.message == "'display_name'"
    ensures r.Ok? ==> StartsWith(r.value, Header(data)[0] + "\n")
    ensures r.Ok? && showCategories ==>
      r.value == Join("\n", Header(data) + CategoryLines(SortedStrings(data.categoryOrder), data.categories))
    ensures r.Ok? && !showCategories ==>
      r.value == Join("\n", Header(data) + [Join(", ", SortedStrings(DisplayNames(data.nodes)))])
  {
    var header := Header(data);
    if showCategories then
      var lines := header + CategoryLines(SortedStrings(data.categoryOrder), data.categories);
      JoinCons(lines);
      Ok(Join("\n", lines))
    else if !AllDisplayNamed(data.nodes) then Err("'display_name'")
    else
      var lines := header + [Join(", ", SortedStrings(DisplayNames(data.nodes)))];
      JoinCons(lines);
      Ok(Join("\n", lines))
  }

  lemma JoinCons(lines: seq<string>)
    requires |lines| >= 2
    ensures StartsWith(Join("\n", lines), lines[0] + "\n")
  {
    assert lines == [lines[0]] + lines[1..];
  }

  /** The category lines come in strictly ascending category order. */
  lemma CategoryLinesSorted(data: ScanData)
    requires Distinct(data.categoryOrder)
    ensures var cats := SortedStrings(data.categoryOrder);
      && multiset(cats) == multiset(data.categoryOrder)
      && forall i, j :: 0 <= i < j < |cats| ==> LexLess(cats[i], cats[j])
  {
    var cats := SortedStrings(data.categoryOrder);
    SortSorted(data.categoryOrder, StrKey, false);
    PermutationDistinct(data.categoryOrder, cats);
    forall i, j | 0 <= i < j < |cats|
      ensures LexLess(cats[i], cats[j])
    {
      assert !Precedes(StrKey, false, cats[j], cats[i]);
      LexLessTotal(cats[i], cats[j]);
      assert KeyLess(StrKey(cats[j]), StrKey(cats[i])) == LexLess(cats[j], cats[i]);
    }
  }

  /** The format option of `load_nodes`. */
  datatype OutputFormat = JsonFormat | TextFormat | DetailedFormat

  /** `(info, node_count, node_list)`. The node list is the sequence of
      class names that is serialised as JSON; the info text is modelled for
      the text format and the error paths only, `None` standing for the
      JSON and detailed renderings. */
  datatype LoadOutput = LoadOutput(info: Option<string>, nodeCount: nat, nodeList: seq<string>)

  /** `load_nodes`: path checks, the scan, the rendering and the counts. */
  method LoadNodes(packagePath: string, pkg: PackageDir, format: OutputFormat,
                   scanSubdirs: bool, showCategories: bool, filterCategory: string)
    returns (out: LoadOutput)
    ensures !pkg.present ==> out == LoadOutput(Some("[ERROR] 路径不存在: " + packagePath), 0, [])
    ensures pkg.present && !pkg.isDir ==> out == LoadOutput(Some("[ERROR] 不是有效的目录: " + packagePath), 0, [])
    ensures pkg.present && pkg.isDir ==>
      var nodes := ScannedNodes(pkg, scanSubdirs, filterCategory);
      if format == TextFormat && !showCategories && !AllDisplayNamed(nodes) then
        out == LoadOutput(Some("[ERROR] 加载失败: " + "'display_name'"), 0, [])
      else
        && out.nodeCount == |nodes|
        && out.nodeList == Names(nodes)
        && (format == TextFormat <==> out.info.Some?)
        && (out.info.Some? ==> StartsWith(out.info.value, "节点包: " + pkg.name + "\n"))
        && (out.info.Some? ==> exists data: ScanData ::
              && data.packageName == pkg.name && data.nodes == nodes
              && IndexOf(data.nodes, data.categoryOrder, data.categories)
              && FormatSimple(data, showCategories) == Ok(out.info.value))
  {
    if !pkg.present {
      return LoadOutput(Some("[ERROR] 路径不存在: " + packagePath), 0, []);
    }
    if !pkg.isDir {
      return LoadOutput(Some("[ERROR] 不是有效的目录: " + packagePath), 0, []);
    }
    var data := ScanPackage(pkg, scanSubdirs, filterCategory);
    var info: Option<string> := None;
    if format == TextFormat {
      var text := FormatSimple(data, showCategories);
      if text.Err? {
        return LoadOutput(Some("[ERROR] 加载失败: " + text.message), 0, []);
      }
      info := Some(text.value);
    }
    out := LoadOutput(info, |data.nodes|, Names(data.nodes));
  }
}
