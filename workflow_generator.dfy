/**
 * Workflow synthesis: canvas placement of nodes, assembly of the workflow
 * document, the choice of the output file, the de-duplicated list of
 * workflow directories, the deletion of old workflow files, and building a
 * workflow from a typed list of class names.
 */
module WorkflowGenerator {
  import opened Wrappers
  import opened Strings
  import opened NodePackageLoader

  // ---------------------------------------------------------------------
  // Canvas placement
  // ---------------------------------------------------------------------

  /** A canvas point `[x, y]`. */
  datatype Pos = Pos(x: int, y: int)

  const StartX: int := 50
  const StartY: int := 50

  function Max(a: int, b: int): int {
    if a < b then b else a
  }

  function RoundSqrtFrom(t: nat, r: nat): (q: nat)
    requires r * r < t + r || r == 0
    ensures q >= r
    ensures q == 0 || q * q < t + q
    ensures t <= q * (q + 1)
    decreases t - r
  {
    if (r + 1) * r < t then RoundSqrtFrom(t, r + 1) else r
  }

  /** `int(sqrt(t) + 0.5)`: the integer nearest to the square root of `t`. */
  function RoundSqrt(t: nat): (r: nat)
    ensures t > 0 ==> (2 * r - 1) * (2 * r - 1) < 4 * t
    ensures 4 * t < (2 * r + 1) * (2 * r + 1)
  {
    RoundSqrtFrom(t, 0)
  }

  function ScaledSqrtFrom(t: nat, c: nat): (q: nat)
    requires 4 * c * c <= 9 * t
    ensures q >= c
    ensures 4 * q * q <= 9 * t < 4 * (q + 1) * (q + 1)
    decreases 9 * t - 4 * c * c
  {
    if 4 * (c + 1) * (c + 1) <= 9 * t then ScaledSqrtFrom(t, c + 1) else c
  }

  /** `int(sqrt(t) * 1.5)`: the largest `c` with `c <= 1.5 * sqrt(t)`. */
  function ScaledSqrt(t: nat): (c: nat)
    ensures 4 * c * c <= 9 * t < 4 * (c + 1) * (c + 1)
  {
    ScaledSqrtFrom(t, 0)
  }

  /** The grid layout's column count: at least 3. */
  function GridColumns(total: nat): nat {
    Max(3, RoundSqrt(total))
  }

  /** The compact layout's column count: at least 5. */
  function CompactColumns(total: nat): nat {
    Max(5, ScaledSqrt(total))
  }

  /** Row-major cell `index` of a grid with `cols` columns. */
  function Cell(index: nat, cols: nat, sx: int, sy: int): Pos
    requires cols > 0
  {
    Pos(StartX + (index % cols) * sx, StartY + (index / cols) * sy)
  }

  /** `_calculate_position`. The compact layout scales the spacing by 0.7
      and truncates, written here as `* 7 / 10` on non-negative values. */
  function CalculatePosition(index: nat, total: nat, layout: string, sx: int, sy: int): Pos {
    if layout == "grid" then
      Cell(index, GridColumns(total), sx, sy)
    else if layout == "vertical" then
      Pos(StartX, StartY + index * sy)
    else if layout == "horizontal" then
      Pos(StartX + index * sx, StartY)
    else if layout == "compact" then
      CompactCell(index, CompactColumns(total), sx, sy)
    else
      Cell(index, 3, sx, sy)
  }

  /** Row-major cell `index` of the compact grid, whose spacing is scaled
      by 0.7. */
  function CompactCell(index: nat, cols: nat, sx: int, sy: int): Pos
    requires cols > 0
  {
    Pos(StartX + TruncScaled((index % cols) * sx), StartY + TruncScaled((index / cols) * sy))
  }

  /** `int(v * 0.7)`, truncating toward zero. */
  function TruncScaled(v: int): (r: int)
    ensures v >= 0 ==> r >= 0
  {
    if v >= 0 then v * 7 / 10 else -((-v) * 7 / 10)
  }

  lemma CellBounds(index: nat, cols: nat, sx: int, sy: int)
    requires cols > 0
    ensures sx >= 0 && sy >= 0 ==> Cell(index, cols, sx, sy).x >= StartX && Cell(index, cols, sx, sy).y >= StartY
    ensures sx >= 0 ==> Cell(index, cols, sx, sy).x <= StartX + (cols - 1) * sx
  {
    if sx >= 0 {
      MulMono(0, index % cols, sx);
      MulMono(index % cols, cols - 1, sx);
    }
    if sy >= 0 {
      MulMono(0, index / cols, sy);
    }
  }

  /** Where each layout can put a node: vertical keeps x at the start,
      horizontal keeps y at the start, nothing goes above or left of the
      start, and the grids stay within their column count. */
  lemma PositionBounds(index: nat, total: nat, layout: string, sx: int, sy: int)
    ensures var p := CalculatePosition(index, total, layout, sx, sy);
      && (layout == "vertical" ==> p.x == StartX)
      && (layout == "horizontal" ==> p.y == StartY)
      && (sx >= 0 && sy >= 0 ==> p.x >= StartX && p.y >= StartY)
      && (layout == "grid" && sx >= 0 ==> p.x <= StartX + (GridColumns(total) - 1) * sx)
      && (layout !in ["grid", "vertical", "horizontal", "compact"] && sx >= 0 ==> p.x <= StartX + 2 * sx)
  {
    if layout == "grid" {
      CellBounds(index, GridColumns(total), sx, sy);
    } else if layout == "vertical" {
      if sy >= 0 { MulMono(0, index, sy); }
    } else if layout == "horizontal" {
      if sx >= 0 { MulMono(0, index, sx); }
    } else if layout == "compact" {
      var cols := CompactColumns(total);
      if sx >= 0 && sy >= 0 {
        MulMono(0, index % cols, sx);
        MulMono(0, index / cols, sy);
      }
    } else {
      CellBounds(index, 3, sx, sy);
    }
  }

  /** The single-column and single-row layouts start at the anchor and move
      by exactly one spacing from each node to the next. */
  lemma LinearLayouts(index: nat, total: nat, sx: int, sy: int)
    ensures CalculatePosition(index, total, "vertical", sx, sy) == Pos(StartX, StartY + index * sy)
    ensures CalculatePosition(index + 1, total, "vertical", sx, sy).y
         == CalculatePosition(index, total, "vertical", sx, sy).y + sy
    ensures CalculatePosition(index, total, "horizontal", sx, sy) == Pos(StartX + index * sx, StartY)
    ensures CalculatePosition(index + 1, total, "horizontal", sx, sy).x
         == CalculatePosition(index, total, "horizontal", sx, sy).x + sx
  {
    MulSuccInt(index, sy);
    MulSuccInt(index, sx);
  }

  lemma MulSuccInt(k: nat, c: int)
    ensures (k + 1) * c == k * c + c
  {
  }

  lemma MulMono(a: nat, b: nat, c: int)
    requires a <= b && c >= 0
    ensures a * c <= b * c
  {
  }

  lemma MulStrict(a: nat, b: nat, c: int)
    requires a < b && c > 0
    ensures a * c < b * c
  {
  }

  /** Grid placement is row-major with at least three columns. */
  lemma GridPlacement(index: nat, total: nat, sx: int, sy: int)
    ensures var cols := GridColumns(total);
      && cols >= 3
      && exists row: nat, col: nat ::
           col < cols && index == row * cols + col
           && CalculatePosition(index, total, "grid", sx, sy) == Pos(StartX + col * sx, StartY + row * sy)
  {
    var cols := GridColumns(total);
    assert CalculatePosition(index, total, "grid", sx, sy) == Cell(index, cols, sx, sy);
    CellRowMajor(index, cols, sx, sy);
  }

  lemma CellRowMajor(index: nat, cols: nat, sx: int, sy: int)
    requires cols > 0
    ensures exists row: nat, col: nat ::
      col < cols && index == row * cols + col && Cell(index, cols, sx, sy) == Pos(StartX + col * sx, StartY + row * sy)
  {
    var row, col := index / cols, index % cols;
    assert index == row * cols + col;
    assert Cell(index, cols, sx, sy) == Pos(StartX + col * sx, StartY + row * sy);
  }

  /** An unrecognised layout falls back to a three-column grid. */
  lemma FallbackPlacement(index: nat, total: nat, layout: string, sx: int, sy: int)
    requires layout !in ["grid", "vertical", "horizontal", "compact"]
    ensures CalculatePosition(index, total, layout, sx, sy) == Cell(index, 3, sx, sy)
    ensures index < 3 ==> CalculatePosition(index, total, layout, sx, sy) == Pos(StartX + index * sx, StartY)
  {
  }

  lemma DivModDistinct(i: nat, j: nat, cols: nat)
    requires cols > 0 && i != j
    ensures i % cols != j % cols || i / cols != j / cols
  {
    assert i == (i / cols) * cols + i % cols;
    assert j == (j / cols) * cols + j % cols;
  }

  lemma TruncScaledStrict(a: nat, b: nat, s: int)
    requires a < b && s >= 2
    ensures TruncScaled(a * s) < TruncScaled(b * s)
  {
    MulStrict(a, b, s);
    assert b * s >= a * s + 2;
    assert (b * s) * 7 >= (a * s) * 7 + 14;
  }

  lemma CellsDistinct(i: nat, j: nat, cols: nat, sx: int, sy: int)
    requires i != j && cols > 0 && sx > 0 && sy > 0
    ensures Cell(i, cols, sx, sy) != Cell(j, cols, sx, sy)
  {
    DivModDistinct(i, j, cols);
    var ci, cj, ri, rj := i % cols, j % cols, i / cols, j / cols;
    if ci < cj { MulStrict(ci, cj, sx); }
    else if cj < ci { MulStrict(cj, ci, sx); }
    else if ri < rj { MulStrict(ri, rj, sy); }
    else if rj < ri { MulStrict(rj, ri, sy); }
  }

  lemma CompactCellsDistinct(i: nat, j: nat, cols: nat, sx: int, sy: int)
    requires i != j && cols > 0 && sx >= 2 && sy >= 2
    ensures CompactCell(i, cols, sx, sy) != CompactCell(j, cols, sx, sy)
  {
    DivModDistinct(i, j, cols);
    var ci, cj, ri, rj := i % cols, j % cols, i / cols, j / cols;
    if ci < cj { TruncScaledStrict(ci, cj, sx); }
    else if cj < ci { TruncScaledStrict(cj, ci, sx); }
    else if ri < rj { TruncScaledStrict(ri, rj, sy); }
    else if rj < ri { TruncScaledStrict(rj, ri, sy); }
  }

  /** With spacings of at least 2 on both axes, distinct indices are placed
      at distinct points, in every layout. */
  lemma PositionsDistinct(i: nat, j: nat, total: nat, layout: string, sx: int, sy: int)
    requires i != j && sx >= 2 && sy >= 2
    ensures CalculatePosition(i, total, layout, sx, sy) != CalculatePosition(j, total, layout, sx, sy)
  {
    if layout == "grid" {
      CellsDistinct(i, j, GridColumns(total), sx, sy);
    } else if layout == "vertical" {
      if i < j { MulStrict(i, j, sy); } else { MulStrict(j, i, sy); }
    } else if layout == "horizontal" {
      if i < j { MulStrict(i, j, sx); } else { MulStrict(j, i, sx); }
    } else if layout == "compact" {
      CompactCellsDistinct(i, j, CompactColumns(total), sx, sy);
    } else {
      CellsDistinct(i, j, 3, sx, sy);
    }
  }

  // ---------------------------------------------------------------------
  // Document assembly
  // ---------------------------------------------------------------------

  /** One node of the workflow document. `srName` is the
      "Node name for S&R" property. */
  datatype WorkflowNode = WorkflowNode(
    id: nat,
    nodeType: string,
    classType: string,
    pos: Pos,
    size: seq<int>,
    order: nat,
    mode: int,
    srName: string,
    description: Option<string>)

  /** The workflow document; links and groups are always empty lists. */
  datatype Workflow = Workflow(
    lastNodeId: nat,
    lastLinkId: nat,
    nodes: seq<WorkflowNode>,
    links: seq<nat>,
    groups: seq<nat>)

  /** Node `k` of the document stands for record `rec` of `total`. */
  predicate Placed(n: WorkflowNode, k: nat, rec: NodeRecord, total: nat, layout: string, sx: int, sy: int) {
    && n.id == k + 1
    && n.order == k
    && n.nodeType == rec.className
    && n.classType == rec.className
    && n.srName == rec.className
    && n.pos == CalculatePosition(k, total, layout, sx, sy)
    && n.size == [280, 120]
    && n.mode == 0
    && (n.description.Some? <==> rec.description != [])
    && (n.description.Some? ==> n.description.value == rec.description)
  }

  function Types(w: Workflow): (r: seq<string>)
    ensures |r| == |w.nodes|
  {
    seq(|w.nodes|, i requires 0 <= i < |w.nodes| => w.nodes[i].nodeType)
  }

  /** `_create_workflow`. A seeded shuffle is represented by the order it
      produces, `shuffled`, which is some permutation of the records. */
  method CreateWorkflow(nodesList: seq<NodeRecord>, layout: string, sx: int, sy: int,
                        shuffled: Option<seq<NodeRecord>>)
    returns (w: Workflow)
    requires shuffled.Some? ==> multiset(shuffled.value) == multiset(nodesList)
    ensures w.lastNodeId == |nodesList| && w.lastLinkId == 0
    ensures w.links == [] && w.groups == []
    ensures |w.nodes| == |nodesList|
    ensures var order := if shuffled.Some? then shuffled.value else nodesList;
      |order| == |w.nodes| &&
      forall k :: 0 <= k < |w.nodes| ==> Placed(w.nodes[k], k, order[k], |nodesList|, layout, sx, sy)
    ensures shuffled.None? ==> Types(w) == Names(nodesList)
    ensures multiset(Types(w)) == multiset(Names(nodesList))
  {
    var nodesOrder := nodesList;
    if shuffled.Some? {
      nodesOrder := shuffled.value;
    }
    assert |nodesOrder| == |nodesList| by {
      assert |multiset(nodesOrder)| == |multiset(nodesList)|;
    }
    var total := |nodesOrder|;
    var built: seq<WorkflowNode> := [];
    for idx := 0 to total
      invariant |built| == idx
      invariant forall k :: 0 <= k < idx ==> Placed(built[k], k, nodesOrder[k], total, layout, sx, sy)
    {
      var info := nodesOrder[idx];
      var position := CalculatePosition(idx, total, layout, sx, sy);
      var description: Option<string> := None;
      if info.description != [] {
        description := Some(info.description);
      }
      var node := WorkflowNode(idx + 1, info.className, info.className, position,
                               [280, 120], idx, 0, info.className, description);
      built := built + [node];
    }
    w := Workflow(total, 0, built, [], []);
    assert Types(w) == Names(nodesOrder);
    NamesPermutation(nodesOrder, nodesList);
  }

  /** Removing the element at `p` removes one occurrence of it. */
  lemma RemoveAt<T>(t: seq<T>, p: nat)
    requires p < |t|
    ensures multiset(t[..p] + t[p + 1..]) == multiset(t) - multiset{t[p]}
  {
    assert t == t[..p] + [t[p]] + t[p + 1..];
  }

  /** Removing the record at `p` removes its name from the names. */
  lemma NamesRemove(t: seq<NodeRecord>, p: nat)
    requires p < |t|
    ensures multiset(Names(t[..p] + t[p + 1..])) == multiset(Names(t)) - multiset{t[p].className}
  {
    assert Names(t[..p] + t[p + 1..]) == Names(t)[..p] + Names(t)[p + 1..];
    RemoveAt(Names(t), p);
  }

  lemma PermutationHead<T>(s: seq<T>, t: seq<T>) returns (p: nat)
    requires multiset(s) == multiset(t) && s != []
    ensures p < |t| && t[p] == s[0]
    ensures multiset(s[1..]) == multiset(t[..p] + t[p + 1..])
  {
    assert s[0] in multiset(s);
    assert s[0] in t;
    p :| 0 <= p < |t| && t[p] == s[0];
    RemoveAt(t, p);
    assert s == [s[0]] + s[1..];
  }

  lemma MultisetCancel<T>(a: multiset<T>, b: multiset<T>, x: T)
    requires a - multiset{x} == b - multiset{x} && x in a && x in b
    ensures a == b
  {
    assert a == (a - multiset{x}) + multiset{x};
    assert b == (b - multiset{x}) + multiset{x};
  }

  /** Putting the same record back at the front of one and at `p` of the
      other keeps two equal name multisets equal. */
  lemma NamesCancel(s: seq<NodeRecord>, t: seq<NodeRecord>, p: nat)
    requires s != [] && p < |t| && t[p] == s[0]
    requires multiset(Names(s[1..])) == multiset(Names(t[..p] + t[p + 1..]))
    ensures multiset(Names(s)) == multiset(Names(t))
  {
    NamesRemove(t, p);
    NamesRemove(s, 0);
    assert s[..0] + s[1..] == s[1..];
    var name := s[0].className;
    var ns, nt := Names(s), Names(t);
    assert ns[0] == name && nt[p] == name;
    assert name in multiset(ns) && name in multiset(nt);
    MultisetCancel(multiset(ns), multiset(nt), name);
  }

  /** Permuting records permutes their names. */
  lemma {:induction false} NamesPermutation(s: seq<NodeRecord>, t: seq<NodeRecord>)
    requires multiset(s) == multiset(t)
    ensures multiset(Names(s)) == multiset(Names(t))
    decreases |s|
  {
    if s == [] {
      assert |t| == |multiset(t)| == 0;
      assert t == [];
    } else {
      var p := PermutationHead(s, t);
      NamesPermutation(s[1..], t[..p] + t[p + 1..]);
      NamesCancel(s, t, p);
    }
  }

  /** Node ids are `1..N` without repetition, and `last_node_id` is the
      largest of them. */
  lemma NodeIdsDistinct(w: Workflow, order: seq<NodeRecord>, layout: string, sx: int, sy: int)
    requires |w.nodes| == |order| && w.lastNodeId == |order|
    requires forall k :: 0 <= k < |w.nodes| ==> Placed(w.nodes[k], k, order[k], |order|, layout, sx, sy)
    ensures forall i, j :: 0 <= i < j < |w.nodes| ==> w.nodes[i].id != w.nodes[j].id
    ensures forall n <- w.nodes :: 1 <= n.id <= w.lastNodeId
  {
  }

  // ---------------------------------------------------------------------
  // Workflow directories and files
  // ---------------------------------------------------------------------

  /** A `.json` file in a workflow directory: its file name, its full path,
      and whether unlinking it succeeds. */
  datatype JsonFile = JsonFile(name: string, path: string, removable: bool)

  /** A candidate workflow directory: its path, the key it is compared by
      (the resolved path when it exists, the path itself otherwise), whether
      it exists, whether creating it succeeds, and its `.json` files. */
  datatype WorkflowDir = WorkflowDir(
    path: string,
    key: string,
    present: bool,
    creatable: bool,
    jsonFiles: seq<JsonFile>)

  function DirKeys(ds: seq<WorkflowDir>): set<string> {
    set d <- ds :: d.key
  }

  /** Every candidate whose key no earlier candidate had, in order. */
  function DedupDirs(cands: seq<WorkflowDir>): seq<WorkflowDir>
    decreases |cands|
  {
    if cands == [] then []
    else
      var init := cands[..|cands| - 1];
      var last := cands[|cands| - 1];
      var prev := DedupDirs(init);
      if last.key in DirKeys(init) then prev else prev + [last]
  }

  lemma {:induction false} SubsequenceSnocBoth<T>(a: seq<T>, b: seq<T>, x: T)
    requires IsSubsequence(a, b)
    ensures IsSubsequence(a + [x], b + [x])
    decreases |b|
  {
    if a == [] {
      SubsequenceOfAny([x], b);
      assert a + [x] == [x];
    } else {
      assert (a + [x])[0] == a[0] && (a + [x])[1..] == a[1..] + [x];
      assert (b + [x])[0] == b[0] && (b + [x])[1..] == b[1..] + [x];
      if a[0] == b[0] && IsSubsequence(a[1..], b[1..]) {
        SubsequenceSnocBoth(a[1..], b[1..], x);
      } else {
        SubsequenceSnocBoth(a, b[1..], x);
      }
    }
  }

  lemma {:induction false} SubsequenceOfAny<T>(a: seq<T>, b: seq<T>)
    requires |a| == 1
    ensures IsSubsequence(a, b + a)
    decreases |b|
  {
    if b == [] {
      assert a[1..] == [] && (b + a) == a;
    } else {
      assert (b + a)[1..] == b[1..] + a;
      SubsequenceOfAny(a, b[1..]);
    }
  }

  lemma {:induction false} SubsequenceExtend<T>(a: seq<T>, b: seq<T>, x: T)
    requires IsSubsequence(a, b)
    ensures IsSubsequence(a, b + [x])
    decreases |b|
  {
    if a != [] && b != [] {
      assert (b + [x])[0] == b[0] && (b + [x])[1..] == b[1..] + [x];
      if a[0] == b[0] && IsSubsequence(a[1..], b[1..]) {
        SubsequenceExtend(a[1..], b[1..], x);
      } else {
        SubsequenceExtend(a, b[1..], x);
      }
    }
  }

  /** The de-duplicated list keeps priority order, loses no key and holds
      no key twice. */
  lemma DedupDirsSpec(cands: seq<WorkflowDir>)
    ensures var r := DedupDirs(cands);
      && IsSubsequence(r, cands)
      && DirKeys(r) == DirKeys(cands)
      && (forall i, j :: 0 <= i < j < |r| ==> r[i].key != r[j].key)
  {
    DedupSubsequence(cands);
    DedupKeys(cands);
    DedupUnique(cands);
  }

  lemma {:induction false} DedupSubsequence(cands: seq<WorkflowDir>)
    ensures IsSubsequence(DedupDirs(cands), cands)
    decreases |cands|
  {
    if cands != [] {
      var init := cands[..|cands| - 1];
      var last := cands[|cands| - 1];
      var prev := DedupDirs(init);
      DedupSubsequence(init);
      assert cands == init + [last];
      if last.key in DirKeys(init) {
        SubsequenceExtend(prev, init, last);
      } else {
        SubsequenceSnocBoth(prev, init, last);
      }
    }
  }

  lemma {:induction false} DedupKeys(cands: seq<WorkflowDir>)
    ensures DirKeys(DedupDirs(cands)) == DirKeys(cands)
    decreases |cands|
  {
    if cands != [] {
      var init := cands[..|cands| - 1];
      var last := cands[|cands| - 1];
      var prev := DedupDirs(init);
      DedupKeys(init);
      assert cands == init + [last];
      assert DirKeys(cands) == DirKeys(init) + {last.key};
      assert DirKeys(prev + [last]) == DirKeys(prev) + {last.key};
    }
  }

  /** No two directories share a key. */
  predicate UniqueKeys(ds: seq<WorkflowDir>) {
    forall i, j :: 0 <= i < j < |ds| ==> ds[i].key != ds[j].key
  }

  lemma {:induction false} DedupUnique(cands: seq<WorkflowDir>)
    ensures UniqueKeys(DedupDirs(cands))
    decreases |cands|
  {
    if cands != [] {
      var init := cands[..|cands| - 1];
      var last := cands[|cands| - 1];
      var prev := DedupDirs(init);
      DedupUnique(init);
      if last.key in DirKeys(init) {
        assert DedupDirs(cands) == prev;
      } else {
        DedupKeys(init);
        var r := prev + [last];
        assert DedupDirs(cands) == r;
        assert UniqueKeys(prev);
        forall i, j | 0 <= i < j < |r|
          ensures r[i].key != r[j].key
        {
          if j == |prev| {
            assert r[i] == prev[i];
            assert prev[i].key in DirKeys(prev);
          }
        }
      }
    }
  }

  lemma DedupStep(cands: seq<WorkflowDir>, i: nat)
    requires i < |cands|
    ensures DirKeys(cands[..i + 1]) == DirKeys(cands[..i]) + {cands[i].key}
    ensures DedupDirs(cands[..i + 1])
         == if cands[i].key in DirKeys(cands[..i]) then DedupDirs(cands[..i])
            else DedupDirs(cands[..i]) + [cands[i]]
  {
    assert cands[..i + 1][..i] == cands[..i];
    assert cands[..i + 1] == cands[..i] + [cands[i]];
  }

  /** `get_workflow_directories`: the loop with a `seen` set. */
  method WorkflowDirectories(cands: seq<WorkflowDir>) returns (unique: seq<WorkflowDir>)
    ensures unique == DedupDirs(cands)
  {
    var seen: set<string> := {};
    unique := [];
    for i := 0 to |cands|
      invariant unique == DedupDirs(cands[..i])
      invariant seen == DirKeys(cands[..i])
    {
      var dir := cands[i];
      DedupStep(cands, i);
      if dir.key !in seen {
        seen := seen + {dir.key};
        unique := unique + [dir];
      }
    }
    assert cands[..|cands|] == cands;
  }

  /** The automatically chosen file name. */
  function WorkflowFileName(pkg: string): string {
    "workflow_" + pkg + "_all_nodes.json"
  }

  const FilePrefix: string := "workflow_"
  const FileSuffix: string := "_all_nodes.json"

  /** Recovers the package name from an automatically chosen file name. */
  function PackageOfFileName(name: string): Option<string> {
    if |name| >= |FilePrefix| + |FileSuffix|
       && name[..|FilePrefix|] == FilePrefix
       && name[|name| - |FileSuffix|..] == FileSuffix
    then Some(name[|FilePrefix|..|name| - |FileSuffix|])
    else None
  }

  /** Every package name is recovered from its file name. */
  lemma FileNameRoundTrip(pkg: string)
    ensures PackageOfFileName(WorkflowFileName(pkg)) == Some(pkg)
  {
    var name := WorkflowFileName(pkg);
    assert name == FilePrefix + pkg + FileSuffix;
    assert name[..|FilePrefix|] == FilePrefix;
    assert name[|name| - |FileSuffix|..] == FileSuffix;
    assert name[|FilePrefix|..|name| - |FileSuffix|] == pkg;
  }

  /** The first directory that can be created, in priority order. */
  function FirstCreatable(dirs: seq<WorkflowDir>): (r: Option<WorkflowDir>)
    ensures r.Some? ==> r.value in dirs && r.value.creatable
    ensures r.None? <==> forall d <- dirs :: !d.creatable
    decreases |dirs|
  {
    if dirs == [] then None
    else if dirs[0].creatable then Some(dirs[0])
    else
      var r := FirstCreatable(dirs[1..]);
      assert forall d <- dirs[1..] :: d in dirs;
      assert dirs == [dirs[0]] + dirs[1..];
      r
  }

  /** The file `_save_workflow` writes: the explicit output path when it is
      not blank, otherwise the automatic name inside the first directory
      that can be created, or inside `fallback` when none can. */
  function SavePath(pkgName: string, outputPath: string, cands: seq<WorkflowDir>, fallback: string): string {
    if Trim(outputPath) != [] then outputPath
    else
      var dir := FirstCreatable(DedupDirs(cands));
      (if dir.Some? then dir.value.path else fallback) + "/" + WorkflowFileName(pkgName)
  }

  /** `_save_workflow`: picks the target with a search loop over the
      directories. */
  method SaveWorkflow(pkgName: string, outputPath: string, cands: seq<WorkflowDir>, fallback: string)
    returns (path: string)
    ensures path == SavePath(pkgName, outputPath, cands, fallback)
  {
    if Trim(outputPath) != [] {
      return outputPath;
    }
    var possible := WorkflowDirectories(cands);
    var chosen: Option<WorkflowDir> := None;
    var i := 0;
    while i < |possible|
      invariant 0 <= i <= |possible|
      invariant chosen.None? ==> FirstCreatable(possible) == FirstCreatable(possible[i..])
      invariant chosen.Some? ==> chosen == FirstCreatable(possible)
      decreases |possible| - i, if chosen.None? then 1 else 0
    {
      if possible[i].creatable {
        chosen := Some(possible[i]);
        break;
      }
      assert possible[i..][1..] == possible[i + 1..];
      i := i + 1;
    }
    var dirPath := if chosen.Some? then chosen.value.path else fallback;
    path := dirPath + "/" + WorkflowFileName(pkgName);
  }

  // ---------------------------------------------------------------------
  // Deleting old workflows
  // ---------------------------------------------------------------------

  /** The file-name test of `delete_workflows`. */
  predicate Selected(name: string, prefix: string, keyword: string) {
    (prefix == [] || StartsWith(name, prefix)) && (keyword == [] || Contains(name, keyword))
  }

  /** The paths removed from one directory's files. */
  function Removed(files: seq<JsonFile>, prefix: string, keyword: string): seq<string>
    decreases |files|
  {
    if files == [] then []
    else
      var f := files[|files| - 1];
      Removed(files[..|files| - 1], prefix, keyword)
        + (if Selected(f.name, prefix, keyword) && f.removable then [f.path] else [])
  }

  /** The paths removed from all existing directories, in order. */
  function Deletions(dirs: seq<WorkflowDir>, prefix: string, keyword: string): seq<string>
    decreases |dirs|
  {
    if dirs == [] then []
    else
      var d := dirs[|dirs| - 1];
      Deletions(dirs[..|dirs| - 1], prefix, keyword)
        + (if d.present then Removed(d.jsonFiles, prefix, keyword) else [])
  }

  lemma {:induction false} RemovedSpec(files: seq<JsonFile>, prefix: string, keyword: string)
    ensures forall p :: p in Removed(files, prefix, keyword) <==>
      exists f <- files :: Selected(f.name, prefix, keyword) && f.removable && f.path == p
    decreases |files|
  {
    if files != [] {
      var init := files[..|files| - 1];
      var f := files[|files| - 1];
      RemovedSpec(init, prefix, keyword);
      assert files == init + [f];
      assert forall g <- files :: g in init || g == f;
    }
  }

  /** A path is deleted exactly when it belongs to a removable file whose
      name passes the test, in a directory that exists. */
  lemma {:induction false} DeletionsSpec(dirs: seq<WorkflowDir>, prefix: string, keyword: string)
    ensures forall p :: p in Deletions(dirs, prefix, keyword) <==>
      exists d <- dirs :: d.present && p in Removed(d.jsonFiles, prefix, keyword)
    decreases |dirs|
  {
    if dirs != [] {
      var init := dirs[..|dirs| - 1];
      var d := dirs[|dirs| - 1];
      DeletionsSpec(init, prefix, keyword);
      assert dirs == init + [d];
      assert forall e <- dirs :: e in init || e == d;
    }
  }

  /** `delete_workflows`: both filters are trimmed; with neither given
      nothing is deleted. */
  method DeleteWorkflows(prefix0: string, keyword0: string, cands: seq<WorkflowDir>)
    returns (deleted: seq<string>)
    ensures Trim(prefix0) == [] && Trim(keyword0) == [] ==> deleted == []
    ensures Trim(prefix0) != [] || Trim(keyword0) != [] ==>
      deleted == Deletions(DedupDirs(cands), Trim(prefix0), Trim(keyword0))
  {
    var prefix := Trim(prefix0);
    var keyword := Trim(keyword0);
    if prefix == [] && keyword == [] {
      return [];
    }
    deleted := [];
    var dirs := WorkflowDirectories(cands);
    for i := 0 to |dirs|
      invariant deleted == Deletions(dirs[..i], prefix, keyword)
    {
      var dir := dirs[i];
      assert dirs[..i + 1][..i] == dirs[..i];
      if !dir.present {
        continue;
      }
      var removed := RemoveMatching(dir.jsonFiles, prefix, keyword);
      deleted := deleted + removed;
    }
    assert dirs[..|dirs|] == dirs;
  }

  /** The inner loop of `delete_workflows`: one directory's files. */
  method RemoveMatching(files: seq<JsonFile>, prefix: string, keyword: string) returns (removed: seq<string>)
    ensures removed == Removed(files, prefix, keyword)
  {
    removed := [];
    for j := 0 to |files|
      invariant removed == Removed(files[..j], prefix, keyword)
    {
      var file := files[j];
      assert files[..j + 1][..j] == files[..j];
      if prefix != [] && !StartsWith(file.name, prefix) {
        continue;
      }
      if keyword != [] && !Contains(file.name, keyword) {
        continue;
      }
      if file.removable {
        removed := removed + [file.path];
      }
    }
    assert files[..|files|] == files;
  }

  // ---------------------------------------------------------------------
  // The two generator nodes
  // ---------------------------------------------------------------------

  /** `(workflow_json, node_count, path)`: the workflow document, or the
      error message returned in its place. */
  datatype GenerateOutput = GenerateOutput(workflow: Result<Workflow>, nodeCount: nat, path: string)

  /** `WorkflowGenerator.generate_workflow`: scan the package
      (sub-directories included), lay out every node, and save the document
      when asked. The seeded shuffle is the permutation `shuffled` of the
      scanned nodes, `None` standing for no seed. */
  method GenerateWorkflow(pkg: PackageDir, layout: string, sx: int, sy: int, saveToFile: bool,
                          outputPath: string, filter: string, cands: seq<WorkflowDir>, fallback: string,
                          shuffled: Option<seq<NodeRecord>>)
    returns (out: GenerateOutput)
    requires shuffled.Some? ==> multiset(shuffled.value) == multiset(ScannedNodes(pkg, true, filter))
    ensures var nodes := ScannedNodes(pkg, true, filter);
      if !pkg.present || !pkg.isDir || nodes == [] then
        out == GenerateOutput(Err("[ERROR] 未找到任何节点"), 0, "")
      else
        var order := if shuffled.Some? then shuffled.value else nodes;
        && out.workflow.Ok?
        && out.nodeCount == |nodes|
        && out.workflow.value.lastNodeId == |nodes|
        && |out.workflow.value.nodes| == |nodes| == |order|
        && (forall k :: 0 <= k < |nodes| ==> Placed(out.workflow.value.nodes[k], k, order[k], |nodes|, layout, sx, sy))
        && (shuffled.None? ==> Types(out.workflow.value) == Names(nodes))
        && multiset(Types(out.workflow.value)) == multiset(Names(nodes))
        && out.path == (if saveToFile then SavePath(pkg.name, outputPath, cands, fallback) else "")
  {
    if !pkg.present || !pkg.isDir {
      return GenerateOutput(Err("[ERROR] 未找到任何节点"), 0, "");
    }
    var data := ScanPackage(pkg, true, filter);
    if |data.nodes| == 0 {
      return GenerateOutput(Err("[ERROR] 未找到任何节点"), 0, "");
    }
    var workflow := CreateWorkflow(data.nodes, layout, sx, sy, shuffled);
    var jsonPath := "";
    if saveToFile {
      jsonPath := SaveWorkflow(pkg.name, outputPath, cands, fallback);
    }
    out := GenerateOutput(Ok(workflow), |data.nodes|, jsonPath);
  }

  /** The record `WorkflowFromList` builds for a typed class name. */
  function ManualRecord(name: string): NodeRecord {
    NodeRecord(name, Some(name), Some("custom"), "manual_input", "")
  }

  function ManualRecords(names: seq<string>): (r: seq<NodeRecord>)
    ensures |r| == |names|
    ensures Names(r) == names
  {
    seq(|names|, i requires 0 <= i < |names| => ManualRecord(names[i]))
  }

  /** `WorkflowFromList.generate_workflow`: the trimmed non-blank lines are
      the node types, in order; no such line is an error. */
  method WorkflowFromList(text: string, layout: string, sx: int, sy: int, saveToFile: bool,
                          outputPath: string, cands: seq<WorkflowDir>, fallback: string)
    returns (out: GenerateOutput)
    ensures CleanLines(text) == [] ==> out == GenerateOutput(Err("[ERROR] 节点列表为空"), 0, "")
    ensures CleanLines(text) != [] ==>
      && out.workflow.Ok?
      && out.nodeCount == |CleanLines(text)|
      && Types(out.workflow.value) == CleanLines(text)
      && (forall n <- out.workflow.value.nodes :: n.description.None?)
      && out.path == (if saveToFile then SavePath("custom_nodes", outputPath, cands, fallback) else "")
  {
    var classNames := CleanLines(text);
    if classNames == [] {
      return GenerateOutput(Err("[ERROR] 节点列表为空"), 0, "");
    }
    var nodesList := ManualRecords(classNames);
    var workflow := CreateWorkflow(nodesList, layout, sx, sy, None);
    var savedPath := "";
    if saveToFile {
      savedPath := SaveWorkflow("custom_nodes", outputPath, cands, fallback);
    }
    out := GenerateOutput(Ok(workflow), |classNames|, savedPath);
  }

  /** Typed names that are already trimmed, non-empty lines come back as
      the node types unchanged, in order. */
  lemma FromListKeepsNames(names: seq<string>)
    requires names != []
    requires forall l <- names :: l != [] && StrippedOf(l, Whitespace) && '\n' !in l
    ensures CleanLines(Join("\n", names)) == names
  {
    var text := Join("\n", names);
    JoinStripped("\n", names, Whitespace);
    StripStripped(text, Whitespace);
    SplitOnJoinNewline(names);
    StrippedNonBlankFixed(names);
  }
}
