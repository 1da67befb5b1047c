/**
 * The "load by name" node: it offers the installed packages in a list,
 * resolves the cleanup presets, deletes old workflow files, generates the
 * workflow of one package or of all of them, and writes a report of what
 * it did.
 */
module QuickLoadByName {
  import opened Wrappers
  import opened Strings
  import opened Ordering
  import opened NodePackageLoader
  import opened WorkflowGenerator

  // ---------------------------------------------------------------------
  // Installed packages
  // ---------------------------------------------------------------------

  /** One entry of the `custom_nodes` directory: whether it is a directory,
      and whether it holds an `__init__.py` or any other `.py` file. */
  datatype DirEntry = DirEntry(name: string, isDir: bool, hasInit: bool, hasPy: bool)

  /** The `custom_nodes` directory. `readable` is false when listing it
      raises. */
  datatype CustomNodesDir = CustomNodesDir(present: bool, readable: bool, entries: seq<DirEntry>)

  const NoPackages: string := "(未找到节点包)"
  const ScanFailed: string := "(扫描失败)"

  /** A visible directory holding Python code. */
  predicate IsPackage(e: DirEntry) {
    e.isDir && !StartsWith(e.name, ".") && (e.hasInit || e.hasPy)
  }

  /** The names of the qualifying entries, in directory order. */
  function PackageNames(entries: seq<DirEntry>): seq<string>
    decreases |entries|
  {
    if entries == [] then []
    else
      var e := entries[|entries| - 1];
      PackageNames(entries[..|entries| - 1]) + (if IsPackage(e) then [e.name] else [])
  }

  /** A name is listed exactly when some entry with that name qualifies. */
  lemma {:induction false} PackageNamesSpec(entries: seq<DirEntry>)
    ensures forall n :: n in PackageNames(entries) <==> exists e <- entries :: IsPackage(e) && e.name == n
    decreases |entries|
  {
    if entries != [] {
      var init := entries[..|entries| - 1];
      var e := entries[|entries| - 1];
      PackageNamesSpec(init);
      assert entries == init + [e];
      assert forall f <- entries :: f in init || f == e;
    }
  }

  /** The package list offered by the node: the sorted qualifying names, or
      a single placeholder when there are none or the directory cannot be
      read. */
  function PackageList(dir: CustomNodesDir): seq<string> {
    if !dir.present then [NoPackages]
    else if !dir.readable then [ScanFailed]
    else
      var names := SortedStrings(PackageNames(dir.entries));
      if names == [] then [NoPackages] else names
  }

  /** `get_custom_nodes_list`: collects the qualifying names, then sorts
      them. */
  method CustomNodesList(dir: CustomNodesDir) returns (list: seq<string>)
    ensures list == PackageList(dir)
  {
    if !dir.present {
      return [NoPackages];
    }
    if !dir.readable {
      return [ScanFailed];
    }
    var found: seq<string> := [];
    for i := 0 to |dir.entries|
      invariant found == PackageNames(dir.entries[..i])
    {
      var item := dir.entries[i];
      assert dir.entries[..i + 1][..i] == dir.entries[..i];
      if item.isDir && !StartsWith(item.name, ".") {
        if item.hasInit || item.hasPy {
          found := found + [item.name];
        }
      }
    }
    assert dir.entries[..|dir.entries|] == dir.entries;
    list := SortedStrings(found);
    if list == [] {
      return [NoPackages];
    }
  }

  /** The list is never empty; apart from the placeholders it holds exactly
      the qualifying names, each as often as it occurs, in ascending order. */
  lemma PackageListSpec(dir: CustomNodesDir)
    ensures PackageList(dir) != []
    ensures !dir.present || (dir.readable && PackageNames(dir.entries) == []) ==>
      PackageList(dir) == [NoPackages]
    ensures dir.present && !dir.readable ==> PackageList(dir) == [ScanFailed]
    ensures dir.present && dir.readable && PackageNames(dir.entries) != [] ==>
      var list := PackageList(dir);
      && multiset(list) == multiset(PackageNames(dir.entries))
      && (forall n <- list :: exists e <- dir.entries :: IsPackage(e) && e.name == n)
      && (forall i, j :: 0 <= i < j < |list| ==> !LexLess(list[j], list[i]))
  {
    var names := PackageNames(dir.entries);
    var sorted := SortedStrings(names);
    assert |sorted| == |multiset(sorted)| == |multiset(names)| == |names|;
    if dir.present && dir.readable && names != [] {
      PackageNamesSpec(dir.entries);
      forall n <- sorted
        ensures exists e <- dir.entries :: IsPackage(e) && e.name == n
      {
        assert n in multiset(names);
        assert n in names;
      }
      SortSorted(names, StrKey, false);
      forall i, j | 0 <= i < j < |sorted|
        ensures !LexLess(sorted[j], sorted[i])
      {
        assert !Precedes(StrKey, false, sorted[j], sorted[i]);
        assert KeyLess(StrKey(sorted[j]), StrKey(sorted[i])) == LexLess(sorted[j], sorted[i]);
      }
    }
  }

  // ---------------------------------------------------------------------
  // Layout modes
  // ---------------------------------------------------------------------

  datatype LayoutConfig = LayoutConfig(layoutType: string, spacingX: int, spacingY: int,
                                       description: string, modeLabel: string)

  const SmartMode: string := "智能布局"
  const CompactMode: string := "紧凑布局"
  const SpaciousMode: string := "宽松布局"

  /** `_get_layout_config`: the three named modes; anything else is the
      smart mode. */
  function LayoutFor(mode: string): (c: LayoutConfig)
    ensures mode == CompactMode ==> c.layoutType == "compact" && c.spacingX == 350 && c.spacingY == 220
    ensures mode == SpaciousMode ==> c.layoutType == "grid" && c.spacingX == 550 && c.spacingY == 350
    ensures mode != CompactMode && mode != SpaciousMode ==>
      c.layoutType == "grid" && c.spacingX == 450 && c.spacingY == 300
  {
    if mode == CompactMode then
      LayoutConfig("compact", 350, 220, "紧凑布局，节省空间", CompactMode)
    else if mode == SpaciousMode then
      LayoutConfig("grid", 550, 350, "宽松布局，节点间距大", SpaciousMode)
    else
      LayoutConfig("grid", 450, 300, "智能网格布局，适合大多数情况", SmartMode)
  }

  /** The label names the mode it came from: it is the mode itself for the
      three named modes, and looking the label up again gives the same
      configuration. */
  lemma LayoutLabel(mode: string)
    ensures LayoutFor(LayoutFor(mode).modeLabel) == LayoutFor(mode)
    ensures LayoutFor(mode).modeLabel == mode <==> mode in [SmartMode, CompactMode, SpaciousMode]
  {
    assert SmartMode != CompactMode && SmartMode != SpaciousMode;
    assert [SmartMode, CompactMode, SpaciousMode][0] == SmartMode;
  }

  /** Every mode spaces the nodes so that no two of them share a position. */
  lemma LayoutPositionsDistinct(mode: string, i: nat, j: nat, total: nat)
    requires i != j
    ensures var c := LayoutFor(mode);
      CalculatePosition(i, total, c.layoutType, c.spacingX, c.spacingY)
        != CalculatePosition(j, total, c.layoutType, c.spacingX, c.spacingY)
  {
    var c := LayoutFor(mode);
    PositionsDistinct(i, j, total, c.layoutType, c.spacingX, c.spacingY);
  }

  // ---------------------------------------------------------------------
  // Cleanup presets
  // ---------------------------------------------------------------------

  /** One preset: a dictionary that may hold a "prefix" and a "keyword". */
  type Preset = map<string, string>

  /** The preset file as found: missing, unreadable or not a dictionary,
      or a dictionary of presets. */
  datatype PresetFile = Missing | Invalid | Loaded(presets: map<string, Preset>)

  /** The "nothing selected" choice, for presets and for packages alike. */
  const NoChoice: string := "无"
  const AllPackages: string := "全部"

  function DefaultPresets(): map<string, Preset> {
    map["workflow" := map["prefix" := "workflow", "keyword" := ""]]
  }

  /** `load_cleanup_presets`: the stored presets, or the default set when
      the file is missing or invalid. */
  function LoadCleanupPresets(f: PresetFile): map<string, Preset> {
    if f.Loaded? then f.presets else DefaultPresets()
  }

  /** `preset.get(key, "")`. */
  function Field(p: Preset, key: string): string {
    if key in p then p[key] else ""
  }

  /** The node's inputs. */
  datatype Request = Request(
    package: string,
    mode: string,
    filter: string,
    preset: string,
    addPreset: bool,
    newName: string,
    newPrefix: string,
    newKeyword: string,
    removeName: string,
    prefix: string,
    keyword: string)

  /** The presets and the selected preset after the add and remove inputs,
      and the cleanup filters that result. */
  datatype CleanupPlan = CleanupPlan(presets: map<string, Preset>, selected: string, prefix: string, keyword: string)

  /** A preset as the add input stores it. */
  function NewPreset(prefix: string, keyword: string): Preset {
    map["prefix" := Trim(prefix), "keyword" := Trim(keyword)]
  }

  /** The presets and the selection after the add and remove inputs. */
  function EditPresets(req: Request, stored: map<string, Preset>): (map<string, Preset>, string) {
    var added := Trim(req.newName);
    EditWith(stored, req.preset, req.addPreset && added != [], added,
             NewPreset(req.newPrefix, req.newKeyword), Trim(req.removeName))
  }

  /** Stores `entry` under `added` and selects it when `adding`, then
      removes `removed` (when not empty and present) and clears the
      selection if it named the removed preset. */
  function EditWith(stored: map<string, Preset>, preset: string, adding: bool, added: string, entry: Preset, removed: string)
    : (map<string, Preset>, string)
  {
    var presets := if adding then stored[added := entry] else stored;
    var selected := if adding then added else preset;
    if removed != [] && removed in presets then
      (presets - {removed}, if selected == removed then NoChoice else selected)
    else (presets, selected)
  }

  lemma EditWithKeeps(stored: map<string, Preset>, preset: string, adding: bool, added: string, entry: Preset, removed: string, k: string)
    requires !(adding && k == added) && !(removed != [] && k == removed)
    ensures var presets := EditWith(stored, preset, adding, added, entry, removed).0;
      && (k in presets <==> k in stored)
      && (k in stored ==> presets[k] == stored[k])
  {
  }

  lemma EditWithStores(stored: map<string, Preset>, preset: string, adding: bool, added: string, entry: Preset, removed: string)
    requires adding && added != removed
    ensures var (presets, selected) := EditWith(stored, preset, adding, added, entry, removed);
      added in presets && presets[added] == entry && selected == added
  {
  }

  /** An empty filter takes the selected preset's value. */
  lemma FillFromPreset(presets: map<string, Preset>, selected: string, key: string)
    requires selected != NoChoice && selected in presets && key in presets[selected]
    ensures FillFilter([], presets, selected, key) == presets[selected][key]
  {
  }

  /** `cleanup_*`: a typed filter is kept; an empty one takes the selected
      preset's value when that preset exists and is not empty. */
  function FillFilter(typed: string, presets: map<string, Preset>, selected: string, key: string): string {
    var data := if selected != NoChoice && selected in presets then presets[selected] else map[];
    if typed == [] && data != map[] then Field(data, key) else typed
  }

  /** The preset block of `quick_load_by_name`: add (or overwrite) and
      select the named preset, then remove a preset and drop it from the
      selection, then fill each empty filter from the selected preset, then
      trim both filters. */
  function PlanCleanup(req: Request, stored: map<string, Preset>): CleanupPlan {
    var (presets, selected) := EditPresets(req, stored);
    CleanupPlan(presets, selected,
                Trim(FillFilter(req.prefix, presets, selected, "prefix")),
                Trim(FillFilter(req.keyword, presets, selected, "keyword")))
  }

  /** The preset block, step by step. */
  method ApplyPresets(req: Request, stored: map<string, Preset>) returns (plan: CleanupPlan)
    ensures plan == PlanCleanup(req, stored)
  {
    var presets, presetName := EditPart(req, stored);
    var prefix := FillPart(req.prefix, presets, presetName, "prefix");
    var keyword := FillPart(req.keyword, presets, presetName, "keyword");
    plan := CleanupPlan(presets, presetName, Trim(prefix), Trim(keyword));
  }

  /** The add and remove inputs, applied in that order. */
  method EditPart(req: Request, stored: map<string, Preset>) returns (presets: map<string, Preset>, presetName: string)
    ensures (presets, presetName) == EditPresets(req, stored)
  {
    presets := stored;
    presetName := req.preset;
    var newName := Trim(req.newName);
    if req.addPreset && newName != [] {
      presets := presets[newName := NewPreset(req.newPrefix, req.newKeyword)];
      presetName := newName;
    }
    var removeName := Trim(req.removeName);
    if removeName != [] {
      if removeName in presets {
        presets := presets - {removeName};
        if presetName == removeName {
          presetName := NoChoice;
        }
      }
    }
  }

  /** One filter, filled from the selected preset when it is empty. */
  method FillPart(typed: string, presets: map<string, Preset>, presetName: string, key: string) returns (value: string)
    ensures value == FillFilter(typed, presets, presetName, key)
  {
    value := typed;
    if presetName != NoChoice {
      var data := if presetName in presets then presets[presetName] else map[];
      if data != map[] && value == [] {
        value := Field(data, key);
      }
    }
  }

  /** Adding stores the trimmed name with the trimmed filters, removing
      deletes the trimmed name, and no other preset changes. */
  lemma PresetEdits(req: Request, stored: map<string, Preset>)
    ensures forall k :: !(req.addPreset && k == Trim(req.newName)) && !(Trim(req.removeName) != [] && k == Trim(req.removeName)) ==>
      && (k in PlanCleanup(req, stored).presets <==> k in stored)
      && (k in stored ==> PlanCleanup(req, stored).presets[k] == stored[k])
    ensures Trim(req.removeName) != [] ==> Trim(req.removeName) !in PlanCleanup(req, stored).presets
    ensures req.addPreset && Trim(req.newName) != [] && Trim(req.newName) != Trim(req.removeName) ==>
      var added := Trim(req.newName);
      added in PlanCleanup(req, stored).presets && PlanCleanup(req, stored).presets[added] == NewPreset(req.newPrefix, req.newKeyword)
  {
    OtherPresetsKept(req, stored);
    AddedPresetStored(req, stored);
  }

  lemma OtherPresetsKept(req: Request, stored: map<string, Preset>)
    ensures forall k :: !(req.addPreset && k == Trim(req.newName)) && !(Trim(req.removeName) != [] && k == Trim(req.removeName)) ==>
      && (k in PlanCleanup(req, stored).presets <==> k in stored)
      && (k in stored ==> PlanCleanup(req, stored).presets[k] == stored[k])
  {
    var added, removed := Trim(req.newName), Trim(req.removeName);
    var adding, entry := req.addPreset && added != [], NewPreset(req.newPrefix, req.newKeyword);
    assert PlanCleanup(req, stored).presets == EditWith(stored, req.preset, adding, added, entry, removed).0;
    forall k | !(req.addPreset && k == added) && !(removed != [] && k == removed) {
      EditWithKeeps(stored, req.preset, adding, added, entry, removed, k);
    }
  }

  lemma AddedPresetStored(req: Request, stored: map<string, Preset>)
    ensures req.addPreset && Trim(req.newName) != [] && Trim(req.newName) != Trim(req.removeName) ==>
      var added := Trim(req.newName);
      added in PlanCleanup(req, stored).presets && PlanCleanup(req, stored).presets[added] == NewPreset(req.newPrefix, req.newKeyword)
  {
    var added, removed := Trim(req.newName), Trim(req.removeName);
    var adding, entry := req.addPreset && added != [], NewPreset(req.newPrefix, req.newKeyword);
    assert PlanCleanup(req, stored).presets == EditWith(stored, req.preset, adding, added, entry, removed).0;
    if adding && added != removed {
      EditWithStores(stored, req.preset, adding, added, entry, removed);
    }
  }

  /** The planned filters are already trimmed. */
  lemma PlanTrimmed(req: Request, stored: map<string, Preset>)
    ensures var plan := PlanCleanup(req, stored);
      Trim(plan.prefix) == plan.prefix && Trim(plan.keyword) == plan.keyword
  {
    var (presets, selected) := EditPresets(req, stored);
    TrimIdempotent(FillFilter(req.prefix, presets, selected, "prefix"));
    TrimIdempotent(FillFilter(req.keyword, presets, selected, "keyword"));
  }

  /** A preset added in the same call is selected and supplies both
      filters when none is typed. */
  lemma AddedPresetApplies(req: Request, stored: map<string, Preset>)
    requires req.addPreset && Trim(req.newName) != [] && Trim(req.newName) != NoChoice
    requires Trim(req.newName) != Trim(req.removeName)
    requires req.prefix == [] && req.keyword == []
    ensures var plan := PlanCleanup(req, stored);
      && plan.selected == Trim(req.newName)
      && plan.prefix == Trim(req.newPrefix)
      && plan.keyword == Trim(req.newKeyword)
  {
    var added, removed := Trim(req.newName), Trim(req.removeName);
    var entry := NewPreset(req.newPrefix, req.newKeyword);
    var (presets, selected) := EditWith(stored, req.preset, true, added, entry, removed);
    assert EditPresets(req, stored) == (presets, selected);
    EditWithStores(stored, req.preset, true, added, entry, removed);
    assert "prefix" in entry && "keyword" in entry;
    FillFromPreset(presets, selected, "prefix");
    FillFromPreset(presets, selected, "keyword");
    TrimIdempotent(req.newPrefix);
    TrimIdempotent(req.newKeyword);
  }

  /** A typed filter always wins over the preset. */
  lemma TypedFiltersWin(req: Request, stored: map<string, Preset>)
    ensures req.prefix != [] ==> PlanCleanup(req, stored).prefix == Trim(req.prefix)
    ensures req.keyword != [] ==> PlanCleanup(req, stored).keyword == Trim(req.keyword)
  {
  }

  /** A removed preset is never applied: it is gone from the presets and,
      when it was selected, the selection is cleared. */
  lemma RemovedPresetNotApplied(req: Request, stored: map<string, Preset>)
    requires Trim(req.removeName) != []
    ensures var plan := PlanCleanup(req, stored);
      && Trim(req.removeName) !in plan.presets
      && (plan.selected == Trim(req.removeName) ==>
            plan.prefix == Trim(req.prefix) && plan.keyword == Trim(req.keyword))
  {
  }

  /** With no preset file the default preset selects every file the
      generator names automatically. */
  lemma DefaultPresetCoversGeneratedFiles(req: Request, pkg: string)
    requires req.preset == "workflow" && !req.addPreset && Trim(req.removeName) == []
    requires req.prefix == [] && req.keyword == []
    ensures PlanCleanup(req, LoadCleanupPresets(Missing)).prefix == "workflow"
    ensures PlanCleanup(req, LoadCleanupPresets(Missing)).keyword == ""
    ensures Selected(WorkflowFileName(pkg), "workflow", "")
  {
    var stored := LoadCleanupPresets(Missing);
    var data := stored["workflow"];
    assert "prefix" in data && "keyword" in data;
    StoredPresetApplies(req, stored);
    assert data["prefix"] == "workflow" && data["keyword"] == "";
    TrimWorkflow();
    GeneratedNameSelected(pkg);
  }

  lemma GeneratedNameSelected(pkg: string)
    ensures Selected(WorkflowFileName(pkg), "workflow", "")
  {
    assert "workflow" <= WorkflowFileName(pkg);
  }

  /** Selecting a stored preset, with nothing typed, added or removed,
      fills both filters from it. */
  lemma StoredPresetApplies(req: Request, stored: map<string, Preset>)
    requires !req.addPreset && Trim(req.removeName) == []
    requires req.prefix == [] && req.keyword == []
    requires req.preset != NoChoice && req.preset in stored
    requires "prefix" in stored[req.preset] && "keyword" in stored[req.preset]
    ensures PlanCleanup(req, stored).prefix == Trim(stored[req.preset]["prefix"])
    ensures PlanCleanup(req, stored).keyword == Trim(stored[req.preset]["keyword"])
  {
    assert EditPresets(req, stored) == (stored, req.preset);
    FillFromPreset(stored, req.preset, "prefix");
    FillFromPreset(stored, req.preset, "keyword");
  }

  lemma TrimWorkflow()
    ensures Trim("workflow") == "workflow" && Trim("") == ""
  {
    assert StrippedOf("workflow", Whitespace);
    StripStripped("workflow", Whitespace);
  }

  // ---------------------------------------------------------------------
  // File names in the report
  // ---------------------------------------------------------------------

  /** `s.rfind(c)`. */
  function LastIndex(s: string, c: char): (r: int)
    ensures -1 <= r < |s|
    ensures r >= 0 ==> s[r] == c
    ensures forall k :: r < k < |s| ==> s[k] != c
    decreases |s|
  {
    if s == [] then -1
    else if s[|s| - 1] == c then |s| - 1
    else LastIndex(s[..|s| - 1], c)
  }

  /** `Path(path).name` for `/`-separated paths. */
  function FileNameOf(path: string): string {
    path[LastIndex(path, '/') + 1..]
  }

  /** `Path(name).stem`: the name without its last suffix; a dot that
      starts or ends the name does not begin a suffix. */
  function Stem(name: string): string {
    var i := LastIndex(name, '.');
    if 0 < i < |name| - 1 then name[..i] else name
  }

  /** The package name shown for a batch file, as written: every
      occurrence of "workflow_" and then of "_all_nodes" is deleted from
      the stem. */
  function BatchNameAsWritten(path: string): string {
    Replace(Replace(Stem(FileNameOf(path)), "workflow_", "", -1), "_all_nodes", "", -1)
  }

  /** The package name shown for a batch file: the stem without the one
      leading "workflow_" and the one trailing "_all_nodes". */
  function BatchName(path: string): string {
    var stem := Stem(FileNameOf(path));
    var name := if StartsWith(stem, "workflow_") then stem[|"workflow_"|..] else stem;
    if EndsWith(name, "_all_nodes") then name[..|name| - |"_all_nodes"|] else name
  }

  lemma {:induction false} LastIndexAfter(a: string, c: char, b: string)
    requires c !in b
    ensures LastIndex(a + [c] + b, c) == |a|
    decreases |b|
  {
    var s := a + [c] + b;
    if b != [] {
      var init := b[..|b| - 1];
      assert s[|s| - 1] == b[|b| - 1];
      assert s[..|s| - 1] == a + [c] + init;
      assert c !in init by {
        assert forall x <- init :: x in b;
      }
      LastIndexAfter(a, c, init);
    }
  }

  /** The stem of a file saved under the automatic name. */
  lemma StemOfFile(dir: string, pkg: string)
    requires '/' !in pkg
    ensures Stem(FileNameOf(dir + "/" + WorkflowFileName(pkg))) == "workflow_" + pkg + "_all_nodes"
  {
    var file := WorkflowFileName(pkg);
    assert file == "workflow_" + pkg + "_all_nodes" + "." + "json";
    NoSlashInFileName(pkg);
    LastIndexAfter(dir, '/', file);
    assert dir + "/" + file == dir + ['/'] + file;
    assert FileNameOf(dir + "/" + file) == file;
    var stem := "workflow_" + pkg + "_all_nodes";
    LastIndexAfter(stem, '.', "json");
    assert stem + "." + "json" == stem + ['.'] + "json";
  }

  lemma NoSlashInFileName(pkg: string)
    requires '/' !in pkg
    ensures '/' !in WorkflowFileName(pkg)
  {
    var file := WorkflowFileName(pkg);
    forall k | 0 <= k < |file|
      ensures file[k] != '/'
    {
      if 9 <= k < 9 + |pkg| {
        assert file[k] == pkg[k - 9];
      }
    }
  }

  /** The name of a file saved under the automatic name is the package
      name back, for every package name without a `/`. */
  lemma BatchNameOfFile(dir: string, pkg: string)
    requires '/' !in pkg
    ensures BatchName(dir + "/" + WorkflowFileName(pkg)) == pkg
  {
    StemOfFile(dir, pkg);
    var stem := "workflow_" + pkg + "_all_nodes";
    assert StartsWith(stem, "workflow_");
    assert stem[9..] == pkg + "_all_nodes";
  }

  /** The directory `SavePath` picks when no output path is given. */
  function AutoDir(dirs: seq<WorkflowDir>, fallback: string): string {
    var dir := FirstCreatable(DedupDirs(dirs));
    if dir.Some? then dir.value.path else fallback
  }

  lemma SavePathAuto(pkg: string, dirs: seq<WorkflowDir>, fallback: string)
    ensures SavePath(pkg, "", dirs, fallback) == AutoDir(dirs, fallback) + "/" + WorkflowFileName(pkg)
  {
    assert Trim("") == "";
  }

  /** A file saved in a batch: the report names its package. */
  lemma BatchNameOfSavePath(pkg: string, dirs: seq<WorkflowDir>, fallback: string)
    requires '/' !in pkg
    ensures BatchName(SavePath(pkg, "", dirs, fallback)) == pkg
  {
    SavePathAuto(pkg, dirs, fallback);
    BatchNameOfFile(AutoDir(dirs, fallback), pkg);
  }

  lemma NotContainedFirstChar(s: string, t: string)
    requires t != [] && t[0] !in s
    ensures !Contains(s, t)
  {
    forall i | 0 <= i <= |s| - |t|
      ensures !OccursAt(s, t, i)
    {
      assert s[i] in s;
      assert s[i..i + |t|][0] == s[i];
    }
  }

  lemma CounterexampleStem(dirs: seq<WorkflowDir>, fallback: string)
    ensures Stem(FileNameOf(SavePath("workflow_x", "", dirs, fallback))) == "workflow_workflow_x_all_nodes"
  {
    var pkg := "workflow_x";
    CounterexampleName(pkg);
    SavePathAuto(pkg, dirs, fallback);
    StemOfFile(AutoDir(dirs, fallback), pkg);
  }

  lemma CounterexampleName(pkg: string)
    requires pkg == "workflow_x"
    ensures '/' !in pkg
    ensures "workflow_" + pkg + "_all_nodes" == "workflow_workflow_x_all_nodes"
    ensures "workflow_workflow_x_all_nodes" == "workflow_" + ("workflow_" + "x_all_nodes")
  {
  }

  /** Deleting every "workflow_" also deletes the one that belongs to
      the package name. */
  lemma CounterexamplePrefixes(w: string, x: string)
    requires w != [] && !Contains(x, w)
    ensures Replace(w + (w + x), w, "", -1) == x
  {
    ReplaceLeading(w, w + x, "");
    ReplaceLeading(w, x, "");
    ReplaceNotFound(x, w, "");
  }

  lemma CounterexampleSuffix()
    ensures Replace("x_all_nodes", "_all_nodes", "", -1) == "x"
  {
    var a := "_all_nodes";
    assert "x_all_nodes"[0..10][0] != a[0];
    assert "x_all_nodes"[1..11] == a;
    assert Find("x_all_nodes", a, 0) == 1;
    assert Replace("", a, "", -1) == "";
  }

  /** A package named "workflow_x" is reported as "x", wherever the batch
      saved its file. */
  lemma BatchNameAsWrittenCounterexample(dirs: seq<WorkflowDir>, fallback: string)
    ensures BatchNameAsWritten(SavePath("workflow_x", "", dirs, fallback)) == "x"
    ensures BatchName(SavePath("workflow_x", "", dirs, fallback)) == "workflow_x"
  {
    BatchNameOfSavePath("workflow_x", dirs, fallback);
    CounterexampleStem(dirs, fallback);
    CounterexampleName("workflow_x");
    AsWrittenOfStem(SavePath("workflow_x", "", dirs, fallback));
  }

  lemma AsWrittenOfStem(path: string)
    requires Stem(FileNameOf(path)) == "workflow_" + ("workflow_" + "x_all_nodes")
    ensures BatchNameAsWritten(path) == "x"
  {
    var w, x := "workflow_", "x_all_nodes";
    NotContainedFirstChar(x, w);
    CounterexamplePrefixes(w, x);
    CounterexampleSuffix();
  }

  /** Where the code as written does recover the package name: a name
      without "_" that does not end in "workflow" (so no "workflow_" or
      "_all_nodes" can form inside the file name's stem apart from its own
      prefix and suffix). */
  lemma BatchNameAsWrittenOfFile(dir: string, pkg: string)
    requires '/' !in pkg && '_' !in pkg && !EndsWith(pkg, "workflow")
    ensures BatchNameAsWritten(dir + "/" + WorkflowFileName(pkg)) == pkg
  {
    StemOfFile(dir, pkg);
    var w, a := "workflow_", "_all_nodes";
    var rest := pkg + a;
    assert "workflow_" + pkg + "_all_nodes" == w + rest;
    ReplaceLeading(w, rest, "");
    NoPrefixInRest(pkg);
    ReplaceNotFound(rest, w, "");
    assert "" + Replace(rest, w, "", -1) == rest;
    SuffixOnlyAtEnd(pkg);
  }

  lemma NoPrefixInRest(pkg: string)
    requires '_' !in pkg && !EndsWith(pkg, "workflow")
    ensures !Contains(pkg + "_all_nodes", "workflow_")
  {
    var rest, w := pkg + "_all_nodes", "workflow_";
    forall j | 0 <= j <= |rest| - |w|
      ensures !OccursAt(rest, w, j)
    {
      var piece := rest[j..j + |w|];
      if j + 8 < |pkg| {
        assert piece[8] == pkg[j + 8];
        assert pkg[j + 8] in pkg;
        assert piece[8] != w[8];
      } else if j + 8 == |pkg| {
        var k :| 0 <= k < 8 && pkg[|pkg| - 8..][k] != "workflow"[k];
        assert piece[k] == pkg[|pkg| - 8 + k];
        assert piece[k] != w[k];
      } else if j + 4 < |pkg| {
        var a := "_all_nodes";
        assert piece[8] == a[j + 8 - |pkg|];
        assert forall o | 1 <= o <= 3 :: a[o] != '_';
        assert piece[8] != w[8];
      } else {
        var a := "_all_nodes";
        assert piece[4] == a[j + 4 - |pkg|];
        assert forall o | 0 <= o <= 5 :: a[o] != 'f';
        assert piece[4] != w[4];
      }
    }
  }

  lemma SuffixOnlyAtEnd(pkg: string)
    requires '_' !in pkg
    ensures Replace(pkg + "_all_nodes", "_all_nodes", "", -1) == pkg
  {
    var rest, a := pkg + "_all_nodes", "_all_nodes";
    forall j | 0 <= j < |pkg|
      ensures !OccursAt(rest, a, j)
    {
      assert rest[j] == pkg[j];
      assert pkg[j] in pkg;
    }
    assert rest[|pkg|..|pkg| + |a|] == a;
    assert OccursAt(rest, a, |pkg|);
    assert Find(rest, a, 0) == |pkg|;
    ReplaceFound(rest, a, "", -1);
    assert rest[|pkg| + |a|..] == [];
  }

  /** The code as written also merges the package name into the suffix it
      strips: "myworkflow" is reported as "myall_nodes", although the name
      holds neither "workflow_" nor "_all_nodes". */
  lemma BatchNameAsWrittenMerges(dir: string)
    ensures BatchNameAsWritten(dir + "/" + WorkflowFileName("myworkflow")) == "myall_nodes"
    ensures BatchName(dir + "/" + WorkflowFileName("myworkflow")) == "myworkflow"
  {
    var pkg := "myworkflow";
    StemOfFile(dir, pkg);
    BatchNameOfFile(dir, pkg);
    MergedStem();
    MergedSuffix();
  }

  lemma MergedStem()
    ensures Replace("workflow_" + "myworkflow" + "_all_nodes", "workflow_", "", -1) == "myall_nodes"
  {
    var w, rest := "workflow_", "myworkflow_all_nodes";
    assert "workflow_" + "myworkflow" + "_all_nodes" == w + rest;
    ReplaceLeading(w, rest, "");
    MergedRest();
  }

  lemma MergedRest()
    ensures Replace("myworkflow_all_nodes", "workflow_", "", -1) == "myall_nodes"
  {
    var w, rest := "workflow_", "myworkflow_all_nodes";
    MergedFind();
    ReplaceFound(rest, w, "", -1);
    MergedTail();
    assert rest[..2] + "" + "all_nodes" == "myall_nodes";
  }

  lemma MergedTail()
    ensures "myworkflow_all_nodes"[2 + |"workflow_"|..] == "all_nodes"
    ensures Replace("all_nodes", "workflow_", "", -1) == "all_nodes"
  {
    NotContainedFirstChar("all_nodes", "workflow_");
    ReplaceNotFound("all_nodes", "workflow_", "");
  }

  lemma MergedFind()
    ensures Find("myworkflow_all_nodes", "workflow_", 0) == 2
  {
    var w, rest := "workflow_", "myworkflow_all_nodes";
    assert rest[0..9][0] != w[0] && rest[1..10][0] != w[0];
    assert rest[2..11] == w;
    assert OccursAt(rest, w, 2);
  }

  lemma MergedSuffix()
    ensures Replace("myall_nodes", "_all_nodes", "", -1) == "myall_nodes"
  {
    var merged, a := "myall_nodes", "_all_nodes";
    assert merged[0..10][0] != a[0] && merged[1..11][0] != a[0];
    assert Find(merged, a, 0) == -1;
  }

  /** With the code as written, every file of a batch is reported under the
      name of the package it was generated for, as long as no package name
      holds "_" or ends in "workflow". */
  lemma BatchNameAsWrittenOfSavePath(pkg: string, dirs: seq<WorkflowDir>, fallback: string)
    requires '/' !in pkg && '_' !in pkg && !EndsWith(pkg, "workflow")
    ensures BatchNameAsWritten(SavePath(pkg, "", dirs, fallback)) == pkg
  {
    SavePathAuto(pkg, dirs, fallback);
    BatchNameAsWrittenOfFile(AutoDir(dirs, fallback), pkg);
  }

  // ---------------------------------------------------------------------
  // The report
  // ---------------------------------------------------------------------

  /** One workflow written by the batch mode: its node count and file. */
  datatype BatchItem = BatchItem(count: nat, path: string)

  /** The arguments of `_generate_instructions`; an empty `batch` stands
      for `None`. */
  datatype Report = Report(
    jsonPath: string,
    packageName: string,
    nodeCount: nat,
    deleted: seq<string>,
    prefix: string,
    keyword: string,
    preset: string,
    generated: bool,
    batch: seq<BatchItem>)

  function Conditions(prefix: string, keyword: string): seq<string> {
    (if prefix != [] then ["前缀='" + prefix + "'"] else [])
    + (if keyword != [] then ["包含='" + keyword + "'"] else [])
  }

  function PreviewLines(paths: seq<string>): (r: seq<string>)
    ensures |r| == |paths|
    ensures forall i :: 0 <= i < |paths| ==> r[i] == "  - " + FileNameOf(paths[i])
    decreases |paths|
  {
    if paths == [] then []
    else PreviewLines(paths[..|paths| - 1]) + ["  - " + FileNameOf(paths[|paths| - 1])]
  }

  /** The cleanup part: the filters, the count, at most five deleted file
      names, and an ellipsis when some were not listed. */
  function CleanupSection(prefix: string, keyword: string, deleted: seq<string>): seq<string> {
    if prefix == [] && keyword == [] then []
    else
      var preview := PySlice(deleted, 0, 5);
      ["", "[清理]", "条件: " + Join(" 且 ", Conditions(prefix, keyword)),
       "删除 " + NatToString(|deleted|) + " 个匹配文件"]
      + PreviewLines(preview)
      + (if |deleted| > |preview| then ["  ..."] else [])
  }

  /** The report line of the batch file at (zero-based) position `k`. */
  function ItemLine(k: nat, item: BatchItem): string {
    NatToString(k + 1) + ". " + BatchName(item.path) + ": " + NatToString(item.count) + " 个节点"
  }

  function BatchLines(batch: seq<BatchItem>): seq<string>
    decreases |batch|
  {
    if batch == [] then []
    else
      var item := batch[|batch| - 1];
      BatchLines(batch[..|batch| - 1]) + [ItemLine(|batch| - 1, item), "   " + item.path]
  }

  const BatchHowTo: seq<string> := ["",
    "[导入方法]",
    "方法 1: 使用 JSON 文件",
    "  1. 点击右上角的 'Load' 按钮",
    "  2. 选择上面列出的任意 JSON 文件",
    "",
    "方法 2: 批量导入",
    "  - 可以依次加载多个工作流文件",
    "  - 每个文件包含对应节点包的所有节点"]

  function SingleFileLines(path: string): seq<string> {
    ["",
     "[文件位置]",
     "workflow_json: （节点输出，可继续传递）",
     "JSON: " + path,
     "",
     "[导入方法]",
     "方法 1: 使用 JSON 文件",
     "  1. 点击右上角的 'Load' 按钮",
     "  2. 选择上面的 JSON 文件",
     "",
     "方法 2: 使用 workflow_json 输出",
     "  - 将 workflow_json 连接到保存节点（JSON）",
     "  - 或传递给自定义处理节点"]
  }

  const NothingGenerated: seq<string> := ["", "[文件位置]", "本次未生成新工作流（仅执行清理）"]

  function ResultSection(generated: bool, jsonPath: string, batch: seq<BatchItem>): seq<string> {
    if !generated then NothingGenerated
    else if batch != [] then
      ["", "[批量生成]", "成功生成 " + NatToString(|batch|) + " 个工作流文件"] + BatchLines(batch) + BatchHowTo
    else if jsonPath != [] then SingleFileLines(jsonPath)
    else []
  }

  /** The lines of the report, in order. */
  function ReportLines(r: Report): seq<string> {
    ["[包名] " + r.packageName, "[节点] " + NatToString(r.nodeCount) + " 个"]
    + (if r.preset != [] && r.preset != NoChoice then ["[预设] " + r.preset] else [])
    + CleanupSection(r.prefix, r.keyword, r.deleted)
    + ResultSection(r.generated, r.jsonPath, r.batch)
  }

  /** The cleanup lines, built one by one. */
  method CleanupPart(prefix: string, keyword: string, deleted: seq<string>) returns (lines: seq<string>)
    ensures lines == CleanupSection(prefix, keyword, deleted)
  {
    lines := [];
    if prefix == [] && keyword == [] {
      return;
    }
    var condition: seq<string> := [];
    if prefix != [] {
      condition := condition + ["前缀='" + prefix + "'"];
    }
    if keyword != [] {
      condition := condition + ["包含='" + keyword + "'"];
    }
    assert condition == Conditions(prefix, keyword);
    var preview := PySlice(deleted, 0, 5);
    var listed := PreviewPart(preview);
    lines := ["", "[清理]", "条件: " + Join(" 且 ", condition), "删除 " + NatToString(|deleted|) + " 个匹配文件"]
      + listed;
    if |deleted| > |preview| {
      lines := lines + ["  ..."];
    }
  }

  /** The deleted-file lines, built one by one. */
  method PreviewPart(preview: seq<string>) returns (lines: seq<string>)
    ensures lines == PreviewLines(preview)
  {
    lines := [];
    for i := 0 to |preview|
      invariant lines == PreviewLines(preview[..i])
    {
      assert preview[..i + 1][..i] == preview[..i];
      lines := lines + ["  - " + FileNameOf(preview[i])];
    }
    assert preview[..|preview|] == preview;
  }

  /** The batch lines, built one by one. */
  method BatchPart(batch: seq<BatchItem>) returns (lines: seq<string>)
    ensures lines == BatchLines(batch)
  {
    lines := [];
    for idx := 0 to |batch|
      invariant lines == BatchLines(batch[..idx])
    {
      var item := batch[idx];
      BatchLinesSnoc(batch, idx);
      lines := lines + [ItemLine(idx, item)];
      lines := lines + ["   " + item.path];
    }
    assert batch[..|batch|] == batch;
  }

  lemma BatchLinesSnoc(batch: seq<BatchItem>, idx: nat)
    requires idx < |batch|
    ensures BatchLines(batch[..idx + 1])
         == BatchLines(batch[..idx]) + [ItemLine(idx, batch[idx])] + ["   " + batch[idx].path]
  {
    assert batch[..idx + 1][..idx] == batch[..idx];
    var pre := BatchLines(batch[..idx]);
    SnocTwo(pre, ItemLine(idx, batch[idx]), "   " + batch[idx].path);
  }

  lemma SnocTwo<T>(s: seq<T>, a: T, b: T)
    ensures s + [a, b] == s + [a] + [b]
  {
  }

  /** `_generate_instructions`: builds the lines part by part and joins
      them. */
  method GenerateInstructions(r: Report) returns (text: string)
    ensures text == Join("\n", ReportLines(r))
  {
    var lines := ["[包名] " + r.packageName, "[节点] " + NatToString(r.nodeCount) + " 个"];
    if r.preset != [] && r.preset != NoChoice {
      lines := lines + ["[预设] " + r.preset];
    }
    assert lines == ["[包名] " + r.packageName, "[节点] " + NatToString(r.nodeCount) + " 个"]
      + (if r.preset != [] && r.preset != NoChoice then ["[预设] " + r.preset] else []);
    ghost var head := lines;
    var cleanup := CleanupPart(r.prefix, r.keyword, r.deleted);
    lines := lines + cleanup;
    var result: seq<string> := [];
    if r.generated {
      if r.batch != [] {
        var items := BatchPart(r.batch);
        result := ["", "[批量生成]", "成功生成 " + NatToString(|r.batch|) + " 个工作流文件"] + items + BatchHowTo;
      } else if r.jsonPath != [] {
        result := SingleFileLines(r.jsonPath);
      }
    } else {
      result := NothingGenerated;
    }
    assert result == ResultSection(r.generated, r.jsonPath, r.batch);
    lines := lines + result;
    assert lines == head + cleanup + result;
    text := Join("\n", lines);
  }

  /** The cleanup part appears only when a filter is set; it then lists
      the first five deleted files by name, and ends with "  ..." exactly
      when more than five were deleted. */
  lemma CleanupSectionShape(prefix: string, keyword: string, deleted: seq<string>)
    ensures prefix == [] && keyword == [] ==> CleanupSection(prefix, keyword, deleted) == []
    ensures prefix != [] || keyword != [] ==>
      |CleanupSection(prefix, keyword, deleted)| == 4 + Shown(|deleted|) + (if |deleted| > 5 then 1 else 0)
    ensures prefix != [] || keyword != [] ==>
      CleanupSection(prefix, keyword, deleted)[3] == "删除 " + NatToString(|deleted|) + " 个匹配文件"
    ensures prefix != [] || keyword != [] ==>
      forall i :: 0 <= i < Shown(|deleted|) ==>
        CleanupSection(prefix, keyword, deleted)[4 + i] == "  - " + FileNameOf(deleted[i])
    ensures prefix != [] || keyword != [] ==>
      ("  ..." in CleanupSection(prefix, keyword, deleted) <==> |deleted| > 5)
  {
    if prefix != [] || keyword != [] {
      CleanupLength(prefix, keyword, deleted);
      CleanupCountLine(prefix, keyword, deleted);
      CleanupListed(prefix, keyword, deleted);
      CleanupEllipsis(prefix, keyword, deleted);
    }
  }

  lemma CleanupLength(prefix: string, keyword: string, deleted: seq<string>)
    requires prefix != [] || keyword != []
    ensures |CleanupSection(prefix, keyword, deleted)| == 4 + Shown(|deleted|) + (if |deleted| > 5 then 1 else 0)
  {
    CleanupSectionParts(prefix, keyword, deleted);
  }

  lemma CleanupCountLine(prefix: string, keyword: string, deleted: seq<string>)
    requires prefix != [] || keyword != []
    ensures CleanupSection(prefix, keyword, deleted)[3] == "删除 " + NatToString(|deleted|) + " 个匹配文件"
  {
    var head := CleanupHead(prefix, keyword, |deleted|);
    CleanupSectionParts(prefix, keyword, deleted);
    ConcatShape(head, PreviewLines(deleted[..Shown(|deleted|)]), if |deleted| > 5 then ["  ..."] else []);
  }

  lemma CleanupListed(prefix: string, keyword: string, deleted: seq<string>)
    requires prefix != [] || keyword != []
    ensures forall i :: 0 <= i < Shown(|deleted|) ==>
      CleanupSection(prefix, keyword, deleted)[4 + i] == "  - " + FileNameOf(deleted[i])
  {
    forall i | 0 <= i < Shown(|deleted|)
      ensures CleanupSection(prefix, keyword, deleted)[4 + i] == "  - " + FileNameOf(deleted[i])
    {
      CleanupEntry(prefix, keyword, deleted, i);
    }
  }

  lemma CleanupEntry(prefix: string, keyword: string, deleted: seq<string>, i: nat)
    requires prefix != [] || keyword != []
    requires i < Shown(|deleted|)
    ensures |CleanupSection(prefix, keyword, deleted)| > 4 + i
    ensures CleanupSection(prefix, keyword, deleted)[4 + i] == "  - " + FileNameOf(deleted[i])
  {
    var shown := Shown(|deleted|);
    var listed := PreviewLines(deleted[..shown]);
    CleanupSectionParts(prefix, keyword, deleted);
    ConcatShape(CleanupHead(prefix, keyword, |deleted|), listed, if |deleted| > 5 then ["  ..."] else []);
    assert deleted[..shown][i] == deleted[i];
  }

  lemma CleanupEllipsis(prefix: string, keyword: string, deleted: seq<string>)
    requires prefix != [] || keyword != []
    ensures "  ..." in CleanupSection(prefix, keyword, deleted) <==> |deleted| > 5
  {
    var more: seq<string> := if |deleted| > 5 then ["  ..."] else [];
    CleanupSectionParts(prefix, keyword, deleted);
    NoEllipsisInHead(prefix, keyword, |deleted|);
    EllipsisLast(CleanupHead(prefix, keyword, |deleted|), deleted[..Shown(|deleted|)], more);
  }

  lemma ConcatShape<T>(head: seq<T>, listed: seq<T>, more: seq<T>)
    requires |head| == 4
    ensures |head + listed + more| == 4 + |listed| + |more|
    ensures (head + listed + more)[3] == head[3]
    ensures forall i :: 0 <= i < |listed| ==> (head + listed + more)[4 + i] == listed[i]
  {
  }

  /** How many deleted files the cleanup part lists by name. */
  function Shown(count: nat): nat {
    if count < 5 then count else 5
  }

  /** The first four lines of the cleanup part. */
  function CleanupHead(prefix: string, keyword: string, count: nat): seq<string> {
    ["", "[清理]", "条件: " + Join(" 且 ", Conditions(prefix, keyword)),
     "删除 " + NatToString(count) + " 个匹配文件"]
  }

  lemma CleanupSectionParts(prefix: string, keyword: string, deleted: seq<string>)
    requires prefix != [] || keyword != []
    ensures CleanupSection(prefix, keyword, deleted)
      == CleanupHead(prefix, keyword, |deleted|) + PreviewLines(deleted[..Shown(|deleted|)])
         + (if |deleted| > 5 then ["  ..."] else [])
  {
    assert PySlice(deleted, 0, 5) == deleted[..Shown(|deleted|)];
  }

  lemma NoEllipsisInHead(prefix: string, keyword: string, count: nat)
    ensures "  ..." !in CleanupHead(prefix, keyword, count)
  {
    var head := CleanupHead(prefix, keyword, count);
    var dots := "  ...";
    var condition := "条件: " + Join(" 且 ", Conditions(prefix, keyword));
    var total := "删除 " + NatToString(count) + " 个匹配文件";
    assert condition[0] == '条' && total[0] == '删';
    assert dots[0] == ' ';
    assert head == ["", "[清理]", condition, total];
  }

  /** Only the optional last line of the cleanup part is "  ...": the
      listed names start with "  - ". */
  lemma EllipsisLast(head: seq<string>, paths: seq<string>, more: seq<string>)
    requires "  ..." !in head
    ensures "  ..." in head + PreviewLines(paths) + more <==> "  ..." in more
  {
    var listed := PreviewLines(paths);
    var dots := "  ...";
    assert dots[2] == '.';
    forall k | 0 <= k < |listed|
      ensures listed[k] != dots
    {
      assert listed[k][2] == '-';
    }
    assert dots !in listed;
    assert dots !in head + listed;
  }

  /** Two lines per written workflow: its position, package and node
      count, then its path. */
  lemma {:induction false} BatchLinesSpec(batch: seq<BatchItem>)
    ensures |BatchLines(batch)| == 2 * |batch|
    ensures forall k :: 0 <= k < |batch| ==>
      && BatchLines(batch)[2 * k] == ItemLine(k, batch[k])
      && BatchLines(batch)[2 * k + 1] == "   " + batch[k].path
    decreases |batch|
  {
    if batch != [] {
      var init := batch[..|batch| - 1];
      BatchLinesSpec(init);
      BatchLinesStep(batch);
    }
  }

  lemma BatchLinesStep(batch: seq<BatchItem>)
    requires batch != []
    requires var init := batch[..|batch| - 1];
      && |BatchLines(init)| == 2 * |init|
      && forall k :: 0 <= k < |init| ==>
        && BatchLines(init)[2 * k] == ItemLine(k, init[k])
        && BatchLines(init)[2 * k + 1] == "   " + init[k].path
    ensures |BatchLines(batch)| == 2 * |batch|
    ensures forall k :: 0 <= k < |batch| ==>
      && BatchLines(batch)[2 * k] == ItemLine(k, batch[k])
      && BatchLines(batch)[2 * k + 1] == "   " + batch[k].path
  {
    var init := batch[..|batch| - 1];
    var prev := BatchLines(init);
    var last := batch[|batch| - 1];
    var lines := BatchLines(batch);
    assert lines == prev + [ItemLine(|init|, last), "   " + last.path];
    forall k | 0 <= k < |batch|
      ensures lines[2 * k] == ItemLine(k, batch[k])
      ensures lines[2 * k + 1] == "   " + batch[k].path
    {
      if k < |init| {
        assert init[k] == batch[k];
        assert lines[2 * k] == prev[2 * k];
        assert lines[2 * k + 1] == prev[2 * k + 1];
      } else {
        assert k == |init| && batch[k] == last;
        assert 2 * k == |prev|;
      }
    }
  }

  // ---------------------------------------------------------------------
  // Generating the workflows
  // ---------------------------------------------------------------------

  /** What the node sees besides its inputs: the `custom_nodes` directory,
      the package directories by name, the preset file, and the candidate
      workflow directories with the directory used when none can be
      created. */
  datatype Environment = Environment(
    customNodes: CustomNodesDir,
    packages: map<string, PackageDir>,
    presetFile: PresetFile,
    workflowDirs: seq<WorkflowDir>,
    fallback: string)

  /** A package path that exists and yields at least one node. */
  predicate Generates(env: Environment, name: string, filter: string) {
    && name in env.packages
    && env.packages[name].present
    && env.packages[name].isDir
    && ScannedNodes(env.packages[name], true, filter) != []
  }

  /** The file written for a package and its node count. */
  function ItemFor(pkg: PackageDir, env: Environment, filter: string): BatchItem {
    BatchItem(|ScannedNodes(pkg, true, filter)|, SavePath(pkg.name, "", env.workflowDirs, env.fallback))
  }

  /** The batch mode's results: one item per package, in list order,
      skipping those that do not exist or yield no node. */
  function BatchResults(names: seq<string>, env: Environment, filter: string): seq<BatchItem>
    decreases |names|
  {
    if names == [] then []
    else
      var name := names[|names| - 1];
      BatchResults(names[..|names| - 1], env, filter)
        + (if Generates(env, name, filter) then [ItemFor(env.packages[name], env, filter)] else [])
  }

  function TotalCount(items: seq<BatchItem>): nat
    decreases |items|
  {
    if items == [] then 0 else TotalCount(items[..|items| - 1]) + items[|items| - 1].count
  }

  function Paths(items: seq<BatchItem>): (r: seq<string>)
    ensures |r| == |items|
    ensures forall i :: 0 <= i < |items| ==> r[i] == items[i].path
  {
    seq(|items|, i requires 0 <= i < |items| => items[i].path)
  }

  /** Exactly the packages that exist and yield nodes are written, each
      with a positive count. */
  lemma {:induction false} BatchResultsSpec(names: seq<string>, env: Environment, filter: string)
    ensures forall it :: it in BatchResults(names, env, filter) <==>
      exists n <- names :: Generates(env, n, filter) && it == ItemFor(env.packages[n], env, filter)
    ensures forall it <- BatchResults(names, env, filter) :: it.count > 0
    ensures |BatchResults(names, env, filter)| <= |names|
    decreases |names|
  {
    if names != [] {
      var init := names[..|names| - 1];
      var n := names[|names| - 1];
      BatchResultsSpec(init, env, filter);
      assert names == init + [n];
      assert forall m <- names :: m in init || m == n;
      if Generates(env, n, filter) {
        assert ItemFor(env.packages[n], env, filter).count > 0;
      }
    }
  }

  /** The total is at least the number of files, since every count is
      positive. */
  lemma {:induction false} TotalCountBound(items: seq<BatchItem>)
    requires forall it <- items :: it.count > 0
    ensures TotalCount(items) >= |items|
    decreases |items|
  {
    if items != [] {
      var init := items[..|items| - 1];
      assert forall it <- init :: it in items;
      TotalCountBound(init);
      assert items[|items| - 1] in items;
    }
  }

  /** When every package directory carries its own name, the report names
      the package of each written file. */
  lemma BatchReportNames(names: seq<string>, env: Environment, filter: string)
    requires forall k <- env.packages :: env.packages[k].name == k && '/' !in k
    ensures forall it <- BatchResults(names, env, filter) ::
      BatchName(it.path) in names && Generates(env, BatchName(it.path), filter)
  {
    BatchResultsSpec(names, env, filter);
    forall it <- BatchResults(names, env, filter)
      ensures BatchName(it.path) in names && Generates(env, BatchName(it.path), filter)
    {
      var n :| n in names && Generates(env, n, filter) && it == ItemFor(env.packages[n], env, filter);
      BatchNameOfSavePath(n, env.workflowDirs, env.fallback);
    }
  }

  /** The same for the code as written, on package names it recovers: no
      "_" in the name and no trailing "workflow". */
  lemma BatchReportNamesAsWritten(names: seq<string>, env: Environment, filter: string)
    requires forall k <- env.packages :: env.packages[k].name == k && '/' !in k
    requires forall k <- env.packages :: '_' !in k && !EndsWith(k, "workflow")
    ensures forall it <- BatchResults(names, env, filter) ::
      BatchNameAsWritten(it.path) in names && Generates(env, BatchNameAsWritten(it.path), filter)
  {
    BatchResultsSpec(names, env, filter);
    forall it <- BatchResults(names, env, filter)
      ensures BatchNameAsWritten(it.path) in names && Generates(env, BatchNameAsWritten(it.path), filter)
    {
      var n :| n in names && Generates(env, n, filter) && it == ItemFor(env.packages[n], env, filter);
      BatchNameAsWrittenOfSavePath(n, env.workflowDirs, env.fallback);
    }
  }

  /** The batch loop: one generation per listed package. */
  method GenerateAll(names: seq<string>, env: Environment, config: LayoutConfig, filter: string)
    returns (results: seq<BatchItem>)
    ensures results == BatchResults(names, env, filter)
  {
    results := [];
    for i := 0 to |names|
      invariant results == BatchResults(names[..i], env, filter)
    {
      var pkg := names[i];
      assert names[..i + 1][..i] == names[..i];
      if pkg !in env.packages || !env.packages[pkg].present {
        continue;
      }
      var result := GenerateWorkflow(env.packages[pkg], config.layoutType, config.spacingX, config.spacingY,
                                     true, "", filter, env.workflowDirs, env.fallback, None);
      if result.nodeCount == 0 {
        continue;
      }
      results := results + [BatchItem(result.nodeCount, result.path)];
    }
    assert names[..|names|] == names;
  }

  /** The node's four outputs: the workflow (for a single package), the
      file path or paths, the report, and the node count. */
  datatype QuickOutput = QuickOutput(workflow: Option<Workflow>, jsonPath: string, instructions: string, nodeCount: nat)

  /** The files `delete_workflows` removes for a plan. */
  function CleanupDeletions(plan: CleanupPlan, env: Environment): seq<string> {
    if plan.prefix == [] && plan.keyword == [] then []
    else Deletions(DedupDirs(env.workflowDirs), plan.prefix, plan.keyword)
  }

  /** Only the cleanup ran: the report says nothing was generated. */
  predicate NothingOutcome(req: Request, plan: CleanupPlan, deleted: seq<string>, out: QuickOutput) {
    var report := Report("", req.package, 0, deleted, plan.prefix, plan.keyword, plan.selected, false, []);
    out == QuickOutput(None, "", Join("\n", ReportLines(report)), 0)
  }

  /** The batch mode: the paths of the written files joined by newlines,
      the sum of their node counts, and the report; no workflow. */
  predicate BatchOutcome(req: Request, env: Environment, plan: CleanupPlan, deleted: seq<string>, out: QuickOutput) {
    var results := BatchResults(PackageList(env.customNodes), env, req.filter);
    if results == [] then NothingOutcome(req, plan, deleted, out)
    else
      var paths := Join("\n", Paths(results));
      var report := Report(paths, req.package, TotalCount(results), deleted,
                           plan.prefix, plan.keyword, plan.selected, true, results);
      out == QuickOutput(None, paths, Join("\n", ReportLines(report)), TotalCount(results))
  }

  /** One package: an error when its path does not exist or it yields no
      node, otherwise its workflow, file, node count and report. */
  predicate SingleOutcome(req: Request, env: Environment, config: LayoutConfig, plan: CleanupPlan,
                         deleted: seq<string>, out: QuickOutput) {
    if req.package !in env.packages || !env.packages[req.package].present then
      out == QuickOutput(None, "", "[错误] 节点包路径无效: " + req.package, 0)
    else
      var pkg := env.packages[req.package];
      var nodes := ScannedNodes(pkg, true, req.filter);
      if !pkg.isDir || nodes == [] then
        out == QuickOutput(None, "", "[错误] 未找到任何节点", 0)
      else
        var path := SavePath(pkg.name, "", env.workflowDirs, env.fallback);
        var report := Report(path, req.package, |nodes|, deleted, plan.prefix, plan.keyword, plan.selected, true, []);
        && out.workflow.Some?
        && Types(out.workflow.value) == Names(nodes)
        && out.workflow.value.lastNodeId == |nodes|
        && |out.workflow.value.nodes| == |nodes|
        && (forall k :: 0 <= k < |nodes| ==>
              Placed(out.workflow.value.nodes[k], k, nodes[k], |nodes|, config.layoutType, config.spacingX, config.spacingY))
        && out.jsonPath == path
        && out.nodeCount == |nodes|
        && out.instructions == Join("\n", ReportLines(report))
  }

  method LoadNothing(req: Request, plan: CleanupPlan, deleted: seq<string>) returns (out: QuickOutput)
    ensures NothingOutcome(req, plan, deleted, out)
  {
    var report := Report("", req.package, 0, deleted, plan.prefix, plan.keyword, plan.selected, false, []);
    var instructions := GenerateInstructions(report);
    out := QuickOutput(None, "", instructions, 0);
  }

  /** The "all packages" branch. */
  method LoadBatch(req: Request, env: Environment, config: LayoutConfig, plan: CleanupPlan, deleted: seq<string>)
    returns (out: QuickOutput)
    ensures BatchOutcome(req, env, plan, deleted, out)
  {
    var allPackages := CustomNodesList(env.customNodes);
    var results := GenerateAll(allPackages, env, config, req.filter);
    if results == [] {
      out := LoadNothing(req, plan, deleted);
      return;
    }
    var paths := Join("\n", Paths(results));
    var total := TotalCount(results);
    var report := Report(paths, req.package, total, deleted, plan.prefix, plan.keyword, plan.selected, true, results);
    var instructions := GenerateInstructions(report);
    out := QuickOutput(None, paths, instructions, total);
  }

  /** The single-package branch. */
  method LoadSingle(req: Request, env: Environment, config: LayoutConfig, plan: CleanupPlan, deleted: seq<string>)
    returns (out: QuickOutput)
    ensures SingleOutcome(req, env, config, plan, deleted, out)
  {
    if req.package !in env.packages || !env.packages[req.package].present {
      return QuickOutput(None, "", "[错误] 节点包路径无效: " + req.package, 0);
    }
    var result := GenerateWorkflow(env.packages[req.package], config.layoutType, config.spacingX,
                                   config.spacingY, true, "", req.filter, env.workflowDirs, env.fallback, None);
    if result.nodeCount == 0 {
      return QuickOutput(None, "", "[错误] 未找到任何节点", 0);
    }
    var report := Report(result.path, req.package, result.nodeCount, deleted,
                         plan.prefix, plan.keyword, plan.selected, true, []);
    var instructions := GenerateInstructions(report);
    out := QuickOutput(Some(result.workflow.value), result.path, instructions, result.nodeCount);
  }

  /** Whatever the layout mode, no two nodes of the single-package
      workflow share a position. */
  lemma SingleNodesApart(req: Request, env: Environment, plan: CleanupPlan, deleted: seq<string>, out: QuickOutput)
    requires SingleOutcome(req, env, LayoutFor(req.mode), plan, deleted, out) && out.workflow.Some?
    ensures var ns := out.workflow.value.nodes;
      forall i, j :: 0 <= i < j < |ns| ==> ns[i].pos != ns[j].pos
  {
    var ns := out.workflow.value.nodes;
    forall i, j | 0 <= i < j < |ns|
      ensures ns[i].pos != ns[j].pos
    {
      LayoutPositionsDistinct(req.mode, i, j, |ns|);
    }
  }

  /** `quick_load_by_name`. Besides its outputs it returns the presets as
      saved afterwards and the files it deleted. The placeholder entries
      of the package list are refused before any file is deleted. */
  method QuickLoad(req: Request, env: Environment)
    returns (out: QuickOutput, presets: map<string, Preset>, deleted: seq<string>)
    ensures presets == PlanCleanup(req, LoadCleanupPresets(env.presetFile)).presets
    ensures req.package == NoPackages || req.package == ScanFailed ==>
      out == QuickOutput(None, "", "[错误] 请选择有效的节点包", 0) && deleted == []
    ensures var plan := PlanCleanup(req, LoadCleanupPresets(env.presetFile));
      req.package != NoPackages && req.package != ScanFailed ==>
        && deleted == CleanupDeletions(plan, env)
        && (req.package == NoChoice ==> NothingOutcome(req, plan, deleted, out))
        && (req.package == AllPackages ==> BatchOutcome(req, env, plan, deleted, out))
        && (req.package != NoChoice && req.package != AllPackages ==> SingleOutcome(req, env, LayoutFor(req.mode), plan, deleted, out))
  {
    var plan := ApplyPresets(req, LoadCleanupPresets(env.presetFile));
    presets := plan.presets;
    deleted := [];
    if req.package == NoPackages || req.package == ScanFailed {
      out := QuickOutput(None, "", "[错误] 请选择有效的节点包", 0);
      return;
    }
    if plan.prefix != [] || plan.keyword != [] {
      deleted := DeleteWorkflows(plan.prefix, plan.keyword, env.workflowDirs);
      PlanTrimmed(req, LoadCleanupPresets(env.presetFile));
    }
    var config := LayoutFor(req.mode);
    if req.package == NoChoice {
      out := LoadNothing(req, plan, deleted);
    } else if req.package == AllPackages {
      out := LoadBatch(req, env, config, plan, deleted);
    } else {
      out := LoadSingle(req, env, config, plan, deleted);
    }
  }
}
