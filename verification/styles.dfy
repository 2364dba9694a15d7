/** Style entry points and include paths: `getSCSSPaths` and
    `getIncludePaths`. A style file below `<main>/<locale>/` becomes the
    entry `<locale>/css/<name>` (or `css/<name>` without locales), where the
    name is the file's base name or, when the original location is kept, its
    path below the locale directory. */
module Styles {
  import opened JsStrings
  import opened Host
  import opened Config
  import opened Paths
  import opened Seqs
  import opened Entries

  /** The settings `getSCSSPaths` reads after the path data. */
  datatype StyleLayout = StyleLayout(mainDirIndex: int, keepOriginalLocation: bool, useLocales: bool)

  /** `pathData.inputPath.indexOf(`/${mainDirName}/`) + mainDirName.length + 2`:
      the start of the first directory below the main directory. */
  function StyleMainDirIndex(inputPath: string, mainDirName: string): int {
    IndexOf(inputPath, "/" + mainDirName + "/") + |mainDirName| + 2
  }

  /** The offset is just past `/<mainDirName>/` when that occurs in the input
      path; when it does not, the offset is the constant `|mainDirName| + 1`,
      whatever the layout of the files. */
  lemma StyleMainDirIndexShape(inputPath: string, mainDirName: string)
    ensures var i := IndexOf(inputPath, "/" + mainDirName + "/");
            && (i >= 0 ==> StyleMainDirIndex(inputPath, mainDirName) == i + |"/" + mainDirName + "/"|
                           && inputPath[StyleMainDirIndex(inputPath, mainDirName) - 1] == '/')
            && (i < 0 ==> StyleMainDirIndex(inputPath, mainDirName) == |mainDirName| + 1)
  {
    var marker := "/" + mainDirName + "/";
    var i := IndexOf(inputPath, marker);
    assert |marker| == |mainDirName| + 2;
    if i >= 0 {
      assert OccursAt(inputPath, marker, i);
      assert marker[|marker| - 1] == '/';
      assert inputPath[i + |marker| - 1] == inputPath[i..i + |marker|][|marker| - 1];
    }
  }

  /** `currentFile.substring(mainDirIndex).replace(/.scss/g, '')` */
  function TargetLocation(file: string, mainDirIndex: int): string {
    RemoveDotScss(SubstringFrom(file, mainDirIndex))
  }

  /** `targetLocationName.split('/')[0]` */
  function LocaleName(target: string): string {
    SplitOn(target, "/")[0]
  }

  /** `targetLocationName.indexOf(`${localeName}/`) + localeName.length + 1` */
  function LocaleIndex(target: string): int {
    IndexOf(target, LocaleName(target) + "/") + |LocaleName(target)| + 1
  }

  /** The locale name is the first segment of the target, and the locale
      index points just past it: keeping the original location keeps the
      rest of the target, which is empty when the target has one segment. */
  lemma LocaleSplitsTarget(target: string)
    ensures '/' !in LocaleName(target)
    ensures var s := IndexOf(target, "/");
            && (s >= 0 ==> LocaleName(target) == target[..s] && SubstringFrom(target, LocaleIndex(target)) == target[s + 1..])
            && (s < 0 ==> LocaleName(target) == target && SubstringFrom(target, LocaleIndex(target)) == "")
  {
    var s := IndexOf(target, "/");
    var name := LocaleName(target);
    SplitOnPiecesFree(target, "/");
    if '/' in name {
      var j :| 0 <= j < |name| && name[j] == '/';
      assert OccursAt(name, "/", j);
    }
    if s >= 0 {
      assert name == target[..s];
      assert target[..s + 1] == name + "/";
      assert OccursAt(target, name + "/", 0);
      assert IndexOf(target, name + "/") == 0;
    } else {
      assert SplitOn(target, "/") == [target];
      assert !OccursAt(target, name + "/", IndexOf(target, name + "/"));
    }
  }

  /** The key of one style file. */
  function StyleEntryKey(layout: StyleLayout, file: string): string {
    var target := TargetLocation(file, layout.mainDirIndex);
    var localeName := LocaleName(target);
    var finalPathPortion :=
      if layout.keepOriginalLocation then SubstringFrom(target, LocaleIndex(target)) else Basename(file, ".scss");
    if layout.useLocales then localeName + "/css/" + finalPathPortion else "css/" + finalPathPortion
  }

  function StyleKey(layout: StyleLayout): string -> string {
    file => StyleEntryKey(layout, file)
  }

  /** The key is `<locale>/css/<rest>` with a slash-free locale, or
      `css/<rest>`; the rest is the base name, or the target below its first
      segment when the original location is kept. */
  lemma StyleEntryKeyShape(layout: StyleLayout, file: string)
    ensures var target := TargetLocation(file, layout.mainDirIndex);
            var s := IndexOf(target, "/");
            var rest :=
              if !layout.keepOriginalLocation then Basename(file, ".scss")
              else if s >= 0 then target[s + 1..] else "";
            var locale := if s >= 0 then target[..s] else target;
            && '/' !in locale
            && StyleEntryKey(layout, file) == (if layout.useLocales then locale + "/css/" + rest else "css/" + rest)
  {
    LocaleSplitsTarget(TargetLocation(file, layout.mainDirIndex));
  }

  /** A partial: a file whose name starts with `_` and ends with `.scss`,
      which the glob's ignore pattern `**` `/_*.scss` leaves out. */
  predicate IsPartial(file: string) {
    var name := LastSegment(file);
    |name| >= 6 && name[0] == '_' && IsSuffix(".scss", name)
  }

  function SkipPartial(): string -> Option<string> {
    file => if IsPartial(file) then None else Some(file)
  }

  /** The files the glob yields once partials are ignored, in glob order. */
  function StyleFiles(w: World, inputPath: string): (files: seq<string>)
    ensures forall f :: f in files <==> f in w.glob(inputPath) && !IsPartial(f)
  {
    var all := w.glob(inputPath);
    var files := FilterMap(all, SkipPartial());
    assert forall f :: f in files <==> exists i :: 0 <= i < |all| && SkipPartial()(all[i]) == Some(f) by {
      forall f ensures f in files <==> exists i :: 0 <= i < |all| && SkipPartial()(all[i]) == Some(f) {
        FilterMapMember(all, SkipPartial(), f);
      }
    }
    files
  }

  /** The layout `getSCSSPaths` reads; a boolean `mainDirName` is refused. */
  function StylesLayout(w: World, pathData: PathData): (r: Result<StyleLayout>)
    ensures var m := Setting(w, "mainDirName", Str(MainDirNameDefault), Styles);
            && (r.Ok? <==> m.Str?)
            && (r.Err? ==> r.error == NotAString("mainDirName"))
            && (r.Ok? ==> r.value.mainDirIndex == StyleMainDirIndex(pathData.inputPath, m.s))
    ensures r.Ok? ==> (r.value.keepOriginalLocation <==> Truthy(Setting(w, "keepOriginalLocation", Bool(false), Styles)))
    ensures r.Ok? ==> (r.value.useLocales <==> Truthy(Setting(w, "useLocales", Bool(true), Styles)))
  {
    var mainDirName := Setting(w, "mainDirName", Str(MainDirNameDefault), Styles);
    if !mainDirName.Str? then Err(NotAString("mainDirName"))
    else
      Ok(StyleLayout(
        StyleMainDirIndex(pathData.inputPath, mainDirName.s),
        Truthy(Setting(w, "keepOriginalLocation", Bool(false), Styles)),
        Truthy(Setting(w, "useLocales", Bool(true), Styles))))
  }

  /** What `getSCSSPaths(cartridge)` returns. */
  function SCSSPaths(w: World, cartridge: string): Result<PathData> {
    match GetPathData(w, cartridge, Styles)
    case Err(e) => Err(e)
    case Ok(pathData) =>
      match StylesLayout(w, pathData)
      case Err(e) => Err(e)
      case Ok(layout) =>
        Ok(pathData.(entryObject := KeyedEntries(w.cwd, StyleFiles(w, pathData.inputPath), StyleKey(layout))))
  }

  /** The `forEach` loop of `getSCSSPaths` over the style files. */
  method FillStyleEntries(w: World, layout: StyleLayout, files: seq<string>) returns (entryObject: map<string, Entry>)
    ensures entryObject == KeyedEntries(w.cwd, files, StyleKey(layout))
  {
    entryObject := map[];
    var i := 0;
    while i < |files|
      invariant i <= |files|
      invariant entryObject == KeyedEntries(w.cwd, files[..i], StyleKey(layout))
    {
      var currentFile := files[i];
      var targetLocationName := TargetLocation(currentFile, layout.mainDirIndex);
      var localeName := LocaleName(targetLocationName);
      var localeIndex := LocaleIndex(targetLocationName);
      var finalPathPortion :=
        if layout.keepOriginalLocation then SubstringFrom(targetLocationName, localeIndex) else Basename(currentFile, ".scss");
      targetLocationName := if layout.useLocales then localeName + "/css/" + finalPathPortion else "css/" + finalPathPortion;
      assert targetLocationName == StyleKey(layout)(currentFile);
      KeyedEntriesExtend(w.cwd, files, StyleKey(layout), i);
      entryObject := entryObject[targetLocationName := Single(PathJoin(w.cwd, currentFile))];
      i := i + 1;
    }
    assert files[..i] == files;
  }

  /** `getSCSSPaths(currentCartridge)` */
  method GetSCSSPaths(w: World, cartridge: string) returns (r: Result<PathData>)
    ensures r == SCSSPaths(w, cartridge)
  {
    var data := GetPathData(w, cartridge, Styles);
    if data.Err? {
      return Err(data.error);
    }
    var pathData := data.value;
    var settings := StylesLayout(w, pathData);
    if settings.Err? {
      return Err(settings.error);
    }
    var entryObject := FillStyleEntries(w, settings.value, StyleFiles(w, pathData.inputPath));
    return Ok(pathData.(entryObject := entryObject));
  }

  /** Partials are excluded: every entry is the absolute path of a non-partial
      file of the glob, stored under that file's key, and every non-partial
      file has its key in the entry map. */
  lemma SCSSPathsExcludePartials(w: World, cartridge: string)
    requires SCSSPaths(w, cartridge).Ok?
    ensures var pathData := SCSSPaths(w, cartridge).value;
            var layout := StylesLayout(w, GetPathData(w, cartridge, Styles).value).value;
            var m := pathData.entryObject;
            && (forall k :: k in m ==> exists f ::
                  f in w.glob(pathData.inputPath) && !IsPartial(f) && StyleEntryKey(layout, f) == k && m[k] == Single(PathJoin(w.cwd, f)))
            && (forall f :: f in w.glob(pathData.inputPath) && !IsPartial(f) ==> StyleEntryKey(layout, f) in m)
  {
    var base := GetPathData(w, cartridge, Styles).value;
    var layout := StylesLayout(w, base).value;
    var files := StyleFiles(w, base.inputPath);
    assert SCSSPaths(w, cartridge).value == base.(entryObject := KeyedEntries(w.cwd, files, StyleKey(layout)));
    KeyedEntriesContents(w.cwd, files, StyleKey(layout));
  }

  /** The base include paths, `cartridges` and `node_modules`, resolved. */
  function IncludeBase(w: World): seq<string> {
    [w.resolve("cartridges"), w.resolve("node_modules")]
  }

  /** The include paths after the loop has visited `customPaths`: each
      non-empty custom path is resolved and appended unless already present. */
  function AddIncludePaths(w: World, includePaths: seq<string>, customPaths: seq<string>): seq<string>
    decreases |customPaths|
  {
    if customPaths == [] then includePaths
    else
      var acc := AddIncludePaths(w, includePaths, customPaths[..|customPaths| - 1]);
      var currentPath := customPaths[|customPaths| - 1];
      var expandedPath := w.resolve(currentPath);
      if currentPath != "" && expandedPath !in acc then acc + [expandedPath] else acc
  }

  /** What `getIncludePaths()` returns. */
  function IncludePaths(w: World): Result<seq<string>> {
    match ListSetting(w, "includePaths", Styles)
    case Err(e) => Err(e)
    case Ok(customPaths) => Ok(AddIncludePaths(w, IncludeBase(w), customPaths))
  }

  /** `getIncludePaths()` */
  method GetIncludePaths(w: World) returns (r: Result<seq<string>>)
    ensures r == IncludePaths(w)
  {
    var includePaths := [w.resolve("cartridges"), w.resolve("node_modules")];
    var custom := ListSetting(w, "includePaths", Styles);
    if custom.Err? {
      return Err(custom.error);
    }
    var customPaths := custom.value;
    var i := 0;
    while i < |customPaths|
      invariant i <= |customPaths|
      invariant includePaths == AddIncludePaths(w, IncludeBase(w), customPaths[..i])
    {
      var expandedPath := w.resolve(customPaths[i]);
      if customPaths[i] != "" && expandedPath !in includePaths {
        includePaths := includePaths + [expandedPath];
      }
      ghost var visited := customPaths[..i + 1];
      assert visited[..i] == customPaths[..i] && visited[i] == customPaths[i];
      i := i + 1;
    }
    assert customPaths[..i] == customPaths;
    return Ok(includePaths);
  }

  /** The starting paths stay first; every non-empty custom path is included
      once resolved; everything appended is a resolved non-empty custom path;
      nothing appended duplicates an earlier path. */
  lemma {:induction false} AddIncludePathsContents(w: World, includePaths: seq<string>, customPaths: seq<string>)
    ensures var r := AddIncludePaths(w, includePaths, customPaths);
            && |includePaths| <= |r| && r[..|includePaths|] == includePaths
            && (forall p :: p in customPaths && p != "" ==> w.resolve(p) in r)
            && (forall k :: |includePaths| <= k < |r| ==> exists p :: p in customPaths && p != "" && w.resolve(p) == r[k])
            && (forall i, j :: 0 <= i < j < |r| && |includePaths| <= j ==> r[i] != r[j])
    decreases |customPaths|
  {
    if customPaths != [] {
      var init := customPaths[..|customPaths| - 1];
      var last := customPaths[|customPaths| - 1];
      AddIncludePathsContents(w, includePaths, init);
      var acc := AddIncludePaths(w, includePaths, init);
      var r := AddIncludePaths(w, includePaths, customPaths);
      assert r[..|acc|] == acc;
      forall p | p in customPaths && p != "" ensures w.resolve(p) in r {
        var j :| 0 <= j < |customPaths| && customPaths[j] == p;
        if j < |init| {
          assert init[j] == p;
          assert w.resolve(p) in acc;
        }
      }
      forall k | |includePaths| <= k < |r| ensures exists p :: p in customPaths && p != "" && w.resolve(p) == r[k] {
        if k < |acc| {
          var p :| p in init && p != "" && w.resolve(p) == acc[k];
          assert p in customPaths;
        } else {
          assert last in customPaths;
        }
      }
    }
  }

  /** The include paths start with `cartridges` and `node_modules` resolved,
      contain every non-empty custom path resolved, hold nothing else, and
      repeat nothing after the first two. */
  lemma IncludePathsContents(w: World)
    requires IncludePaths(w).Ok?
    ensures var r := IncludePaths(w).value;
            var customPaths := ListSetting(w, "includePaths", Styles).value;
            && |r| >= 2 && r[0] == w.resolve("cartridges") && r[1] == w.resolve("node_modules")
            && (forall p :: p in customPaths && p != "" ==> w.resolve(p) in r)
            && (forall k :: 2 <= k < |r| ==> exists p :: p in customPaths && p != "" && w.resolve(p) == r[k])
            && (forall i, j :: 0 <= i < j < |r| && 2 <= j ==> r[i] != r[j])
  {
    var customPaths := ListSetting(w, "includePaths", Styles).value;
    var base := IncludeBase(w);
    var r := AddIncludePaths(w, base, customPaths);
    assert IncludePaths(w).value == r;
    AddIncludePathsContents(w, base, customPaths);
    assert r[0] == base[0] && r[1] == base[1] by {
      assert r[..2] == base;
      assert r[0] == r[..2][0] && r[1] == r[..2][1];
    }
  }
}
