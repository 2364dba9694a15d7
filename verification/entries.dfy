/** JavaScript entry points: `getMainPaths`, `_getRootFiles` and `getJSPaths`,
    and the keyed entry map shared with the style entries. */
module Entries {
  import opened JsStrings
  import opened Host
  import opened Config
  import opened Paths
  import opened Seqs
  import opened Revolver

  /** `path.join(cwd, path.join(inputPath, file))` when that file exists. */
  function ExistingMainPath(w: World, inputPath: string): string -> Option<string> {
    file =>
      var candidate := PathJoin(inputPath, file);
      if w.fileExists(candidate) then Some(PathJoin(w.cwd, candidate)) else None
  }

  /** What `getMainPaths(inputPath, mainFiles)` returns. */
  function MainPaths(w: World, inputPath: string, mainFiles: seq<string>): seq<string> {
    FilterMap(mainFiles, ExistingMainPath(w, inputPath))
  }

  /** `getMainPaths(inputPath, mainFiles)` */
  method GetMainPaths(w: World, inputPath: string, mainFiles: seq<string>) returns (mainPaths: seq<string>)
    ensures mainPaths == MainPaths(w, inputPath, mainFiles)
  {
    mainPaths := [];
    var i := 0;
    while i < |mainFiles|
      invariant i <= |mainFiles|
      invariant mainPaths == FilterMap(mainFiles[..i], ExistingMainPath(w, inputPath))
    {
      var currentMainPath := PathJoin(inputPath, mainFiles[i]);
      if w.fileExists(currentMainPath) {
        mainPaths := mainPaths + [PathJoin(w.cwd, currentMainPath)];
      }
      assert mainFiles[..i + 1][..i] == mainFiles[..i];
      i := i + 1;
    }
    assert mainFiles[..i] == mainFiles;
  }

  /** The main paths are the existing candidates, in candidate order, made
      absolute; no existing candidate is dropped. */
  lemma MainPathsSelection(w: World, inputPath: string, mainFiles: seq<string>) returns (idx: seq<nat>)
    ensures var found := MainPaths(w, inputPath, mainFiles);
            && |idx| == |found| <= |mainFiles|
            && Increasing(idx)
            && (forall k :: 0 <= k < |idx| ==>
                  && idx[k] < |mainFiles|
                  && w.fileExists(PathJoin(inputPath, mainFiles[idx[k]]))
                  && found[k] == PathJoin(w.cwd, PathJoin(inputPath, mainFiles[idx[k]])))
            && (forall i :: 0 <= i < |mainFiles| && w.fileExists(PathJoin(inputPath, mainFiles[i])) ==> i in idx)
  {
    var f := ExistingMainPath(w, inputPath);
    idx := FilterMapSelectsInOrder(mainFiles, f);
    var found := MainPaths(w, inputPath, mainFiles);
    forall k | 0 <= k < |idx|
      ensures w.fileExists(PathJoin(inputPath, mainFiles[idx[k]]))
      ensures found[k] == PathJoin(w.cwd, PathJoin(inputPath, mainFiles[idx[k]]))
    {
      assert f(mainFiles[idx[k]]) == Some(found[k]);
    }
    forall i | 0 <= i < |mainFiles| && w.fileExists(PathJoin(inputPath, mainFiles[i])) ensures i in idx {
      assert f(mainFiles[i]).Some?;
    }
  }

  /** With candidates `main.js` and `index.js`, of which only `index.js`
      exists, the main paths are the absolute path of `index.js` alone. */
  lemma MainPathsOfIndexOnly(w: World, inputPath: string)
    requires !w.fileExists(PathJoin(inputPath, "main.js")) && w.fileExists(PathJoin(inputPath, "index.js"))
    ensures MainPaths(w, inputPath, ["main.js", "index.js"]) == [PathJoin(w.cwd, PathJoin(inputPath, "index.js"))]
  {
    var files := ["main.js", "index.js"];
    assert files[..1] == ["main.js"];
    assert files[..1][..0] == [];
  }

  /** The map an entry loop builds: each file, made absolute, under its key;
      a later file with the same key replaces an earlier one. */
  function KeyedEntries(cwd: string, files: seq<string>, key: string -> string): map<string, Entry>
    decreases |files|
  {
    if files == [] then map[]
    else
      var last := files[|files| - 1];
      KeyedEntries(cwd, files[..|files| - 1], key)[key(last) := Single(PathJoin(cwd, last))]
  }

  /** One more file extends the map by that file's entry. */
  lemma KeyedEntriesExtend(cwd: string, files: seq<string>, key: string -> string, i: nat)
    requires i < |files|
    ensures KeyedEntries(cwd, files[..i + 1], key) == KeyedEntries(cwd, files[..i], key)[key(files[i]) := Single(PathJoin(cwd, files[i]))]
  {
    assert files[..i + 1][..i] == files[..i];
  }

  /** The keys are exactly the keys of the files, and each key holds one of
      the files that has it. */
  lemma {:induction false} KeyedEntriesContents(cwd: string, files: seq<string>, key: string -> string)
    ensures var m := KeyedEntries(cwd, files, key);
            && (forall f :: f in files ==> key(f) in m)
            && (forall k :: k in m ==> exists f :: f in files && key(f) == k && m[k] == Single(PathJoin(cwd, f)))
    decreases |files|
  {
    if files != [] {
      var init := files[..|files| - 1];
      var last := files[|files| - 1];
      KeyedEntriesContents(cwd, init, key);
      var m0 := KeyedEntries(cwd, init, key);
      var m := KeyedEntries(cwd, files, key);
      forall f | f in files ensures key(f) in m {
        var j :| 0 <= j < |files| && files[j] == f;
        if j < |init| {
          assert init[j] == f;
        }
      }
      forall k | k in m ensures exists f :: f in files && key(f) == k && m[k] == Single(PathJoin(cwd, f)) {
        if k != key(last) {
          var f :| f in init && key(f) == k && m0[k] == Single(PathJoin(cwd, f));
          assert f in files;
        }
      }
    }
  }

  /** The last file with a given key is the one that stays. */
  lemma {:induction false} KeyedEntriesLastWins(cwd: string, files: seq<string>, key: string -> string, i: nat)
    requires i < |files|
    requires forall j :: i < j < |files| ==> key(files[j]) != key(files[i])
    ensures var m := KeyedEntries(cwd, files, key);
            key(files[i]) in m && m[key(files[i])] == Single(PathJoin(cwd, files[i]))
    decreases |files|
  {
    var init := files[..|files| - 1];
    if i < |init| {
      assert init[i] == files[i];
      forall j | i < j < |init| ensures key(init[j]) != key(init[i]) {
        assert init[j] == files[j];
      }
      KeyedEntriesLastWins(cwd, init, key, i);
    }
  }

  /** `path.basename(currentFile, '.js')`, the key of a root file. */
  function RootFileKey(): string -> string {
    file => Basename(file, ".js")
  }

  /** The root files of an input path: every `.js` file directly in it. */
  function RootFileList(w: World, pathData: PathData): seq<string> {
    w.glob(pathData.inputPath + "/*.js")
  }

  /** `_getRootFiles(pathData)` */
  method GetRootFiles(w: World, pathData: PathData) returns (rootFiles: map<string, Entry>)
    ensures rootFiles == KeyedEntries(w.cwd, RootFileList(w, pathData), RootFileKey())
  {
    var fileList := w.glob(pathData.inputPath + "/*.js");
    rootFiles := map[];
    var i := 0;
    while i < |fileList|
      invariant i <= |fileList|
      invariant rootFiles == KeyedEntries(w.cwd, fileList[..i], RootFileKey())
    {
      rootFiles := rootFiles[Basename(fileList[i], ".js") := Single(PathJoin(w.cwd, fileList[i]))];
      assert fileList[..i + 1][..i] == fileList[..i];
      i := i + 1;
    }
    assert fileList[..i] == fileList;
  }

  /** Every root file is an entry under its base name, and every entry is the
      absolute path of a root file. */
  lemma RootFilesContents(w: World, pathData: PathData)
    ensures var m := KeyedEntries(w.cwd, RootFileList(w, pathData), RootFileKey());
            && (forall f :: f in RootFileList(w, pathData) ==> Basename(f, ".js") in m)
            && (forall k :: k in m ==> exists f :: f in RootFileList(w, pathData) && Basename(f, ".js") == k && m[k] == Single(PathJoin(w.cwd, f)))
  {
    KeyedEntriesContents(w.cwd, RootFileList(w, pathData), RootFileKey());
  }

  /** The `options` argument of `getJSPaths`; `revolverPaths` is the object
      `getRevolverPaths` returned, shared between calls. */
  datatype JsOptions = JsOptions(mainFiles: seq<string>, getRootFiles: bool, mainEntryName: string, revolverPaths: RevolverPaths)

  /** The entry object: the root files (or nothing), plus the main entry when
      there are main paths. */
  function JsEntryObject(rootFiles: map<string, Entry>, mainPaths: seq<string>, mainEntryName: string): map<string, Entry> {
    if |mainPaths| > 0 then rootFiles[mainEntryName := Many(mainPaths)] else rootFiles
  }

  /** What `getJSPaths(cartridge, options)` returns. */
  function JsPaths(w: World, cartridge: string, mainFiles: seq<string>, getRootFiles: bool, mainEntryName: string): Result<PathData> {
    JsPathsOf(w, GetPathData(w, cartridge, Js), ListSetting(w, "revolverDisable", Js), mainFiles, getRootFiles, mainEntryName)
  }

  /** `getJSPaths` once its path data and its `revolverDisable` list are
      known: it throws on the first of them that failed. */
  function JsPathsOf(w: World, data: Result<PathData>, disable: Result<seq<string>>, mainFiles: seq<string>, getRootFiles: bool, mainEntryName: string): Result<PathData> {
    match data
    case Err(e) => Err(e)
    case Ok(pathData) =>
      match disable
      case Err(e) => Err(e)
      case Ok(_) =>
        var rootFiles := if getRootFiles then KeyedEntries(w.cwd, RootFileList(w, pathData), RootFileKey()) else map[];
        var mainPaths := MainPaths(w, pathData.inputPath, mainFiles);
        Ok(pathData.(entryObject := JsEntryObject(rootFiles, mainPaths, mainEntryName)))
  }

  /** `useRevolver` after `getJSPaths(cartridge, ...)`: switched off when the
      cartridge is on the `revolverDisable` list; untouched when the call
      throws first. */
  function UseRevolverAfter(w: World, cartridge: string, useRevolver: bool): bool {
    UseRevolverOf(GetPathData(w, cartridge, Js), ListSetting(w, "revolverDisable", Js), cartridge, useRevolver)
  }

  function UseRevolverOf(data: Result<PathData>, disable: Result<seq<string>>, cartridge: string, useRevolver: bool): bool {
    if data.Err? || disable.Err? then useRevolver
    else useRevolver && cartridge !in disable.value
  }

  /** `getJSPaths(currentCartridge, options)` */
  method GetJSPaths(w: World, cartridge: string, options: JsOptions) returns (r: Result<PathData>)
    modifies options.revolverPaths
    ensures r == JsPaths(w, cartridge, options.mainFiles, options.getRootFiles, options.mainEntryName)
    ensures options.revolverPaths.useRevolver == UseRevolverAfter(w, cartridge, old(options.revolverPaths.useRevolver))
    ensures options.revolverPaths.paths == old(options.revolverPaths.paths)
    ensures unchanged(options.revolverPaths.aliases)
  {
    var data := GetPathData(w, cartridge, Js);
    if data.Err? {
      return Err(data.error);
    }
    var disable := ListSetting(w, "revolverDisable", Js);
    r := FinishJsPaths(w, cartridge, data.value, disable, options);
  }

  /** The rest of `getJSPaths` once its path data is known; the
      `revolverDisable` list is read only after the main paths. */
  method FinishJsPaths(w: World, cartridge: string, pathData: PathData, disable: Result<seq<string>>, options: JsOptions)
    returns (r: Result<PathData>)
    modifies options.revolverPaths
    ensures r == JsPathsOf(w, Ok(pathData), disable, options.mainFiles, options.getRootFiles, options.mainEntryName)
    ensures options.revolverPaths.useRevolver == UseRevolverOf(Ok(pathData), disable, cartridge, old(options.revolverPaths.useRevolver))
    ensures options.revolverPaths.paths == old(options.revolverPaths.paths)
    ensures unchanged(options.revolverPaths.aliases)
  {
    var revolverAllowBase := Setting(w, "revolverBase", Bool(false), Js);
    var revolverPaths := options.revolverPaths.paths;
    var mainPaths := GetMainPaths(w, pathData.inputPath, options.mainFiles);
    if disable.Err? {
      return Err(disable.error);
    }
    var revolverDisableList := disable.value;
    var entryObject := FillJsEntryObject(w, pathData, options.getRootFiles, mainPaths, options.mainEntryName);
    if options.revolverPaths.useRevolver && cartridge in revolverDisableList {
      options.revolverPaths.useRevolver := false;
    }
    return Ok(pathData.(entryObject := entryObject));
  }

  /** The entry object `getJSPaths` builds: the root files when asked for,
      then the main entry when there are main paths. */
  method FillJsEntryObject(w: World, pathData: PathData, getRootFiles: bool, mainPaths: seq<string>, mainEntryName: string)
    returns (entryObject: map<string, Entry>)
    ensures entryObject == JsEntryObject(
      if getRootFiles then KeyedEntries(w.cwd, RootFileList(w, pathData), RootFileKey()) else map[],
      mainPaths, mainEntryName)
  {
    entryObject := map[];
    if getRootFiles {
      entryObject := GetRootFiles(w, pathData);
    }
    if |mainPaths| > 0 {
      entryObject := entryObject[mainEntryName := Many(mainPaths)];
    }
  }

  /** `getJSPaths` only ever switches the revolver off, never on, and does so
      exactly when the cartridge is on the `revolverDisable` list. */
  lemma UseRevolverOnlySwitchesOff(w: World, cartridge: string, useRevolver: bool)
    ensures UseRevolverAfter(w, cartridge, useRevolver) ==> useRevolver
    ensures !useRevolver ==> !UseRevolverAfter(w, cartridge, useRevolver)
    ensures (useRevolver && !UseRevolverAfter(w, cartridge, useRevolver)) <==>
      (useRevolver && GetPathData(w, cartridge, Js).Ok? && ListSetting(w, "revolverDisable", Js).Ok?
        && cartridge in ListSetting(w, "revolverDisable", Js).value)
  {
  }

  /** There is a main path exactly when some candidate file exists. */
  lemma MainPathsNonEmpty(w: World, inputPath: string, mainFiles: seq<string>)
    ensures |MainPaths(w, inputPath, mainFiles)| > 0 <==> exists f :: f in mainFiles && w.fileExists(PathJoin(inputPath, f))
  {
    var f := ExistingMainPath(w, inputPath);
    var found := MainPaths(w, inputPath, mainFiles);
    if exists file :: file in mainFiles && w.fileExists(PathJoin(inputPath, file)) {
      var file :| file in mainFiles && w.fileExists(PathJoin(inputPath, file));
      var i :| 0 <= i < |mainFiles| && mainFiles[i] == file;
      FilterMapMember(mainFiles, f, PathJoin(w.cwd, PathJoin(inputPath, file)));
      assert f(mainFiles[i]) == Some(PathJoin(w.cwd, PathJoin(inputPath, file)));
    }
    if |found| > 0 {
      FilterMapMember(mainFiles, f, found[0]);
      var i :| 0 <= i < |mainFiles| && f(mainFiles[i]) == Some(found[0]);
      assert mainFiles[i] in mainFiles;
    }
  }

  /** The main entry is attached exactly when some main file exists, and then
      holds all main paths; without root files it is the only possible key,
      and with no main path the entry object is just the root files. */
  lemma JsMainEntry(w: World, cartridge: string, mainFiles: seq<string>, getRootFiles: bool, mainEntryName: string)
    requires JsPaths(w, cartridge, mainFiles, getRootFiles, mainEntryName).Ok?
    ensures var pathData := JsPaths(w, cartridge, mainFiles, getRootFiles, mainEntryName).value;
            var mainPaths := MainPaths(w, pathData.inputPath, mainFiles);
            var rootFiles := if getRootFiles then KeyedEntries(w.cwd, RootFileList(w, pathData), RootFileKey()) else map[];
            && (|mainPaths| > 0 ==> pathData.entryObject[mainEntryName] == Many(mainPaths))
            && (|mainPaths| > 0 ==> forall k :: k in pathData.entryObject && k != mainEntryName ==> k in rootFiles)
            && (|mainPaths| == 0 ==> pathData.entryObject == rootFiles)
            && (!getRootFiles ==> pathData.entryObject.Keys <= {mainEntryName})
            && (!getRootFiles ==> (mainEntryName in pathData.entryObject <==> exists f :: f in mainFiles && w.fileExists(PathJoin(pathData.inputPath, f))))
  {
    var base := GetPathData(w, cartridge, Js).value;
    var pathData := JsPaths(w, cartridge, mainFiles, getRootFiles, mainEntryName).value;
    var mainPaths := MainPaths(w, base.inputPath, mainFiles);
    var rootFiles := if getRootFiles then KeyedEntries(w.cwd, RootFileList(w, base), RootFileKey()) else map[];
    assert pathData == base.(entryObject := JsEntryObject(rootFiles, mainPaths, mainEntryName));
    MainPathsNonEmpty(w, base.inputPath, mainFiles);
  }
}
