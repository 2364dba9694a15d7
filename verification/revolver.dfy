/** Revolver paths and aliases: `getRevolverPaths` and `_getAliasPaths`. Each
    descriptor of the `revolverPath` list, such as `app::site`, yields one
    revolver entry named after its leader, and every member of the group is
    made an alias of the same input path (plus one `member/locale` alias per
    locale directory when locales are enabled). */
module Revolver {
  import opened JsStrings
  import opened Host
  import opened Config
  import opened Paths
  import opened Cartridges

  /** `{name, path}`, one element of `paths`. */
  datatype RevolverEntry = RevolverEntry(name: string, path: string)

  /** The contents of a revolver-paths object, as a value. */
  datatype RevolverSet = RevolverSet(paths: seq<RevolverEntry>, useRevolver: bool, aliases: map<string, string>)

  /** The alias object: alias name to absolute input path. */
  class AliasObject {
    var entries: map<string, string>

    constructor ()
      ensures entries == map[]
    {
      entries := map[];
    }
  }

  /** The object `getRevolverPaths` returns and `getJSPaths` updates in place. */
  class RevolverPaths {
    var paths: seq<RevolverEntry>
    var useRevolver: bool
    const aliases: AliasObject

    constructor (paths: seq<RevolverEntry>, useRevolver: bool, aliases: AliasObject)
      ensures this.paths == paths && this.useRevolver == useRevolver && this.aliases == aliases
    {
      this.paths := paths;
      this.useRevolver := useRevolver;
      this.aliases := aliases;
    }

    function Snapshot(): RevolverSet
      reads this, aliases
    {
      RevolverSet(paths, useRevolver, aliases.entries)
    }
  }

  /** The settings `getRevolverPaths` reads before its loop. */
  datatype RevolverSettings = RevolverSettings(mainDirName: string, useLocales: Value, aliasDirName: Value, defaultLocale: Value)

  /** `revolverCartridgeString ? revolverCartridgeString.split(/(?:,| )+/) : []` */
  function Descriptors(w: World, scope: Scope): (r: Result<seq<string>>)
    ensures (r.Ok? && r.value == []) <==> !Truthy(Setting(w, "revolverPath", Str(""), scope))
    ensures var s := Setting(w, "revolverPath", Str(""), scope);
            r.Err? <==> Truthy(s) && !s.Str?
    ensures r.Err? ==> r.error == NotAString("revolverPath")
    ensures var s := Setting(w, "revolverPath", Str(""), scope);
            r.Ok? && Truthy(s) ==> r.value == SplitList(s.s)
  {
    var s := Setting(w, "revolverPath", Str(""), scope);
    if !Truthy(s) then Ok([])
    else if s.Str? then Ok(SplitList(s.s))
    else Err(NotAString("revolverPath"))
  }

  /** `mainDirName`, `useLocales`, `aliasDirName` and `defaultLocale`; the
      default locale is `false` when locales are off. */
  function Settings(w: World, scope: Scope): (r: Result<RevolverSettings>)
    ensures r.Ok? <==> Setting(w, "mainDirName", Str(MainDirNameDefault), scope).Str?
    ensures r.Ok? ==> Str(r.value.mainDirName) == Setting(w, "mainDirName", Str(MainDirNameDefault), scope)
    ensures r.Ok? && !Truthy(r.value.useLocales) ==> r.value.defaultLocale == Bool(false)
    ensures r.Ok? ==> r.value.useLocales == Setting(w, "useLocales", Bool(true), scope)
                      && r.value.aliasDirName == Setting(w, "aliasDirName", Bool(false), scope)
    ensures r.Ok? && Truthy(r.value.useLocales) ==> r.value.defaultLocale == Setting(w, "defaultLocale", Str(LocaleDefault), scope)
  {
    var mainDirName := Setting(w, "mainDirName", Str(MainDirNameDefault), scope);
    var useLocales := Setting(w, "useLocales", Bool(true), scope);
    var aliasDirName := Setting(w, "aliasDirName", Bool(false), scope);
    var defaultLocale := if Truthy(useLocales) then Setting(w, "defaultLocale", Str(LocaleDefault), scope) else Bool(false);
    if mainDirName.Str? then Ok(RevolverSettings(mainDirName.s, useLocales, aliasDirName, defaultLocale))
    else Err(NotAString("mainDirName"))
  }

  /** `defaultInputPath.indexOf(`/${mainDirName}/`) + mainDirName.length + 1` */
  function MainDirIndex(inputPath: string, mainDirName: string): int {
    IndexOf(inputPath, "/" + mainDirName + "/") + |mainDirName| + 1
  }

  /** `defaultInputPath.substring(0, mainDirIndex)` */
  function MainPath(inputPath: string, mainDirName: string): string {
    Substring(inputPath, 0, MainDirIndex(inputPath, mainDirName))
  }

  /** The main path is the input path up to and including the first
      `/<mainDirName>` directory. When the input path has no such directory,
      `indexOf` yields -1 and the main path is merely the input path's first
      `|mainDirName|` characters. */
  lemma MainPathShape(inputPath: string, mainDirName: string)
    ensures var i := IndexOf(inputPath, "/" + mainDirName + "/");
            var mainPath := MainPath(inputPath, mainDirName);
            && IsPrefix(mainPath, inputPath)
            && (i >= 0 ==> mainPath + "/" == inputPath[..i + |mainDirName| + 2]
                           && IsSuffix("/" + mainDirName, mainPath))
            && (i < 0 ==> |mainPath| == if |mainDirName| <= |inputPath| then |mainDirName| else |inputPath|)
  {
    var marker := "/" + mainDirName + "/";
    var i := IndexOf(inputPath, marker);
    var mainPath := MainPath(inputPath, mainDirName);
    if i >= 0 {
      assert OccursAt(inputPath, marker, i);
      assert mainPath == inputPath[..i + |mainDirName| + 1];
      assert inputPath[i..i + |marker|] == marker;
      assert marker[..|mainDirName| + 1] == "/" + mainDirName;
      assert inputPath[i..i + |mainDirName| + 1] == inputPath[i..i + |marker|][..|mainDirName| + 1];
      assert inputPath[..i + |mainDirName| + 2] == inputPath[..i + |mainDirName| + 1] + [inputPath[i + |mainDirName| + 1]];
      assert inputPath[i..i + |mainDirName| + 1] == "/" + mainDirName;
      assert mainPath[|mainPath| - |"/" + mainDirName|..] == inputPath[i..i + |mainDirName| + 1];
    }
  }

  /** The option literal `{useLocales, mainPath, mainDirIndex, aliasDirName}`. */
  datatype AliasOptions = AliasOptions(useLocales: Value, mainPath: string, mainDirIndex: int, aliasDirName: Value)

  /** The locale directories: every directory directly under the main path. */
  function LocaleDirs(w: World, opts: AliasOptions): seq<string> {
    w.glob(opts.mainPath + "/*/")
  }

  /** `currentDir.substring(mainDirIndex).split('/')[1]`: undefined when there
      is no second piece. */
  function DirLocale(dir: string, mainDirIndex: int): Value {
    var pieces := SplitOn(SubstringFrom(dir, mainDirIndex), "/");
    if |pieces| > 1 then Str(pieces[1]) else Undefined
  }

  /** The locale of a directory is the text after the first `/` that follows
      `mainDirIndex`, up to the next `/` or the end; without such a `/` it is
      `undefined`. */
  lemma DirLocaleShape(dir: string, mainDirIndex: int)
    ensures var t := SubstringFrom(dir, mainDirIndex);
            DirLocale(dir, mainDirIndex).Str? <==> '/' in t
    ensures var t := SubstringFrom(dir, mainDirIndex);
            var r := DirLocale(dir, mainDirIndex);
            r.Str? ==> var i := IndexOf(t, "/");
                       && 0 <= i && '/' !in t[..i]
                       && '/' !in r.s
                       && (r.s == t[i + 1..] || IsPrefix(r.s + "/", t[i + 1..]))
  {
    SecondPathPiece(SubstringFrom(dir, mainDirIndex));
  }

  /** The alias `${currentCartridgePart}/${currentLocale}`. */
  function LocaleKey(part: string, dir: string, opts: AliasOptions): (k: string)
    ensures IsPrefix(part + "/", k)
  {
    part + "/" + ToJs(DirLocale(dir, opts.mainDirIndex))
  }

  /** The absolute input path of one locale directory. */
  function LocaleTarget(w: World, dir: string, opts: AliasOptions): string {
    PathJoin(w.cwd, ConstructInputPath(opts.mainPath, DirLocale(dir, opts.mainDirIndex), opts.aliasDirName))
  }

  /** The aliases after the locale loop of `_getAliasPaths` has visited `dirs`. */
  function LocaleAliases(w: World, aliases: map<string, string>, part: string, dirs: seq<string>, opts: AliasOptions): map<string, string>
    decreases |dirs|
  {
    if dirs == [] then aliases
    else
      var last := dirs[|dirs| - 1];
      LocaleAliases(w, aliases, part, dirs[..|dirs| - 1], opts)[LocaleKey(part, last, opts) := LocaleTarget(w, last, opts)]
  }

  /** The aliases after `_getAliasPaths(aliases, part, inputPath, opts)`. */
  function AliasPaths(w: World, aliases: map<string, string>, part: string, inputPath: string, opts: AliasOptions): map<string, string> {
    var withLocales := if Truthy(opts.useLocales) then LocaleAliases(w, aliases, part, LocaleDirs(w, opts), opts) else aliases;
    withLocales[part := PathJoin(w.cwd, inputPath)]
  }

  /** `_getAliasPaths(aliasObject, currentCartridgePart, defaultInputPath, options)` */
  method AddAliasPaths(w: World, aliasObject: AliasObject, part: string, inputPath: string, opts: AliasOptions)
    modifies aliasObject
    ensures aliasObject.entries == AliasPaths(w, old(aliasObject.entries), part, inputPath, opts)
  {
    if Truthy(opts.useLocales) {
      AddLocaleAliases(w, aliasObject, part, w.glob(opts.mainPath + "/*/"), opts);
    }
    aliasObject.entries := aliasObject.entries[part := PathJoin(w.cwd, inputPath)];
  }

  /** The locale loop of `_getAliasPaths` over the directories `dirs`. */
  method AddLocaleAliases(w: World, aliasObject: AliasObject, part: string, dirs: seq<string>, opts: AliasOptions)
    modifies aliasObject
    ensures aliasObject.entries == LocaleAliases(w, old(aliasObject.entries), part, dirs, opts)
  {
    ghost var original := aliasObject.entries;
    var i := 0;
    while i < |dirs|
      invariant i <= |dirs|
      invariant aliasObject.entries == LocaleAliases(w, original, part, dirs[..i], opts)
    {
      var currentLocale := DirLocale(dirs[i], opts.mainDirIndex);
      var localeInputPath := ConstructInputPath(opts.mainPath, currentLocale, opts.aliasDirName);
      aliasObject.entries := aliasObject.entries[part + "/" + ToJs(currentLocale) := PathJoin(w.cwd, localeInputPath)];
      assert dirs[..i + 1][..i] == dirs[..i];
      i := i + 1;
    }
    assert dirs[..i] == dirs;
  }

  /** The aliases after `_getAliasPaths` has run for each of `parts`. */
  function GroupAliases(w: World, aliases: map<string, string>, parts: seq<string>, inputPath: string, opts: AliasOptions): map<string, string>
    decreases |parts|
  {
    if parts == [] then aliases
    else AliasPaths(w, GroupAliases(w, aliases, parts[..|parts| - 1], inputPath, opts), parts[|parts| - 1], inputPath, opts)
  }

  /** `cartridgeParts.forEach(part => _getAliasPaths(aliasObject, part, ...))` */
  method AddGroupAliases(w: World, aliasObject: AliasObject, parts: seq<string>, inputPath: string, opts: AliasOptions)
    modifies aliasObject
    ensures aliasObject.entries == GroupAliases(w, old(aliasObject.entries), parts, inputPath, opts)
  {
    ghost var original := aliasObject.entries;
    var j := 0;
    while j < |parts|
      invariant j <= |parts|
      invariant aliasObject.entries == GroupAliases(w, original, parts[..j], inputPath, opts)
    {
      AddAliasPaths(w, aliasObject, parts[j], inputPath, opts);
      assert parts[..j + 1][..j] == parts[..j];
      j := j + 1;
    }
    assert parts[..j] == parts;
  }

  /** What one descriptor contributes: its group members, its leader, the
      input path the group's aliases point to and the alias options. */
  datatype Resolved = Resolved(parts: seq<string>, name: string, inputPath: string, opts: AliasOptions)

  /** The first statements of the loop body of `getRevolverPaths`: split the
      descriptor, take the leader's input path and its main path, and replace
      a glob pattern by a path built from the main path. */
  function ResolveDescriptor(w: World, scope: Scope, cfg: RevolverSettings, descriptor: string): (r: Result<Resolved>)
    ensures r.Ok? <==> GetPathData(w, Leader(descriptor), scope).Ok?
    ensures r.Err? ==> r.error == GetPathData(w, Leader(descriptor), scope).error
    ensures r.Ok? ==> r.value.parts == SplitOn(descriptor, "::") && r.value.name == Leader(descriptor)
    ensures r.Ok? ==>
              var d := GetPathData(w, Leader(descriptor), scope).value.inputPath;
              && r.value.opts == AliasOptions(cfg.useLocales, MainPath(d, cfg.mainDirName), MainDirIndex(d, cfg.mainDirName), cfg.aliasDirName)
              && r.value.inputPath ==
                   if w.hasMagic(d) then ConstructInputPath(MainPath(d, cfg.mainDirName), cfg.defaultLocale, cfg.aliasDirName)
                   else d
  {
    var parts := SplitOn(descriptor, "::");
    match GetPathData(w, parts[0], scope)
    case Err(e) => Err(e)
    case Ok(pathData) =>
      var defaultInputPath := pathData.inputPath;
      var mainDirIndex := MainDirIndex(defaultInputPath, cfg.mainDirName);
      var mainPath := MainPath(defaultInputPath, cfg.mainDirName);
      var inputPath :=
        if w.hasMagic(defaultInputPath) then ConstructInputPath(mainPath, cfg.defaultLocale, cfg.aliasDirName)
        else defaultInputPath;
      Ok(Resolved(parts, parts[0], inputPath, AliasOptions(cfg.useLocales, mainPath, mainDirIndex, cfg.aliasDirName)))
  }

  /** The revolver array and the alias object built so far. */
  datatype RevolverState = RevolverState(paths: seq<RevolverEntry>, aliases: map<string, string>)

  /** The state after one descriptor: its entry is pushed and its group's
      aliases are added. */
  function Step(w: World, st: RevolverState, res: Resolved): RevolverState {
    RevolverState(
      st.paths + [RevolverEntry(res.name, PathJoin(w.cwd, res.inputPath))],
      GroupAliases(w, st.aliases, res.parts, res.inputPath, res.opts))
  }

  /** The outcome of resolving each descriptor, in order. */
  function Resolutions(w: World, scope: Scope, cfg: RevolverSettings, descriptors: seq<string>): (rs: seq<Result<Resolved>>)
    ensures |rs| == |descriptors|
    ensures forall i :: 0 <= i < |descriptors| ==> rs[i] == ResolveDescriptor(w, scope, cfg, descriptors[i])
  {
    seq(|descriptors|, i requires 0 <= i < |descriptors| => ResolveDescriptor(w, scope, cfg, descriptors[i]))
  }

  /** The state after the loop of `getRevolverPaths` has visited descriptors
      resolving to `rs`; the first failure ends it. */
  function RevolverFold(w: World, rs: seq<Result<Resolved>>): Result<RevolverState>
    decreases |rs|
  {
    if rs == [] then Ok(RevolverState([], map[]))
    else
      match RevolverFold(w, rs[..|rs| - 1])
      case Err(e) => Err(e)
      case Ok(st) =>
        match rs[|rs| - 1]
        case Err(e) => Err(e)
        case Ok(res) => Ok(Step(w, st, res))
  }

  /** What `getRevolverPaths(scope)` returns. */
  function RevolverPathsOf(w: World, scope: Scope): Result<RevolverSet> {
    match Descriptors(w, scope)
    case Err(e) => Err(e)
    case Ok(descriptors) =>
      if descriptors == [] then Ok(RevolverSet([], false, map[]))
      else
        match Settings(w, scope)
        case Err(e) => Err(e)
        case Ok(cfg) =>
          match RevolverFold(w, Resolutions(w, scope, cfg, descriptors))
          case Err(e) => Err(e)
          case Ok(st) => Ok(RevolverSet(st.paths, |st.paths| > 0, st.aliases))
  }

  /** A failure part-way through the descriptors is the failure of the whole. */
  lemma {:induction false} FoldKeepsError(w: World, rs: seq<Result<Resolved>>, k: nat, e: Error)
    requires k <= |rs| && RevolverFold(w, rs[..k]) == Err(e)
    ensures RevolverFold(w, rs) == Err(e)
    decreases |rs| - k
  {
    if k < |rs| {
      assert rs[..k + 1][..k] == rs[..k];
      FoldKeepsError(w, rs, k + 1, e);
    } else {
      assert rs[..k] == rs;
    }
  }

  /** One more successful descriptor extends the fold by one step. */
  lemma FoldExtends(w: World, rs: seq<Result<Resolved>>, i: nat, st: RevolverState)
    requires i < |rs| && RevolverFold(w, rs[..i]) == Ok(st) && rs[i].Ok?
    ensures RevolverFold(w, rs[..i + 1]) == Ok(Step(w, st, rs[i].value))
  {
    assert rs[..i + 1][..i] == rs[..i];
  }

  /** A failing descriptor after a successful prefix is the failure of the
      whole fold. */
  lemma FoldStopsAt(w: World, rs: seq<Result<Resolved>>, i: nat, st: RevolverState)
    requires i < |rs| && RevolverFold(w, rs[..i]) == Ok(st) && rs[i].Err?
    ensures RevolverFold(w, rs) == Err(rs[i].error)
  {
    assert rs[..i + 1][..i] == rs[..i];
    FoldKeepsError(w, rs, i + 1, rs[i].error);
  }

  /** The body of the `forEach` loop of `getRevolverPaths` for one
      descriptor: adds its group's aliases and pushes its entry. */
  method VisitDescriptor(w: World, scope: Scope, cfg: RevolverSettings, descriptor: string, aliasObject: AliasObject, revolverArray: seq<RevolverEntry>)
    returns (r: Result<seq<RevolverEntry>>)
    modifies aliasObject
    ensures var resolved := ResolveDescriptor(w, scope, cfg, descriptor);
            && (resolved.Err? ==> r == Err(resolved.error))
            && (resolved.Ok? ==>
                  r.Ok? && RevolverState(r.value, aliasObject.entries)
                        == Step(w, RevolverState(revolverArray, old(aliasObject.entries)), resolved.value))
  {
    var resolved := ResolveDescriptor(w, scope, cfg, descriptor);
    if resolved.Err? {
      return Err(resolved.error);
    }
    var res := resolved.value;
    AddGroupAliases(w, aliasObject, res.parts, res.inputPath, res.opts);
    return Ok(revolverArray + [RevolverEntry(res.name, PathJoin(w.cwd, res.inputPath))]);
  }

  /** The `forEach` loop of `getRevolverPaths`: fills `aliasObject` and
      returns the revolver array. */
  method RevolverLoop(w: World, scope: Scope, cfg: RevolverSettings, descriptors: seq<string>, aliasObject: AliasObject)
    returns (r: Result<seq<RevolverEntry>>)
    requires aliasObject.entries == map[]
    modifies aliasObject
    ensures var fold := RevolverFold(w, Resolutions(w, scope, cfg, descriptors));
            && (fold.Err? ==> r == Err(fold.error))
            && (fold.Ok? ==> r == Ok(fold.value.paths) && aliasObject.entries == fold.value.aliases)
  {
    ghost var rs := Resolutions(w, scope, cfg, descriptors);
    var revolverArray := [];
    var i := 0;
    while i < |descriptors|
      invariant i <= |descriptors|
      invariant RevolverFold(w, rs[..i]) == Ok(RevolverState(revolverArray, aliasObject.entries))
    {
      ghost var before := RevolverState(revolverArray, aliasObject.entries);
      var next := VisitDescriptor(w, scope, cfg, descriptors[i], aliasObject, revolverArray);
      assert rs[i] == ResolveDescriptor(w, scope, cfg, descriptors[i]);
      if next.Err? {
        assert RevolverFold(w, rs) == Err(next.error) by {
          FoldStopsAt(w, rs, i, before);
        }
        return Err(next.error);
      }
      assert RevolverFold(w, rs[..i + 1]) == Ok(RevolverState(next.value, aliasObject.entries)) by {
        FoldExtends(w, rs, i, before);
      }
      revolverArray := next.value;
      i := i + 1;
    }
    assert rs[..i] == rs;
    return Ok(revolverArray);
  }

  /** `getRevolverPaths(scope)` */
  method GetRevolverPaths(w: World, scope: Scope) returns (r: Result<RevolverPaths>)
    ensures RevolverPathsOf(w, scope).Err? ==> r == Err(RevolverPathsOf(w, scope).error)
    ensures RevolverPathsOf(w, scope).Ok? ==>
      r.Ok? && fresh(r.value) && fresh(r.value.aliases) && r.value.Snapshot() == RevolverPathsOf(w, scope).value
  {
    var revolverArray := [];
    var aliasObject := new AliasObject();
    var descriptors := Descriptors(w, scope);
    if descriptors.Err? {
      return Err(descriptors.error);
    }
    var revolverCartridgeArray := descriptors.value;
    if revolverCartridgeArray != [] {
      var settings := Settings(w, scope);
      if settings.Err? {
        return Err(settings.error);
      }
      var loop := RevolverLoop(w, scope, settings.value, revolverCartridgeArray, aliasObject);
      if loop.Err? {
        return Err(loop.error);
      }
      revolverArray := loop.value;
    }
    var result := new RevolverPaths(revolverArray, |revolverArray| > 0, aliasObject);
    return Ok(result);
  }

  /** A successful fold passed every prefix and ends with the last step. */
  lemma FoldStep(w: World, rs: seq<Result<Resolved>>)
    requires rs != [] && RevolverFold(w, rs).Ok?
    ensures var init := rs[..|rs| - 1];
            && RevolverFold(w, init).Ok? && rs[|rs| - 1].Ok?
            && RevolverFold(w, rs).value == Step(w, RevolverFold(w, init).value, rs[|rs| - 1].value)
  {
  }

  /** The fold yields one entry per descriptor, in order, named after the
      group's leader and pointing at its resolved input path. */
  lemma {:induction false} FoldEntries(w: World, rs: seq<Result<Resolved>>)
    requires RevolverFold(w, rs).Ok?
    ensures var paths := RevolverFold(w, rs).value.paths;
            && |paths| == |rs|
            && forall i :: 0 <= i < |rs| ==>
                 rs[i].Ok? && paths[i] == RevolverEntry(rs[i].value.name, PathJoin(w.cwd, rs[i].value.inputPath))
    decreases |rs|
  {
    if rs != [] {
      var n := |rs| - 1;
      var init := rs[..n];
      FoldStep(w, rs);
      FoldEntries(w, init);
      forall i | 0 <= i < n ensures rs[i] == init[i] { }
    }
  }

  /** One `{name, path}` entry per descriptor, in order, named after its
      leader; `useRevolver` is set exactly when there is at least one. */
  lemma RevolverEntriesFollowDescriptors(w: World, scope: Scope)
    requires RevolverPathsOf(w, scope).Ok?
    ensures var descriptors := Descriptors(w, scope).value;
            var rp := RevolverPathsOf(w, scope).value;
            && |rp.paths| == |descriptors|
            && (forall i :: 0 <= i < |descriptors| ==> rp.paths[i].name == Leader(descriptors[i]))
            && (rp.useRevolver <==> |descriptors| > 0)
            && (rp.useRevolver <==> Truthy(Setting(w, "revolverPath", Str(""), scope)))
  {
    var descriptors := Descriptors(w, scope).value;
    if descriptors != [] {
      var rs := Resolutions(w, scope, Settings(w, scope).value, descriptors);
      FoldEntries(w, rs);
    }
  }

  /** The i-th entry points at the input path of its leader's cartridge: when
      that path is a glob pattern, the `defaultLocale` (and `aliasDirName`)
      directory under the main directory, otherwise the path itself. */
  lemma RevolverEntryPath(w: World, scope: Scope, i: nat)
    requires RevolverPathsOf(w, scope).Ok? && i < |RevolverPathsOf(w, scope).value.paths|
    ensures Descriptors(w, scope).Ok? && i < |Descriptors(w, scope).value| && Settings(w, scope).Ok?
    ensures var d := Descriptors(w, scope).value[i];
            var cfg := Settings(w, scope).value;
            var pathData := GetPathData(w, Leader(d), scope);
            && pathData.Ok?
            && var input := pathData.value.inputPath;
               RevolverPathsOf(w, scope).value.paths[i] ==
                 RevolverEntry(Leader(d), PathJoin(w.cwd,
                   if w.hasMagic(input) then ConstructInputPath(MainPath(input, cfg.mainDirName), cfg.defaultLocale, cfg.aliasDirName)
                   else input))
  {
    RevolverEntriesFollowDescriptors(w, scope);
    var descriptors := Descriptors(w, scope).value;
    var rs := Resolutions(w, scope, Settings(w, scope).value, descriptors);
    FoldEntries(w, rs);
  }

  /** An empty `revolverPath` yields no entries, no aliases and no revolver. */
  lemma EmptyRevolverPath(w: World, scope: Scope)
    requires !Truthy(Setting(w, "revolverPath", Str(""), scope))
    ensures RevolverPathsOf(w, scope) == Ok(RevolverSet([], false, map[]))
  {
  }

  /** Every locale alias contains a `/` after the member name, so the locale
      loop leaves slash-free names alone. */
  lemma {:induction false} LocaleAliasesFrame(w: World, aliases: map<string, string>, part: string, dirs: seq<string>, opts: AliasOptions, k: string)
    requires '/' !in k
    ensures var m := LocaleAliases(w, aliases, part, dirs, opts);
            (k in m <==> k in aliases) && (k in aliases ==> m[k] == aliases[k])
    decreases |dirs|
  {
    if dirs != [] {
      var key := LocaleKey(part, dirs[|dirs| - 1], opts);
      assert key[|part|] == '/';
      assert key != k;
      LocaleAliasesFrame(w, aliases, part, dirs[..|dirs| - 1], opts, k);
    }
  }

  /** `_getAliasPaths` points the member at the input path and changes no
      other slash-free name. */
  lemma AliasPathsFrame(w: World, aliases: map<string, string>, part: string, inputPath: string, opts: AliasOptions, k: string)
    requires '/' !in k && k != part
    ensures var m := AliasPaths(w, aliases, part, inputPath, opts);
            && m[part] == PathJoin(w.cwd, inputPath)
            && (k in m <==> k in aliases) && (k in aliases ==> m[k] == aliases[k])
  {
    LocaleAliasesFrame(w, aliases, part, LocaleDirs(w, opts), opts, k);
  }

  /** Across a group, a slash-free name outside the group is left alone. */
  lemma {:induction false} GroupAliasesFrame(w: World, aliases: map<string, string>, parts: seq<string>, inputPath: string, opts: AliasOptions, k: string)
    requires '/' !in k && k !in parts
    ensures var m := GroupAliases(w, aliases, parts, inputPath, opts);
            (k in m <==> k in aliases) && (k in aliases ==> m[k] == aliases[k])
    decreases |parts|
  {
    if parts != [] {
      var init := parts[..|parts| - 1];
      assert forall x :: x in init ==> x in parts;
      GroupAliasesFrame(w, aliases, init, inputPath, opts, k);
      AliasPathsFrame(w, GroupAliases(w, aliases, init, inputPath, opts), parts[|parts| - 1], inputPath, opts, k);
    }
  }

  /** Every slash-free member of a group is an alias of the group's path. */
  lemma {:induction false} GroupAliasesMember(w: World, aliases: map<string, string>, parts: seq<string>, inputPath: string, opts: AliasOptions, p: string)
    requires p in parts && '/' !in p
    ensures var m := GroupAliases(w, aliases, parts, inputPath, opts);
            p in m && m[p] == PathJoin(w.cwd, inputPath)
    decreases |parts|
  {
    var init := parts[..|parts| - 1];
    var last := parts[|parts| - 1];
    var m0 := GroupAliases(w, aliases, init, inputPath, opts);
    if p != last {
      assert p in init by {
        var i :| 0 <= i < |parts| && parts[i] == p;
        assert init[i] == p;
      }
      GroupAliasesMember(w, aliases, init, inputPath, opts, p);
      AliasPathsFrame(w, m0, last, inputPath, opts, p);
    }
  }

  /** In the fold, a slash-free member of group `i` that no later group
      names is an alias of entry `i`'s path. */
  lemma {:induction false} FoldGroupAlias(w: World, rs: seq<Result<Resolved>>, i: nat, p: string)
    requires RevolverFold(w, rs).Ok? && i < |rs|
    requires rs[i].Ok? && p in rs[i].value.parts && '/' !in p
    requires forall j :: i < j < |rs| && rs[j].Ok? ==> p !in rs[j].value.parts
    ensures var st := RevolverFold(w, rs).value;
            |st.paths| == |rs| && p in st.aliases && st.aliases[p] == st.paths[i].path
    decreases |rs|
  {
    var n := |rs| - 1;
    var init := rs[..n];
    FoldStep(w, rs);
    FoldEntries(w, rs);
    var st0 := RevolverFold(w, init).value;
    var res := rs[n].value;
    if i == n {
      GroupAliasesMember(w, st0.aliases, res.parts, res.inputPath, res.opts, p);
    } else {
      assert init[i] == rs[i];
      forall j | i < j < |init| && init[j].Ok? ensures p !in init[j].value.parts {
        assert init[j] == rs[j];
      }
      FoldGroupAlias(w, init, i, p);
      FoldEntries(w, init);
      GroupAliasesFrame(w, st0.aliases, res.parts, res.inputPath, res.opts, p);
    }
  }

  /** Group aliases: each slash-free member of a descriptor's `::` group
      that no later descriptor names again is an alias of the path of that
      descriptor's revolver entry, so all members of one group point at the
      same path. */
  lemma RevolverGroupAliases(w: World, scope: Scope, i: nat, p: string)
    requires RevolverPathsOf(w, scope).Ok? && Descriptors(w, scope).Ok?
    requires var descriptors := Descriptors(w, scope).value;
             && i < |descriptors| && p in SplitOn(descriptors[i], "::") && '/' !in p
             && forall j :: i < j < |descriptors| ==> p !in SplitOn(descriptors[j], "::")
    ensures var rp := RevolverPathsOf(w, scope).value;
            i < |rp.paths| && p in rp.aliases && rp.aliases[p] == rp.paths[i].path
  {
    var descriptors := Descriptors(w, scope).value;
    var rs := Resolutions(w, scope, Settings(w, scope).value, descriptors);
    assert RevolverFold(w, rs).Ok?;
    FoldEntries(w, rs);
    forall j | i < j < |rs| && rs[j].Ok?
      ensures p !in rs[j].value.parts
    {
      assert rs[j].value.parts == SplitOn(descriptors[j], "::");
    }
    FoldGroupAlias(w, rs, i, p);
  }

  /** The locale loop adds an alias for every locale directory and keeps the
      aliases that were there. */
  lemma {:induction false} LocaleAliasesKeys(w: World, aliases: map<string, string>, part: string, dirs: seq<string>, opts: AliasOptions)
    ensures var m := LocaleAliases(w, aliases, part, dirs, opts);
            && aliases.Keys <= m.Keys
            && forall d :: d in dirs ==> LocaleKey(part, d, opts) in m
    decreases |dirs|
  {
    if dirs != [] {
      var init := dirs[..|dirs| - 1];
      LocaleAliasesKeys(w, aliases, part, init, opts);
      forall d | d in dirs ensures d in init || d == dirs[|dirs| - 1] {
        var j :| 0 <= j < |dirs| && dirs[j] == d;
        if j < |init| {
          assert init[j] == d;
        }
      }
    }
  }

  /** `_getAliasPaths` keeps every alias and, with locales on, adds one per
      locale directory. */
  lemma AliasPathsKeys(w: World, aliases: map<string, string>, part: string, inputPath: string, opts: AliasOptions)
    ensures var m := AliasPaths(w, aliases, part, inputPath, opts);
            && aliases.Keys <= m.Keys && part in m
            && (Truthy(opts.useLocales) ==> forall d :: d in LocaleDirs(w, opts) ==> LocaleKey(part, d, opts) in m)
  {
    LocaleAliasesKeys(w, aliases, part, LocaleDirs(w, opts), opts);
  }

  /** Over a group, with locales on, every member gets one alias per locale
      directory, and no alias is lost. */
  lemma {:induction false} GroupAliasesKeys(w: World, aliases: map<string, string>, parts: seq<string>, inputPath: string, opts: AliasOptions)
    ensures var m := GroupAliases(w, aliases, parts, inputPath, opts);
            && aliases.Keys <= m.Keys
            && (Truthy(opts.useLocales) ==>
                  forall p, d :: p in parts && d in LocaleDirs(w, opts) ==> LocaleKey(p, d, opts) in m)
    decreases |parts|
  {
    if parts != [] {
      var init := parts[..|parts| - 1];
      var last := parts[|parts| - 1];
      GroupAliasesKeys(w, aliases, init, inputPath, opts);
      AliasPathsKeys(w, GroupAliases(w, aliases, init, inputPath, opts), last, inputPath, opts);
      forall p | p in parts ensures p in init || p == last {
        var j :| 0 <= j < |parts| && parts[j] == p;
        if j < |init| {
          assert init[j] == p;
        }
      }
    }
  }

  /** The fold never removes an alias. */
  lemma {:induction false} FoldKeysGrow(w: World, rs: seq<Result<Resolved>>, k: nat)
    requires k <= |rs| && RevolverFold(w, rs).Ok?
    ensures RevolverFold(w, rs[..k]).Ok?
    ensures RevolverFold(w, rs[..k]).value.aliases.Keys <= RevolverFold(w, rs).value.aliases.Keys
    decreases |rs| - k
  {
    if k == |rs| {
      assert rs[..k] == rs;
    } else {
      FoldKeysGrow(w, rs, k + 1);
      var prefix := rs[..k + 1];
      FoldStep(w, prefix);
      assert prefix[..k] == rs[..k];
      var res := prefix[k].value;
      GroupAliasesKeys(w, RevolverFold(w, rs[..k]).value.aliases, res.parts, res.inputPath, res.opts);
    }
  }

  /** With locales on, every member of group `i` has a `member/locale` alias
      for each directory under that group's main path. */
  lemma FoldLocaleAliases(w: World, rs: seq<Result<Resolved>>, i: nat, p: string, d: string)
    requires RevolverFold(w, rs).Ok? && i < |rs| && rs[i].Ok?
    requires Truthy(rs[i].value.opts.useLocales) && p in rs[i].value.parts && d in LocaleDirs(w, rs[i].value.opts)
    ensures LocaleKey(p, d, rs[i].value.opts) in RevolverFold(w, rs).value.aliases
  {
    var prefix := rs[..i + 1];
    FoldKeysGrow(w, rs, i + 1);
    FoldStep(w, prefix);
    assert prefix[i] == rs[i];
    var res := rs[i].value;
    GroupAliasesKeys(w, RevolverFold(w, prefix[..i]).value.aliases, res.parts, res.inputPath, res.opts);
  }

  /** With locales on, every member of every group has one `member/locale`
      alias per directory under its main path. */
  lemma RevolverLocaleAliases(w: World, scope: Scope, i: nat, p: string, d: string)
    requires RevolverPathsOf(w, scope).Ok? && Descriptors(w, scope).Ok? && Settings(w, scope).Ok?
    requires Truthy(Settings(w, scope).value.useLocales)
    requires var descriptors := Descriptors(w, scope).value;
             && i < |descriptors| && p in SplitOn(descriptors[i], "::")
             && ResolveDescriptor(w, scope, Settings(w, scope).value, descriptors[i]).Ok?
             && d in LocaleDirs(w, ResolveDescriptor(w, scope, Settings(w, scope).value, descriptors[i]).value.opts)
    ensures var opts := ResolveDescriptor(w, scope, Settings(w, scope).value, Descriptors(w, scope).value[i]).value.opts;
            LocaleKey(p, d, opts) in RevolverPathsOf(w, scope).value.aliases
  {
    var descriptors := Descriptors(w, scope).value;
    var rs := Resolutions(w, scope, Settings(w, scope).value, descriptors);
    FoldLocaleAliases(w, rs, i, p, d);
  }

  /** Slash-free names never clash in the alias object: `q` is not an alias
      `p/...`, and `q/` starts `p/...` only when `q` is `p`. */
  lemma SlashFreeNamesDistinct(p: string, q: string, x: string)
    requires '/' !in p && '/' !in q
    ensures q != p + "/" + x
    ensures IsPrefix(q + "/", p + "/" + x) ==> q == p
  {
    var k := p + "/" + x;
    assert k[|p|] == '/';
    if IsPrefix(q + "/", k) {
      assert k[|q|] == '/';
      if |q| == |p| {
        assert k[..|p|] == p;
        assert k[..|q|] == q;
      }
    }
  }

  /** No directory after the `j`-th gives `part` the same locale alias. */
  predicate LastWithLocale(part: string, dirs: seq<string>, j: nat, opts: AliasOptions)
    requires j < |dirs|
  {
    forall l :: j < l < |dirs| ==> LocaleKey(part, dirs[l], opts) != LocaleKey(part, dirs[j], opts)
  }

  /** The locale loop gives a `part/locale` alias the target of the last
      directory with that locale. */
  lemma LocaleAliasesValue(w: World, aliases: map<string, string>, part: string, dirs: seq<string>, opts: AliasOptions, j: nat)
    requires j < |dirs| && LastWithLocale(part, dirs, j, opts)
    ensures var k := LocaleKey(part, dirs[j], opts);
            var m := LocaleAliases(w, aliases, part, dirs, opts);
            k in m && m[k] == LocaleTarget(w, dirs[j], opts)
  {
    var key, target := KeyOf(part, opts), TargetOf(w, opts);
    LocaleAliasesAssign(w, aliases, part, dirs, opts);
    forall l | j < l < |dirs| ensures key(dirs[l]) != key(dirs[j]) {
      assert LocaleKey(part, dirs[l], opts) != LocaleKey(part, dirs[j], opts);
    }
    AssignLastWins(aliases, dirs, key, target, j);
  }

  /** The map after `m[key(xs[0])] = value(xs[0])`, ..., in the order of `xs`. */
  function Assign<T>(m: map<string, string>, xs: seq<T>, key: T -> string, value: T -> string): map<string, string>
    decreases |xs|
  {
    if xs == [] then m
    else Assign(m, xs[..|xs| - 1], key, value)[key(xs[|xs| - 1]) := value(xs[|xs| - 1])]
  }

  /** Of a series of assignments, the last one to a key decides its value. */
  lemma {:induction false} AssignLastWins<T>(m: map<string, string>, xs: seq<T>, key: T -> string, value: T -> string, j: nat)
    requires j < |xs|
    requires forall l :: j < l < |xs| ==> key(xs[l]) != key(xs[j])
    ensures var r := Assign(m, xs, key, value);
            key(xs[j]) in r && r[key(xs[j])] == value(xs[j])
    decreases |xs|
  {
    var n := |xs| - 1;
    if j < n {
      var init := xs[..n];
      assert init[j] == xs[j];
      forall l | j < l < |init| ensures key(init[l]) != key(init[j]) {
        assert init[l] == xs[l];
      }
      AssignLastWins(m, init, key, value, j);
    }
  }

  function KeyOf(part: string, opts: AliasOptions): string -> string {
    dir => LocaleKey(part, dir, opts)
  }

  function TargetOf(w: World, opts: AliasOptions): string -> string {
    dir => LocaleTarget(w, dir, opts)
  }

  /** The locale loop is a series of assignments: the locale alias of each
      directory, in order, gets that directory's target. */
  lemma {:induction false} LocaleAliasesAssign(w: World, aliases: map<string, string>, part: string, dirs: seq<string>, opts: AliasOptions)
    ensures LocaleAliases(w, aliases, part, dirs, opts) == Assign(aliases, dirs, KeyOf(part, opts), TargetOf(w, opts))
    decreases |dirs|
  {
    if dirs != [] {
      LocaleAliasesAssign(w, aliases, part, dirs[..|dirs| - 1], opts);
    }
  }

  /** The locale loop of `part` leaves every name outside `part/` alone. */
  lemma {:induction false} LocaleAliasesFrameOther(w: World, aliases: map<string, string>, part: string, dirs: seq<string>, opts: AliasOptions, k: string)
    requires !IsPrefix(part + "/", k)
    ensures var m := LocaleAliases(w, aliases, part, dirs, opts);
            (k in m <==> k in aliases) && (k in aliases ==> m[k] == aliases[k])
    decreases |dirs|
  {
    if dirs != [] {
      LocaleAliasesFrameOther(w, aliases, part, dirs[..|dirs| - 1], opts, k);
    }
  }

  /** `_getAliasPaths` for `part` with locales on: the `part/locale` alias of
      a directory whose locale no later directory repeats is that
      directory's target. */
  lemma AliasPathsLocaleValue(w: World, aliases: map<string, string>, part: string, inputPath: string, opts: AliasOptions, j: nat)
    requires Truthy(opts.useLocales) && j < |LocaleDirs(w, opts)|
    requires LastWithLocale(part, LocaleDirs(w, opts), j, opts)
    ensures var dirs := LocaleDirs(w, opts);
            var k := LocaleKey(part, dirs[j], opts);
            var m := AliasPaths(w, aliases, part, inputPath, opts);
            k in m && m[k] == LocaleTarget(w, dirs[j], opts)
  {
    LocaleAliasesValue(w, aliases, part, LocaleDirs(w, opts), opts, j);
  }

  /** `_getAliasPaths` for `part` changes neither `part/...` nor `part`. */
  lemma AliasPathsFrameOther(w: World, aliases: map<string, string>, part: string, inputPath: string, opts: AliasOptions, k: string)
    requires k != part && !IsPrefix(part + "/", k)
    ensures var m := AliasPaths(w, aliases, part, inputPath, opts);
            (k in m <==> k in aliases) && (k in aliases ==> m[k] == aliases[k])
  {
    LocaleAliasesFrameOther(w, aliases, part, LocaleDirs(w, opts), opts, k);
  }

  /** Across a group of slash-free members, a member's locale alias is the
      target of its directory. */
  lemma GroupAliasesLocaleValue(w: World, aliases: map<string, string>, parts: seq<string>, inputPath: string, opts: AliasOptions, p: string, j: nat)
    requires p in parts && forall q :: q in parts ==> '/' !in q
    requires Truthy(opts.useLocales) && j < |LocaleDirs(w, opts)|
    requires LastWithLocale(p, LocaleDirs(w, opts), j, opts)
    ensures var dirs := LocaleDirs(w, opts);
            var k := LocaleKey(p, dirs[j], opts);
            var m := GroupAliases(w, aliases, parts, inputPath, opts);
            k in m && m[k] == LocaleTarget(w, dirs[j], opts)
  {
    var d := LocaleDirs(w, opts)[j];
    var k, u := LocaleKey(p, d, opts), LocaleTarget(w, d, opts);
    forall m0: map<string, string>
      ensures k in AliasPaths(w, m0, p, inputPath, opts) && AliasPaths(w, m0, p, inputPath, opts)[k] == u
    {
      AliasPathsLocaleValue(w, m0, p, inputPath, opts, j);
    }
    forall q | q in parts && q != p ensures k != q && !IsPrefix(q + "/", k) {
      LocaleKeyClearOf(p, q, d, opts);
    }
    GroupAliasesSetBy(w, aliases, parts, inputPath, opts, p, k, u);
  }

  /** When `_getAliasPaths` for `p` always sets `k` to `u` and every other
      member of the group is clear of `k`, the group leaves `k` at `u`. */
  lemma {:induction false} GroupAliasesSetBy(w: World, aliases: map<string, string>, parts: seq<string>, inputPath: string, opts: AliasOptions, p: string, k: string, u: string)
    requires p in parts
    requires forall m0: map<string, string> :: k in AliasPaths(w, m0, p, inputPath, opts) && AliasPaths(w, m0, p, inputPath, opts)[k] == u
    requires forall q :: q in parts && q != p ==> k != q && !IsPrefix(q + "/", k)
    ensures var m := GroupAliases(w, aliases, parts, inputPath, opts);
            k in m && m[k] == u
    decreases |parts|
  {
    var init := parts[..|parts| - 1];
    var last := parts[|parts| - 1];
    var m0 := GroupAliases(w, aliases, init, inputPath, opts);
    assert AliasPaths(w, m0, p, inputPath, opts)[k] == u;
    if p != last {
      assert p in init by {
        var i :| 0 <= i < |parts| && parts[i] == p;
        assert init[i] == p;
      }
      assert forall q :: q in init ==> q in parts;
      GroupAliasesSetBy(w, aliases, init, inputPath, opts, p, k, u);
      assert last in parts;
      AliasPathsFrameOther(w, m0, last, inputPath, opts, k);
    }
  }

  /** A locale alias of one slash-free member is clear of another. */
  lemma LocaleKeyClearOf(p: string, q: string, dir: string, opts: AliasOptions)
    requires '/' !in p && '/' !in q && p != q
    ensures LocaleKey(p, dir, opts) != q && !IsPrefix(q + "/", LocaleKey(p, dir, opts))
  {
    SlashFreeNamesDistinct(p, q, ToJs(DirLocale(dir, opts.mainDirIndex)));
  }

  /** A group whose members are all clear of `k` leaves `k` alone. */
  lemma {:induction false} GroupAliasesFrameOther(w: World, aliases: map<string, string>, parts: seq<string>, inputPath: string, opts: AliasOptions, k: string)
    requires forall q :: q in parts ==> k != q && !IsPrefix(q + "/", k)
    ensures var m := GroupAliases(w, aliases, parts, inputPath, opts);
            (k in m <==> k in aliases) && (k in aliases ==> m[k] == aliases[k])
    decreases |parts|
  {
    if parts != [] {
      var init := parts[..|parts| - 1];
      assert forall q :: q in init ==> q in parts;
      assert parts[|parts| - 1] in parts;
      GroupAliasesFrameOther(w, aliases, init, inputPath, opts, k);
      AliasPathsFrameOther(w, GroupAliases(w, aliases, init, inputPath, opts), parts[|parts| - 1], inputPath, opts, k);
    }
  }

  /** Every member of a group other than the slash-free `p`, itself
      slash-free, is clear of `p`'s aliases. */
  lemma GroupClearOf(parts: seq<string>, p: string, dir: string, opts: AliasOptions)
    requires '/' !in p && p !in parts && forall q :: q in parts ==> '/' !in q
    ensures var k := LocaleKey(p, dir, opts);
            forall q :: q in parts ==> k != q && !IsPrefix(q + "/", k)
  {
    forall q | q in parts ensures LocaleKey(p, dir, opts) != q && !IsPrefix(q + "/", LocaleKey(p, dir, opts)) {
      LocaleKeyClearOf(p, q, dir, opts);
    }
  }

  /** In the fold, the locale alias of a member of group `i` keeps the target
      group `i` gave it when every later group is slash-free and does not
      name that member. */
  lemma {:induction false} FoldLocaleValue(w: World, rs: seq<Result<Resolved>>, i: nat, p: string, j: nat)
    requires RevolverFold(w, rs).Ok? && i < |rs| && rs[i].Ok?
    requires p in rs[i].value.parts && forall q :: q in rs[i].value.parts ==> '/' !in q
    requires Truthy(rs[i].value.opts.useLocales) && j < |LocaleDirs(w, rs[i].value.opts)|
    requires LastWithLocale(p, LocaleDirs(w, rs[i].value.opts), j, rs[i].value.opts)
    requires forall l :: i < l < |rs| && rs[l].Ok? ==>
               p !in rs[l].value.parts && forall q :: q in rs[l].value.parts ==> '/' !in q
    ensures var opts := rs[i].value.opts;
            var d := LocaleDirs(w, opts)[j];
            var aliases := RevolverFold(w, rs).value.aliases;
            LocaleKey(p, d, opts) in aliases && aliases[LocaleKey(p, d, opts)] == LocaleTarget(w, d, opts)
    decreases |rs|
  {
    var n := |rs| - 1;
    var init := rs[..n];
    FoldStep(w, rs);
    var st0 := RevolverFold(w, init).value;
    var res := rs[n].value;
    var opts := rs[i].value.opts;
    if i == n {
      GroupAliasesLocaleValue(w, st0.aliases, res.parts, res.inputPath, res.opts, p, j);
    } else {
      assert init[i] == rs[i];
      forall l | i < l < |init| && init[l].Ok?
        ensures p !in init[l].value.parts && forall q :: q in init[l].value.parts ==> '/' !in q
      {
        assert init[l] == rs[l];
      }
      FoldLocaleValue(w, init, i, p, j);
      GroupClearOf(res.parts, p, LocaleDirs(w, opts)[j], opts);
      GroupAliasesFrameOther(w, st0.aliases, res.parts, res.inputPath, res.opts, LocaleKey(p, LocaleDirs(w, opts)[j], opts));
    }
  }

  /** Locale alias targets: with locales on, the `member/locale` alias of a
      member of descriptor `i` points at the absolute input path built from
      that descriptor's main path, the directory's locale and
      `aliasDirName`, provided the members of descriptor `i` and of every
      later descriptor are slash-free, no later descriptor names the member
      again and no later directory of the glob repeats the locale. */
  lemma RevolverLocaleTargets(w: World, scope: Scope, i: nat, p: string, j: nat)
    requires RevolverPathsOf(w, scope).Ok? && Descriptors(w, scope).Ok?
    requires var descriptors := Descriptors(w, scope).value;
             && i < |descriptors| && p in SplitOn(descriptors[i], "::")
             && (forall q :: q in SplitOn(descriptors[i], "::") ==> '/' !in q)
             && forall l :: i < l < |descriptors| ==>
                  p !in SplitOn(descriptors[l], "::") && forall q :: q in SplitOn(descriptors[l], "::") ==> '/' !in q
    ensures Settings(w, scope).Ok? && ResolveDescriptor(w, scope, Settings(w, scope).value, Descriptors(w, scope).value[i]).Ok?
    ensures var opts := ResolveDescriptor(w, scope, Settings(w, scope).value, Descriptors(w, scope).value[i]).value.opts;
            var dirs := LocaleDirs(w, opts);
            var aliases := RevolverPathsOf(w, scope).value.aliases;
            (Truthy(Settings(w, scope).value.useLocales) && j < |dirs| && LastWithLocale(p, dirs, j, opts))
            ==> && LocaleKey(p, dirs[j], opts) in aliases
                && aliases[LocaleKey(p, dirs[j], opts)]
                   == PathJoin(w.cwd, ConstructInputPath(opts.mainPath, DirLocale(dirs[j], opts.mainDirIndex), opts.aliasDirName))
  {
    var descriptors := Descriptors(w, scope).value;
    var cfg := Settings(w, scope).value;
    var rs := Resolutions(w, scope, cfg, descriptors);
    assert RevolverFold(w, rs).Ok?;
    FoldEntries(w, rs);
    var opts := rs[i].value.opts;
    var dirs := LocaleDirs(w, opts);
    if Truthy(cfg.useLocales) && j < |dirs| && LastWithLocale(p, dirs, j, opts) {
      forall l | i < l < |rs| && rs[l].Ok?
        ensures p !in rs[l].value.parts && forall q :: q in rs[l].value.parts ==> '/' !in q
      {
        assert rs[l].value.parts == SplitOn(descriptors[l], "::");
      }
      FoldLocaleValue(w, rs, i, p, j);
    }
  }

  /** `"A::B".split('::')` is `["A", "B"]`. */
  lemma SplitGroupOfTwo()
    ensures SplitOn("A::B", "::") == ["A", "B"]
  {
    var s := "A::B";
    assert s[0..2][0] == 'A';
    assert s[0..2] != "::";
    assert s[1..3] == "::";
    assert IndexOfFrom(s, "::", 1) == 1;
    assert IndexOf(s, "::") == 1;
    assert s[..1] == "A" && s[3..] == "B";
    assert IndexOf("B", "::") == -1;
  }

  /** With `revolverPath` set to `A::B`, there is one entry, named `A`, and
      both `A` and `B` are aliases of its path. */
  lemma GroupMembersShareOnePath(w: World, scope: Scope)
    requires Setting(w, "revolverPath", Str(""), scope) == Str("A::B")
    requires RevolverPathsOf(w, scope).Ok?
    ensures var rp := RevolverPathsOf(w, scope).value;
            && |rp.paths| == 1 && rp.paths[0].name == "A" && rp.useRevolver
            && "A" in rp.aliases && "B" in rp.aliases
            && rp.aliases["A"] == rp.paths[0].path && rp.aliases["B"] == rp.paths[0].path
  {
    OneDescriptor(w, scope);
    SplitGroupOfTwo();
    assert Leader("A::B") == "A";
    RevolverEntriesFollowDescriptors(w, scope);
    RevolverGroupAliases(w, scope, 0, "A");
    RevolverGroupAliases(w, scope, 0, "B");
  }

  /** A `revolverPath` without commas or spaces is a single descriptor. */
  lemma OneDescriptor(w: World, scope: Scope)
    requires Setting(w, "revolverPath", Str(""), scope) == Str("A::B")
    ensures Descriptors(w, scope) == Ok(["A::B"])
  {
    SplitListSingle("A::B");
  }
}
