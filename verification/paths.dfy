/** Path templating: `_updatePathKey`, `_getPathData` and
    `_constructInputPath`, over the built-in defaults of `DEFAULTS`. */
module Paths {
  import opened JsStrings
  import opened Host
  import opened Config

  /** `DEFAULTS.mainDirName`: the directory that holds the locale directories. */
  const MainDirNameDefault := "client"
  /** `DEFAULTS.locale` */
  const LocaleDefault := "default"

  /** The head every default template starts with. */
  const CartridgeSlot := "cartridges/{cartridge}"

  /** `DEFAULTS[scope].inputPath` */
  function DefaultInputPath(scope: Scope): string {
    match scope
    case Js => CartridgeSlot + "/cartridge/js"
    case Styles => CartridgeSlot + "/cartridge/scss/**/*.scss"
  }

  /** `DEFAULTS[scope].outputPath` */
  function DefaultOutputPath(scope: Scope): string {
    match scope
    case Js => CartridgeSlot + "/cartridge/static/default/js"
    case Styles => CartridgeSlot + "/cartridge/static"
  }

  /** A value of an entry object: one file, or the array of main files. */
  datatype Entry = Single(path: string) | Many(paths: seq<string>)

  /** The record `_getPathData` starts and the path builders complete. */
  datatype PathData = PathData(inputPath: string, outputPath: string, entryObject: map<string, Entry>)

  /** `_updatePathKey(path, key, value)`: every `{key}` in the template is
      replaced by the value. */
  function UpdatePathKey(path: string, key: string, value: string): (r: string)
    ensures r == Join(SplitOn(path, "{" + key + "}"), value)
    ensures IndexOf(path, "{" + key + "}") < 0 ==> r == path
  {
    ReplaceAllIsSplitJoin(path, "{" + key + "}", value);
    ReplaceAll(path, "{" + key + "}", value)
  }

  /** `_getPathData(currentCartridge, scope)`: the configured input and output
      templates with the cartridge name filled in. A boolean setting has no
      `replace` method and throws. */
  function GetPathData(w: World, cartridge: string, scope: Scope): (r: Result<PathData>)
    ensures r.Ok? <==> (Setting(w, "inputPath", Str(DefaultInputPath(scope)), scope).Str?
                        && Setting(w, "outputPath", Str(DefaultOutputPath(scope)), scope).Str?)
    ensures !Setting(w, "inputPath", Str(DefaultInputPath(scope)), scope).Str? ==> r == Err(NotAString("inputPath"))
    ensures (Setting(w, "inputPath", Str(DefaultInputPath(scope)), scope).Str?
             && !Setting(w, "outputPath", Str(DefaultOutputPath(scope)), scope).Str?) ==> r == Err(NotAString("outputPath"))
    ensures r.Ok? ==> r.value.inputPath == UpdatePathKey(Setting(w, "inputPath", Str(DefaultInputPath(scope)), scope).s, "cartridge", cartridge)
    ensures r.Ok? ==> r.value.outputPath == UpdatePathKey(Setting(w, "outputPath", Str(DefaultOutputPath(scope)), scope).s, "cartridge", cartridge)
    ensures r.Ok? ==> r.value.entryObject == map[]
  {
    var input := Setting(w, "inputPath", Str(DefaultInputPath(scope)), scope);
    var output := Setting(w, "outputPath", Str(DefaultOutputPath(scope)), scope);
    if !input.Str? then Err(NotAString("inputPath"))
    else if !output.Str? then Err(NotAString("outputPath"))
    else Ok(PathData(UpdatePathKey(input.s, "cartridge", cartridge),
                     UpdatePathKey(output.s, "cartridge", cartridge),
                     map[]))
  }

  /** A setting nobody configured resolves to its string default. */
  lemma UnsetSettingIsDefault(w: World, name: string, default: string, scope: Scope)
    requires Unset(w, name, scope) && default != "true" && default != "false"
    ensures Setting(w, name, Str(default), scope) == Str(default)
  {
    ConfigValueDefault(w, name, Str(default), scope.Name(), Undefined);
  }

  /** The `{cartridge}` slot right after `cartridges/` takes the cartridge name. */
  lemma FillCartridgeSlot(tail: string, cartridge: string)
    requires '{' !in tail
    ensures UpdatePathKey(CartridgeSlot + tail, "cartridge", cartridge)
            == "cartridges/" + cartridge + tail
  {
    var token := "{" + "cartridge" + "}";
    assert token == "{cartridge}";
    var head := "cartridges/";
    assert '{' !in head;
    assert CartridgeSlot + tail == head + token + tail;
    ReplaceAllOnce(head, token, tail, cartridge);
  }

  /** The default templates with the cartridge name filled in. */
  function DefaultPathData(cartridge: string, scope: Scope): PathData {
    PathData(UpdatePathKey(DefaultInputPath(scope), "cartridge", cartridge),
             UpdatePathKey(DefaultOutputPath(scope), "cartridge", cartridge),
             map[])
  }

  /** With neither path configured, the cartridge name lands in the
      `{cartridge}` slot of each default template. */
  lemma UnconfiguredPathData(w: World, cartridge: string, scope: Scope)
    requires Unset(w, "inputPath", scope) && Unset(w, "outputPath", scope)
    ensures GetPathData(w, cartridge, scope) == Ok(DefaultPathData(cartridge, scope))
  {
    UnsetSettingIsDefault(w, "inputPath", DefaultInputPath(scope), scope);
    UnsetSettingIsDefault(w, "outputPath", DefaultOutputPath(scope), scope);
  }

  /** The JavaScript defaults place the cartridge name right after `cartridges/`. */
  lemma DefaultJsPathData(cartridge: string)
    ensures DefaultPathData(cartridge, Js).inputPath == "cartridges/" + cartridge + "/cartridge/js"
    ensures DefaultPathData(cartridge, Js).outputPath == "cartridges/" + cartridge + "/cartridge/static/default/js"
  {
    FillCartridgeSlot("/cartridge/js", cartridge);
    FillCartridgeSlot("/cartridge/static/default/js", cartridge);
  }

  /** The style defaults place the cartridge name right after `cartridges/`. */
  lemma DefaultStylesPathData(cartridge: string)
    ensures DefaultPathData(cartridge, Styles).inputPath == "cartridges/" + cartridge + "/cartridge/scss/**/*.scss"
    ensures DefaultPathData(cartridge, Styles).outputPath == "cartridges/" + cartridge + "/cartridge/static"
  {
    FillCartridgeSlot("/cartridge/scss/**/*.scss", cartridge);
    FillCartridgeSlot("/cartridge/static", cartridge);
  }

  /** `_constructInputPath(mainPath, currentLocale, aliasDirName)`: the main
      path, then `/locale` when a locale is given, then `/aliasDirName` when an
      alias directory is given. */
  function ConstructInputPath(mainPath: string, locale: Value, aliasDirName: Value): (r: string)
    ensures IsPrefix(mainPath, r)
    ensures !Truthy(locale) && !Truthy(aliasDirName) <==> r == mainPath
    ensures Truthy(locale) ==> IsPrefix(mainPath + "/" + ToJs(locale), r)
    ensures Truthy(aliasDirName) ==> IsSuffix("/" + ToJs(aliasDirName), r)
    ensures !Truthy(aliasDirName) && Truthy(locale) ==> r == mainPath + "/" + ToJs(locale)
    ensures !Truthy(locale) && Truthy(aliasDirName) ==> r == mainPath + "/" + ToJs(aliasDirName)
    ensures Truthy(locale) && Truthy(aliasDirName) ==> r == mainPath + "/" + ToJs(locale) + "/" + ToJs(aliasDirName)
  {
    mainPath
      + (if Truthy(locale) then "/" + ToJs(locale) else "")
      + (if Truthy(aliasDirName) then "/" + ToJs(aliasDirName) else "")
  }
}
