# Storefront build helpers, modelled in Dafny

This project models the configuration and path helpers that a storefront
build uses to decide what to compile (`src/helpers.js`). The build works on
"cartridges": directories named `cartridges/<name>/cartridge/...`. The
helpers turn the build's settings into the following:

- the list of cartridges to build (`getCartridgeBuildList`);
- the entry object of each cartridge's JavaScript build (`getJSPaths`,
  `getMainPaths`, `_getRootFiles`);
- the entry object of each cartridge's SCSS build (`getSCSSPaths`);
- the Sass include paths (`getIncludePaths`);
- the revolver paths and the alias object that let one cartridge resolve
  modules from an ordered chain of cartridges (`getRevolverPaths`,
  `_getAliasPaths`, `_constructInputPath`).

The settings come from command-line flags, `npm_config_env_*` environment
variables and the `npm_package_config_*` variables npm sets from
`package.json` (`getFlagValue`, `getConfigValue`). Path templates contain a
`{cartridge}` slot (`_updatePathKey`, `_getPathData`).

Modules, one file each:

| file | module | models |
|---|---|---|
| `js_strings.dfy` | `JsStrings` | the JavaScript values and string built-ins the helpers use: truthiness, `\|\|`, template literals, `indexOf`, `substring`, `split` by a string and by `/(?:,\| )+/`, global `replace`, `path.basename`, `path.join` |
| `seqs.dfy` | `Seqs` | `FilterMap`, the shape of every `forEach` that pushes some transformed elements, and its order-preserving selection lemma |
| `host.dfy` | `Host` | `World`, everything read from outside (argv, environment, working directory, `fs.existsSync`, `glob.sync`, `glob.hasMagic`, `path.resolve`), and the `Result`/`Error` types |
| `config.dfy` | `Config` | `getFlagValue`, `getConfigValue` and the list settings split on commas and spaces |
| `paths.dfy` | `Paths` | `DEFAULTS`, `_updatePathKey`, `_getPathData`, `_constructInputPath` |
| `cartridges.dfy` | `Cartridges` | `getCartridgeBuildList` |
| `revolver.dfy` | `Revolver` | `getRevolverPaths`, `_getAliasPaths`; the alias object is a class updated in place |
| `entries.dfy` | `Entries` | `getMainPaths`, `_getRootFiles`, `getJSPaths`; `getJSPaths` updates the revolver-paths object in place |
| `styles.dfy` | `Styles` | `getSCSSPaths`, `getIncludePaths` |

Each helper that loops is a `method`. Its loop is proved against a recursive
specification function that is defined from the last element, so that each
iteration extends it. The properties the build relies on are then lemmas
about those functions.

A JavaScript value is `Undefined`, a string or a boolean. A setting given as
`"true"` or `"false"` becomes a boolean. When a helper then calls `.split` or
`.replace` on that boolean, JavaScript throws a `TypeError`. The model
returns `Err(NotAString(<setting>))` instead, and a contract about the
function that reads the setting (`Descriptors`, `Settings`, `GetPathData`, `BuildListErrors`
and the like) states exactly when this happens.

Some behaviours of the code are modelled as written and exhibited by lemmas:

- A flag given as `false` cannot switch a setting off.
- An unset list setting splits into one empty name.
- When the main directory is missing from the input path, `indexOf` returns
  -1 and the main path is just the path's first characters.
- `replace(/.scss/g, '')` removes any character followed by `scss`.

## Model

| member | source | states |
|---|---|---|
| `Config.Coerce` | src/helpers.js:30 | the string "true" becomes `true` and "false" becomes `false`; any other value passes through unchanged; so the result is never one of those two strings, and it is truthy exactly when the input is truthy and not "false" (the same conversion ends `getConfigValue` at line 51) |
| `Config.FlagValue` | src/helpers.js:27-32 | a flag's value is the coerced first truthy one of the parsed argv flag, then `npm_config_env_<flag>`, then the default |
| `Config.FlagValuePrecedence` | src/helpers.js:28-31 | each of the three cases: the argv flag wins when truthy; otherwise the environment variable when truthy; otherwise the default; the result is never "true"/"false" |
| `Config.ConfigValue` | src/helpers.js:41-52 | a setting's value is the coerced first truthy one of the flag, the site-and-scope variable, the site variable, the scope variable, the bare variable, then the default |
| `Config.ConfigValuePrecedence` | src/helpers.js:43-49 | the k-th source decides the setting whenever it is truthy and every source before it is falsy |
| `Config.FlagOverridesEnvironment` | src/helpers.js:44 | a truthy flag beats every environment variable |
| `Config.ConfigValueDefault` | src/helpers.js:49 | with no truthy source, the (coerced) default is returned |
| `Config.FlagFalseFallsThrough` | src/helpers.js:41-52 | a flag given as "false" becomes `false`, which is falsy, so the setting is decided by the remaining sources alone |
| `Config.MissingSiteIsUndefined` | src/helpers.js:42-45 | without a site, the site-specific variables are looked up under the literal site name `undefined` |
| `Config.ListSetting` | src/helpers.js:212 | splitting a list setting succeeds exactly when the setting is a string, and then yields at least one name |
| `Config.UnsetListSetting` | src/helpers.js:212 | an unset list setting yields the single empty name, not an empty list |
| `JsStrings.IndexOf` | src/helpers.js:183 | the result is the first position of the substring, or -1 exactly when it does not occur |
| `JsStrings.SplitOn` | src/helpers.js:180 | splitting on a string yields at least one piece; exactly one, the input itself, when the separator does not occur; otherwise the first piece is the text before the first occurrence |
| `JsStrings.SplitOnLeftmost` | src/helpers.js:180 | every piece but the last is cut at the leftmost occurrence: in the piece followed by the separator, the first occurrence is the one right after the piece |
| `JsStrings.FirstPiece` | src/helpers.js:180 | the first piece holds no separator and is either the whole input or followed in it by the separator |
| `JsStrings.SecondPathPiece` | src/helpers.js:242 | `t.split('/')[1]` exists exactly when `t` has a `/`; it is then slash-free and is the text after the first `/` up to the next `/` or the end |
| `JsStrings.SplitOnPiecesFree` | src/helpers.js:180 | no piece contains the separator |
| `JsStrings.JoinSplitOn` | src/helpers.js:180 | joining the pieces with the separator gives back the input |
| `JsStrings.SplitList` | src/helpers.js:171 | splitting on runs of commas and spaces yields at least one field; no field holds a separator; only the first and last field can be empty; the first is empty exactly when the input is empty or starts with a separator |
| `JsStrings.SplitListRuns` | src/helpers.js:171 | the input is the fields with non-empty runs of commas and spaces between them, in order, so the fields are the text between maximal separator runs |
| `JsStrings.SplitListSingle` | src/helpers.js:171 | a name without commas or spaces splits into itself |
| `JsStrings.ReplaceAllIsSplitJoin` | src/helpers.js:54-58 | a global replace equals splitting on the token and joining with the value |
| `JsStrings.ReplaceAllUntouched` | src/helpers.js:54-58 | a text without the token's first character is left unchanged |
| `JsStrings.ReplaceAllOnce` | src/helpers.js:54-58 | one token between token-free texts is replaced by the value |
| `JsStrings.RemoveDotScssExtension` | src/helpers.js:111 | the pattern strips a trailing `.scss` from a name that does not otherwise contain `scss` |
| `JsStrings.RemoveDotScssDirectory` | src/helpers.js:111 | the pattern's unescaped dot also strips a `/scss` directory: `a/scss/b.scss` becomes `a/b` |
| `JsStrings.SubstringFrom` | src/helpers.js:242 | the result is a suffix of the input: all of it for a start at or below 0, nothing for a start at or past the end, otherwise what follows the first `start` characters |
| `JsStrings.Substring` | src/helpers.js:184 | with ordered in-range indices the result is the slice between them, with reversed ones the slice between them swapped; a negative index counts as 0 and one past the end as the end, in every combination of the two; the result always occurs in the input |
| `JsStrings.LastSegment` | src/helpers.js:114 | a base name is a slash-free suffix of the path, preceded by a slash when it is not the whole path |
| `JsStrings.LastSegmentOfJoin` | src/helpers.js:262 | the last segment of `dir/name` is `name` when `name` is slash-free |
| `JsStrings.Basename` | src/helpers.js:114 | the result is a slash-free prefix of the last segment: empty when the path is the extension itself; the segment less the extension when the extension ends it and is not all of it; the whole segment otherwise |
| `JsStrings.BasenameOfFile` | src/helpers.js:262 | the key of a file `dir/name.js` is `name`, except that a file named just `.js` keeps `.js` |
| `Paths.UpdatePathKey` | src/helpers.js:54-58 | filling a template replaces every `{key}` by the value, with the text between occurrences unchanged; a template without the token is returned unchanged |
| `Paths.FillCartridgeSlot` | src/helpers.js:54-58 | the default templates' `{cartridge}` slot is filled with the cartridge name |
| `Paths.GetPathData` | src/helpers.js:60-70 | path data exists exactly when both path settings are strings; a non-string input path is the error reported first, then a non-string output path; the input and output paths are the two settings with `{cartridge}` filled in; the entry object starts empty |
| `Paths.UnsetSettingIsDefault` | src/helpers.js:41-52 | an unset setting with a string default other than "true"/"false" is that default |
| `Paths.UnconfiguredPathData` | src/helpers.js:60-70 | with both path settings unset, the path data is the defaults with the cartridge filled in |
| `Paths.DefaultJsPathData` | src/helpers.js:10-13 | the default JavaScript input and output paths of a cartridge |
| `Paths.DefaultStylesPathData` | src/helpers.js:14-17 | the default style input glob and output path of a cartridge |
| `Paths.ConstructInputPath` | src/helpers.js:230-232 | the path is the main path, then `/locale` when the locale is truthy, then `/aliasDirName` when that is truthy, each of the four cases stated exactly; it is the bare main path exactly when neither is truthy |
| `Cartridges.Leader` | src/helpers.js:216 | a descriptor's leader is a prefix of the descriptor |
| `Cartridges.LeaderIsGroupHead` | src/helpers.js:216 | the leader contains no `::`, and it is either the whole descriptor or the text before the first `::` |
| `Cartridges.GetCartridgeBuildList` | src/helpers.js:210-225 | the loop returns the build list of the specification, including its two error cases |
| `Cartridges.KeepEnabledLeaders` | src/helpers.js:215-222 | the loop keeps, in order, the leader of each descriptor whose leader is not disabled (the selection of `BuildListSelection`) |
| `Cartridges.KeepLeaderSelection` | src/helpers.js:215-222 | for any descriptor and disable lists, the loop's result holds, in order, the leader of exactly the descriptors whose leader is not disabled |
| `Cartridges.BuildListSelection` | src/helpers.js:215-222 | the build list holds, in descriptor order, the leader of exactly those descriptors whose leader is not disabled; it is no longer than the descriptor list |
| `Cartridges.BuildListErrors` | src/helpers.js:211-212 | the build list fails exactly when the chosen list setting or `buildDisable` is not a string; a truthy `cartridge` that is not a string is reported as `cartridge`, a fallback `revolverPath` that is not a string as `revolverPath` |
| `Cartridges.BuildListFallsBack` | src/helpers.js:211 | an empty `cartridge` setting falls back to `revolverPath` |
| `Cartridges.UnconfiguredBuildListIsEmpty` | src/helpers.js:211-222 | with nothing configured the build list is empty |
| `Revolver.AliasObject.constructor` | src/helpers.js:169 | a new alias object is empty |
| `Revolver.RevolverPaths.constructor` | src/helpers.js:196-200 | the returned object holds the given paths, flag and alias object |
| `Revolver.Descriptors` | src/helpers.js:170-171 | the descriptor list is empty exactly when `revolverPath` is falsy; it is an error, naming `revolverPath`, exactly when that setting is truthy but not a string (a boolean); otherwise it is the setting split on runs of commas and spaces |
| `Revolver.Settings` | src/helpers.js:172-177 | the settings are read exactly when `mainDirName` is a string; `mainDirName`, `useLocales` and `aliasDirName` are the settings with their defaults; the default locale is the `defaultLocale` setting when locales are on and `false` when they are off |
| `Revolver.MainPathShape` | src/helpers.js:183-184 | the main path is the input path up to the first `/<mainDirName>`; when that is absent it is only the first `\|mainDirName\|` characters |
| `Revolver.LocaleKey` | src/helpers.js:245 | a locale alias is the member name followed by a slash |
| `Revolver.DirLocaleShape` | src/helpers.js:242 | a directory's locale is undefined exactly when no `/` follows the main directory offset; otherwise it is the slash-free text after the first such `/`, up to the next one or the end |
| `Revolver.AddAliasPaths` | src/helpers.js:239-250 | the alias object becomes the old one plus one alias per locale directory when locales are on, then the member's own alias |
| `Revolver.AddLocaleAliases` | src/helpers.js:241-246 | the locale loop sets, directory by directory, the `member/locale` alias to the directory's target |
| `Revolver.AddGroupAliases` | src/helpers.js:190 | the alias object gets the aliases of each member of the group in turn |
| `Revolver.ResolveDescriptor` | src/helpers.js:180-187 | a descriptor resolves exactly when its leader's path data does, failing with the same error; its members are its `::` pieces, its name is its leader; its options carry the main path and offset of the leader's input path; its input path is built from the main path, default locale and alias directory when the leader's input path is a glob pattern, and is that input path otherwise |
| `Revolver.Resolutions` | src/helpers.js:179 | one resolution per descriptor, in order |
| `Revolver.VisitDescriptor` | src/helpers.js:179-194 | one loop iteration pushes the descriptor's entry and adds its group's aliases, or reports its path data error |
| `Revolver.RevolverLoop` | src/helpers.js:179-194 | the loop leaves the revolver array and the alias object of the specification, or its first error |
| `Revolver.GetRevolverPaths` | src/helpers.js:165-201 | the returned object, made fresh, holds exactly the revolver paths, flag and aliases of the specification; errors are those of the specification |
| `Revolver.FoldKeepsError` | src/helpers.js:179-194 | a failure part-way through the descriptors is the failure of the whole |
| `Revolver.FoldEntries` | src/helpers.js:193 | one entry per descriptor, each named after its resolution and pointing at its input path |
| `Revolver.RevolverEntriesFollowDescriptors` | src/helpers.js:179-200 | one entry per descriptor, named by its leader; `useRevolver` is true exactly when the list is non-empty, exactly when `revolverPath` is truthy |
| `Revolver.RevolverEntryPath` | src/helpers.js:180-193 | the i-th entry is named after the leader of the i-th descriptor and points, under the working directory, at the leader's input path, or at the path built from its main path, default locale and alias directory when that input path is a glob pattern |
| `Revolver.EmptyRevolverPath` | src/helpers.js:170-171 | a falsy `revolverPath` gives no entries, `useRevolver` false and no aliases |
| `Revolver.AliasPathsFrame` | src/helpers.js:239-250 | a member's alias points at the group's input path, and other slash-free aliases are untouched |
| `Revolver.GroupAliasesMember` | src/helpers.js:190 | every slash-free member of a group is an alias of the group's input path |
| `Revolver.RevolverGroupAliases` | src/helpers.js:189-193 | a group member that no later group redefines aliases the same path as its group's revolver entry |
| `Revolver.AliasPathsKeys` | src/helpers.js:240-249 | aliases are only added; with locales on, every locale directory gives a `member/locale` alias |
| `Revolver.GroupAliasesKeys` | src/helpers.js:190 | the same, for every member of a group |
| `Revolver.FoldKeysGrow` | src/helpers.js:179-194 | later descriptors never remove aliases |
| `Revolver.RevolverLocaleAliases` | src/helpers.js:240-246 | with locales on, every member of every group has an alias per locale directory in the result |
| `Revolver.SlashFreeNamesDistinct` | src/helpers.js:245-249 | a slash-free name is never a `p/...` alias, and `q/` starts `p/...` only when `q` is `p` |
| `Revolver.AssignLastWins` | src/helpers.js:245 | of successive assignments to the alias object, the last one to a key decides its value |
| `Revolver.LocaleAliasesAssign` | src/helpers.js:241-246 | the locale loop is the series of assignments of each directory's locale alias to its target, in glob order |
| `Revolver.LocaleAliasesValue` | src/helpers.js:241-246 | the `member/locale` alias of a directory that no later directory repeats points at that directory's target |
| `Revolver.LocaleAliasesFrameOther` | src/helpers.js:241-246 | the locale loop of a member leaves every key outside `member/` alone |
| `Revolver.AliasPathsLocaleValue` | src/helpers.js:239-250 | with locales on, `_getAliasPaths` leaves each `member/locale` alias at its directory's target |
| `Revolver.AliasPathsFrameOther` | src/helpers.js:239-250 | `_getAliasPaths` for a member leaves every key other than the member and its `member/...` aliases alone |
| `Revolver.GroupAliasesSetBy` | src/helpers.js:190 | a key that one member always sets, and that every other member is clear of, keeps that member's value after the whole group |
| `Revolver.GroupAliasesLocaleValue` | src/helpers.js:190 | in a group of slash-free members, each member's locale alias points at its directory's target |
| `Revolver.GroupAliasesFrameOther` | src/helpers.js:190 | a group whose members are all clear of a key leaves it alone |
| `Revolver.FoldLocaleValue` | src/helpers.js:179-194 | a locale alias set by group i keeps its target when every later group is slash-free and does not name the member |
| `Revolver.RevolverLocaleTargets` | src/helpers.js:240-246 | with locales on, the `member/locale` alias of a member of descriptor i points at the cwd-joined path built from that descriptor's main path, the directory's locale and `aliasDirName`, when the members are slash-free, no later descriptor names the member and no later directory repeats the locale |
| `Revolver.GroupMembersShareOnePath` | src/helpers.js:180-193 | `revolverPath` `A::B` gives one entry named A, and both A and B alias that entry's path |
| `Entries.GetMainPaths` | src/helpers.js:129-141 | the loop returns the main paths of the specification |
| `Entries.MainPathsSelection` | src/helpers.js:132-138 | the main paths are, in candidate order, the absolute paths of exactly those candidates that exist |
| `Entries.MainPathsOfIndexOnly` | src/helpers.js:129-141 | of the candidates `main.js` and `index.js`, only the existing `index.js` is kept |
| `Entries.KeyedEntriesExtend` | src/helpers.js:262 | each file adds or overwrites its key's entry |
| `Entries.KeyedEntriesContents` | src/helpers.js:262 | every file's key is an entry, and every entry is the absolute path of some file with that key |
| `Entries.KeyedEntriesLastWins` | src/helpers.js:262 | when two files share a key, the later file's path is kept |
| `Entries.GetRootFiles` | src/helpers.js:258-265 | the loop returns the root-file entries of the specification |
| `Entries.RootFilesContents` | src/helpers.js:258-265 | the root-file entries are keyed by base name without `.js`, and each points at a root file with that base name |
| `Entries.GetJSPaths` | src/helpers.js:77-98 | returns the path data of the specification; sets `useRevolver` as the specification does; leaves the revolver paths and the aliases unchanged |
| `Entries.FinishJsPaths` | src/helpers.js:79-97 | once the path data is known, returns it with the entry object of the specification, or the `revolverDisable` failure; switches `useRevolver` off exactly when the cartridge is on that list; leaves the revolver paths and the aliases unchanged |
| `Entries.FillJsEntryObject` | src/helpers.js:84-89 | the entry object is the root files (or empty) with the main entry added exactly when there are main paths |
| `Entries.UseRevolverOnlySwitchesOff` | src/helpers.js:93-95 | `useRevolver` only goes from true to false, and does so exactly when the cartridge is on `revolverDisable` |
| `Entries.MainPathsNonEmpty` | src/helpers.js:129-141 | there are main paths exactly when some candidate exists |
| `Entries.JsMainEntry` | src/helpers.js:84-89 | the main entry is added only when there are main paths; otherwise the entry object is the root files alone |
| `Styles.StyleMainDirIndexShape` | src/helpers.js:104 | the offset points just past `/<mainDirName>/`, or is the constant `\|mainDirName\|+1` when that is absent |
| `Styles.LocaleSplitsTarget` | src/helpers.js:112-114 | the locale is the first path segment and the kept location is what follows its slash |
| `Styles.StyleEntryKeyShape` | src/helpers.js:111-116 | a style entry key is `<locale>/css/<name>` or `css/<name>`, with a slash-free locale |
| `Styles.StylesLayout` | src/helpers.js:102-106 | the layout is read exactly when `mainDirName` is a string, and is otherwise the `mainDirName` error; its offset is the one computed from the input pattern and `mainDirName`; `keepOriginalLocation` and `useLocales` are the truthiness of their settings, with defaults `false` and `true` |
| `Styles.StyleFiles` | src/helpers.js:110 | the style files are exactly the glob's matches that are not partials |
| `Styles.FillStyleEntries` | src/helpers.js:110-119 | the loop returns the style entries of the specification |
| `Styles.GetSCSSPaths` | src/helpers.js:100-122 | returns the style path data of the specification, including its error cases |
| `Styles.SCSSPathsExcludePartials` | src/helpers.js:108-119 | every style entry comes from a non-partial file, and every non-partial file has its entry |
| `Styles.GetIncludePaths` | src/helpers.js:146-159 | the loop returns the include paths of the specification |
| `Styles.AddIncludePathsContents` | src/helpers.js:150-156 | the starting paths are kept; every non-empty custom path is added once resolved; nothing else is added; no added path repeats an earlier one |
| `Styles.IncludePathsContents` | src/helpers.js:146-159 | the include paths start with the resolved `cartridges` and `node_modules`, then the distinct resolved custom paths |

## Left out

- `logFile`, `ensureDirs`, `writeFile` and `cleanDirs` (src/helpers.js:268-327) are left out. They only do console and file-system I/O.
- minimist, `fs.existsSync`, `glob.sync`, `glob.hasMagic` and `path.resolve` are left out. They are fields of `World` with no semantics. `path.join` is plain concatenation with a slash, without normalisation. minimist's number parsing is not modelled: every flag is a string or a boolean.
- `process.argv`, `process.env` and `process.cwd()` are parameters (`World`), not globals.
- The glob `ignore: '**/_*.scss'` option is the `IsPartial` filter on the file's last segment.
- `Paths.UpdatePathKey`: the key is treated as literal text, and `$` patterns in the value are not expanded. The source builds a regular expression from the key, so a key with regex metacharacters, or a value containing `$&`, behaves differently there.
- `Revolver.Settings` and `Styles.StylesLayout` do not model NaN arithmetic. A boolean `mainDirName` makes the source compute offsets from `NaN`; the model reports `Err(NotAString("mainDirName"))` instead. In `getRevolverPaths` this only applies once there is a descriptor.
- `Cartridges.GetCartridgeBuildList`, `Revolver.GetRevolverPaths` and `Paths.GetPathData` take one of the two scopes the build uses, `js` and `styles` (`Scope`), while the source accepts any scope string. With another scope `getCartridgeBuildList` simply reads its settings under that name, and `_getPathData` (called by `getRevolverPaths` for every descriptor) throws a `TypeError` because `DEFAULTS[scope]` is undefined (src/helpers.js:62). `Config.ConfigValue` itself takes any scope string.
- The doc comment of `getFlagValue` (src/helpers.js:23) speaks of `--env.<name>` flags, which minimist parses into a nested `env` object. The code reads the top-level parsed flag `<name>` and the variable `npm_config_env_<name>`, and this model follows the code.
- The `;` ending the `revolverArray` declaration makes `aliasObject` and the settings after it implicit globals (src/helpers.js:166). The model treats them as locals of one call, so sharing between calls is not modelled.
- `revolverBase` is read by `getJSPaths` and never used. The model reads it too and discards it.
- `JsStrings.IndexOf`, `JsStrings.Substring` and `JsStrings.SubstringFrom` count a string's length and offsets in characters (Unicode scalar values), while JavaScript's `indexOf`, `.length` and `substring` count UTF-16 code units (src/helpers.js:104, 111-114, 183-184, 242). The two agree when an offset is applied to the string it was computed in and that string has no character outside the Basic Multilingual Plane (an emoji, say). They can differ otherwise: `getSCSSPaths` and `_getAliasPaths` compute the offset on the glob pattern (src/helpers.js:104, 183) and apply it to each match (:111, :242), so a wildcard before the main directory that matches such a character shifts the cut in the source but not in the model, and the fallback offsets `mainDirName.length + 1` and `mainDirName.length` cut such a string at a different place too.
- `JsStrings.RemoveDotScss`: the `.` of `/.scss/g` (src/helpers.js:111) has no `u` flag, so in the source it consumes one UTF-16 code unit; before `scss` a character outside the Basic Multilingual Plane loses only its low surrogate there, while the model removes the whole character.
- `_getRootFiles` is only called with its default `fileType` of `js`, so only that case is modelled.
- `Revolver.RevolverGroupAliases` and `Revolver.RevolverLocaleTargets` cover only slash-free members that no later group redefines (and, for locale aliases, a locale no later directory repeats). A member containing `/` can collide with another member's `member/locale` key, and a later group or directory overwrites an alias. Both are possible in the source but not characterised.
