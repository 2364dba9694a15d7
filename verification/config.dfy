/** Configuration resolution: `getFlagValue` and `getConfigValue`. A setting is
    looked up in a fixed order of sources; the first truthy one wins, and the
    strings "true" and "false" are turned into booleans. */
module Config {
  import opened JsStrings
  import opened Host

  /** The two asset domains; any other scope makes `DEFAULTS[scope]` undefined. */
  datatype Scope = Js | Styles {
    function Name(): string {
      match this
      case Js => "js"
      case Styles => "styles"
    }
  }

  function ArgValue(w: World, name: string): Value {
    if name in w.argv then w.argv[name] else Undefined
  }

  function EnvValue(w: World, key: string): Value {
    if key in w.env then Str(w.env[key]) else Undefined
  }

  /** `v === 'true' ? true : (v === 'false' ? false : v)` */
  function Coerce(v: Value): (r: Value)
    ensures v == Str("true") ==> r == Bool(true)
    ensures v == Str("false") ==> r == Bool(false)
    ensures r != Str("true") && r != Str("false")
    ensures Truthy(r) <==> Truthy(v) && v != Str("false")
    ensures v != Str("true") && v != Str("false") ==> r == v
  {
    if v == Str("true") then Bool(true)
    else if v == Str("false") then Bool(false)
    else v
  }

  /** The value of the first source that is truthy, or the default: the
      ordered list of providers a `||` chain stands for. */
  function FirstTruthy(sources: seq<Value>, default: Value): Value {
    if sources == [] then default
    else if Truthy(sources[0]) then sources[0]
    else FirstTruthy(sources[1..], default)
  }

  lemma {:induction false} FirstTruthyPicks(sources: seq<Value>, default: Value, k: nat)
    requires k < |sources| && Truthy(sources[k])
    requires forall j :: 0 <= j < k ==> !Truthy(sources[j])
    ensures FirstTruthy(sources, default) == sources[k]
  {
    if k > 0 {
      FirstTruthyPicks(sources[1..], default, k - 1);
    }
  }

  lemma {:induction false} FirstTruthyNone(sources: seq<Value>, default: Value)
    requires forall j :: 0 <= j < |sources| ==> !Truthy(sources[j])
    ensures FirstTruthy(sources, default) == default
  {
    if sources != [] {
      FirstTruthyNone(sources[1..], default);
    }
  }

  /** A two-source `||` chain picks the first truthy source. */
  lemma FirstTruthyOfTwo(a: Value, b: Value, default: Value)
    ensures FirstTruthy([a, b], default) == Or(Or(a, b), default)
  {
    assert [a, b][1..] == [b];
    assert [b][1..] == [];
    assert FirstTruthy([b], default) == Or(b, default);
  }

  /** A five-source `||` chain picks the first truthy source. */
  lemma FirstTruthyOfFive(s: seq<Value>, default: Value)
    requires |s| == 5
    ensures FirstTruthy(s, default) == Or(Or(Or(Or(Or(s[0], s[1]), s[2]), s[3]), s[4]), default)
  {
    assert s[1..][0] == s[1] && s[1..][1..] == s[2..];
    assert s[2..][0] == s[2] && s[2..][1..] == s[3..];
    assert s[3..][0] == s[3] && s[3..][1..] == s[4..];
    assert s[4..][0] == s[4] && s[4..][1..] == [];
    assert FirstTruthy(s[4..], default) == Or(s[4], default);
    assert FirstTruthy(s[3..], default) == Or(s[3], Or(s[4], default));
    assert FirstTruthy(s[2..], default) == Or(s[2], Or(s[3], Or(s[4], default)));
  }

  /** The sources of `getFlagValue`, highest priority first. */
  function FlagSources(w: World, flagName: string): seq<Value> {
    [ArgValue(w, flagName), EnvValue(w, "npm_config_env_" + flagName)]
  }

  /** `getFlagValue(flagName, defaultValue)` */
  function FlagValue(w: World, flagName: string, default: Value): (r: Value)
    ensures r == Coerce(FirstTruthy(FlagSources(w, flagName), default))
  {
    FirstTruthyOfTwo(ArgValue(w, flagName), EnvValue(w, "npm_config_env_" + flagName), default);
    Coerce(Or(Or(ArgValue(w, flagName), EnvValue(w, "npm_config_env_" + flagName)), default))
  }

  /** `CURRENT_SITE_NAME`, the `--site` flag (undefined when absent). */
  function CurrentSiteName(w: World): Value {
    FlagValue(w, "site", Undefined)
  }

  /** The sources of `getConfigValue`, highest priority first. A missing site
      name is rendered by the template literal as the word `undefined`. */
  function ConfigSources(w: World, name: string, scope: string, siteName: Value): seq<Value> {
    var site := ToJs(Or(siteName, CurrentSiteName(w)));
    [ FlagValue(w, name, Undefined),
      EnvValue(w, "npm_package_config_sites_" + site + "_" + scope + "_" + name),
      EnvValue(w, "npm_package_config_sites_" + site + "_" + name),
      EnvValue(w, "npm_package_config_" + scope + "_" + name),
      EnvValue(w, "npm_package_config_" + name) ]
  }

  /** `getConfigValue(name, defaultValue, scope, siteName)` */
  function ConfigValue(w: World, name: string, default: Value, scope: string, siteName: Value): (r: Value)
    ensures r == Coerce(FirstTruthy(ConfigSources(w, name, scope, siteName), default))
  {
    var site := ToJs(Or(siteName, CurrentSiteName(w)));
    FirstTruthyOfFive(ConfigSources(w, name, scope, siteName), default);
    Coerce(
      Or(Or(Or(Or(Or(
        FlagValue(w, name, Undefined),
        EnvValue(w, "npm_package_config_sites_" + site + "_" + scope + "_" + name)),
        EnvValue(w, "npm_package_config_sites_" + site + "_" + name)),
        EnvValue(w, "npm_package_config_" + scope + "_" + name)),
        EnvValue(w, "npm_package_config_" + name)),
        default))
  }

  /** `getConfigValue(name, defaultValue, scope)` as the helpers call it,
      without a site name. */
  function Setting(w: World, name: string, default: Value, scope: Scope): Value {
    ConfigValue(w, name, default, scope.Name(), Undefined)
  }

  /** `getConfigValue(name, '', scope).split(/(?:,| )+/)`: a list setting. A
      boolean value has no `split` method and throws. */
  function ListSetting(w: World, name: string, scope: Scope): (r: Result<seq<string>>)
    ensures r.Ok? <==> Setting(w, name, Str(""), scope).Str?
    ensures r.Ok? ==> |r.value| >= 1
  {
    var v := Setting(w, name, Str(""), scope);
    if v.Str? then Ok(SplitList(v.s)) else Err(NotAString(name))
  }

  /** An unset list setting is the empty string, which splits into one empty
      name rather than into no names. */
  lemma UnsetListSetting(w: World, name: string, scope: Scope)
    requires Unset(w, name, scope)
    ensures ListSetting(w, name, scope) == Ok([""])
  {
    ConfigValueDefault(w, name, Str(""), scope.Name(), Undefined);
  }

  /** No source of `getConfigValue` supplies a truthy value for `name`. */
  predicate Unset(w: World, name: string, scope: Scope) {
    forall j :: 0 <= j < 5 ==> !Truthy(ConfigSources(w, name, scope.Name(), Undefined)[j])
  }

  /** The flag value of `getFlagValue` comes first, then its environment
      variable, then the default; the result is never "true" or "false". */
  lemma {:induction false} FlagValuePrecedence(w: World, flagName: string, default: Value)
    ensures Truthy(ArgValue(w, flagName)) ==> FlagValue(w, flagName, default) == Coerce(ArgValue(w, flagName))
    ensures !Truthy(ArgValue(w, flagName)) && Truthy(EnvValue(w, "npm_config_env_" + flagName)) ==>
      FlagValue(w, flagName, default) == Coerce(EnvValue(w, "npm_config_env_" + flagName))
    ensures !Truthy(ArgValue(w, flagName)) && !Truthy(EnvValue(w, "npm_config_env_" + flagName)) ==>
      FlagValue(w, flagName, default) == Coerce(default)
    ensures FlagValue(w, flagName, default) != Str("true") && FlagValue(w, flagName, default) != Str("false")
  {
    var sources := FlagSources(w, flagName);
    if Truthy(sources[0]) {
      FirstTruthyPicks(sources, default, 0);
    } else if Truthy(sources[1]) {
      FirstTruthyPicks(sources, default, 1);
    } else {
      FirstTruthyNone(sources, default);
    }
  }

  /** When the k-th source of `getConfigValue` is truthy and every source
      before it is not, that source decides the value. */
  lemma {:induction false} ConfigValuePrecedence(w: World, name: string, default: Value, scope: string, siteName: Value, k: nat)
    requires k < 5
    requires Truthy(ConfigSources(w, name, scope, siteName)[k])
    requires forall j :: 0 <= j < k ==> !Truthy(ConfigSources(w, name, scope, siteName)[j])
    ensures ConfigValue(w, name, default, scope, siteName) == Coerce(ConfigSources(w, name, scope, siteName)[k])
  {
    FirstTruthyPicks(ConfigSources(w, name, scope, siteName), default, k);
  }

  /** A truthy flag beats every environment variable: the flag's own
      (already coerced) value is returned. */
  lemma FlagOverridesEnvironment(w: World, name: string, default: Value, scope: string, siteName: Value)
    requires Truthy(FlagValue(w, name, Undefined))
    ensures ConfigValue(w, name, default, scope, siteName) == FlagValue(w, name, Undefined)
  {
    ConfigValuePrecedence(w, name, default, scope, siteName, 0);
  }

  /** With no flag and no environment variable, the default is returned
      (coerced): `getConfigValue('x', 'd')` is `'d'`. */
  lemma ConfigValueDefault(w: World, name: string, default: Value, scope: string, siteName: Value)
    requires forall j :: 0 <= j < 5 ==> !Truthy(ConfigSources(w, name, scope, siteName)[j])
    ensures ConfigValue(w, name, default, scope, siteName) == Coerce(default)
    ensures default == Str("d") ==> ConfigValue(w, name, default, scope, siteName) == Str("d")
  {
    FirstTruthyNone(ConfigSources(w, name, scope, siteName), default);
  }

  /** A flag given as the string "false" is coerced to `false` by
      `getFlagValue`, which is falsy, so `getConfigValue` ignores it and
      falls through to the environment and the default: a flag cannot switch
      a setting off. */
  lemma FlagFalseFallsThrough(w: World, name: string, default: Value, scope: string, siteName: Value)
    requires ArgValue(w, name) == Str("false")
    ensures FlagValue(w, name, Undefined) == Bool(false)
    ensures ConfigValue(w, name, default, scope, siteName)
         == Coerce(FirstTruthy(ConfigSources(w, name, scope, siteName)[1..], default))
  {
    FlagValuePrecedence(w, name, Undefined);
    assert !Truthy(ConfigSources(w, name, scope, siteName)[0]);
  }

  /** Without `--site` and without a site argument, the site-specific
      environment variables are looked up under the site name `undefined`. */
  lemma MissingSiteIsUndefined(w: World, name: string, scope: string)
    requires !Truthy(ArgValue(w, "site")) && !Truthy(EnvValue(w, "npm_config_env_site"))
    ensures ConfigSources(w, name, scope, Undefined)[1]
         == EnvValue(w, "npm_package_config_sites_undefined_" + scope + "_" + name)
  {
    assert "npm_config_env_" + "site" == "npm_config_env_site";
    FlagValuePrecedence(w, "site", Undefined);
    assert ToJs(Or(Undefined, CurrentSiteName(w))) == "undefined";
    assert "npm_package_config_sites_" + "undefined" + "_" == "npm_package_config_sites_undefined_";
  }
}
