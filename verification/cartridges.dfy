/** The cartridge build list: `getCartridgeBuildList`. A descriptor such as
    `app::site` names an alias group; only its first name, the group leader,
    is built. */
module Cartridges {
  import opened JsStrings
  import opened Host
  import opened Config
  import opened Seqs

  /** `descriptor.split('::')[0]`: the leader of an alias group. */
  function Leader(descriptor: string): (name: string)
    ensures IsPrefix(name, descriptor)
  {
    SplitOn(descriptor, "::")[0]
  }

  /** The leader is the whole descriptor, or the part before its first `::`. */
  lemma LeaderIsGroupHead(descriptor: string)
    ensures var name := Leader(descriptor);
            && !Contains(name, "::")
            && (name == descriptor || IsPrefix(name + "::", descriptor))
  {
    var i := IndexOf(descriptor, "::");
    SplitOnPiecesFree(descriptor, "::");
    if i >= 0 {
      assert SplitOn(descriptor, "::")[0] == descriptor[..i];
      assert descriptor[..i] + "::" == descriptor[..i + 2];
    }
  }

  /** The descriptor list: `cartridge`, or `revolverPath` when that is empty. */
  function BuildSource(w: World, scope: Scope): Value {
    Or(Setting(w, "cartridge", Str(""), scope), Setting(w, "revolverPath", Str(""), scope))
  }

  /** Keeps a descriptor's leader unless it is on the disable list. */
  function KeepLeader(disabled: seq<string>): string -> Option<string> {
    descriptor => if Leader(descriptor) in disabled then None else Some(Leader(descriptor))
  }

  /** The setting the descriptor list came from: `cartridge` when it is
      truthy, otherwise `revolverPath`. */
  function BuildSourceName(w: World, scope: Scope): string {
    if Truthy(Setting(w, "cartridge", Str(""), scope)) then "cartridge" else "revolverPath"
  }

  /** What `getCartridgeBuildList(scope)` returns. */
  function CartridgeBuildList(w: World, scope: Scope): Result<seq<string>> {
    var source := BuildSource(w, scope);
    if !source.Str? then Err(NotAString(BuildSourceName(w, scope)))
    else
      match ListSetting(w, "buildDisable", scope)
      case Err(e) => Err(e)
      case Ok(disabled) => Ok(FilterMap(SplitList(source.s), KeepLeader(disabled)))
  }

  /** `getCartridgeBuildList(scope)` */
  method GetCartridgeBuildList(w: World, scope: Scope) returns (r: Result<seq<string>>)
    ensures r == CartridgeBuildList(w, scope)
  {
    var source := BuildSource(w, scope);
    if !source.Str? {
      return Err(NotAString(BuildSourceName(w, scope)));
    }
    var originalCartridgeList := SplitList(source.s);
    var buildDisable := ListSetting(w, "buildDisable", scope);
    if buildDisable.Err? {
      return Err(buildDisable.error);
    }
    var resultCartridgeList := KeepEnabledLeaders(originalCartridgeList, buildDisable.value);
    return Ok(resultCartridgeList);
  }

  /** The `forEach` loop of `getCartridgeBuildList`. */
  method KeepEnabledLeaders(originalCartridgeList: seq<string>, buildDisableList: seq<string>) returns (resultCartridgeList: seq<string>)
    ensures resultCartridgeList == FilterMap(originalCartridgeList, KeepLeader(buildDisableList))
  {
    resultCartridgeList := [];
    var i := 0;
    while i < |originalCartridgeList|
      invariant i <= |originalCartridgeList|
      invariant resultCartridgeList == FilterMap(originalCartridgeList[..i], KeepLeader(buildDisableList))
    {
      var cartridgeParts := SplitOn(originalCartridgeList[i], "::");
      if cartridgeParts[0] !in buildDisableList {
        resultCartridgeList := resultCartridgeList + [cartridgeParts[0]];
      }
      assert originalCartridgeList[..i + 1][..i] == originalCartridgeList[..i];
      i := i + 1;
    }
    assert originalCartridgeList[..i] == originalCartridgeList;
  }

  /** Keeping enabled leaders selects, in order, the leader of exactly the
      descriptors whose leader is not disabled. */
  lemma KeepLeaderSelection(descriptors: seq<string>, disabled: seq<string>) returns (idx: seq<nat>)
    ensures var names := FilterMap(descriptors, KeepLeader(disabled));
            && |idx| == |names| <= |descriptors|
            && Increasing(idx)
            && (forall k :: 0 <= k < |idx| ==>
                  idx[k] < |descriptors| && names[k] == Leader(descriptors[idx[k]]) && names[k] !in disabled)
            && (forall i :: 0 <= i < |descriptors| && Leader(descriptors[i]) !in disabled ==> i in idx)
  {
    var f := KeepLeader(disabled);
    idx := FilterMapSelectsInOrder(descriptors, f);
    var names := FilterMap(descriptors, f);
    forall k | 0 <= k < |idx|
      ensures idx[k] < |descriptors| && names[k] == Leader(descriptors[idx[k]]) && names[k] !in disabled
    {
      assert f(descriptors[idx[k]]) == Some(names[k]);
    }
    forall i | 0 <= i < |descriptors| && Leader(descriptors[i]) !in disabled ensures i in idx {
      assert f(descriptors[i]).Some?;
    }
  }

  /** The build list holds, in descriptor order, the leader of every
      descriptor whose leader is not disabled, and nothing else; it is never
      longer than the descriptor list. */
  lemma BuildListSelection(w: World, scope: Scope) returns (idx: seq<nat>)
    requires CartridgeBuildList(w, scope).Ok?
    ensures var descriptors := SplitList(BuildSource(w, scope).s);
            var disabled := ListSetting(w, "buildDisable", scope).value;
            var names := CartridgeBuildList(w, scope).value;
            && |idx| == |names| <= |descriptors|
            && Increasing(idx)
            && (forall k :: 0 <= k < |idx| ==>
                  idx[k] < |descriptors| && names[k] == Leader(descriptors[idx[k]]) && names[k] !in disabled)
            && (forall i :: 0 <= i < |descriptors| && Leader(descriptors[i]) !in disabled ==> i in idx)
  {
    var descriptors := SplitList(BuildSource(w, scope).s);
    var disabled := ListSetting(w, "buildDisable", scope).value;
    assert CartridgeBuildList(w, scope).value == FilterMap(descriptors, KeepLeader(disabled));
    idx := KeepLeaderSelection(descriptors, disabled);
  }

  /** The build list fails exactly when the descriptor setting or the
      `buildDisable` setting is a boolean; a boolean `revolverPath` reached
      through the fallback is reported under its own name. */
  lemma BuildListErrors(w: World, scope: Scope)
    ensures CartridgeBuildList(w, scope).Err? <==>
      (!BuildSource(w, scope).Str? || !Setting(w, "buildDisable", Str(""), scope).Str?)
    ensures Truthy(Setting(w, "cartridge", Str(""), scope)) && !Setting(w, "cartridge", Str(""), scope).Str? ==>
      CartridgeBuildList(w, scope) == Err(NotAString("cartridge"))
    ensures !Truthy(Setting(w, "cartridge", Str(""), scope)) && !Setting(w, "revolverPath", Str(""), scope).Str? ==>
      CartridgeBuildList(w, scope) == Err(NotAString("revolverPath"))
  {
  }

  /** An empty `cartridge` setting falls back to `revolverPath`. */
  lemma BuildListFallsBack(w: World, scope: Scope)
    requires !Truthy(Setting(w, "cartridge", Str(""), scope))
    ensures BuildSource(w, scope) == Setting(w, "revolverPath", Str(""), scope)
  {
  }

  /** With nothing configured the build list is empty: the lone empty
      descriptor has the empty leader, which the (equally empty) disable
      list contains. */
  lemma UnconfiguredBuildListIsEmpty(w: World, scope: Scope)
    requires Unset(w, "cartridge", scope) && Unset(w, "revolverPath", scope) && Unset(w, "buildDisable", scope)
    ensures CartridgeBuildList(w, scope) == Ok([])
  {
    ConfigValueDefault(w, "cartridge", Str(""), scope.Name(), Undefined);
    ConfigValueDefault(w, "revolverPath", Str(""), scope.Name(), Undefined);
    UnsetListSetting(w, "buildDisable", scope);
    assert BuildSource(w, scope) == Str("");
    assert SplitList("") == [""];
    assert Leader("") == "";
    assert [""][..0] == [];
  }
}
