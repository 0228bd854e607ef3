/** The small deciders of the theme package utilities: user-app test,
    API-level description, resource identifiers, human-readable target
    names and the scans over the installed-package lists. Platform state
    (the installed packages, `Build.VERSION.SDK_INT`, whether the overlay
    manager service is present, localized strings) is passed in. */
module Packages {
  import opened Wrappers
  import opened JavaStrings
  import opened PackageRegistry

  /** `ApplicationInfo.FLAG_SYSTEM` (bit 0). */
  const FlagSystem: bv32 := 0x1
  /** `ApplicationInfo.FLAG_UPDATED_SYSTEM_APP` (bit 7). */
  const FlagUpdatedSystemApp: bv32 := 0x80

  /** `Build.VERSION_CODES` values the API-level description refers to. */
  const Lollipop := 21
  const LollipopMr1 := 22
  const Marshmallow := 23
  const Nougat := 24

  /** The localized strings the utilities return. Their text comes from
      `Context.getString`, passed to each operation as a function. */
  datatype StringRes =
    | Api21 | Api22 | Api23 | Api24 | Api25 | Api26
    | SystemuiNavigation | SystemuiHeaders | SystemuiQsTiles | SystemuiStatusbar
    | SettingsIcons

  /** The string resource naming an API level between 21 and 26. */
  function ApiRes(level: int): StringRes
    requires 21 <= level <= 26
  {
    match level
    case 21 => Api21
    case 22 => Api22
    case 23 => Api23
    case 24 => Api24
    case 25 => Api25
    case 26 => Api26
  }

  /** The label of `level` when it lies between `lowest` and 26, else "". */
  function LevelText(getString: StringRes -> string, level: int, lowest: int): string
    requires 21 <= lowest
  {
    if lowest <= level <= 26 then getString(ApiRes(level)) else ""
  }

  /** `isUserApp`: a found package that is neither a system app nor an
      updated system app; a package that is not installed is not a user app. */
  function IsUserApp(installed: seq<Package>, packageName: string): (r: bool)
    ensures r <==> exists i | 0 <= i < |installed| ::
      installed[i].packageName == packageName
      && (forall j | 0 <= j < i :: installed[j].packageName != packageName)
      && installed[i].flags & FlagSystem == 0
      && installed[i].flags & FlagUpdatedSystemApp == 0
  {
    match Find(installed, packageName)
    case None => false
    case Some(ai) =>
      var mask := FlagSystem | FlagUpdatedSystemApp;
      assert (ai.flags & mask == 0) <==> (ai.flags & FlagSystem == 0 && ai.flags & FlagUpdatedSystemApp == 0);
      ai.flags & mask == 0
  }

  /** `getThemeAPIs`: a human-readable description of the API levels a theme
      supports. `hasMinSdkField` says whether the runtime's `ApplicationInfo`
      has `minSdkVersion`; reading it where it does not exist raises
      `NoSuchFieldError`, and the source then assumes the device runs API 23. */
  function GetThemeAPIs(
    installed: seq<Package>, packageName: string,
    sdkInt: int, hasMinSdkField: bool, getString: StringRes -> string): (r: Option<string>)
    ensures Find(installed, packageName).None? ==> r.None?
    ensures Find(installed, packageName).Some? && Find(installed, packageName).value.metaData.None? ==> r.None?
    ensures Find(installed, packageName).Some? && Find(installed, packageName).value.metaData.Some? ==>
      var ai := Find(installed, packageName).value;
      var min, target := ai.minSdkVersion, ai.targetSdkVersion;
      && (!hasMinSdkField ==> r == Some(
            if target == 23 then getString(Api23)
            else getString(Api23) + " - " + LevelText(getString, target, 24)))
      && (hasMinSdkField && min == target ==>
            (r.Some? <==> 23 <= target <= 26)
            && (r.Some? ==> r.value == getString(ApiRes(target))))
      && (hasMinSdkField && min != target ==> r == Some(
            LevelText(getString, if sdkInt >= Nougat then min else sdkInt, 21)
            + " - " + LevelText(getString, target, 23)))
  {
    match Find(installed, packageName)
    case None => None
    case Some(ai) =>
      if ai.metaData.None? then None
      else if !hasMinSdkField then
        var target := ai.targetSdkVersion;
        if target == 23 then Some(getString(Api23))
        else
          var targetAPI :=
            if target == 24 then getString(Api24)
            else if target == 25 then getString(Api25)
            else if target == 26 then getString(Api26)
            else "";
          Some(getString(Api23) + " - " + targetAPI)
      else if ai.minSdkVersion == ai.targetSdkVersion then
        var target := ai.targetSdkVersion;
        if target == 23 then Some(getString(Api23))
        else if target == 24 then Some(getString(Api24))
        else if target == 25 then Some(getString(Api25))
        else if target == 26 then Some(getString(Api26))
        else None
      else
        var min := ai.minSdkVersion;
        var minSdk :=
          if sdkInt >= Nougat then
            if min == 21 then getString(Api21)
            else if min == 22 then getString(Api22)
            else if min == 23 then getString(Api23)
            else if min == 24 then getString(Api24)
            else if min == 25 then getString(Api25)
            else if min == 26 then getString(Api26)
            else ""
          else
            if sdkInt == Lollipop then getString(Api21)
            else if sdkInt == LollipopMr1 then getString(Api22)
            else if sdkInt == Marshmallow then getString(Api23)
            else "";
        var target := ai.targetSdkVersion;
        var targetSdk :=
          if target == 23 then getString(Api23)
          else if target == 24 then getString(Api24)
          else if target == 25 then getString(Api25)
          else if target == 26 then getString(Api26)
          else "";
        Some(minSdk + " - " + targetSdk)
  }

  /** The description is null exactly when the package is missing, has no
      metadata, or declares one API level outside 23..26. */
  lemma ThemeAPIsNull(
    installed: seq<Package>, packageName: string,
    sdkInt: int, hasMinSdkField: bool, getString: StringRes -> string)
    ensures GetThemeAPIs(installed, packageName, sdkInt, hasMinSdkField, getString).None? <==>
      match Find(installed, packageName)
      case None => true
      case Some(ai) =>
        ai.metaData.None?
        || (hasMinSdkField && ai.minSdkVersion == ai.targetSdkVersion
            && !(23 <= ai.targetSdkVersion <= 26))
  {
  }

  /** The fully qualified resource name `package:type/entry` handed to
      `Resources.getIdentifier`. */
  function QualifiedName(packageName: string, resType: string, entry: string): string {
    packageName + ":" + resType + "/" + entry
  }

  /** Reads back a name built as `package:type/entry`: the package up to
      the first ':', then the type up to the next '/', then the entry.
      `None` for a string without those separators, which no qualified
      name built here is. */
  function ParseQualifiedName(name: string): (r: Option<(string, string, string)>)
    ensures r.None? <==> ':' !in name || '/' !in name[IndexOfChar(name, ':') + 1..]
    ensures r.Some? ==> ':' !in r.value.0 && '/' !in r.value.1
  {
    var i := IndexOfChar(name, ':');
    if i == -1 then None
    else
      var rest := name[i + 1..];
      var j := IndexOfChar(rest, '/');
      if j == -1 then None
      else Some((name[..i], rest[..j], rest[j + 1..]))
  }

  /** Building a qualified name and reading it back gives the same parts,
      as long as the package holds no ':' and the type no '/'. */
  lemma {:induction false} QualifiedNameRoundTrip(packageName: string, resType: string, entry: string)
    requires ':' !in packageName && '/' !in resType
    ensures ParseQualifiedName(QualifiedName(packageName, resType, entry)) == Some((packageName, resType, entry))
  {
    var name := QualifiedName(packageName, resType, entry);
    var rest := resType + "/" + entry;
    assert name == packageName + ":" + rest;
    IndexOfCharAfter(packageName, ':', rest);
    assert name[|packageName| + 1..] == rest;
    IndexOfCharAfter(resType, '/', entry);
    assert rest[..|resType|] == resType;
  }

  /** Every name that reads back as parts is the qualified name of those parts. */
  lemma ParsedQualifiedName(name: string)
    requires ParseQualifiedName(name).Some?
    ensures var parts := ParseQualifiedName(name).value;
      QualifiedName(parts.0, parts.1, parts.2) == name
  {
    var i := IndexOfChar(name, ':');
    var rest := name[i + 1..];
    var j := IndexOfChar(rest, '/');
    assert ParseQualifiedName(name).value == (name[..i], rest[..j], rest[j + 1..]);
    Reassemble(name, i, j);
  }

  /** Splitting at a ':' and then at a '/' and joining with those
      separators gives back the original string. */
  lemma Reassemble(name: string, i: int, j: int)
    requires 0 <= i < |name| && name[i] == ':'
    requires 0 <= j < |name[i + 1..]| && name[i + 1..][j] == '/'
    ensures QualifiedName(name[..i], name[i + 1..][..j], name[i + 1..][j + 1..]) == name
  {
    var rest := name[i + 1..];
    SplitAround(rest, j);
    SplitAround(name, i);
  }

  /** A string is what comes before index `k`, the character at `k`, and
      what comes after. */
  lemma SplitAround(s: string, k: int)
    requires 0 <= k < |s|
    ensures s == s[..k] + [s[k]] + s[k + 1..]
  {
    assert s == s[..k] + s[k..];
    assert s[k..] == [s[k]] + s[k + 1..];
  }

  /** The first `c` in `a + [c] + b` is the one right after `a` when `a`
      holds none. */
  lemma IndexOfCharAfter(a: string, c: char, b: string)
    requires c !in a
    ensures IndexOfChar(a + [c] + b, c) == |a|
    ensures (a + [c] + b)[..|a|] == a
  {
    var s := a + [c] + b;
    assert s[|a|] == c;
    assert s[..|a|] == a;
  }

  /** `Resources.getIdentifier(name, ...)` in package `app`: the identifier
      of the named resource, or 0 when the name does not resolve there. */
  function Identifier(app: Package, name: string): int {
    match ParseQualifiedName(name)
    case None => 0
    case Some((p, t, e)) =>
      if p == app.packageName && (t, e) in app.resources then app.resources[(t, e)] else 0
  }

  /** `getResource`: the identifier of resource `resourceName` of type
      `resType` in package `packageName`, or 0 when the package is not
      installed or has no such resource. */
  function GetResource(installed: seq<Package>, packageName: string, resourceName: string, resType: string): (r: int)
    ensures Find(installed, packageName).None? ==> r == 0
    ensures ':' !in packageName && '/' !in resType ==>
      r == match Find(installed, packageName)
           case None => 0
           case Some(app) =>
             if (resType, resourceName) in app.resources then app.resources[(resType, resourceName)] else 0
  {
    match Find(installed, packageName)
    case None => 0
    case Some(app) =>
      if ':' !in packageName && '/' !in resType then
        QualifiedNameRoundTrip(packageName, resType, resourceName);
        Identifier(app, QualifiedName(packageName, resType, resourceName))
      else
        Identifier(app, QualifiedName(packageName, resType, resourceName))
  }

  /** `getColorResource`: `getResource` with type "color". */
  function GetColorResource(installed: seq<Package>, packageName: string, colorName: string): (r: int)
    ensures ':' !in packageName ==>
      r == match Find(installed, packageName)
           case None => 0
           case Some(app) =>
             if ("color", colorName) in app.resources then app.resources[("color", colorName)] else 0
  {
    GetResource(installed, packageName, colorName, "color")
  }

  /** The label of the five overlay targets that are parts of another app. */
  function SpecialTargetLabel(packageName: string): Option<StringRes> {
    match packageName
    case "com.android.systemui.navbars" => Some(SystemuiNavigation)
    case "com.android.systemui.headers" => Some(SystemuiHeaders)
    case "com.android.systemui.tiles" => Some(SystemuiQsTiles)
    case "com.android.systemui.statusbars" => Some(SystemuiStatusbar)
    case "com.android.settings.icons" => Some(SettingsIcons)
    case _ => None
  }

  /** `getPackageName`: the human-readable name of an overlay target. The
      five pseudo-packages get a localized label whether or not anything is
      installed; any other name gets the installed package's label, or null. */
  function GetPackageName(installed: seq<Package>, packageName: string, getString: StringRes -> string): (r: Option<string>)
    ensures SpecialTargetLabel(packageName).Some? ==> r == Some(getString(SpecialTargetLabel(packageName).value))
    ensures SpecialTargetLabel(packageName).None? ==>
      (r.None? <==> forall i | 0 <= i < |installed| :: installed[i].packageName != packageName)
    ensures SpecialTargetLabel(packageName).None? && r.Some? ==>
      exists i | 0 <= i < |installed| :: installed[i].packageName == packageName && r.value == installed[i].appLabel
  {
    match SpecialTargetLabel(packageName)
    case Some(res) => Some(getString(res))
    case None =>
      match Find(installed, packageName)
      case None => None
      case Some(ai) => Some(ai.appLabel)
  }

  /** `needsRecreate`: the theme screen must be recreated after applying
      overlays on an overlay-manager system, unless the framework or the
      manager itself is among the targets. */
  method NeedsRecreate(targets: seq<string>, oms: bool) returns (r: bool)
    ensures r <==> oms && forall i | 0 <= i < |targets| ::
      targets[i] != "android" && targets[i] != "projekt.substratum"
  {
    for i := 0 to |targets|
      invariant forall k | 0 <= k < i :: targets[k] != "android" && targets[k] != "projekt.substratum"
    {
      if targets[i] == "android" || targets[i] == "projekt.substratum" {
        return false;
      }
    }
    return oms;
  }

  /** Whether some package in `packages` has a name starting with `trigger`. */
  method AnyNameStartsWith(packages: seq<Package>, trigger: string) returns (r: bool)
    ensures r <==> exists i | 0 <= i < |packages| :: StartsWith(packages[i].packageName, trigger)
  {
    for i := 0 to |packages|
      invariant forall k | 0 <= k < i :: !StartsWith(packages[k].packageName, trigger)
    {
      if StartsWith(packages[i].packageName, trigger) {
        return true;
      }
    }
    return false;
  }

  /** `getMetaData`: some installed application (`getInstalledApplications`)
      has a package name starting with `trigger`. */
  method GetMetaData(installedApplications: seq<Package>, trigger: string) returns (r: bool)
    ensures r <==> exists i | 0 <= i < |installedApplications| ::
      StartsWith(installedApplications[i].packageName, trigger)
  {
    r := AnyNameStartsWith(installedApplications, trigger);
  }

  /** `getProviders`: some installed package (`getInstalledPackages` with
      providers) has a package name starting with `trigger`. */
  method GetProviders(installedPackages: seq<Package>, trigger: string) returns (r: bool)
    ensures r <==> exists i | 0 <= i < |installedPackages| ::
      StartsWith(installedPackages[i].packageName, trigger)
  {
    r := AnyNameStartsWith(installedPackages, trigger);
  }

  /** `getIntents`: `receivers[k]` lists, for the k-th probed broadcast
      intent, the class name of each resolved receiver's activity (`None`
      where it has no activity info). True when some name starts with
      `trigger`. */
  method GetIntents(receivers: seq<seq<Option<string>>>, trigger: string) returns (r: bool)
    ensures r <==> exists k, m | 0 <= k < |receivers| && 0 <= m < |receivers[k]| ::
      receivers[k][m].Some? && StartsWith(receivers[k][m].value, trigger)
  {
    for k := 0 to |receivers|
      invariant forall k', m | 0 <= k' < k && 0 <= m < |receivers[k']| ::
        !(receivers[k'][m].Some? && StartsWith(receivers[k'][m].value, trigger))
    {
      for m := 0 to |receivers[k]|
        invariant forall m' | 0 <= m' < m ::
          !(receivers[k][m'].Some? && StartsWith(receivers[k][m'].value, trigger))
      {
        var activity := receivers[k][m];
        if activity.Some? && StartsWith(activity.value, trigger) {
          return true;
        }
      }
    }
    return false;
  }

  /** `getInstalledDirectory`: the source directory of the first installed
      application with the given name, or null. */
  method GetInstalledDirectory(installedApplications: seq<Package>, packageName: string) returns (r: Option<string>)
    ensures r.None? <==> forall i | 0 <= i < |installedApplications| ::
      installedApplications[i].packageName != packageName
    ensures r.Some? ==> exists i | 0 <= i < |installedApplications| ::
      installedApplications[i].packageName == packageName
      && r.value == installedApplications[i].sourceDir
      && forall j | 0 <= j < i :: installedApplications[j].packageName != packageName
  {
    for i := 0 to |installedApplications|
      invariant forall j | 0 <= j < i :: installedApplications[j].packageName != packageName
    {
      if installedApplications[i].packageName == packageName {
        return Some(installedApplications[i].sourceDir);
      }
    }
    return None;
  }
}
