/** The Android package registry, as plain data. Each record holds what
    the theme utilities read from the platform about one installed package
    through `PackageManager` (its `ApplicationInfo` and label), its
    resource table and the entry names of its APK archive. */
module PackageRegistry {
  import opened Wrappers

  /** The theme metadata a package declares in its manifest: the values
      `Bundle.getString` returns for the author, name and wallpapers keys
      (`None` when the key is absent). */
  datatype Metadata = Metadata(
    name: Option<string>,
    author: Option<string>,
    wallpapers: Option<string>)

  /** One installed package. `metaData` is `None` when the package's
      `ApplicationInfo.metaData` bundle is null. `resources` maps a
      resource (type, entry name) to its identifier; identifiers are never 0. */
  datatype Package = Package(
    packageName: string,
    appLabel: string,
    flags: bv32,
    minSdkVersion: int,
    targetSdkVersion: int,
    sourceDir: string,
    metaData: Option<Metadata>,
    archiveEntries: seq<string>,
    resources: map<(string, string), int>)

  /** `PackageManager.getApplicationInfo(name)`: the first installed package
      with that name, or `None` where the platform throws
      `NameNotFoundException`. */
  function Find(installed: seq<Package>, name: string): (r: Option<Package>)
    ensures r.None? <==> forall i | 0 <= i < |installed| :: installed[i].packageName != name
    ensures r.Some? ==> exists i | 0 <= i < |installed| ::
      installed[i] == r.value && installed[i].packageName == name
      && forall j | 0 <= j < i :: installed[j].packageName != name
  {
    if installed == [] then None
    else if installed[0].packageName == name then Some(installed[0])
    else
      var r := Find(installed[1..], name);
      if r.Some? then
        ghost var i :| 0 <= i < |installed[1..]| && installed[1..][i] == r.value
          && installed[1..][i].packageName == name
          && forall j | 0 <= j < i :: installed[1..][j].packageName != name;
        assert installed[i + 1] == r.value;
        r
      else r
  }
}
