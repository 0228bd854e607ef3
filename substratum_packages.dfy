/** `getSubstratumPackages`: collecting the installed themes to show on a
    home screen into a map the caller owns, keyed by theme name. The themes
    are the records of the packages the theme intent query returned, in
    the order it returned them. */
module SubstratumPackages {
  import opened Wrappers
  import opened JavaStrings
  import opened PackageRegistry

  /** The two-element array stored per theme: `{author, packageName}`. */
  datatype ThemeEntry = ThemeEntry(author: Option<string>, packageName: string)

  /** The caller's `HashMap`, from theme name (possibly null) to entry. */
  class ThemeMap {
    var entries: map<Option<string>, ThemeEntry>

    constructor ()
      ensures entries == map[]
    {
      entries := map[];
    }
  }

  /** The query: the home screen asking (`homeType`: "" for the theme list,
      the wallpaper fragment's name for wallpapers, otherwise an asset
      folder such as a sound or font folder), the user's search text, and
      the name of the wallpaper fragment. */
  datatype Query = Query(homeType: string, searchFilter: Option<string>, wallpaperFragment: string)

  /** The search filter: applied only when the theme declares both a name
      and an author and the filter is non-empty; it then asks that
      "name author" contain the filter, ignoring case. */
  predicate PassesSearch(meta: Metadata, searchFilter: Option<string>) {
    if meta.name.Some? && meta.author.Some? && searchFilter.Some? && |searchFilter.value| > 0 then
      Contains(Lower(meta.name.value + " " + meta.author.value), Lower(searchFilter.value))
    else true
  }

  /** The archive folder a home type other than "" and wallpapers needs. */
  function AssetFolder(homeType: string): string {
    "assets/" + homeType + "/"
  }

  /** The theme belongs on the asked-for home screen. */
  predicate ShowsOnHome(theme: Package, meta: Metadata, q: Query) {
    if q.homeType == q.wallpaperFragment then
      meta.wallpapers.Some? && |meta.wallpapers.value| > 0
    else if |q.homeType| == 0 then true
    else exists k | 0 <= k < |theme.archiveEntries| ::
      StartsWith(theme.archiveEntries[k], AssetFolder(q.homeType))
  }

  /** Examining `theme` puts an entry into the map. */
  predicate Inserts(theme: Package, q: Query) {
    theme.metaData.Some?
    && PassesSearch(theme.metaData.value, q.searchFilter)
    && ShowsOnHome(theme, theme.metaData.value, q)
  }

  /** Examining `theme` puts an entry under `key` into the map. */
  predicate Writes(theme: Package, q: Query, key: Option<string>) {
    Inserts(theme, q) && theme.metaData.value.name == key
  }

  /** The entry stored for a theme. */
  function EntryOf(theme: Package): ThemeEntry
    requires theme.metaData.Some?
  {
    ThemeEntry(theme.metaData.value.author, theme.packageName)
  }

  /** The map after examining one theme. */
  function Insert(m: map<Option<string>, ThemeEntry>, theme: Package, q: Query): map<Option<string>, ThemeEntry> {
    if Inserts(theme, q) then m[theme.metaData.value.name := EntryOf(theme)] else m
  }

  /** The map after examining `themes` in order. */
  function Fold(m: map<Option<string>, ThemeEntry>, themes: seq<Package>, q: Query): map<Option<string>, ThemeEntry>
    decreases |themes|
  {
    if themes == [] then m
    else Insert(Fold(m, themes[..|themes| - 1], q), themes[|themes| - 1], q)
  }

  /** How many themes are examined: a theme with a null metadata bundle
      raises `NullPointerException`, which the outer handler swallows, so
      the scan ends there. */
  function FirstAbort(themes: seq<Package>): (r: nat)
    ensures r <= |themes|
    ensures forall j | 0 <= j < r :: themes[j].metaData.Some?
    ensures r < |themes| ==> themes[r].metaData.None?
  {
    if themes == [] || themes[0].metaData.None? then 0
    else 1 + FirstAbort(themes[1..])
  }

  /** The caller's map after `getSubstratumPackages`. */
  function Collected(m: map<Option<string>, ThemeEntry>, themes: seq<Package>, q: Query): map<Option<string>, ThemeEntry> {
    Fold(m, themes[..FirstAbort(themes)], q)
  }

  /** `getSubstratumPackages`: examines the themes in order and puts each
      one that passes the search filter and belongs on the asked-for home
      screen into `packages`. */
  method GetSubstratumPackages(packages: ThemeMap, themes: seq<Package>, q: Query)
    modifies packages
    ensures packages.entries == Collected(old(packages.entries), themes, q)
  {
    var i := 0;
    while i < |themes|
      invariant 0 <= i <= |themes|
      invariant forall j | 0 <= j < i :: themes[j].metaData.Some?
      invariant packages.entries == Fold(old(packages.entries), themes[..i], q)
    {
      var theme := themes[i];
      assert themes[..i + 1][..i] == themes[..i];
      if theme.metaData.None? {
        // the null bundle ends the whole scan
        assert FirstAbort(themes) == i;
        return;
      }
      var meta := theme.metaData.value;
      var canContinue := true;
      if meta.name.Some? && meta.author.Some? {
        if q.searchFilter.Some? && |q.searchFilter.value| > 0 {
          var name := meta.name.value + " " + meta.author.value;
          if !Contains(Lower(name), Lower(q.searchFilter.value)) {
            canContinue := false;
          }
        }
      }
      if canContinue {
        if q.homeType == q.wallpaperFragment {
          var wallpaperCheck := meta.wallpapers;
          if wallpaperCheck.Some? && |wallpaperCheck.value| > 0 {
            packages.entries := packages.entries[meta.name := ThemeEntry(meta.author, theme.packageName)];
          }
        } else if |q.homeType| == 0 {
          packages.entries := packages.entries[meta.name := ThemeEntry(meta.author, theme.packageName)];
        } else {
          var folder := "assets/" + q.homeType + "/";
          var k := 0;
          while k < |theme.archiveEntries|
            invariant 0 <= k <= |theme.archiveEntries|
            invariant forall k' | 0 <= k' < k :: !StartsWith(theme.archiveEntries[k'], folder)
            invariant packages.entries == Fold(old(packages.entries), themes[..i], q)
          {
            if StartsWith(theme.archiveEntries[k], folder) {
              packages.entries := packages.entries[meta.name := ThemeEntry(meta.author, theme.packageName)];
              break;
            }
            k := k + 1;
          }
        }
      }
      i := i + 1;
    }
    assert themes[..|themes|] == themes;
  }

  /** The names under which examining `themes` writes. */
  function WrittenKeys(themes: seq<Package>, q: Query): set<Option<string>> {
    set j | 0 <= j < |themes| && Inserts(themes[j], q) :: themes[j].metaData.value.name
  }

  /** The keys after the fold are the old keys and the written names. */
  lemma {:induction false} FoldKeys(m: map<Option<string>, ThemeEntry>, themes: seq<Package>, q: Query)
    ensures Fold(m, themes, q).Keys == m.Keys + WrittenKeys(themes, q)
    decreases |themes|
  {
    if themes != [] {
      var init := themes[..|themes| - 1];
      FoldKeys(m, init, q);
      var last := themes[|themes| - 1];
      assert forall j | 0 <= j < |init| :: init[j] == themes[j];
      assert WrittenKeys(themes, q) == WrittenKeys(init, q)
        + (if Inserts(last, q) then {last.metaData.value.name} else {});
    }
  }

  /** A key no examined theme writes keeps its old value, or stays absent. */
  lemma {:induction false} FoldUntouched(m: map<Option<string>, ThemeEntry>, themes: seq<Package>, q: Query, key: Option<string>)
    requires forall j | 0 <= j < |themes| :: !Writes(themes[j], q, key)
    ensures key in Fold(m, themes, q) <==> key in m
    ensures key in m ==> Fold(m, themes, q)[key] == m[key]
    decreases |themes|
  {
    if themes != [] {
      FoldUntouched(m, themes[..|themes| - 1], q, key);
    }
  }

  /** The last theme writing a key decides its entry. */
  lemma {:induction false} FoldLastWriter(m: map<Option<string>, ThemeEntry>, themes: seq<Package>, q: Query, i: nat, key: Option<string>)
    requires i < |themes| && Writes(themes[i], q, key)
    requires forall j | i < j < |themes| :: !Writes(themes[j], q, key)
    ensures key in Fold(m, themes, q) && Fold(m, themes, q)[key] == EntryOf(themes[i])
    decreases |themes|
  {
    if i < |themes| - 1 {
      var init := themes[..|themes| - 1];
      assert forall j | i < j < |init| :: init[j] == themes[j];
      FoldLastWriter(m, init, q, i, key);
    }
  }

  /** Map mutation only inserts: the keys afterwards are the old keys plus
      the names of the examined themes that were admitted. */
  lemma CollectedKeys(m: map<Option<string>, ThemeEntry>, themes: seq<Package>, q: Query)
    ensures Collected(m, themes, q).Keys
      == m.Keys + (set j | 0 <= j < FirstAbort(themes) && Inserts(themes[j], q) :: themes[j].metaData.value.name)
  {
    var n := FirstAbort(themes);
    FoldKeys(m, themes[..n], q);
    assert forall j | 0 <= j < n :: themes[..n][j] == themes[j];
    assert WrittenKeys(themes[..n], q)
      == (set j | 0 <= j < n && Inserts(themes[j], q) :: themes[j].metaData.value.name);
  }

  /** A key that no examined theme writes is left exactly as it was. */
  lemma CollectedUntouched(m: map<Option<string>, ThemeEntry>, themes: seq<Package>, q: Query, key: Option<string>)
    requires forall j | 0 <= j < FirstAbort(themes) :: !Writes(themes[j], q, key)
    ensures key in Collected(m, themes, q) <==> key in m
    ensures key in m ==> Collected(m, themes, q)[key] == m[key]
  {
    var n := FirstAbort(themes);
    assert forall j | 0 <= j < n :: themes[..n][j] == themes[j];
    FoldUntouched(m, themes[..n], q, key);
  }

  /** A later theme with the same name overwrites an earlier one: the last
      examined theme writing a key decides its entry, `{author, packageName}`. */
  lemma CollectedLastWriter(m: map<Option<string>, ThemeEntry>, themes: seq<Package>, q: Query, i: nat, key: Option<string>)
    requires i < FirstAbort(themes) && Writes(themes[i], q, key)
    requires forall j | i < j < FirstAbort(themes) :: !Writes(themes[j], q, key)
    ensures key in Collected(m, themes, q)
    ensures Collected(m, themes, q)[key] == ThemeEntry(themes[i].metaData.value.author, themes[i].packageName)
  {
    var n := FirstAbort(themes);
    assert forall j | 0 <= j < n :: themes[..n][j] == themes[j];
    FoldLastWriter(m, themes[..n], q, i, key);
  }

  /** A search filter only narrows: every name present with a filter is
      present without one. */
  lemma SearchNarrows(m: map<Option<string>, ThemeEntry>, themes: seq<Package>, q: Query)
    ensures Collected(m, themes, q).Keys <= Collected(m, themes, q.(searchFilter := None)).Keys
  {
    CollectedKeys(m, themes, q);
    CollectedKeys(m, themes, q.(searchFilter := None));
    forall j | 0 <= j < FirstAbort(themes) && Inserts(themes[j], q)
      ensures Inserts(themes[j], q.(searchFilter := None))
    {
    }
  }

  /** An empty filter is no filter: the result is the same as with a null one. */
  lemma EmptyFilterKeepsAll(m: map<Option<string>, ThemeEntry>, themes: seq<Package>, q: Query)
    ensures Collected(m, themes, q.(searchFilter := Some(""))) == Collected(m, themes, q.(searchFilter := None))
  {
    FoldEmptyFilter(m, themes[..FirstAbort(themes)], q);
  }

  /** Folding with an empty filter and with a null one agree. */
  lemma {:induction false} FoldEmptyFilter(m: map<Option<string>, ThemeEntry>, themes: seq<Package>, q: Query)
    ensures Fold(m, themes, q.(searchFilter := Some(""))) == Fold(m, themes, q.(searchFilter := None))
    decreases |themes|
  {
    if themes != [] {
      FoldEmptyFilter(m, themes[..|themes| - 1], q);
    }
  }

  /** On the theme list (home type "", when that is not the wallpaper
      fragment) with no filter, every examined theme is added under its name. */
  lemma EmptyHomeTypeAddsEveryTheme(m: map<Option<string>, ThemeEntry>, themes: seq<Package>, q: Query)
    requires q.homeType == "" && q.wallpaperFragment != "" && q.searchFilter.None?
    ensures Collected(m, themes, q).Keys
      == m.Keys + (set j | 0 <= j < FirstAbort(themes) :: themes[j].metaData.value.name)
  {
    CollectedKeys(m, themes, q);
    assert forall j | 0 <= j < FirstAbort(themes) :: Inserts(themes[j], q);
  }

  /** A filter found, ignoring case, in the theme's name or in its author
      lets the theme through. */
  lemma NameOrAuthorMatchPasses(meta: Metadata, filter: string)
    requires meta.name.Some? && meta.author.Some?
    requires Contains(Lower(meta.name.value), Lower(filter)) || Contains(Lower(meta.author.value), Lower(filter))
    ensures PassesSearch(meta, Some(filter))
  {
    var name, author := meta.name.value, meta.author.value;
    LowerAppend(name, " " + author);
    LowerAppend(" ", author);
    assert name + " " + author == name + (" " + author);
    if Contains(Lower(name), Lower(filter)) {
      ContainsInAppend(Lower(name), Lower(" " + author), Lower(filter));
    } else {
      ContainsInAppend(Lower(" "), Lower(author), Lower(filter));
      ContainsInAppend(Lower(name), Lower(" ") + Lower(author), Lower(filter));
    }
  }

  /** A theme whose name and author both fail the case-insensitive search
      is never added, whatever the home screen. */
  lemma FilteredOutNotInserted(theme: Package, q: Query)
    requires theme.metaData.Some?
    requires theme.metaData.value.name.Some? && theme.metaData.value.author.Some?
    requires q.searchFilter.Some? && |q.searchFilter.value| > 0
    requires !Contains(Lower(theme.metaData.value.name.value + " " + theme.metaData.value.author.value), Lower(q.searchFilter.value))
    ensures !Inserts(theme, q)
    ensures forall m :: Insert(m, theme, q) == m
  {
  }
}
