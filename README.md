# Substratum theme package utilities, modelled in Dafny

This project models the platform-independent decisions inside
`Packages.java`, the package-introspection utility of the Substratum theme
manager for Android. The Android package registry becomes plain input data.
It is a sequence of `PackageRegistry.Package` records, one per installed
package. Each record holds the package name, its label, its `ApplicationInfo`
flags, its min/target SDK, its source directory, its theme metadata, its
resource table and the entry names of its APK archive. The model covers:

- collecting the themes to show on a home screen into a map the caller owns
  (`getSubstratumPackages`). This is the `ThemeMap` class and a loop method,
  proved against a fold over the themes (`SubstratumPackages`);
- reading a color value out of an overlay's XML resource lines
  (`getOverlayResource`). This is a loop method, proved against a scan
  function (`OverlayResource`);
- the small deciders `isUserApp`, `getThemeAPIs`, `getResource`,
  `getColorResource`, `getPackageName`, `needsRecreate`, `getMetaData`,
  `getProviders`, `getIntents` and `getInstalledDirectory` (`Packages`);
- the `java.lang.String` behaviour these rely on (`JavaStrings`). This
  includes Java's `split`, which drops trailing empty strings.

Java `null` is `Wrappers.Option.None`. An `ArrayIndexOutOfBoundsException`
that escapes `getOverlayResource` is `Wrappers.Outcome.ThrewIndexOutOfBounds`.

Platform state the source reads is passed in as parameters:

- `Build.VERSION.SDK_INT`, and whether `ApplicationInfo.minSdkVersion`
  exists on the device;
- the result of `checkOMS`;
- `Context.getString`, as a function from `Packages.StringRes` to text;
- the resource name that `ReadVariantPrioritizedColor` picks;
- the overlay file's lines;
- the value of `References.wallpaperFragment`.

The `References` metadata keys are not part of this model. The metadata
record has one optional field per key the code reads: name, author and
wallpapers.

## Model

| member | source | states |
|---|---|---|
| `PackageRegistry.Find` | app/src/main/java/projekt/substratum/common/Packages.java:516-524 | The lookup finds nothing exactly when no installed package has the name. Otherwise it returns the first package with that name. |
| `JavaStrings.LastIndexOf` | app/src/main/java/projekt/substratum/common/Packages.java:658 | The result is -1 exactly when the text does not occur. Otherwise the text occurs at the result and at no later index. |
| `JavaStrings.IndexOfChar` | app/src/main/java/projekt/substratum/common/Packages.java:658 | The result is -1 exactly when the character is absent. Otherwise it is the index of its first occurrence. |
| `JavaStrings.SplitHead` | app/src/main/java/projekt/substratum/common/Packages.java:658 | `split(c)[0]` throws exactly when the string is non-empty and made only of `c`. Otherwise it is the longest prefix free of `c`. |
| `JavaStrings.Lower` | app/src/main/java/projekt/substratum/common/Packages.java:574-575 | Lower-casing keeps the length, maps each character on its own, and leaves no upper-case ASCII letter. |
| `JavaStrings.ContainsInAppend` | app/src/main/java/projekt/substratum/common/Packages.java:572-575 | Text found in either part of a concatenation is found in the whole. |
| `Packages.IsUserApp` | app/src/main/java/projekt/substratum/common/Packages.java:515-525 | True exactly when the package is installed and its flags have neither `FLAG_SYSTEM` nor `FLAG_UPDATED_SYSTEM_APP` set. A missing package gives false. |
| `Packages.GetThemeAPIs` | app/src/main/java/projekt/substratum/common/Packages.java:270-350 | A missing package or null metadata gives null. Without the `minSdkVersion` field the result is the API 23 label, or "API 23 - target" with "" for a target outside 24..26. With min == target, a label exists only for 23..26. Otherwise the result is "min - target": min is guessed from `SDK_INT` below API 24, and any unmapped level becomes "". |
| `Packages.ThemeAPIsNull` | app/src/main/java/projekt/substratum/common/Packages.java:276-287 | The description is null exactly when the package is missing, has no metadata, or declares one API level outside 23..26. |
| `Packages.ParseQualifiedName` | app/src/main/java/projekt/substratum/common/Packages.java:409-410 | Parsing fails exactly when there is no ':' or no '/' after it. The parsed package holds no ':' and the parsed type no '/'. |
| `Packages.QualifiedNameRoundTrip` | app/src/main/java/projekt/substratum/common/Packages.java:410 | `package:type/entry` reads back as the same three parts when the package has no ':' and the type no '/'. |
| `Packages.ParsedQualifiedName` | app/src/main/java/projekt/substratum/common/Packages.java:410 | Every name that parses is the qualified name of its parts. |
| `Packages.GetResource` | app/src/main/java/projekt/substratum/common/Packages.java:402-417 | The identifier is 0 for a package that is not installed. Otherwise, for well-formed names, it is the resource table's entry for (type, name), or 0. |
| `Packages.GetColorResource` | app/src/main/java/projekt/substratum/common/Packages.java:420-422 | The identifier of the package's ("color", name) resource, or 0. |
| `Packages.GetPackageName` | app/src/main/java/projekt/substratum/common/Packages.java:467-488 | The five SystemUI/Settings pseudo-targets get their localized label. Any other name gets null exactly when it is not installed, and otherwise the label of an installed package with that name. |
| `Packages.NeedsRecreate` | app/src/main/java/projekt/substratum/common/Packages.java:735-742 | True exactly when the overlay manager is present and no target is "android" or "projekt.substratum". |
| `Packages.AnyNameStartsWith` | app/src/main/java/projekt/substratum/common/Packages.java:536-541 | True exactly when some package name starts with the trigger. |
| `Packages.GetMetaData` | app/src/main/java/projekt/substratum/common/Packages.java:533-542 | True exactly when some installed application's name starts with the trigger. |
| `Packages.GetProviders` | app/src/main/java/projekt/substratum/common/Packages.java:699-708 | True exactly when some installed package's name starts with the trigger. |
| `Packages.GetIntents` | app/src/main/java/projekt/substratum/common/Packages.java:711-733 | True exactly when some resolved receiver, for some probed intent, has activity info whose name starts with the trigger. |
| `Packages.GetInstalledDirectory` | app/src/main/java/projekt/substratum/common/Packages.java:745-756 | Null exactly when no installed application has the name. Otherwise the source directory of the first one that does. |
| `OverlayResource.MentionsLength` | app/src/main/java/projekt/substratum/common/Packages.java:657-658 | A line naming the resource in quotes has at least two characters, so `substring(lastIndexOf + 2)` is in range. |
| `OverlayResource.AfterLastTagEnd` | app/src/main/java/projekt/substratum/common/Packages.java:658 | The result is the text after the last `">` of the line. With no `">`, it is everything but the first character. |
| `OverlayResource.ExtractHex` | app/src/main/java/projekt/substratum/common/Packages.java:657-660 | Throws exactly when the text after the last `">` is non-empty and all '<'. Otherwise, when that text starts with '?' the value is `#00000000`; when it does not, the value is that text cut just before its first '<' (all of it when it has none). |
| `OverlayResource.ExtractItemLine` | app/src/main/java/projekt/substratum/common/Packages.java:657-660 | For an item written as `prefix">value</tag>`, the extracted value is `value`, or `#00000000` when `value` starts with '?'. |
| `OverlayResource.AfterLastTagEndOf` | app/src/main/java/projekt/substratum/common/Packages.java:658 | The text after the last `">` of `prefix">rest` is `rest` when `rest` has no double quote. |
| `OverlayResource.SplitHeadBeforeTag` | app/src/main/java/projekt/substratum/common/Packages.java:658 | The first '<'-piece of `value<more` is `value`. |
| `OverlayResource.GetOverlayResource` | app/src/main/java/projekt/substratum/common/Packages.java:635-671 | The loop over lines returns null for a null resource name, and otherwise the outcome of the scan. |
| `OverlayResource.ScanNoMention` | app/src/main/java/projekt/substratum/common/Packages.java:653-662 | With no line naming the resource, the result is null. |
| `OverlayResource.ScanLastMentionWins` | app/src/main/java/projekt/substratum/common/Packages.java:656-662 | The scan does not stop early. When no line naming the resource has a value that cannot be split, the last line naming it decides the result. |
| `OverlayResource.ScanThrows` | app/src/main/java/projekt/substratum/common/Packages.java:657-659 | The scan throws exactly when some line naming the resource has a value that cannot be split. |
| `OverlayResource.ScanThrewStays` | app/src/main/java/projekt/substratum/common/Packages.java:656-662 | Once a line has thrown, later lines cannot undo it. |
| `SubstratumPackages.FirstAbort` | app/src/main/java/projekt/substratum/common/Packages.java:563-570 | The scan examines themes up to the first one with a null metadata bundle. Its `NullPointerException` ends the loop. |
| `SubstratumPackages.GetSubstratumPackages` | app/src/main/java/projekt/substratum/common/Packages.java:557-632 | The caller's map afterwards is the fold of the admitted themes over the old map. The archive loop stops at the first entry under `assets/<home_type>/`. |
| `SubstratumPackages.CollectedKeys` | app/src/main/java/projekt/substratum/common/Packages.java:580-619 | The map only grows. Its keys afterwards are the old keys plus the names of the examined themes that were admitted. |
| `SubstratumPackages.CollectedUntouched` | app/src/main/java/projekt/substratum/common/Packages.java:580-619 | A key that no examined theme writes keeps its old value, or stays absent. |
| `SubstratumPackages.CollectedLastWriter` | app/src/main/java/projekt/substratum/common/Packages.java:585-616 | The last examined theme writing a name decides its entry, `{author, packageName}`. A later theme with the same name overwrites an earlier one. |
| `SubstratumPackages.SearchNarrows` | app/src/main/java/projekt/substratum/common/Packages.java:569-580 | Every name present with a filter is present without one. |
| `SubstratumPackages.EmptyFilterKeepsAll` | app/src/main/java/projekt/substratum/common/Packages.java:571 | An empty filter gives the same map as a null one. |
| `SubstratumPackages.NameOrAuthorMatchPasses` | app/src/main/java/projekt/substratum/common/Packages.java:569-578 | A filter found, ignoring case, in the name or in the author lets the theme through. |
| `SubstratumPackages.FilteredOutNotInserted` | app/src/main/java/projekt/substratum/common/Packages.java:569-580 | A theme with name and author whose "name author" lacks the non-empty filter, ignoring case, is never added. |
| `SubstratumPackages.EmptyHomeTypeAddsEveryTheme` | app/src/main/java/projekt/substratum/common/Packages.java:592-597 | On the theme list with no filter, every examined theme is added under its name. |
| `SubstratumPackages.FoldKeys` | app/src/main/java/projekt/substratum/common/Packages.java:563-619 | The fold's keys are the old keys plus the names of the admitted themes. |
| `SubstratumPackages.FoldUntouched` | app/src/main/java/projekt/substratum/common/Packages.java:563-619 | The fold leaves a key that no theme writes unchanged. |
| `SubstratumPackages.FoldLastWriter` | app/src/main/java/projekt/substratum/common/Packages.java:563-619 | In the fold, the last theme writing a key decides its entry. |
| `SubstratumPackages.FoldEmptyFilter` | app/src/main/java/projekt/substratum/common/Packages.java:571 | Folding with an empty filter and with a null one agree. |

## Left out

- `AndromedaBinderService.java`: it is service binding, a sleep-polling thread, notifications and `System.exit`, with no decision logic to model.
- Drawables and bitmaps (`getBitmapFromVector`, `getBitmapFromDrawable`, `getAppIcon`, `getOverlayParentIcon`, the drawable fetch of `getPackageHeroImage`): graphics-library wrapping.
- One-line platform lookups (`getInstallerId`, `isPackageInstalled`, `validateResource`, `getAppVersion`, `getAppVersionCode`, `getThemeVersion`, `getOverlayMetadata` and the getters built on it, `getOverlaySubstratumVersion`, `getThemes`, `getThemesArray`, `getThemeChangelog`, `getPackageTemplateVersion`, `isSamsungTheme`): their results are fields of the package record.
- `isPackageDebuggable`: X.509 certificate parsing, a foreign crypto library.
- `uninstallPackage`: it issues a shell command or an IPC call.
- ZIP reading in `getSubstratumPackages`: the archive is its list of entry names. An archive that cannot be opened is only logged, which is the same as one with no matching entry.
- `ReadVariantPrioritizedColor` and `IOUtils.toByteArray`: the chosen resource name and the file's lines are inputs. The `IOException` paths are not modelled: a failure of `toByteArray` returns null, and an `IOException` while reading the lines returns the value found so far. Line splitting by `BufferedReader.readLine` is not modelled either.
- Logging, analytics (`PackageAnalytics.logPackageInfo`), `SharedPreferences`, `checkOMS` and `Build.VERSION`: logging and analytics are dropped; the rest are parameters.
- Localized `R.string` labels: opaque, given by the `getString` parameter.
- `SubstratumPackages.GetSubstratumPackages`: a `getApplicationInfo` or `createPackageContext` failure for a theme is not modelled; the themes are already-resolved records. A null `home_type`, which would end the scan with a `NullPointerException`, is not modelled either: the home type is a string.
- `JavaStrings.Lower`: maps only ASCII A-Z, whereas `toLowerCase(Locale.US)` also lower-cases non-ASCII letters.
- `PackageRegistry.Find`: takes the first record with the name. The platform's registry holds each name once.
- `Packages.GetResource`: a qualified name that resolves to a different package than the one queried yields 0. The platform would look that package up.
- Null elements in the `needsRecreate` target list and null trigger strings are not modelled: the lists hold strings.
