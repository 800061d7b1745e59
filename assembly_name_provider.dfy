/**
 * The assembly-name provider: the gateway from the project generator to the
 * compilation pipeline and the package manager, with the memo of package
 * lookups by package root and the project-generation flag that decides
 * which package origins are left out of the solution.
 */
module AssemblyNames {
  import opened Wrappers
  import Text
  import Seqs
  import Flags
  import Preferences
  import opened ProjectModel

  /** `UnityEditor.PackageManager.PackageSource`; `Unlisted` is any origin the switch does not name. */
  datatype PackageSource = Unknown | BuiltIn | Embedded | Local | LocalTarball | Registry | Git | Unlisted(code: int)

  datatype PackageInfo = PackageInfo(name: string, source: PackageSource)

  const PackagesPrefix := "packages/"

  /** `k` ends the package-root segment of `assetPath`: no '/' between the prefix and `k`, and a '/' or the end at `k`. */
  ghost predicate PackageRootEnd(assetPath: string, k: nat) {
    |PackagesPrefix| <= k <= |assetPath|
    && (forall j :: |PackagesPrefix| <= j < k ==> assetPath[j] != '/')
    && (k == |assetPath| || assetPath[k] == '/')
  }

  /**
   * The package root of an asset path ("packages/<name>", lower-cased), or
   * None when the path does not start with "packages/" in any case.
   */
  function ResolvePotentialParentPackageAssetPath(assetPath: string): (r: Option<string>)
    ensures r.None? <==> !Text.StartsWithIgnoreCase(assetPath, PackagesPrefix)
    ensures r.Some? ==> exists k: nat :: PackageRootEnd(assetPath, k) && r.value == Text.ToLower(assetPath[..k])
  {
    if !Text.StartsWithIgnoreCase(assetPath, PackagesPrefix) then None
    else
      match Text.IndexOfFrom(assetPath, '/', |PackagesPrefix|)
      case None =>
        assert PackageRootEnd(assetPath, |assetPath|);
        assert assetPath[..|assetPath|] == assetPath;
        Some(Text.ToLower(assetPath))
      case Some(i) =>
        assert PackageRootEnd(assetPath, i);
        Some(Text.ToLower(assetPath[..i]))
  }

  /** A package root resolves to itself (the root is already lower case and has no further '/'). */
  lemma ResolveIdempotent(assetPath: string)
    requires ResolvePotentialParentPackageAssetPath(assetPath).Some?
    ensures ResolvePotentialParentPackageAssetPath(ResolvePotentialParentPackageAssetPath(assetPath).value)
         == ResolvePotentialParentPackageAssetPath(assetPath)
  {
    var root := ResolvePotentialParentPackageAssetPath(assetPath).value;
    var k: nat :| PackageRootEnd(assetPath, k) && root == Text.ToLower(assetPath[..k]);
    LowerIsIdempotent(assetPath[..k]);
    assert Text.ToLower(root[..|PackagesPrefix|]) == Text.ToLower(assetPath[..|PackagesPrefix|]) by {
      assert root[..|PackagesPrefix|] == Text.ToLower(assetPath[..|PackagesPrefix|]);
      LowerIsIdempotent(assetPath[..|PackagesPrefix|]);
    }
    assert forall j :: |PackagesPrefix| <= j < |root| ==> root[j] != '/' by {
      forall j | |PackagesPrefix| <= j < |root| ensures root[j] != '/' {
        assert assetPath[..k][j] == assetPath[j];
      }
    }
    var r2 := ResolvePotentialParentPackageAssetPath(root);
    assert Text.IndexOfFrom(root, '/', |PackagesPrefix|) == None;
    assert root[..|root|] == root;
  }

  /** Every asset below a package root resolves to that root. */
  lemma ResolveAssetInPackage(root: string, rest: string)
    requires Text.StartsWithIgnoreCase(root, PackagesPrefix)
    requires forall j :: |PackagesPrefix| <= j < |root| ==> root[j] != '/'
    ensures ResolvePotentialParentPackageAssetPath(root + "/" + rest) == Some(Text.ToLower(root))
  {
    var p := root + "/" + rest;
    assert p[..|PackagesPrefix|] == root[..|PackagesPrefix|];
    assert Text.IndexOfFrom(p, '/', |PackagesPrefix|) == Some(|root|) by {
      forall j | |PackagesPrefix| <= j < |root| ensures p[j] != '/' {
        assert p[j] == root[j];
      }
      assert p[|root|] == '/';
    }
    assert p[..|root|] == root;
  }

  lemma LowerIsIdempotent(s: string)
    ensures Text.ToLower(Text.ToLower(s)) == Text.ToLower(s)
  {
  }

  /** The project-generation bit that admits packages of each origin; None for an unlisted origin. */
  function SourceFlag(source: PackageSource): (r: Option<Flags.Mask>)
    ensures r.Some? ==> Flags.SingleBit(r.value)
    ensures r.None? <==> source.Unlisted?
  {
    match source
    case Embedded => Some(Flags.Embedded)
    case Registry => Some(Flags.Registry)
    case BuiltIn => Some(Flags.BuiltIn)
    case Unknown => Some(Flags.Unknown)
    case Local => Some(Flags.Local)
    case Git => Some(Flags.Git)
    case LocalTarball => Some(Flags.LocalTarBall)
    case Unlisted(_) => None
  }

  /** A package is kept out of the solution when its origin is listed and that origin's bit is off. */
  predicate IsExcludedPackage(package: Option<PackageInfo>, flags: Flags.Mask) {
    match package
    case None => false
    case Some(info) =>
      match SourceFlag(info.source)
      case None => false
      case Some(bit) => !Flags.HasFlag(flags, bit)
  }

  /** Toggling an origin's bit flips the verdict on every package of that origin. */
  lemma ToggleOriginFlipsExclusion(info: PackageInfo, flags: Flags.Mask)
    requires !info.source.Unlisted?
    ensures IsExcludedPackage(Some(info), Flags.Toggle(flags, SourceFlag(info.source).value))
         == !IsExcludedPackage(Some(info), flags)
  {
    var bit := SourceFlag(info.source).value;
    if Flags.HasFlag(flags, bit) {
      Flags.ToggleClears(flags, bit);
      assert !Flags.HasFlag(Flags.Toggle(flags, bit), bit);
    } else {
      Flags.ToggleSets(flags, bit);
    }
  }

  /**
   * The answers of the package manager as the provider gives them: the
   * memoised answer when the package root is cached, otherwise a fresh lookup.
   */
  datatype PackageIndex = PackageIndex(
    cache: map<string, Option<PackageInfo>>,
    lookup: string -> Option<PackageInfo>)

  function Answer(index: PackageIndex, key: string): Option<PackageInfo> {
    if key in index.cache then index.cache[key] else index.lookup(key)
  }

  /** The package an asset belongs to, None for a path outside "packages/". */
  function PackageOf(index: PackageIndex, assetPath: string): (r: Option<PackageInfo>)
    ensures !Text.StartsWithIgnoreCase(assetPath, PackagesPrefix) ==> r.None?
  {
    match ResolvePotentialParentPackageAssetPath(assetPath)
    case None => None
    case Some(key) => Answer(index, key)
  }

  /** `IsInternalizedPackagePath`: blank paths, paths with no package and unlisted origins are never excluded. */
  predicate IsInternalizedPath(index: PackageIndex, flags: Flags.Mask, path: string) {
    !Text.IsNullOrWhiteSpace(Some(path)) && IsExcludedPackage(PackageOf(index, path), flags)
  }

  /** The verdict, spelled out case by case. */
  lemma IsInternalizedPathCases(index: PackageIndex, flags: Flags.Mask, path: string)
    ensures Text.IsNullOrWhiteSpace(Some(path)) ==> !IsInternalizedPath(index, flags, path)
    ensures PackageOf(index, path).None? ==> !IsInternalizedPath(index, flags, path)
    ensures !Text.IsNullOrWhiteSpace(Some(path)) && PackageOf(index, path).Some?
            && !PackageOf(index, path).value.source.Unlisted? ==>
              (IsInternalizedPath(index, flags, path)
               <==> !Flags.HasFlag(flags, SourceFlag(PackageOf(index, path).value.source).value))
    ensures PackageOf(index, path).Some? && PackageOf(index, path).value.source.Unlisted? ==>
              !IsInternalizedPath(index, flags, path)
  {
  }

  /** The verdict depends only on the answers the index gives, not on what is memoised. */
  lemma InternalizedByAnswers(index: PackageIndex, other: PackageIndex, flags: Flags.Mask, path: string)
    requires forall key :: Answer(index, key) == Answer(other, key)
    ensures IsInternalizedPath(index, flags, path) == IsInternalizedPath(other, flags, path)
  {
  }

  predicate HasSourceFileWhere(assembly: Assembly, shouldFileBePartOfSolution: string -> bool) {
    exists f :: f in assembly.sourceFiles && shouldFileBePartOfSolution(f)
  }

  /** `GetAssemblies`: the assemblies with at least one source file the predicate accepts, in pipeline order. */
  function GetAssemblies(assemblies: seq<Assembly>, shouldFileBePartOfSolution: string -> bool): (r: seq<Assembly>)
    ensures forall a :: a in r <==> a in assemblies && 0 < |a.sourceFiles| && HasSourceFileWhere(a, shouldFileBePartOfSolution)
    ensures forall a :: a in r ==> exists i :: 0 <= i < |a.sourceFiles| && shouldFileBePartOfSolution(a.sourceFiles[i])
  {
    Seqs.Filter((a: Assembly) => 0 < |a.sourceFiles| && HasSourceFileWhere(a, shouldFileBePartOfSolution), assemblies)
  }

  /** Keeping the assemblies of one list then of another is keeping those of the two together. */
  lemma GetAssembliesAppend(s: seq<Assembly>, t: seq<Assembly>, pred: string -> bool)
    ensures GetAssemblies(s + t, pred) == GetAssemblies(s, pred) + GetAssemblies(t, pred)
  {
    Seqs.FilterAppend((a: Assembly) => 0 < |a.sourceFiles| && HasSourceFileWhere(a, pred), s, t);
  }

  class AssemblyNameProvider {
    var packageInfoCache: map<string, Option<PackageInfo>>
    /** `PackageInfo.FindForAssetPath` as the package manager currently answers it. */
    var packageLookup: string -> Option<PackageInfo>
    var projectGenerationFlag: Flags.Mask
    /** The package roots handed to the package manager, in order. */
    ghost var lookups: seq<string>
    const prefs: Preferences.PreferenceStore
    const unity: Unity

    constructor (prefs: Preferences.PreferenceStore, unity: Unity, packageLookup: string -> Option<PackageInfo>)
      ensures this.prefs == prefs && this.unity == unity && this.packageLookup == packageLookup
      ensures packageInfoCache == map[] && lookups == []
      ensures projectGenerationFlag == prefs.GetInt(Flags.ProjectGenerationFlagKey, Flags.GenerationNone)
      ensures CacheCoherent()
    {
      this.prefs := prefs;
      this.unity := unity;
      this.packageLookup := packageLookup;
      packageInfoCache := map[];
      lookups := [];
      projectGenerationFlag := prefs.GetInt(Flags.ProjectGenerationFlagKey, Flags.GenerationNone);
    }

    function Index(): PackageIndex
      reads this
    {
      PackageIndex(packageInfoCache, packageLookup)
    }

    /** Every memoised answer is what the package manager would say now. */
    ghost predicate CacheCoherent()
      reads this
    {
      forall key :: key in packageInfoCache ==> packageInfoCache[key] == packageLookup(key)
    }

    lemma CoherentAnswersAreLookups(key: string)
      requires CacheCoherent()
      ensures Answer(Index(), key) == packageLookup(key)
    {
    }

    /** The package manager's view changes (a package is added, moved or removed). */
    method PackagesChanged(newLookup: string -> Option<PackageInfo>)
      modifies this
      ensures packageLookup == newLookup
      ensures packageInfoCache == old(packageInfoCache) && projectGenerationFlag == old(projectGenerationFlag)
      ensures lookups == old(lookups)
    {
      packageLookup := newLookup;
    }

    method ResetPackageInfoCache()
      modifies this
      ensures packageInfoCache == map[]
      ensures packageLookup == old(packageLookup) && projectGenerationFlag == old(projectGenerationFlag)
      ensures lookups == old(lookups)
      ensures CacheCoherent()
    {
      packageInfoCache := map[];
    }

    /**
     * `FindForAssetPath`: None for a path outside "packages/" without
     * touching the memo; the memoised answer on a hit; otherwise one
     * lookup, whose answer (None included) is memoised under the root.
     */
    method FindForAssetPath(assetPath: string) returns (r: Option<PackageInfo>)
      modifies this
      ensures r == PackageOf(old(Index()), assetPath)
      ensures ResolvePotentialParentPackageAssetPath(assetPath).None? ==>
                packageInfoCache == old(packageInfoCache) && lookups == old(lookups)
      ensures ResolvePotentialParentPackageAssetPath(assetPath).Some?
              && ResolvePotentialParentPackageAssetPath(assetPath).value in old(packageInfoCache) ==>
                packageInfoCache == old(packageInfoCache) && lookups == old(lookups)
      ensures ResolvePotentialParentPackageAssetPath(assetPath).Some?
              && ResolvePotentialParentPackageAssetPath(assetPath).value !in old(packageInfoCache) ==>
                var key := ResolvePotentialParentPackageAssetPath(assetPath).value;
                packageInfoCache == old(packageInfoCache)[key := packageLookup(key)]
                && lookups == old(lookups) + [key]
      ensures forall key :: Answer(Index(), key) == Answer(old(Index()), key)
      ensures packageLookup == old(packageLookup) && projectGenerationFlag == old(projectGenerationFlag)
      ensures old(CacheCoherent()) ==> CacheCoherent()
    {
      var parentPackageAssetPath := ResolvePotentialParentPackageAssetPath(assetPath);
      if parentPackageAssetPath.None? {
        return None;
      }
      var key := parentPackageAssetPath.value;
      if key in packageInfoCache {
        return packageInfoCache[key];
      }
      r := packageLookup(key);
      lookups := lookups + [key];
      packageInfoCache := packageInfoCache[key := r];
    }

    method IsInternalizedPackagePath(path: string) returns (r: bool)
      modifies this
      ensures r == IsInternalizedPath(old(Index()), projectGenerationFlag, path)
      ensures forall key :: Answer(Index(), key) == Answer(old(Index()), key)
      ensures packageLookup == old(packageLookup) && projectGenerationFlag == old(projectGenerationFlag)
      ensures old(CacheCoherent()) ==> CacheCoherent()
    {
      if Text.IsNullOrWhiteSpace(Some(path)) {
        return false;
      }
      var packageInfo := FindForAssetPath(path);
      if packageInfo.None? {
        return false;
      }
      match SourceFlag(packageInfo.value.source)
      case None => r := false;
      case Some(bit) => r := !Flags.HasFlag(projectGenerationFlag, bit);
    }

    /** `ToggleProjectGeneration`, through the setter that stores the flag and assigns the field. */
    method ToggleProjectGeneration(preference: Flags.Mask)
      modifies this, prefs
      ensures projectGenerationFlag == Flags.Toggle(old(projectGenerationFlag), preference)
      ensures prefs.ints == old(prefs.ints)[Flags.ProjectGenerationFlagKey := projectGenerationFlag]
      ensures prefs.strings == old(prefs.strings)
      ensures packageInfoCache == old(packageInfoCache) && packageLookup == old(packageLookup)
      ensures lookups == old(lookups)
    {
      var value := Flags.Toggle(projectGenerationFlag, preference);
      prefs.SetInt(Flags.ProjectGenerationFlagKey, value);
      projectGenerationFlag := value;
    }
  }
}
