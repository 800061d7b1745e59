/**
 * Discovery of VS Code installations (`VSCodeDiscovery`): the candidate
 * paths of the platform, kept when they exist, named after what follows
 * their longest common prefix, and computed once per discovery object.
 */
module VSCodeDiscovery {
  import opened Wrappers
  import Seqs
  import Text

  /** `CodeEditor.Installation`. */
  datatype Installation = Installation(name: string, path: string)

  /** The editor platform the package was compiled for; Windows reads two environment variables. */
  datatype Platform =
    | MacOS
    | Windows(programFiles: Option<string>, localAppData: Option<string>)
    | OtherPlatform

  /** `GetProgramFiles` / `GetLocalAppData`: the variable with '\' turned into '/'; a missing one concatenates as "". */
  function EnvironmentPath(variable: Option<string>): string {
    match variable
    case None => ""
    case Some(value) => Text.ReplaceChar(value, '\\', '/')
  }

  function CandidatePaths(platform: Platform): seq<string> {
    match platform
    case MacOS =>
      ["/Applications/Visual Studio Code.app",
       "/Applications/Visual Studio Code - Insiders.app"]
    case Windows(programFiles, localAppData) =>
      var p := EnvironmentPath(programFiles);
      var l := EnvironmentPath(localAppData);
      [p + "/Microsoft VS Code/bin/code.cmd",
       p + "/Microsoft VS Code/Code.exe",
       p + "/Microsoft VS Code Insiders/bin/code-insiders.cmd",
       p + "/Microsoft VS Code Insiders/Code.exe",
       l + "/Programs/Microsoft VS Code/bin/code.cmd",
       l + "/Programs/Microsoft VS Code/Code.exe",
       l + "/Programs/Microsoft VS Code Insiders/bin/code-insiders.cmd",
       l + "/Programs/Microsoft VS Code Insiders/Code.exe"]
    case OtherPlatform =>
      ["/usr/bin/code",
       "/bin/code",
       "/usr/local/bin/code",
       "/var/lib/flatpak/exports/bin/com.visualstudio.code",
       "/snap/current/bin/code",
       "/snap/bin/code"]
  }

  // ---------------------------------------------------------------------
  // The longest common prefix

  /** How many leading characters `a` and `b` share. */
  function PairPrefixLength(a: string, b: string): (n: nat)
    ensures n <= |a| && n <= |b|
    ensures a[..n] == b[..n]
    ensures n < |a| && n < |b| ==> a[n] != b[n]
  {
    if a == [] || b == [] || a[0] != b[0] then 0
    else
      var n := 1 + PairPrefixLength(a[1..], b[1..]);
      assert a[..n] == [a[0]] + a[1..][..n - 1] && b[..n] == [b[0]] + b[1..][..n - 1];
      n
  }

  predicate DiffersAt(a: string, b: string, n: nat) {
    n < |a| && n < |b| && a[n] != b[n]
  }

  /** The characters `a` and `b` share are exactly the first `PairPrefixLength(a, b)`. */
  lemma PairPrefixUnique(a: string, b: string, n: nat)
    requires n <= |a| && n <= |b|
    requires forall j :: 0 <= j < n ==> a[j] == b[j]
    requires n < |a| && n < |b| ==> a[n] != b[n]
    ensures n == PairPrefixLength(a, b)
  {
  }

  /** The length of the prefix all of `paths` share, folded from the first path on. */
  function CommonPrefixLength(paths: seq<string>): (n: nat)
    requires |paths| > 0
    ensures forall k :: 0 <= k < |paths| ==> n <= |paths[k]|
  {
    if |paths| == 1 then |paths[0]|
    else PairPrefixLength(paths[0][..CommonPrefixLength(paths[..|paths| - 1])], paths[|paths| - 1])
  }

  function CommonPrefix(paths: seq<string>): string
    requires |paths| > 0
  {
    paths[0][..CommonPrefixLength(paths)]
  }

  predicate IsCommonPrefix(p: string, paths: seq<string>) {
    forall k :: 0 <= k < |paths| ==> p <= paths[k]
  }

  /** `CommonPrefix` is a prefix of every path, and every common prefix is a prefix of it. */
  lemma {:induction false} CommonPrefixIsLongest(paths: seq<string>)
    requires |paths| > 0
    ensures IsCommonPrefix(CommonPrefix(paths), paths)
    ensures forall q :: IsCommonPrefix(q, paths) ==> q <= CommonPrefix(paths)
  {
    var lcp := CommonPrefix(paths);
    if |paths| > 1 {
      var init := paths[..|paths| - 1];
      var last := paths[|paths| - 1];
      CommonPrefixIsLongest(init);
      var base := CommonPrefix(init);
      assert init[0] == paths[0];
      var n := PairPrefixLength(base, last);
      assert lcp == base[..n];
      forall k | 0 <= k < |paths| ensures lcp <= paths[k] {
        if k < |paths| - 1 {
          assert init[k] == paths[k];
        } else {
          assert last[..n] == base[..n];
        }
      }
      forall q | IsCommonPrefix(q, paths) ensures q <= lcp {
        assert IsCommonPrefix(q, init) by {
          forall k | 0 <= k < |init| ensures q <= init[k] {
            assert init[k] == paths[k];
          }
        }
        assert q <= base;
        assert q <= last;
        assert |q| <= n;
        assert q == base[..|q|];
      }
    }
  }

  /**
   * `GetLongestCommonPrefix`: the nested loop that shortens `baseLength`
   * path by path, at the first character that differs from the first path.
   */
  method GetLongestCommonPrefix(paths: seq<string>) returns (lcp: string)
    requires |paths| > 0
    ensures lcp == CommonPrefix(paths)
  {
    var baseLength: nat := |paths[0]|;
    ghost var first := paths[0];
    var pathIndex := 1;
    while pathIndex < |paths|
      invariant 1 <= pathIndex <= |paths|
      invariant baseLength == CommonPrefixLength(paths[..pathIndex])
    {
      var path := paths[pathIndex];
      assert paths[..pathIndex + 1][..pathIndex] == paths[..pathIndex];
      ghost var base := paths[0][..baseLength];
      ghost var bound := baseLength;
      baseLength := if baseLength < |path| then baseLength else |path|;
      var i := 0;
      while i < baseLength
        invariant 0 <= i <= baseLength <= bound && baseLength <= |path|
        invariant forall j :: 0 <= j < i ==> path[j] == first[j]
        invariant baseLength < bound && baseLength < |path| ==> DiffersAt(path, first, baseLength)
      {
        if path[i] == paths[0][i] {
          i := i + 1;
          continue;
        }
        baseLength := i;
        break;
      }
      PairPrefixUnique(base, path, baseLength);
      pathIndex := pathIndex + 1;
    }
    assert paths[..pathIndex] == paths;
    lcp := paths[0][..baseLength];
  }

  // ---------------------------------------------------------------------
  // Naming

  function InstallationName(path: string): string {
    if Text.Contains(path, "Insiders") then "Visual Studio Code Insiders" else "Visual Studio Code"
  }

  /** What is left of `path` after the common prefix has no separator of either kind. */
  predicate IsLeaf(rest: string) {
    !(Text.Contains(rest, "/") || Text.Contains(rest, "\\"))
  }

  predicate KeepsFirstOnly(existing: seq<string>)
    requires |existing| > 0
  {
    var lcp := CommonPrefix(existing);
    |existing| == 1 || (|existing| == 2 && exists k :: 0 <= k < 2 && IsLeaf(existing[k][|lcp|..]))
  }

  /** The two-path case of `FindInstallationPaths` spelt out for the first and the second path. */
  lemma KeepsFirstOnlyCases(existing: seq<string>)
    requires |existing| > 0
    ensures var n := |CommonPrefix(existing)|;
      KeepsFirstOnly(existing) <==>
        |existing| == 1 || (|existing| == 2 && (IsLeaf(existing[0][n..]) || IsLeaf(existing[1][n..])))
  {
    var n := |CommonPrefix(existing)|;
    if |existing| == 2 && IsLeaf(existing[0][n..]) {
      assert 0 <= 0 < 2 && IsLeaf(existing[0][n..]);
    }
    if |existing| == 2 && IsLeaf(existing[1][n..]) {
      assert 0 <= 1 < 2 && IsLeaf(existing[1][n..]);
    }
  }

  /** The naming cases of `FindInstallationPaths` over the paths that exist. */
  function NameInstallations(existing: seq<string>): seq<Installation> {
    if existing == [] then []
    else if KeepsFirstOnly(existing) then [Installation(InstallationName(existing[0]), existing[0])]
    else
      var lcp := CommonPrefix(existing);
      seq(|existing|, k requires 0 <= k < |existing| =>
        Installation("Visual Studio Code Insiders (" + existing[k][|lcp|..] + ")", existing[k]))
  }

  /**
   * Nothing exists, nothing is found; one path, or two of which one ends
   * right after the common prefix, give one installation for the first path;
   * otherwise every path, in order, is named after what follows the prefix.
   */
  lemma NameInstallationsCases(existing: seq<string>)
    ensures existing == [] ==> NameInstallations(existing) == []
    ensures existing != [] && KeepsFirstOnly(existing) ==>
      NameInstallations(existing) == [Installation(InstallationName(existing[0]), existing[0])]
    ensures existing != [] && !KeepsFirstOnly(existing) ==>
      && |NameInstallations(existing)| == |existing|
      && forall k :: 0 <= k < |existing| ==>
           var rest := existing[k][|CommonPrefix(existing)|..];
           && CommonPrefix(existing) + rest == existing[k]
           && NameInstallations(existing)[k] == Installation("Visual Studio Code Insiders (" + rest + ")", existing[k])
  {
    if existing != [] {
      CommonPrefixIsLongest(existing);
    }
  }

  /** Every installation found is one of the paths that exist, and something exists exactly when something is found. */
  lemma NameInstallationsPaths(existing: seq<string>)
    ensures forall inst :: inst in NameInstallations(existing) ==> inst.path in existing
    ensures |NameInstallations(existing)| <= |existing|
    ensures NameInstallations(existing) == [] <==> existing == []
  {
    if existing != [] && !KeepsFirstOnly(existing) {
      forall inst | inst in NameInstallations(existing) ensures inst.path in existing {
        var k :| 0 <= k < |existing| && NameInstallations(existing)[k] == inst;
      }
    }
  }

  /** What one discovery finds: the candidates that exist, named. */
  function Discover(platform: Platform, pathExists: string -> bool): seq<Installation> {
    NameInstallations(Seqs.Filter(pathExists, CandidatePaths(platform)))
  }

  /** Only candidates that pass the existence check are reported. */
  lemma DiscoveredPathsExist(platform: Platform, pathExists: string -> bool)
    ensures forall inst :: inst in Discover(platform, pathExists) ==>
              inst.path in CandidatePaths(platform) && pathExists(inst.path)
    ensures Discover(platform, pathExists) == [] <==> forall p :: p in CandidatePaths(platform) ==> !pathExists(p)
  {
    var existing := Seqs.Filter(pathExists, CandidatePaths(platform));
    NameInstallationsPaths(existing);
    if existing != [] {
      assert existing[0] in existing;
    }
  }

  /** `VSCodeDiscovery`: `installations` is `m_Installations`, None until the first call. */
  class Discovery {
    var installations: Option<seq<Installation>>
    const platform: Platform
    /** `Directory.Exists` on macOS, `FileInfo.Exists` elsewhere. */
    const pathExists: string -> bool

    constructor (platform: Platform, pathExists: string -> bool)
      ensures installations.None? && this.platform == platform && this.pathExists == pathExists
    {
      installations := None;
      this.platform := platform;
      this.pathExists := pathExists;
    }

    /** `PathCallback`: discovers on the first call; every later call answers the same, without looking again. */
    method PathCallback() returns (r: seq<Installation>)
      modifies this
      ensures old(installations).Some? ==> installations == old(installations)
      ensures old(installations).None? ==> installations == Some(Discover(platform, pathExists))
      ensures r == installations.value
    {
      if installations.None? {
        installations := Some([]);
        FindInstallationPaths();
      }
      return installations.value;
    }

    /** `FindInstallationPaths`: when no candidate exists, the list stays as it was. */
    method FindInstallationPaths()
      requires installations == Some([])
      modifies this
      ensures installations == Some(Discover(platform, pathExists))
    {
      var existingPaths := Seqs.Filter(pathExists, CandidatePaths(platform));
      assert Discover(platform, pathExists) == NameInstallations(existingPaths);
      if existingPaths == [] {
        return;
      }
      var lcp := GetLongestCommonPrefix(existingPaths);
      KeepsFirstOnlyCases(existingPaths);
      if |existingPaths| == 1 || (|existingPaths| == 2 && (IsLeaf(existingPaths[0][|lcp|..]) || IsLeaf(existingPaths[1][|lcp|..]))) {
        var path := existingPaths[0];
        installations := Some([Installation(InstallationName(path), path)]);
        assert installations.value == NameInstallations(existingPaths);
      } else {
        installations := Some(seq(|existingPaths|, k requires 0 <= k < |existingPaths| =>
          Installation("Visual Studio Code Insiders (" + existingPaths[k][|lcp|..] + ")", existingPaths[k])));
        assert installations.value == NameInstallations(existingPaths);
      }
    }
  }
}
