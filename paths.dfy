/**
 * System.IO.Path as it behaves on a Unix host: '/' is the only directory
 * separator and a rooted path is one that begins with it. The file name of
 * a Windows host, where '\' separates as well, is given for paths spelt
 * the Windows way.
 */
module Paths {
  import opened Wrappers

  const Separator: char := '/'

  function LastIndexOf(s: string, c: char): (r: Option<nat>)
    ensures r.Some? ==> r.value < |s| && s[r.value] == c && c !in s[r.value + 1..]
    ensures r.None? ==> c !in s
  {
    if s == [] then None
    else if s[|s| - 1] == c then Some(|s| - 1)
    else
      var r := LastIndexOf(s[..|s| - 1], c);
      assert r.Some? ==> s[r.value + 1..] == s[..|s| - 1][r.value + 1..] + [s[|s| - 1]];
      assert s == s[..|s| - 1] + [s[|s| - 1]];
      r
  }

  /** `Path.GetFileName`: what follows the last separator. */
  function GetFileName(p: string): (r: string)
    ensures |r| <= |p| && r == p[|p| - |r|..]
    ensures Separator !in r
    ensures |r| < |p| ==> p[|p| - |r| - 1] == Separator
  {
    match LastIndexOf(p, Separator)
    case None => p
    case Some(i) => p[i + 1..]
  }

  /** A suffix of `p` that `GetExtension` could return: a dot and at least one further character, none a dot or a separator. */
  ghost predicate ExtensionAt(p: string, k: nat) {
    k + 1 < |p| && p[k] == '.' && forall j :: k < j < |p| ==> p[j] != '.' && p[j] != Separator
  }

  /** `Path.GetExtension`: the last dot of the file name and what follows it, or "" when there is none or the dot ends the name. */
  function GetExtension(p: string): (r: string)
    ensures |r| <= |p| && r == p[|p| - |r|..]
    ensures r != "" ==> ExtensionAt(p, |p| - |r|)
    ensures r == "" ==> forall k :: 0 <= k < |p| ==> !ExtensionAt(p, k)
  {
    ExtensionBefore(p, |p|)
  }

  /** The scan of `GetExtension`, from position `i` back to the start. */
  function ExtensionBefore(p: string, i: nat): (r: string)
    requires i <= |p|
    requires forall j :: i <= j < |p| ==> p[j] != '.' && p[j] != Separator
    ensures |r| <= |p| && r == p[|p| - |r|..]
    ensures r != "" ==> ExtensionAt(p, |p| - |r|)
    ensures r == "" ==> forall k :: 0 <= k < |p| ==> !ExtensionAt(p, k)
    decreases i
  {
    if i == 0 then ""
    else if p[i - 1] == '.' then (if i == |p| then "" else p[i - 1..])
    else if p[i - 1] == Separator then ""
    else ExtensionBefore(p, i - 1)
  }

  /** `Path.GetFileNameWithoutExtension`: the file name up to its last dot. */
  function GetFileNameWithoutExtension(p: string): (r: string)
    ensures r <= GetFileName(p)
    ensures r == GetFileName(p) ==> '.' !in r
    ensures r != GetFileName(p) ==> GetFileName(p)[|r|] == '.' && '.' !in GetFileName(p)[|r| + 1..]
  {
    var name := GetFileName(p);
    match LastIndexOf(name, '.')
    case None => name
    case Some(i) => name[..i]
  }

  /** A directory separator of a Windows host: '\' and the alternative '/'. */
  predicate IsWindowsSeparator(c: char) {
    c == '\\' || c == Separator
  }

  /** `Path.GetFileName` on a Windows host: what follows the last '\' or '/'. */
  function GetWindowsFileName(p: string): (r: string)
    ensures |r| <= |p| && r == p[|p| - |r|..]
    ensures forall k :: 0 <= k < |r| ==> !IsWindowsSeparator(r[k])
    ensures |r| < |p| ==> IsWindowsSeparator(p[|p| - |r| - 1])
  {
    if p == [] || IsWindowsSeparator(p[|p| - 1]) then []
    else
      var init := p[..|p| - 1];
      var r := GetWindowsFileName(init);
      assert p[|p| - |r| - 1..] == init[|init| - |r|..] + [p[|p| - 1]];
      r + [p[|p| - 1]]
  }

  /** `Path.GetFileNameWithoutExtension` on a Windows host. */
  function GetWindowsFileNameWithoutExtension(p: string): (r: string)
    ensures r <= GetWindowsFileName(p)
    ensures r == GetWindowsFileName(p) ==> '.' !in r
    ensures r != GetWindowsFileName(p) ==> GetWindowsFileName(p)[|r|] == '.' && '.' !in GetWindowsFileName(p)[|r| + 1..]
  {
    var name := GetWindowsFileName(p);
    match LastIndexOf(name, '.')
    case None => name
    case Some(i) => name[..i]
  }

  /** A suffix free of separators that a separator precedes is the Windows file name. */
  lemma {:induction false} WindowsFileNameOfSuffix(dir: string, file: string)
    requires dir != [] && IsWindowsSeparator(dir[|dir| - 1])
    requires forall k :: 0 <= k < |file| ==> !IsWindowsSeparator(file[k])
    ensures GetWindowsFileName(dir + file) == file
    decreases |file|
  {
    if file == [] {
      assert dir + file == dir;
    } else {
      var init := file[..|file| - 1];
      assert (dir + file)[..|dir + file| - 1] == dir + init;
      assert forall k :: 0 <= k < |init| ==> init[k] == file[k];
      WindowsFileNameOfSuffix(dir, init);
      assert file == init + [file[|file| - 1]];
    }
  }

  /** A Windows path whose last component is `stem + ".dll"` has `stem` as its name without extension. */
  lemma WindowsStemOfDll(dir: string, stem: string)
    requires dir != [] && IsWindowsSeparator(dir[|dir| - 1])
    requires forall k :: 0 <= k < |stem| ==> !IsWindowsSeparator(stem[k])
    ensures GetWindowsFileNameWithoutExtension(dir + (stem + ".dll")) == stem
  {
    var file := stem + ".dll";
    forall k | 0 <= k < |file| ensures !IsWindowsSeparator(file[k]) {
      if k < |stem| { assert file[k] == stem[k]; }
    }
    WindowsFileNameOfSuffix(dir, file);
    StemOfDllName(dir + file, stem);
  }

  lemma StemOfDllName(p: string, stem: string)
    requires GetWindowsFileName(p) == stem + ".dll"
    ensures GetWindowsFileNameWithoutExtension(p) == stem
  {
    LastDotOfDll(stem);
  }

  lemma LastDotOfDll(stem: string)
    ensures LastIndexOf(stem + ".dll", '.') == Some(|stem|)
  {
    var s1, s2, s3, s4 := stem + ".", stem + ".d", stem + ".dl", stem + ".dll";
    assert s1[|s1| - 1] == '.';
    assert LastIndexOf(s1, '.') == Some(|stem|);
    assert s2[..|s2| - 1] == s1 && s2[|s2| - 1] == 'd';
    assert LastIndexOf(s2, '.') == Some(|stem|);
    assert s3[..|s3| - 1] == s2 && s3[|s3| - 1] == 'l';
    assert LastIndexOf(s3, '.') == Some(|stem|);
    assert s4[..|s4| - 1] == s3 && s4[|s4| - 1] == 'l';
  }

  /** `Path.IsPathRooted`. */
  predicate IsPathRooted(p: string) {
    |p| > 0 && p[0] == Separator
  }

  /** `Path.Combine` of two paths: a rooted second path wins, otherwise one separator joins them. */
  function Combine(a: string, b: string): (r: string)
    ensures IsPathRooted(b) ==> r == b
    ensures !IsPathRooted(b) ==> EndsWith(r, b)
  {
    if IsPathRooted(b) || a == [] then b
    else if b == [] then a
    else if a[|a| - 1] == Separator then a + b
    else a + [Separator] + b
  }

  predicate EndsWith(s: string, t: string) {
    |t| <= |s| && s[|s| - |t|..] == t
  }

  /** A stem and an extension glued together come apart again as `GetFileNameWithoutExtension` and `GetExtension`. */
  lemma {:induction false} StemAndExtension(dir: string, stem: string, ext: string)
    requires Separator !in stem
    requires |ext| >= 2 && ext[0] == '.' && '.' !in ext[1..] && Separator !in ext
    ensures GetFileName(Combine(dir, stem + ext)) == stem + ext
    ensures GetExtension(Combine(dir, stem + ext)) == ext
    ensures GetFileNameWithoutExtension(Combine(dir, stem + ext)) == stem
  {
    var file := stem + ext;
    var p := Combine(dir, file);
    assert Separator !in file by {
      forall j | 0 <= j < |file| ensures file[j] != Separator {
        if j < |stem| { assert file[j] == stem[j]; } else { assert file[j] == ext[j - |stem|]; }
      }
    }
    FileNameOfSuffix(p, file);
    ExtensionOfSuffix(p, ext);
    StemOfFile(p, stem, ext);
  }

  lemma FileNameOfSuffix(p: string, file: string)
    requires file != [] && Separator !in file
    requires EndsWith(p, file) && (|file| < |p| ==> p[|p| - |file| - 1] == Separator)
    ensures GetFileName(p) == file
  {
  }

  lemma ExtensionOfSuffix(p: string, ext: string)
    requires |ext| >= 2 && ext[0] == '.' && '.' !in ext[1..] && Separator !in ext
    requires EndsWith(p, ext)
    ensures GetExtension(p) == ext
  {
    var k := |p| - |ext|;
    assert ExtensionAt(p, k) by {
      forall j | k < j < |p| ensures p[j] != '.' && p[j] != Separator {
        assert p[j] == ext[j - k] == ext[1..][j - k - 1];
      }
    }
  }

  lemma StemOfFile(p: string, stem: string, ext: string)
    requires |ext| >= 2 && ext[0] == '.' && '.' !in ext[1..]
    requires GetFileName(p) == stem + ext
    ensures GetFileNameWithoutExtension(p) == stem
  {
    var file := stem + ext;
    assert file[|stem|] == '.';
  }
}
