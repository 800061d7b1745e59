/**
 * The configuration generator (`ConfigGeneration`): the VS Code settings,
 * which every sync rewrites, the workspace, OmniSharp and .editorconfig
 * files, which a sync writes only when the configuration flag asks for them
 * or the caller forces it, and the marker file that records that the
 * package has configured the project once.
 */
module ConfigGeneration {
  import Paths
  import FileIO
  import Flags
  import Preferences
  import ConfigTexts

  const MarkerFileName := "TSKDoNotDelete.txt"
  const MarkerText := "This file is used by the TSK VSCode Editor package. Deleting it will cause your configuration to be overwritten."

  function MarkerFile(projectDirectory: string): string {
    Paths.Combine(projectDirectory, MarkerFileName)
  }

  /** One `WriteAllText` call. */
  datatype Write = Write(path: string, content: string)

  function WriteAll(d: FileIO.Disk, writes: seq<Write>): FileIO.Disk
    decreases |writes|
  {
    if writes == [] then d else WriteAll(FileIO.Write(d, writes[0].path, writes[0].content), writes[1..])
  }

  /** The files after `writes`, computed on the map alone: later writes win. */
  function Overlay(files: map<string, string>, writes: seq<Write>): map<string, string>
    decreases |writes|
  {
    if writes == [] then files else Overlay(files[writes[0].path := writes[0].content], writes[1..])
  }

  lemma {:induction false} WriteAllAppend(d: FileIO.Disk, p: seq<Write>, q: seq<Write>)
    ensures WriteAll(d, p + q) == WriteAll(WriteAll(d, p), q)
    decreases |p|
  {
    if p == [] {
      assert p + q == q;
    } else {
      assert (p + q)[0] == p[0] && (p + q)[1..] == p[1..] + q;
      WriteAllAppend(FileIO.Write(d, p[0].path, p[0].content), p[1..], q);
    }
  }

  /** Writing leaves the files as `Overlay` says and logs every path in order. */
  lemma {:induction false} WriteAllFiles(d: FileIO.Disk, writes: seq<Write>)
    ensures WriteAll(d, writes).files == Overlay(d.files, writes)
    ensures WriteAll(d, writes).writeLog == d.writeLog + seq(|writes|, k requires 0 <= k < |writes| => writes[k].path)
    decreases |writes|
  {
    if writes != [] {
      var d1 := FileIO.Write(d, writes[0].path, writes[0].content);
      assert d1.files == d.files[writes[0].path := writes[0].content];
      WriteAllFiles(d1, writes[1..]);
    }
  }

  /** What the writes leave in place, taken on their own. */
  lemma {:induction false} OverlayUnion(files: map<string, string>, writes: seq<Write>)
    ensures Overlay(files, writes) == files + Overlay(map[], writes)
    decreases |writes|
  {
    if writes != [] {
      var w := writes[0];
      OverlayUnion(files[w.path := w.content], writes[1..]);
      OverlayUnion(map[w.path := w.content], writes[1..]);
      assert files[w.path := w.content] == files + map[w.path := w.content];
      assert map[][w.path := w.content] == map[w.path := w.content];
    }
  }

  /** A sync that runs again leaves the same files: every write is unconditional. */
  lemma WritingTwiceKeepsFiles(d: FileIO.Disk, writes: seq<Write>)
    ensures WriteAll(WriteAll(d, writes), writes).files == WriteAll(d, writes).files
  {
    WriteAllFiles(d, writes);
    WriteAllFiles(WriteAll(d, writes), writes);
    OverlayUnion(d.files, writes);
    OverlayUnion(Overlay(d.files, writes), writes);
    var extra := Overlay(map[], writes);
    assert d.files + extra + extra == d.files + extra;
  }

  /** One optional file: written when the flag asks for it or the caller forces it. */
  predicate Wanted(configFlag: Flags.Mask, file: Flags.Mask, canForce: bool) {
    Flags.HasFlag(configFlag, file) || canForce
  }

  function WriteWhen(wanted: bool, path: string, content: string): seq<Write> {
    if wanted then [Write(path, content)] else []
  }

  /** The writes of `Sync(canForce)`, in order. */
  function SyncWrites(projectDirectory: string, projectName: string, configFlag: Flags.Mask, canForce: bool,
                      texts: ConfigTexts.Texts): seq<Write>
  {
    [Write(ConfigTexts.SettingsFile(projectDirectory), texts.settingsJson)]
    + WriteWhen(Wanted(configFlag, Flags.Workspace, canForce),
                ConfigTexts.WorkspaceFile(projectDirectory, projectName), texts.workspaceJson)
    + WriteWhen(Wanted(configFlag, Flags.OmniSharp, canForce),
                ConfigTexts.OmniSharpFile(projectDirectory), texts.omniSharpJson)
    + WriteWhen(Wanted(configFlag, Flags.EditorConfig, canForce),
                ConfigTexts.EditorConfigFile(projectDirectory), texts.editorConfig)
  }

  // ---------------------------------------------------------------------
  // The paths are pairwise different

  /** The `n`-th character from the end of a path joined to a relative name is the name's. */
  lemma CombinedEnding(directory: string, name: string, n: nat)
    requires !Paths.IsPathRooted(name) && 1 <= n <= |name|
    ensures var p := Paths.Combine(directory, name); n <= |p| && p[|p| - n] == name[|name| - n]
  {
    var p := Paths.Combine(directory, name);
    assert p[|p| - n] == p[|p| - |name|..][|name| - n];
  }

  lemma SettingsFileMarks(projectDirectory: string)
    ensures var p := ConfigTexts.SettingsFile(projectDirectory); |p| >= 6 && p[|p| - 4] == 'j' && p[|p| - 6] == 's'
  {
    CombinedEnding(ConfigTexts.VSCodeDirectory(projectDirectory), "settings.json", 4);
    CombinedEnding(ConfigTexts.VSCodeDirectory(projectDirectory), "settings.json", 6);
  }

  lemma WorkspaceFileMarks(projectDirectory: string, projectName: string)
    ensures var p := ConfigTexts.WorkspaceFile(projectDirectory, projectName); |p| >= 4 && p[|p| - 4] == 'p'
  {
    var name := projectName + ".code-workspace";
    if !Paths.IsPathRooted(name) {
      CombinedEnding(projectDirectory, name, 4);
    }
    assert |name| == |projectName| + 15;
    assert name[|projectName| + 11] == ".code-workspace"[11];
  }

  lemma OmniSharpFileMarks(projectDirectory: string)
    ensures var p := ConfigTexts.OmniSharpFile(projectDirectory); |p| >= 6 && p[|p| - 4] == 'j' && p[|p| - 6] == 'p'
  {
    CombinedEnding(projectDirectory, "omnisharp.json", 4);
    CombinedEnding(projectDirectory, "omnisharp.json", 6);
  }

  lemma EditorConfigFileMarks(projectDirectory: string)
    ensures var p := ConfigTexts.EditorConfigFile(projectDirectory); |p| >= 4 && p[|p| - 4] == 'n'
  {
    CombinedEnding(projectDirectory, ".editorconfig", 4);
  }

  lemma MarkerFileMarks(projectDirectory: string)
    ensures var p := MarkerFile(projectDirectory); |p| >= 4 && p[|p| - 4] == '.'
  {
    CombinedEnding(projectDirectory, MarkerFileName, 4);
  }

  /**
   * The settings, workspace, OmniSharp, .editorconfig and marker files are
   * five different paths, whatever the project directory and project name:
   * the fourth character from the end tells them apart, except the settings
   * from the OmniSharp file, which differ two characters earlier.
   */
  lemma ConfigPathsDistinct(projectDirectory: string, projectName: string)
    ensures var settings := ConfigTexts.SettingsFile(projectDirectory);
      var workspace := ConfigTexts.WorkspaceFile(projectDirectory, projectName);
      var omniSharp := ConfigTexts.OmniSharpFile(projectDirectory);
      var editorConfig := ConfigTexts.EditorConfigFile(projectDirectory);
      var marker := MarkerFile(projectDirectory);
      && settings != workspace && settings != omniSharp && settings != editorConfig
      && workspace != omniSharp && workspace != editorConfig && omniSharp != editorConfig
      && marker != settings && marker != workspace && marker != omniSharp && marker != editorConfig
  {
    SettingsFileMarks(projectDirectory);
    WorkspaceFileMarks(projectDirectory, projectName);
    OmniSharpFileMarks(projectDirectory);
    EditorConfigFileMarks(projectDirectory);
    MarkerFileMarks(projectDirectory);
  }

  // ---------------------------------------------------------------------
  // What a sync leaves

  /**
   * After `Sync(canForce)` the settings hold the fixed text whatever they
   * held before; an optional file holds its text when it was wanted and is
   * as it was otherwise; every other file, the marker included, is as it was.
   */
  lemma SyncResult(d: FileIO.Disk, projectDirectory: string, projectName: string, configFlag: Flags.Mask,
                   canForce: bool, texts: ConfigTexts.Texts)
    requires Paths.Separator !in projectName
    ensures var files := WriteAll(d, SyncWrites(projectDirectory, projectName, configFlag, canForce, texts)).files;
      var settings := ConfigTexts.SettingsFile(projectDirectory);
      settings in files && files[settings] == texts.settingsJson
    ensures var files := WriteAll(d, SyncWrites(projectDirectory, projectName, configFlag, canForce, texts)).files;
      var workspace := ConfigTexts.WorkspaceFile(projectDirectory, projectName);
      && (Wanted(configFlag, Flags.Workspace, canForce) ==> workspace in files && files[workspace] == texts.workspaceJson)
      && (!Wanted(configFlag, Flags.Workspace, canForce) ==> Kept(d.files, files, workspace))
    ensures var files := WriteAll(d, SyncWrites(projectDirectory, projectName, configFlag, canForce, texts)).files;
      var omniSharp := ConfigTexts.OmniSharpFile(projectDirectory);
      && (Wanted(configFlag, Flags.OmniSharp, canForce) ==> omniSharp in files && files[omniSharp] == texts.omniSharpJson)
      && (!Wanted(configFlag, Flags.OmniSharp, canForce) ==> Kept(d.files, files, omniSharp))
    ensures var files := WriteAll(d, SyncWrites(projectDirectory, projectName, configFlag, canForce, texts)).files;
      var editorConfig := ConfigTexts.EditorConfigFile(projectDirectory);
      && (Wanted(configFlag, Flags.EditorConfig, canForce) ==> editorConfig in files && files[editorConfig] == texts.editorConfig)
      && (!Wanted(configFlag, Flags.EditorConfig, canForce) ==> Kept(d.files, files, editorConfig))
    ensures var files := WriteAll(d, SyncWrites(projectDirectory, projectName, configFlag, canForce, texts)).files;
      forall path :: path !in ConfigFiles(projectDirectory, projectName) ==> Kept(d.files, files, path)
  {
    ConfigPathsDistinct(projectDirectory, projectName);
    WriteAllFiles(d, SyncWrites(projectDirectory, projectName, configFlag, canForce, texts));
    FourWrites(d.files, Write(ConfigTexts.SettingsFile(projectDirectory), texts.settingsJson),
               Write(ConfigTexts.WorkspaceFile(projectDirectory, projectName), texts.workspaceJson),
               Wanted(configFlag, Flags.Workspace, canForce),
               Write(ConfigTexts.OmniSharpFile(projectDirectory), texts.omniSharpJson),
               Wanted(configFlag, Flags.OmniSharp, canForce),
               Write(ConfigTexts.EditorConfigFile(projectDirectory), texts.editorConfig),
               Wanted(configFlag, Flags.EditorConfig, canForce));
  }

  /** The shape of a sync: one write that always happens and three that may, to four different paths. */
  lemma FourWrites(files0: map<string, string>, first: Write, w1: Write, b1: bool, w2: Write, b2: bool, w3: Write, b3: bool)
    requires first.path != w1.path && first.path != w2.path && first.path != w3.path
    requires w1.path != w2.path && w1.path != w3.path && w2.path != w3.path
    ensures var files := Overlay(files0, [first] + WriteWhen(b1, w1.path, w1.content) + WriteWhen(b2, w2.path, w2.content)
                                     + WriteWhen(b3, w3.path, w3.content));
      && first.path in files && files[first.path] == first.content
      && (b1 ==> w1.path in files && files[w1.path] == w1.content) && (!b1 ==> Kept(files0, files, w1.path))
      && (b2 ==> w2.path in files && files[w2.path] == w2.content) && (!b2 ==> Kept(files0, files, w2.path))
      && (b3 ==> w3.path in files && files[w3.path] == w3.content) && (!b3 ==> Kept(files0, files, w3.path))
      && forall path :: path !in {first.path, w1.path, w2.path, w3.path} ==> Kept(files0, files, path)
  {
    var m1 := files0[first.path := first.content];
    var m2 := if b1 then m1[w1.path := w1.content] else m1;
    var m3 := if b2 then m2[w2.path := w2.content] else m2;
    var m4 := if b3 then m3[w3.path := w3.content] else m3;
    var writes1 := [first] + WriteWhen(b1, w1.path, w1.content);
    var writes2 := writes1 + WriteWhen(b2, w2.path, w2.content);
    OverlayAppend(files0, [first], WriteWhen(b1, w1.path, w1.content));
    OverlayAppend(files0, writes1, WriteWhen(b2, w2.path, w2.content));
    OverlayAppend(files0, writes2, WriteWhen(b3, w3.path, w3.content));
    assert Overlay(files0, [first]) == m1;
    OverlayWhen(m1, b1, w1.path, w1.content);
    OverlayWhen(m2, b2, w2.path, w2.content);
    OverlayWhen(m3, b3, w3.path, w3.content);
  }

  lemma {:induction false} OverlayAppend(files: map<string, string>, p: seq<Write>, q: seq<Write>)
    ensures Overlay(files, p + q) == Overlay(Overlay(files, p), q)
    decreases |p|
  {
    if p == [] {
      assert p + q == q;
    } else {
      assert (p + q)[0] == p[0] && (p + q)[1..] == p[1..] + q;
      OverlayAppend(files[p[0].path := p[0].content], p[1..], q);
    }
  }

  lemma OverlayWhen(files: map<string, string>, wanted: bool, path: string, content: string)
    ensures Overlay(files, WriteWhen(wanted, path, content)) == if wanted then files[path := content] else files
  {
    if wanted {
      assert Overlay(files, [Write(path, content)]) == Overlay(files[path := content], []);
    }
  }

  /** `path` is in `after` exactly when it was in `before`, with the same content. */
  predicate Kept(before: map<string, string>, after: map<string, string>, path: string) {
    (path in after <==> path in before) && (path in before ==> after[path] == before[path])
  }

  function ConfigFiles(projectDirectory: string, projectName: string): set<string> {
    {ConfigTexts.SettingsFile(projectDirectory), ConfigTexts.WorkspaceFile(projectDirectory, projectName),
     ConfigTexts.OmniSharpFile(projectDirectory), ConfigTexts.EditorConfigFile(projectDirectory)}
  }

  /** `ConfigGeneration`. */
  class ConfigGenerator {
    const projectDirectory: string
    const projectName: string
    const flagHandler: Flags.FlagHandler
    const fs: FileIO.FileSystem
    const texts: ConfigTexts.Texts

    /**
     * As written, the flag handler and file provider passed in are not
     * used: a fresh handler over the editor preferences and the real disk
     * are. The directory is taken as given, not normalised.
     */
    constructor (tempDirectory: string, injectedFlagHandler: Flags.FlagHandler, injectedFileIO: FileIO.FileSystem,
                 editorPrefs: Preferences.PreferenceStore, disk: FileIO.FileSystem, texts: ConfigTexts.Texts)
      ensures projectDirectory == tempDirectory
      ensures projectName == Paths.GetFileName(tempDirectory)
      ensures fresh(flagHandler) && flagHandler.prefs == editorPrefs
      ensures flagHandler.configFlag == editorPrefs.GetInt(Flags.ConfigFlagKey, Flags.ConfigNone)
      ensures fs == disk && this.texts == texts
    {
      projectDirectory := tempDirectory;
      projectName := Paths.GetFileName(tempDirectory);
      flagHandler := new Flags.FlagHandler(editorPrefs);
      fs := disk;
      this.texts := texts;
    }

    /**
     * `TskFileExists`: true when the marker is there; otherwise it writes
     * the marker and answers false, so the next call answers true.
     */
    method TskFileExists() returns (r: bool)
      modifies fs
      ensures r <==> old(MarkerFile(projectDirectory) in fs.files)
      ensures r ==> fs.State() == old(fs.State())
      ensures !r ==> fs.State() == FileIO.Write(old(fs.State()), MarkerFile(projectDirectory), MarkerText)
      ensures MarkerFile(projectDirectory) in fs.files
      ensures fs.directories == old(fs.directories)
    {
      var doNotDelete := MarkerFile(projectDirectory);
      if fs.Exists(doNotDelete) {
        return true;
      }
      fs.WriteAllText(doNotDelete, MarkerText);
      return false;
    }

    /** `Sync(canForce)`: exactly the writes of `SyncWrites`, and the `.vscode` directory unless a file has its name. */
    method Sync(canForce: bool)
      modifies fs
      ensures fs.State() == WriteAll(old(fs.State()), SyncWrites(projectDirectory, projectName, flagHandler.configFlag, canForce, texts))
      ensures var dir := ConfigTexts.VSCodeDirectory(projectDirectory);
        fs.directories == if dir in old(fs.files) then old(fs.directories) else old(fs.directories) + {dir}
    {
      var flag := flagHandler.configFlag;
      WriteVSCodeSettingsFiles();
      ghost var d := old(fs.State());
      ghost var settings := [Write(ConfigTexts.SettingsFile(projectDirectory), texts.settingsJson)];
      ghost var workspace := WriteWhen(Wanted(flag, Flags.Workspace, canForce),
                                       ConfigTexts.WorkspaceFile(projectDirectory, projectName), texts.workspaceJson);
      ghost var omniSharp := WriteWhen(Wanted(flag, Flags.OmniSharp, canForce),
                                       ConfigTexts.OmniSharpFile(projectDirectory), texts.omniSharpJson);
      ghost var editorConfig := WriteWhen(Wanted(flag, Flags.EditorConfig, canForce),
                                          ConfigTexts.EditorConfigFile(projectDirectory), texts.editorConfig);
      WriteWanted(flag, Flags.Workspace, canForce, ConfigTexts.WorkspaceFile(projectDirectory, projectName), texts.workspaceJson);
      WriteAllAppend(d, settings, workspace);
      WriteWanted(flag, Flags.OmniSharp, canForce, ConfigTexts.OmniSharpFile(projectDirectory), texts.omniSharpJson);
      WriteAllAppend(d, settings + workspace, omniSharp);
      WriteWanted(flag, Flags.EditorConfig, canForce, ConfigTexts.EditorConfigFile(projectDirectory), texts.editorConfig);
      WriteAllAppend(d, settings + workspace + omniSharp, editorConfig);
    }

    /** `WriteVSCodeSettingsFiles`: the settings are rewritten on every sync. */
    method WriteVSCodeSettingsFiles()
      modifies fs
      ensures fs.State() == WriteAll(old(fs.State()), [Write(ConfigTexts.SettingsFile(projectDirectory), texts.settingsJson)])
      ensures var dir := ConfigTexts.VSCodeDirectory(projectDirectory);
        fs.directories == if dir in old(fs.files) then old(fs.directories) else old(fs.directories) + {dir}
    {
      var vsCodeDirectory := ConfigTexts.VSCodeDirectory(projectDirectory);
      if !fs.Exists(vsCodeDirectory) {
        fs.CreateDirectory(vsCodeDirectory);
      }
      fs.WriteAllText(ConfigTexts.SettingsFile(projectDirectory), texts.settingsJson);
    }

    /** `WriteWorkspaceFile`, `WriteOmniSharpConfigFile` and `WriteEditorConfigFile`: one file, when wanted. */
    method WriteWanted(configFlag: Flags.Mask, file: Flags.Mask, canForce: bool, path: string, content: string)
      modifies fs
      ensures fs.State() == WriteAll(old(fs.State()), WriteWhen(Wanted(configFlag, file, canForce), path, content))
      ensures fs.directories == old(fs.directories)
    {
      if Flags.HasFlag(configFlag, file) || canForce {
        fs.WriteAllText(path, content);
      }
    }
  }
}
