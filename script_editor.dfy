/**
 * The external code editor (`VSCodeScriptEditor`) of both packages: which
 * files it opens, the command line that opens them, which executables are
 * VS Code, and the change notification it hands to project generation.
 * The current package and the legacy one differ only where `Package` says.
 */
module ScriptEditor {
  import opened Wrappers
  import Seqs
  import Text
  import Paths
  import Preferences
  import VSCodeDiscovery
  import AssemblyNames
  import ProjectModel
  import ProjectSync

  const ArgumentsKey := "vscode_arguments"
  const ExtensionsKey := "vscode_userExtensions"
  const DefaultAppKey := "kScriptsDefaultApp"
  const DefaultInstallationName := "Visual Studio Code"

  /** The current package (with configuration generation) or the legacy one. */
  datatype Package = Current | Legacy

  /** `k_SupportedFileNames`: lower-cased executable names without spaces. */
  const SupportedFileNames: seq<string> :=
    ["code.exe", "visualstudiocode.app", "visualstudiocode-insiders.app", "vscode.app", "code.app",
     "code.cmd", "code-insiders.cmd", "code", "com.visualstudio.code"]

  // ---------------------------------------------------------------------
  // Extensions

  /** The extensions each package adds to the editor's own. */
  function CustomExtensions(package: Package): seq<string> {
    match package
    case Current => ["json", "asmdef", "log", "jslib"]
    case Legacy => ["json", "asmdef", "log"]
  }

  /**
   * `DefaultExtensions`: the built-in, then the user, then the package's
   * extensions, each once, where it first occurs.
   */
  function DefaultExtensions(package: Package, builtin: seq<string>, user: seq<string>): (r: seq<string>)
    ensures forall x :: x in r <==> x in builtin || x in user || x in CustomExtensions(package)
    ensures Seqs.NoDuplicates(r)
    ensures Seqs.Distinct(builtin) <= r
    ensures Seqs.Distinct(builtin + user) <= r
  {
    var all := builtin + user + CustomExtensions(package);
    assert all == builtin + (user + CustomExtensions(package));
    Seqs.DistinctPrefix(builtin, user + CustomExtensions(package));
    Seqs.DistinctPrefix(builtin + user, CustomExtensions(package));
    Seqs.Distinct(all)
  }

  /** The extensions come in the order they are first met in the built-in, user and package lists. */
  lemma DefaultExtensionsOrder(package: Package, builtin: seq<string>, user: seq<string>)
    ensures var all := builtin + user + CustomExtensions(package);
      var r := DefaultExtensions(package, builtin, user);
      (forall x :: x in r <==> x in all)
      && forall i, j :: 0 <= i < j < |r| ==> Seqs.IndexOf(all, r[i]) < Seqs.IndexOf(all, r[j])
  {
    var all := builtin + user + CustomExtensions(package);
    assert DefaultExtensions(package, builtin, user) == Seqs.Distinct(all);
    Seqs.DistinctInFirstOccurrenceOrder(all);
  }

  const ExtensionPrefixChars: set<char> := {'.', '*'}

  /** `HandledExtensions`: the non-empty ';'-separated entries, without leading '.' and '*'. */
  function HandledExtensions(setting: string): (r: seq<string>)
    ensures forall e :: e in r ==> ';' !in e && (e == [] || e[0] !in ExtensionPrefixChars)
  {
    var entries := Text.NonEmpty(Text.Split(setting, ';'));
    var r := Seqs.Map((e: string) => Text.TrimStart(e, ExtensionPrefixChars), entries);
    assert forall e :: e in r ==> ';' !in e by {
      forall e | e in r ensures ';' !in e {
        var k :| 0 <= k < |r| && r[k] == e;
        assert entries[k] in entries;
      }
    }
    r
  }

  /** An extension a user would write in the setting: not empty, no separator, no leading wildcard or dot. */
  predicate IsPlainExtension(e: string) {
    e != [] && ';' !in e && e[0] !in ExtensionPrefixChars
  }

  /** The default setting, `string.Join(";", …)` of plain extensions, reads back as those extensions. */
  lemma HandledExtensionsOfJoin(extensions: seq<string>)
    requires forall e :: e in extensions ==> IsPlainExtension(e)
    ensures HandledExtensions(Text.Join(extensions, ';')) == extensions
  {
    var entries := Text.Split(Text.Join(extensions, ';'), ';');
    if extensions == [] {
      assert entries == [""];
      assert Text.NonEmpty(entries) == [] by {
        assert forall p :: p in Text.NonEmpty(entries) <==> p in entries && p != "";
      }
    } else {
      Text.SplitJoin(extensions, ';');
      Seqs.FilterKeepsAll((p: string) => p != "", extensions);
      var r := HandledExtensions(Text.Join(extensions, ';'));
      assert |r| == |extensions|;
      forall k | 0 <= k < |r| ensures r[k] == extensions[k] {
        assert extensions[k] in extensions;
      }
    }
  }

  /** `SupportsExtension`: the path has an extension and, without its dot, it is handled. */
  function SupportsExtension(handled: seq<string>, path: string): bool {
    var extension := Paths.GetExtension(path);
    extension != "" && Text.TrimStart(extension, {'.'}) in handled
  }

  /** A path is supported exactly when its extension is '.' followed by a handled entry. */
  lemma SupportsExtensionMeans(handled: seq<string>, path: string)
    ensures SupportsExtension(handled, path) <==>
      exists e :: e in handled && Paths.GetExtension(path) == "." + e
  {
    var extension := Paths.GetExtension(path);
    if extension != "" {
      assert |extension| >= 2 && extension[0] == '.' && extension[1] != '.' by {
        var k := |path| - |extension|;
        assert Paths.ExtensionAt(path, k);
        assert extension[1] == path[k + 1];
      }
      DottedExtension(extension);
      forall e | extension == "." + e ensures e == extension[1..] {
        assert ("." + e)[1..] == e;
      }
    } else {
      forall e ensures extension != "." + e {
        assert |"." + e| >= 1;
      }
    }
  }

  /** An extension of one dot and a name that does not start with a dot loses exactly that dot. */
  lemma DottedExtension(extension: string)
    requires |extension| >= 2 && extension[0] == '.' && extension[1] != '.'
    ensures extension == "." + extension[1..]
    ensures Text.TrimStart(extension, {'.'}) == extension[1..]
  {
    assert Text.TrimStart(extension[1..], {'.'}) == extension[1..];
  }

  /** A path ending in '.' and a handled entry that holds no '.' or separator is supported. */
  lemma SupportsExtensionOfSuffix(handled: seq<string>, path: string, e: string)
    requires e in handled && |e| >= 1 && '.' !in e && Paths.Separator !in e
    requires Paths.EndsWith(path, "." + e)
    ensures SupportsExtension(handled, path)
  {
    var ext := "." + e;
    assert ext[1..] == e;
    Paths.ExtensionOfSuffix(path, ext);
    assert Text.TrimStart(e, {'.'}) == e by { assert e[0] in e; }
  }

  // ---------------------------------------------------------------------
  // Installations

  /** The executable's name as `k_SupportedFileNames` spells them: lower case, no spaces. */
  function InstallationFileName(editorPath: string): string {
    Text.RemoveChar(Paths.GetFileName(Text.ToLower(editorPath)), ' ')
  }

  predicate IsSupportedEditorPath(editorPath: string) {
    InstallationFileName(editorPath) in SupportedFileNames
  }

  /** The first installation at `path`, as LINQ `First` finds it. */
  function FirstWithPath(installations: seq<VSCodeDiscovery.Installation>, path: string): (r: Option<VSCodeDiscovery.Installation>)
    ensures r.Some? ==> r.value.path == path
    ensures r.Some? ==> exists k :: 0 <= k < |installations| && installations[k] == r.value &&
                          forall j :: 0 <= j < k ==> installations[j].path != path
    ensures r.None? ==> forall inst :: inst in installations ==> inst.path != path
  {
    if installations == [] then None
    else if installations[0].path == path then Some(installations[0])
    else
      var r := FirstWithPath(installations[1..], path);
      assert forall inst :: inst in installations ==> inst == installations[0] || inst in installations[1..];
      if r.Some? then
        var k :| 0 <= k < |installations[1..]| && installations[1..][k] == r.value &&
                 forall j :: 0 <= j < k ==> installations[1..][j].path != path;
        assert installations[k + 1] == r.value;
        assert forall j :: 1 <= j < k + 1 ==> installations[j] == installations[1..][j - 1];
        r
      else r
  }

  /**
   * `TryGetInstallationForPath`: nothing for an executable that is not VS
   * Code; otherwise the first discovered installation at that very path,
   * or, when there is none (no installations at all included), one named
   * "Visual Studio Code" for it.
   */
  function InstallationForPath(installations: seq<VSCodeDiscovery.Installation>, editorPath: string): (r: Option<VSCodeDiscovery.Installation>)
    ensures r.None? <==> !IsSupportedEditorPath(editorPath)
    ensures r.Some? ==> r.value.path == editorPath
    ensures r.Some? ==> (r.value in installations ||
              (r.value.name == DefaultInstallationName && forall inst :: inst in installations ==> inst.path != editorPath))
  {
    if !IsSupportedEditorPath(editorPath) then None
    else match FirstWithPath(installations, editorPath)
      case Some(inst) => Some(inst)
      case None => Some(VSCodeDiscovery.Installation(DefaultInstallationName, editorPath))
  }

  /** `IsVSCodeInstallation`: the editor path Unity reports, either separator accepted. */
  function IsVSCodeInstallation(path: Option<string>): bool {
    if Text.IsNullOrEmpty(path) then false
    else
      var normalized := Text.ReplaceChar(Text.ReplaceChar(Text.ToLower(path.value), '\\', Paths.Separator), '/', Paths.Separator);
      Text.RemoveChar(Paths.GetFileName(normalized), ' ') in SupportedFileNames
  }

  /**
   * The start-up test agrees with the installation test once '\' is read as
   * a separator: a Windows-style path names the same executable.
   */
  lemma IsVSCodeInstallationMeans(path: string)
    ensures IsVSCodeInstallation(Some(path)) == (path != "" && IsSupportedEditorPath(Text.ReplaceChar(path, '\\', '/')))
  {
    var a := Text.ReplaceChar(Text.ReplaceChar(Text.ToLower(path), '\\', Paths.Separator), '/', Paths.Separator);
    var b := Text.ToLower(Text.ReplaceChar(path, '\\', '/'));
    assert a == b by {
      assert |a| == |b|;
      forall i | 0 <= i < |a| ensures a[i] == b[i] {
        assert Text.ToLowerChar('\\') == '\\';
      }
    }
  }

  // ---------------------------------------------------------------------
  // The command line

  /** The argument templates, as the placeholders they are made of. */
  datatype Piece = Literal(text: string) | ProjectPath | ProjectName | File | Line | Column

  /** What the placeholders stand for. */
  datatype Values = Values(projectPath: string, projectName: string, file: string, line: string, column: string)

  function PieceText(piece: Piece, v: Values): string {
    match piece
    case Literal(text) => text
    case ProjectPath => v.projectPath
    case ProjectName => v.projectName
    case File => v.file
    case Line => v.line
    case Column => v.column
  }

  /** A template with each placeholder replaced by its value. */
  function Render(pieces: seq<Piece>, v: Values): string {
    if pieces == [] then "" else PieceText(pieces[0], v) + Render(pieces[1..], v)
  }

  lemma {:induction false} RenderAppend(a: seq<Piece>, b: seq<Piece>, v: Values)
    ensures Render(a + b, v) == Render(a, v) + Render(b, v)
  {
    if a == [] {
      assert a + b == b;
    } else {
      assert (a + b)[0] == a[0];
      assert (a + b)[1..] == a[1..] + b;
      RenderAppend(a[1..], b, v);
      assert Render(a + b, v) == PieceText(a[0], v) + Render(a[1..] + b, v);
    }
  }

  lemma {:induction false} RenderThree(a: Piece, b: Piece, c: Piece, v: Values)
    ensures Render([a, b, c], v) == PieceText(a, v) + PieceText(b, v) + PieceText(c, v)
  {
    assert [a, b, c][1..] == [b, c] && [b, c][1..] == [c] && [c][1..] == [];
    assert Render([c], v) == PieceText(c, v) + Render([], v);
    assert Render([b, c], v) == PieceText(b, v) + Render([c], v);
  }

  lemma {:induction false} RenderSix(a: Piece, b: Piece, c: Piece, d: Piece, e: Piece, f: Piece, v: Values)
    ensures Render([a, b, c, d, e, f], v) == Render([a, b, c], v) + Render([d, e, f], v)
  {
    assert [a, b, c, d, e, f] == [a, b, c] + [d, e, f];
    RenderAppend([a, b, c], [d, e, f], v);
  }

  const ProjectHead: seq<Piece> := [Literal("\""), ProjectPath, Literal("\"")]
  const WorkspaceHead: seq<Piece> := [Literal("\""), ProjectPath, Literal("/"), ProjectName, Literal(".code-workspace"), Literal("\"")]
  const GotoPieces: seq<Piece> := [Literal(" -g \""), File, Literal("\":"), Line, Literal(":"), Column]

  /** `ExternalEditorDefaultArgument`, written in the pieces of its template. */
  const ExternalEditorDefaultArgument :=
    ("\"" + "$(ProjectPath)" + "\"") + (" -g \"" + "$(File)" + "\":" + "$(Line)" + ":" + "$(Column)")
  /** `ExternalEditorWorkplaceDefaultArgument`, the legacy package's `DefaultArgument`. */
  const ExternalEditorWorkplaceDefaultArgument :=
    ("\"" + ("$(ProjectPath)" + "/" + "$(ProjectName)" + ".code-workspace") + "\"") +
    (" -g \"" + "$(File)" + "\":" + "$(Line)" + ":" + "$(Column)")

  const PlaceholderValues := Values("$(ProjectPath)", "$(ProjectName)", "$(File)", "$(Line)", "$(Column)")

  lemma ProjectHeadText(v: Values)
    ensures Render(ProjectHead, v) == Quote(v.projectPath)
  {
    RenderThree(Literal("\""), ProjectPath, Literal("\""), v);
  }

  lemma WorkspaceHeadText(v: Values)
    ensures Render(WorkspaceHead, v) == Quote(v.projectPath + "/" + v.projectName + ".code-workspace")
  {
    RenderSix(Literal("\""), ProjectPath, Literal("/"), ProjectName, Literal(".code-workspace"), Literal("\""), v);
    RenderThree(Literal("\""), ProjectPath, Literal("/"), v);
    RenderThree(ProjectName, Literal(".code-workspace"), Literal("\""), v);
  }

  lemma GotoText(v: Values)
    ensures Render(GotoPieces, v) == " -g \"" + v.file + "\":" + v.line + ":" + v.column
  {
    RenderSix(Literal(" -g \""), File, Literal("\":"), Line, Literal(":"), Column, v);
    RenderThree(Literal(" -g \""), File, Literal("\":"), v);
    RenderThree(Line, Literal(":"), Column, v);
  }

  /** `ExternalEditorDefaultArgument` is the project template spelled with placeholders. */
  lemma DefaultArgumentIsTemplate()
    ensures Render(ProjectHead + GotoPieces, PlaceholderValues) == ExternalEditorDefaultArgument
  {
    RenderAppend(ProjectHead, GotoPieces, PlaceholderValues);
    ProjectHeadText(PlaceholderValues);
    GotoText(PlaceholderValues);
  }

  /** `ExternalEditorWorkplaceDefaultArgument` is the workspace template spelled with placeholders. */
  lemma WorkplaceArgumentIsTemplate()
    ensures Render(WorkspaceHead + GotoPieces, PlaceholderValues) == ExternalEditorWorkplaceDefaultArgument
  {
    RenderAppend(WorkspaceHead, GotoPieces, PlaceholderValues);
    WorkspaceHeadText(PlaceholderValues);
    GotoText(PlaceholderValues);
  }

  function WorkspacePath(projectDirectory: string): string {
    projectDirectory + "/" + Paths.GetFileName(projectDirectory) + ".code-workspace"
  }

  function Quote(s: string): string {
    "\"" + s + "\""
  }

  /** `-1` is what Unity passes for "no line" and "no column". */
  function NormalizeLine(line: int): int {
    if line == -1 then 1 else line
  }

  function NormalizeColumn(column: int): int {
    if column == -1 then 0 else column
  }

  /** Whether the stored arguments are the package's own default rather than a user's template. */
  predicate IsDefaultArguments(package: Package, editorArguments: string) {
    match package
    case Current => editorArguments == ExternalEditorDefaultArgument || editorArguments == ExternalEditorWorkplaceDefaultArgument
    case Legacy => editorArguments == ExternalEditorWorkplaceDefaultArgument
  }

  /** Whether the command goes to a file rather than only opening the project. */
  predicate OpensFile(projectDirectory: string, path: string) {
    projectDirectory != path && |path| != 0
  }

  /**
   * The default command, built by hand: the workspace file (or the project
   * directory), quoted, then ` -g "<file>":<line>:<column>` when a file
   * other than the project is opened.
   */
  function BuiltInArguments(opensWorkspace: bool, projectDirectory: string, path: string, line: int, column: int): string {
    var head := if opensWorkspace then Quote(WorkspacePath(projectDirectory)) else Quote(projectDirectory);
    if OpensFile(projectDirectory, path) then head + GotoTarget(path, line, column) else head
  }

  function GotoTarget(path: string, line: int, column: int): string {
    " -g \"" + path + "\":" + Text.IntToString(line) + ":" + Text.IntToString(column)
  }

  /**
   * The hand-built default is the template it stands for, with the project
   * directory, its name, the file, the line and the column filled in; the
   * part that goes to the file is there exactly when a file other than the
   * project is opened.
   */
  lemma BuiltInArgumentsFollowTemplate(opensWorkspace: bool, projectDirectory: string, path: string, line: int, column: int)
    ensures var head := if opensWorkspace then WorkspaceHead else ProjectHead;
            var pieces := head + (if OpensFile(projectDirectory, path) then GotoPieces else []);
            BuiltInArguments(opensWorkspace, projectDirectory, path, line, column) ==
            Render(pieces, Values(projectDirectory, Paths.GetFileName(projectDirectory), path, Text.IntToString(line), Text.IntToString(column)))
  {
    var v := Values(projectDirectory, Paths.GetFileName(projectDirectory), path, Text.IntToString(line), Text.IntToString(column));
    var head := if opensWorkspace then WorkspaceHead else ProjectHead;
    var tail := if OpensFile(projectDirectory, path) then GotoPieces else [];
    RenderAppend(head, tail, v);
    ProjectHeadText(v);
    WorkspaceHeadText(v);
    GotoText(v);
    if !OpensFile(projectDirectory, path) {
      assert Render(tail, v) == "";
    }
  }

  /**
   * The `arguments` of `OpenProject` for an already normalised line and
   * column. A user's template goes to Unity's `CodeEditor.ParseArgument`
   * (`parseArgument`), except for the project itself, which opens the
   * workspace; the default is built by hand. `editorArgument` is the
   * current package's workspace flag; the legacy package always opens the
   * workspace.
   */
  function CommandArguments(package: Package, editorArguments: string, editorArgument: bool, projectDirectory: string,
                            path: string, line: int, column: int, parseArgument: (string, string, int, int) -> string): string
  {
    if !IsDefaultArguments(package, editorArguments) then
      if projectDirectory != path then parseArgument(editorArguments, path, line, column) else WorkspacePath(projectDirectory)
    else BuiltInArguments(package.Legacy? || editorArgument, projectDirectory, path, line, column)
  }

  /** What is started: `open` with the editor on macOS, the editor itself elsewhere, hidden for a ".cmd". */
  datatype Launch = Launch(fileName: string, arguments: string, hidden: bool)

  function Launcher(isOSX: bool, defaultApp: string, command: string): Launch {
    if isOSX then Launch("open", "-n \"" + defaultApp + "\" --args " + command, false)
    else Launch(defaultApp, command, Text.EndsWithIgnoreCase(defaultApp, ".cmd"))
  }

  /** What `OpenProject` reads besides its arguments. */
  datatype Session = Session(
    package: Package,
    editorArguments: string,
    editorArgument: bool,
    handled: seq<string>,
    projectDirectory: string,
    isOSX: bool,
    defaultApp: string)

  /**
   * `OpenProject`: None (it answers false) for a file it does not handle or
   * that does not exist; otherwise the process it starts. The empty path
   * ("Open C# Project") is never refused.
   */
  function Open(session: Session, fileExists: string -> bool, parseArgument: (string, string, int, int) -> string,
                path: string, line: int, column: int): (r: Option<Launch>)
    ensures r.None? <==> path != "" && (!SupportsExtension(session.handled, path) || !fileExists(path))
  {
    if path != "" && (!SupportsExtension(session.handled, path) || !fileExists(path)) then None
    else
      var command := CommandArguments(session.package, session.editorArguments, session.editorArgument, session.projectDirectory,
                                      path, NormalizeLine(line), NormalizeColumn(column), parseArgument);
      Some(Launcher(session.isOSX, session.defaultApp, command))
  }

  /**
   * Opening a file with the default arguments starts the editor on the
   * workspace (or, for the current package without the workspace flag, the
   * project directory) and sends it to the file at the normalised line and
   * column, which is never -1.
   */
  lemma OpenFileWithDefaults(session: Session, fileExists: string -> bool, parseArgument: (string, string, int, int) -> string,
                             path: string, line: int, column: int)
    requires IsDefaultArguments(session.package, session.editorArguments) && !session.isOSX
    requires SupportsExtension(session.handled, path) && fileExists(path) && path != session.projectDirectory
    ensures var r := Open(session, fileExists, parseArgument, path, line, column);
      var head := if session.package.Current? && !session.editorArgument then ProjectHead else WorkspaceHead;
      var projectName := Paths.GetFileName(session.projectDirectory);
      && r.Some? && r.value.fileName == session.defaultApp
      && r.value.arguments == Render(head + GotoPieces, Values(session.projectDirectory, projectName, path,
                                     Text.IntToString(NormalizeLine(line)), Text.IntToString(NormalizeColumn(column))))
      && NormalizeLine(line) != -1 && NormalizeColumn(column) != -1
      && (line != -1 ==> NormalizeLine(line) == line) && (column != -1 ==> NormalizeColumn(column) == column)
  {
    assert path != "" by { assert Paths.GetExtension(path) != ""; }
    BuiltInArgumentsFollowTemplate(session.package.Legacy? || session.editorArgument, session.projectDirectory,
                                   path, NormalizeLine(line), NormalizeColumn(column));
  }

  /** Asking for the project itself opens its workspace, whatever template the user set. */
  lemma OpenProjectItself(session: Session, fileExists: string -> bool, parseArgument: (string, string, int, int) -> string,
                          line: int, column: int)
    requires !IsDefaultArguments(session.package, session.editorArguments) && !session.isOSX
    requires session.projectDirectory == "" || (SupportsExtension(session.handled, session.projectDirectory) && fileExists(session.projectDirectory))
    ensures var r := Open(session, fileExists, parseArgument, session.projectDirectory, line, column);
      r.Some? && r.value.arguments == WorkspacePath(session.projectDirectory)
  {
  }

  // ---------------------------------------------------------------------
  // Change notifications

  /** LINQ `Union`. */
  function Union<T(==,!new)>(a: seq<T>, b: seq<T>): seq<T> {
    Seqs.Distinct(a + b)
  }

  /** The affected list `SyncIfNeeded` hands on: added, deleted, moved and moved-from, united in that order. */
  function AffectedFiles(added: seq<string>, deleted: seq<string>, moved: seq<string>, movedFrom: seq<string>): seq<string> {
    Union(Union(Union(added, deleted), moved), movedFrom)
  }

  /** Uniting the lists one after another is taking the distinct files of all four, in the order of first mention. */
  lemma AffectedFilesInOrder(added: seq<string>, deleted: seq<string>, moved: seq<string>, movedFrom: seq<string>)
    ensures AffectedFiles(added, deleted, moved, movedFrom) == Seqs.Distinct(added + deleted + moved + movedFrom)
  {
    Seqs.DistinctOfUnion(added + deleted, moved);
    Seqs.DistinctOfUnion(added + deleted + moved, movedFrom);
  }

  /** Every file of the four lists, once. */
  lemma AffectedFilesContents(added: seq<string>, deleted: seq<string>, moved: seq<string>, movedFrom: seq<string>)
    ensures forall f :: f in AffectedFiles(added, deleted, moved, movedFrom) <==>
              f in added || f in deleted || f in moved || f in movedFrom
    ensures Seqs.NoDuplicates(AffectedFiles(added, deleted, moved, movedFrom))
  {
    var all := added + deleted + moved + movedFrom;
    var affected := AffectedFiles(added, deleted, moved, movedFrom);
    AffectedFilesInOrder(added, deleted, moved, movedFrom);
    assert affected == Seqs.Distinct(all);
    forall f
      ensures f in affected <==> f in added || f in deleted || f in moved || f in movedFrom
    {
      assert f in affected <==> f in all;
      assert f in all <==> f in added + deleted + moved || f in movedFrom;
      assert f in added + deleted + moved <==> f in added + deleted || f in moved;
    }
  }

  /** The files added come first, in their own order. */
  lemma AffectedFilesAddedFirst(added: seq<string>, deleted: seq<string>, moved: seq<string>, movedFrom: seq<string>)
    ensures Seqs.Distinct(added) <= AffectedFiles(added, deleted, moved, movedFrom)
  {
    var first := Union(added, deleted);
    var second := Union(first, moved);
    Seqs.DistinctPrefix(added, deleted);
    Seqs.DistinctOfDistinct(first);
    Seqs.DistinctPrefix(first, moved);
    Seqs.DistinctOfDistinct(second);
    Seqs.DistinctPrefix(second, movedFrom);
  }

  // ---------------------------------------------------------------------
  // The editor object

  class Editor {
    const package: Package
    /** `m_Discoverability`. */
    const discovery: VSCodeDiscovery.Discovery
    /** `m_ProjectGeneration`. */
    const generator: ProjectSync.ProjectGenerator
    const prefs: Preferences.PreferenceStore
    /** `EditorSettings.projectGenerationBuiltinExtensions`. */
    const builtinExtensions: seq<string>
    const isOSX: bool
    /** `File.Exists`. */
    const fileExists: string -> bool
    /** Unity's `CodeEditor.ParseArgument`. */
    const parseArgument: (string, string, int, int) -> string
    /** `m_EditorArguments` (the legacy `m_Arguments`): None until first read. */
    var editorArguments: Option<string>

    constructor (package: Package, discovery: VSCodeDiscovery.Discovery, generator: ProjectSync.ProjectGenerator,
                 prefs: Preferences.PreferenceStore, builtinExtensions: seq<string>, isOSX: bool,
                 fileExists: string -> bool, parseArgument: (string, string, int, int) -> string)
      ensures this.package == package && this.discovery == discovery && this.generator == generator && this.prefs == prefs
      ensures this.builtinExtensions == builtinExtensions && this.isOSX == isOSX
      ensures this.fileExists == fileExists && this.parseArgument == parseArgument
      ensures editorArguments.None?
    {
      this.package := package;
      this.discovery := discovery;
      this.generator := generator;
      this.prefs := prefs;
      this.builtinExtensions := builtinExtensions;
      this.isOSX := isOSX;
      this.fileExists := fileExists;
      this.parseArgument := parseArgument;
      editorArguments := None;
    }

    function DefaultArgument(): string {
      match package
      case Current => ExternalEditorDefaultArgument
      case Legacy => ExternalEditorWorkplaceDefaultArgument
    }

    /** The `EditorArguments` getter's answer: the remembered value, else the preference, else the default. */
    function EditorArguments(): string
      reads this, prefs
    {
      match editorArguments
      case Some(value) => value
      case None => prefs.GetString(ArgumentsKey, DefaultArgument())
    }

    /** `HandledExtensionsString`: the user's setting, else the defaults joined with ';'. */
    function HandledExtensionsString(): string
      reads prefs
    {
      prefs.GetString(ExtensionsKey, Text.Join(DefaultExtensions(package, builtinExtensions, generator.provider.unity.userExtensions), ';'))
    }

    /** With no setting stored and plain default extensions, the handled extensions are the defaults. */
    lemma HandledExtensionsDefault()
      requires ExtensionsKey !in prefs.strings
      requires forall e :: e in builtinExtensions + generator.provider.unity.userExtensions ==> IsPlainExtension(e)
      ensures HandledExtensions(HandledExtensionsString()) == DefaultExtensions(package, builtinExtensions, generator.provider.unity.userExtensions)
    {
      var defaults := DefaultExtensions(package, builtinExtensions, generator.provider.unity.userExtensions);
      forall e | e in defaults ensures IsPlainExtension(e) {
        assert e in builtinExtensions + generator.provider.unity.userExtensions || e in CustomExtensions(package);
      }
      HandledExtensionsOfJoin(defaults);
    }

    /** The `EditorArguments` getter: the first read is remembered. */
    method GetEditorArguments() returns (r: string)
      modifies this
      ensures r == old(EditorArguments())
      ensures editorArguments == Some(r)
    {
      if editorArguments.None? {
        editorArguments := Some(prefs.GetString(ArgumentsKey, DefaultArgument()));
      }
      r := editorArguments.value;
    }

    function SessionFor(editorArguments: string, editorArgument: bool): Session
      reads prefs
    {
      Session(package, editorArguments, editorArgument, HandledExtensions(HandledExtensionsString()),
              generator.projectDirectory, isOSX, prefs.GetString(DefaultAppKey, ""))
    }

    /** `OpenProject`; the arguments are read (and remembered) only once the file is accepted. */
    method OpenProject(path: string, line: int, column: int, editorArgument: bool) returns (launch: Option<Launch>)
      modifies this
      ensures launch == Open(SessionFor(old(EditorArguments()), editorArgument), fileExists, parseArgument, path, line, column)
      ensures editorArguments == if launch.None? then old(editorArguments) else Some(old(EditorArguments()))
    {
      if path != "" && (!SupportsExtension(HandledExtensions(HandledExtensionsString()), path) || !fileExists(path)) {
        return None;
      }
      var line, column := line, column;
      if line == -1 {
        line := 1;
      }
      if column == -1 {
        column := 0;
      }
      var arguments := GetEditorArguments();
      var command := CommandArguments(package, arguments, editorArgument, generator.projectDirectory, path, line, column, parseArgument);
      launch := Some(Launcher(isOSX, prefs.GetString(DefaultAppKey, ""), command));
    }

    /** `TryGetInstallationForPath`; the installations are asked for (and discovered, the first time) before the name test. */
    method TryGetInstallationForPath(editorPath: string) returns (installation: Option<VSCodeDiscovery.Installation>)
      modifies discovery
      ensures old(discovery.installations).Some? ==> discovery.installations == old(discovery.installations)
      ensures old(discovery.installations).None? ==>
        discovery.installations == Some(VSCodeDiscovery.Discover(discovery.platform, discovery.pathExists))
      ensures installation == InstallationForPath(discovery.installations.value, editorPath)
    {
      var installations := discovery.PathCallback();
      installation := InstallationForPath(installations, editorPath);
    }

    /**
     * `SyncIfNeeded`: the package cache is emptied, then project generation
     * runs its incremental pass over the united change lists.
     */
    method SyncIfNeeded(added: seq<string>, deleted: seq<string>, moved: seq<string>, movedFrom: seq<string>, imported: seq<string>)
      returns (synced: bool, error: Option<ProjectModel.Error>)
      modifies generator, generator.fs, generator.provider
      ensures var ctx := old(generator.PassContext()).(packages := AssemblyNames.PackageIndex(map[], old(generator.provider.packageLookup)));
        var outcome := ProjectSync.IncrementalPlan(ctx, AffectedFiles(added, deleted, moved, movedFrom), imported);
        && synced == outcome.synced && error == outcome.plan.error
        && generator.fs.State() == ProjectSync.ApplyAll(old(generator.fs.State()), outcome.plan.items)
      ensures generator.fs.directories == old(generator.fs.directories)
      ensures generator.provider.packageLookup == old(generator.provider.packageLookup)
      ensures generator.provider.projectGenerationFlag == old(generator.provider.projectGenerationFlag)
      ensures generator.provider.CacheCoherent()
    {
      generator.provider.ResetPackageInfoCache();
      synced, error := generator.SyncIfNeeded(AffectedFiles(added, deleted, moved, movedFrom), imported);
    }

    /** `SyncAll`: the package cache is emptied, then project generation runs a full pass. */
    method SyncAll() returns (error: Option<ProjectModel.Error>)
      modifies generator, generator.fs, generator.provider
      ensures var ctx := old(generator.PassContext()).(packages := AssemblyNames.PackageIndex(map[], old(generator.provider.packageLookup)));
        && error == ProjectSync.FullPlan(ctx, generator.texts).error
        && generator.fs.State() == ProjectSync.ApplyAll(old(generator.fs.State()), ProjectSync.FullPlan(ctx, generator.texts).items)
      ensures generator.provider.packageLookup == old(generator.provider.packageLookup)
      ensures generator.provider.projectGenerationFlag == old(generator.provider.projectGenerationFlag)
      ensures generator.provider.CacheCoherent()
    {
      generator.provider.ResetPackageInfoCache();
      error := generator.Sync();
    }
  }
}
