/**
 * The passes of the project generator: which files a change notification
 * (`SyncIfNeeded`) and a full regeneration (`Sync`) write, and in what
 * order. A pass is first described as a plan of file operations computed
 * from a snapshot of the editor; the generator class then carries it out on
 * the file system and is proved to do exactly what the plan says.
 */
module ProjectSync {
  import opened Wrappers
  import Seqs
  import Text
  import Paths
  import FileIO
  import Flags
  import ConfigTexts
  import opened ProjectModel
  import AssemblyNames
  import opened ProjectGeneration

  // ---------------------------------------------------------------------
  // File operations

  /**
   * `SyncOp` is `SyncFileIfNotChanged` (write unless the text is already
   * there); `CreateOp` is the `if (!Exists(f)) WriteAllText(f, …)` of the
   * configuration files.
   */
  datatype FileOp =
    | SyncOp(path: string, content: string)
    | CreateOp(path: string, content: string)

  function PathOf(op: FileOp): string {
    op.path
  }

  function Apply(d: FileIO.Disk, op: FileOp): FileIO.Disk {
    match op
    case SyncOp(path, content) => FileIO.SyncFile(d, path, content)
    case CreateOp(path, content) => FileIO.WriteIfAbsent(d, path, content)
  }

  /** The operations, first to last. */
  function ApplyAll(d: FileIO.Disk, ops: seq<FileOp>): FileIO.Disk
    decreases |ops|
  {
    if ops == [] then d else ApplyAll(Apply(d, ops[0]), ops[1..])
  }

  lemma ApplyAllOne(d: FileIO.Disk, op: FileOp)
    ensures ApplyAll(d, [op]) == Apply(d, op)
  {
    assert [op][1..] == [];
  }

  lemma {:induction false} ApplyAllAppend(d: FileIO.Disk, ops: seq<FileOp>, more: seq<FileOp>)
    ensures ApplyAll(d, ops + more) == ApplyAll(ApplyAll(d, ops), more)
    decreases |ops|
  {
    if ops == [] {
      assert ops + more == more;
    } else {
      assert (ops + more)[0] == ops[0] && (ops + more)[1..] == ops[1..] + more;
      ApplyAllAppend(Apply(d, ops[0]), ops[1..], more);
    }
  }

  /** A file no operation names is left as it was. */
  lemma {:induction false} ApplyAllElsewhere(d: FileIO.Disk, ops: seq<FileOp>, p: string)
    requires forall op :: op in ops ==> op.path != p
    ensures p in ApplyAll(d, ops).files <==> p in d.files
    ensures p in d.files ==> ApplyAll(d, ops).files[p] == d.files[p]
    decreases |ops|
  {
    if ops != [] {
      assert ops[0] in ops;
      assert forall op :: op in ops[1..] ==> op in ops;
      ApplyAllElsewhere(Apply(d, ops[0]), ops[1..], p);
    }
  }

  /** The file an operation names is there, and holds the operation's text when it is a sync. */
  predicate Settled(d: FileIO.Disk, op: FileOp) {
    op.path in d.files && (op.SyncOp? ==> d.files[op.path] == op.content)
  }

  /** After operations on distinct files, every one of them is settled. */
  lemma {:induction false} ApplyAllSettles(d: FileIO.Disk, ops: seq<FileOp>)
    requires Seqs.KeysDistinct(PathOf, ops)
    ensures forall op :: op in ops ==> Settled(ApplyAll(d, ops), op)
    decreases |ops|
  {
    if ops != [] {
      var rest := ops[1..];
      assert Seqs.KeysDistinct(PathOf, rest) by {
        forall i, j | 0 <= i < j < |rest| ensures PathOf(rest[i]) != PathOf(rest[j]) {
          assert rest[i] == ops[i + 1] && rest[j] == ops[j + 1];
        }
      }
      ApplyAllSettles(Apply(d, ops[0]), rest);
      assert forall op :: op in rest ==> op.path != ops[0].path by {
        forall op | op in rest ensures op.path != ops[0].path {
          var m :| 0 <= m < |rest| && rest[m] == op;
          assert ops[m + 1] == op;
          assert PathOf(ops[0]) != PathOf(ops[m + 1]);
        }
      }
      ApplyAllElsewhere(Apply(d, ops[0]), rest, ops[0].path);
      assert forall op :: op in ops ==> op == ops[0] || op in rest;
    }
  }

  /** Operations that are all settled change nothing. */
  lemma {:induction false} ApplyAllSettled(d: FileIO.Disk, ops: seq<FileOp>)
    requires forall op :: op in ops ==> Settled(d, op)
    ensures ApplyAll(d, ops) == d
    decreases |ops|
  {
    if ops != [] {
      assert ops[0] in ops;
      assert Apply(d, ops[0]) == d;
      assert forall op :: op in ops[1..] ==> op in ops;
      ApplyAllSettled(d, ops[1..]);
    }
  }

  /** Running operations on distinct files a second time writes nothing: not a file and not a modification stamp. */
  lemma ApplyAllTwice(d: FileIO.Disk, ops: seq<FileOp>)
    requires Seqs.KeysDistinct(PathOf, ops)
    ensures ApplyAll(ApplyAll(d, ops), ops) == ApplyAll(d, ops)
  {
    ApplyAllSettles(d, ops);
    ApplyAllSettled(ApplyAll(d, ops), ops);
  }

  // ---------------------------------------------------------------------
  // The files of a pass

  /** `SyncProjectFileIfNotChanged`: a .csproj goes through the `OnGeneratedCSProject` post-processors first. */
  function ProjectContents(services: Services, path: string, text: string): string {
    if Paths.GetExtension(path) == ".csproj" then services.onGeneratedCSProject(path, text) else text
  }

  /** Every project file name ends in ".csproj", whatever the assembly is called. */
  lemma ProjectFileIsCsproj(ctx: Context, assembly: Assembly)
    ensures Paths.GetExtension(ProjectFile(ctx, assembly)) == ".csproj"
  {
    var file := assembly.name + ".csproj";
    var p := ProjectFile(ctx, assembly);
    assert file[|file| - 7..] == ".csproj";
    assert Paths.EndsWith(p, file);
    assert p[|p| - 7..] == file[|file| - 7..];
    assert '.' !in ".csproj"[1..] && Paths.Separator !in ".csproj" by {
      var e := ".csproj";
      assert e[1] == 'c' && e[2] == 's' && e[3] == 'p' && e[4] == 'r' && e[5] == 'o' && e[6] == 'j';
    }
    Paths.ExtensionOfSuffix(p, ".csproj");
  }

  /**
   * `ParseResponseFileData` then `SyncProject`: the project file of the
   * assembly with its rendered document, or the exception one of them raises.
   */
  function ProjectOp(ctx: Context, parts: map<string, seq<string>>, assembly: Assembly): (r: Result<FileOp, Error>)
    ensures r.Ok? ==> r.value.SyncOp? && r.value.path == ProjectFile(ctx, assembly)
    ensures r.Err? <==> !Seqs.NoDuplicates(assembly.compilerOptions.responseFiles) || ctx.unity.apiCompatibilityLevel.Other?
  {
    match ParseResponseFileData(ctx, assembly)
    case Err(e) => Err(e)
    case Ok(responseFiles) =>
      match ProjectDocumentFor(ctx, assembly, parts, responseFiles)
      case Err(e) => Err(e)
      case Ok(document) =>
        var path := ProjectFile(ctx, assembly);
        Ok(SyncOp(path, ProjectContents(ctx.services, path, ctx.services.renderProject(document))))
  }

  /** What a project file receives: the rendered document of the assembly, passed through the .csproj post-processors. */
  lemma ProjectOpContents(ctx: Context, parts: map<string, seq<string>>, assembly: Assembly)
    requires ProjectOp(ctx, parts, assembly).Ok?
    ensures var responseFiles := ParseResponseFileData(ctx, assembly).value;
      var document := ProjectDocumentFor(ctx, assembly, parts, responseFiles).value;
      var path := ProjectFile(ctx, assembly);
      ProjectOp(ctx, parts, assembly).value.content == ctx.services.onGeneratedCSProject(path, ctx.services.renderProject(document))
  {
    ProjectFileIsCsproj(ctx, assembly);
  }

  /** `SyncSolution` over assemblies already filtered to C#; the text goes through the `OnGeneratedSlnSolution` post-processors. */
  function SolutionOp(ctx: Context, relevant: seq<Assembly>): FileOp
    requires forall a :: a in relevant ==> IsCSharp(a)
  {
    var path := SolutionFile(ctx);
    SyncOp(path, ctx.services.onGeneratedSlnSolution(path, SolutionTextOf(ctx, relevant)))
  }

  /** Filtering the C# assemblies again, as `SolutionText` does, leaves the solution text as it is. */
  lemma SolutionOpIsSolutionText(ctx: Context, assemblies: seq<Assembly>)
    requires RelevantAssemblies(assemblies).Ok?
    ensures var relevant := RelevantAssemblies(assemblies).value;
      && (forall a :: a in relevant ==> IsCSharp(a))
      && SolutionText(ctx, relevant) == Ok(SolutionTextOf(ctx, relevant))
      && SolutionText(ctx, assemblies) == SolutionText(ctx, relevant)
  {
    RelevantAssembliesContents(assemblies);
    RelevantIdempotent(assemblies);
  }

  /** `GetAssemblies(ShouldFileBePartOfSolution)`. */
  function SolutionAssemblies(ctx: Context): seq<Assembly> {
    AssemblyNames.GetAssemblies(ctx.unity.assemblies, (f: string) => ShouldFileBePartOfSolution(ctx, f))
  }

  // ---------------------------------------------------------------------
  // The names of the changed assemblies

  /** `name.Split(".dll", RemoveEmptyEntries)[0]`; the index throws when nothing is left. */
  function AssemblyKey(name: string): Result<string, Error> {
    var pieces := Text.NonEmpty(Text.SplitOn(name, ".dll"));
    if |pieces| == 0 then Err(EmptyAssemblyName) else Ok(pieces[0])
  }

  /** A name with no ".dll" in it is its own key. */
  lemma AssemblyKeyPlain(name: string)
    requires name != []
    requires forall i :: 0 <= i < |name| ==> !(".dll" <= name[i..])
    ensures AssemblyKey(name) == Ok(name)
  {
    Text.SplitOnAbsent(name, ".dll");
    Seqs.FilterKeepsHead((p: string) => p != "", [name]);
  }

  /** A name is cut at its first ".dll", when something precedes it. */
  lemma AssemblyKeyCut(name: string, k: nat)
    requires 0 < k && k + 4 <= |name| && ".dll" <= name[k..]
    requires forall i :: 0 <= i < k ==> !(".dll" <= name[i..])
    ensures AssemblyKey(name) == Ok(name[..k])
  {
    Text.SplitOnFirst(name, ".dll", k);
    Seqs.FilterKeepsHead((p: string) => p != "", Text.SplitOn(name, ".dll"));
  }

  /** A name made only of ".dll" leaves nothing to index: the pass throws. */
  lemma AssemblyKeyOfBareDll()
    ensures AssemblyKey(".dll") == Err(EmptyAssemblyName)
  {
    assert ".dll"[4..] == [];
    assert Text.SplitOn(".dll", ".dll") == ["", ""];
  }

  /** One changed asset: no name when the pipeline gives a blank one, otherwise its key. */
  function ChangedName(ctx: Context, asset: string): Option<Result<string, Error>> {
    var name := ctx.unity.assemblyNameFromScriptPath(asset);
    if Text.IsNullOrWhiteSpace(name) then None else Some(AssemblyKey(name.value))
  }

  function ChangedNameStep(ctx: Context): string -> Option<Result<string, Error>> {
    (asset: string) => ChangedName(ctx, asset)
  }

  /** The names of `affectedAndReimported`, in the order the set is filled, up to the first name that throws. */
  function ChangedNames(ctx: Context, assets: seq<string>): Seqs.Partial<string, Error> {
    Seqs.Collect(ChangedNameStep(ctx), assets)
  }

  /**
   * Every name comes from a changed asset with a non-blank assembly name;
   * when no name throws, every such asset's key is there.
   */
  lemma ChangedNamesContents(ctx: Context, assets: seq<string>)
    ensures var names := ChangedNames(ctx, assets);
      names.error.None? <==>
        forall asset :: asset in assets && !Text.IsNullOrWhiteSpace(ctx.unity.assemblyNameFromScriptPath(asset)) ==>
          AssemblyKey(ctx.unity.assemblyNameFromScriptPath(asset).value).Ok?
    ensures var names := ChangedNames(ctx, assets);
      forall k :: k in names.items ==>
        exists asset :: asset in assets && !Text.IsNullOrWhiteSpace(ctx.unity.assemblyNameFromScriptPath(asset))
          && AssemblyKey(ctx.unity.assemblyNameFromScriptPath(asset).value) == Ok(k)
    ensures var names := ChangedNames(ctx, assets);
      names.error.None? ==>
        forall asset :: asset in assets && !Text.IsNullOrWhiteSpace(ctx.unity.assemblyNameFromScriptPath(asset)) ==>
          AssemblyKey(ctx.unity.assemblyNameFromScriptPath(asset).value).value in names.items
  {
    Seqs.CollectContents(ChangedNameStep(ctx), assets);
  }

  // ---------------------------------------------------------------------
  // Plans

  /** The operations of a pass, in order, and the exception that ended it early, if any. */
  type Plan = Seqs.Partial<FileOp, Error>

  /** The result of `SyncIfNeeded` (whether it went past the change test) and what it does to the files. */
  datatype Outcome = Outcome(synced: bool, plan: Plan)

  /** The loop body of both passes, for one assembly. */
  function ProjectOpOf(ctx: Context, parts: map<string, seq<string>>): Assembly -> Result<FileOp, Error> {
    (a: Assembly) => ProjectOp(ctx, parts, a)
  }

  /**
   * `project` answers as `ProjectOp` does.  The trigger keeps the loops that
   * only pass `project` around from unfolding `ProjectOp`.
   */
  ghost predicate IsProjectOp(project: Assembly -> Result<FileOp, Error>, ctx: Context, parts: map<string, seq<string>>) {
    forall a {:trigger ProjectOp(ctx, parts, a)} :: project(a) == ProjectOp(ctx, parts, a)
  }

  lemma ProjectOpOfIsProjectOp(ctx: Context, parts: map<string, seq<string>>)
    ensures IsProjectOp(ProjectOpOf(ctx, parts), ctx, parts)
  {
  }

  /** The `continue` of `SyncIfNeeded`: only the assemblies whose name changed are regenerated. */
  function NameIn(names: seq<string>): Assembly -> bool {
    (a: Assembly) => a.name in names
  }

  /**
   * The writing part of a sync that went past the filter: the solution, then,
   * unless a changed name throws, the project of every assembly whose name
   * changed, in order, up to the first that throws.
   */
  function ChangedProjectsPlan(solution: FileOp, names: Seqs.Partial<string, Error>, relevant: seq<Assembly>,
                               project: Assembly -> Result<FileOp, Error>): Plan {
    var projects := ChangedProjects(names, relevant, project);
    Seqs.Partial([solution] + projects.items, projects.error)
  }

  /** What `SyncIfNeeded` writes after the solution. */
  function ChangedProjects(names: Seqs.Partial<string, Error>, relevant: seq<Assembly>,
                           project: Assembly -> Result<FileOp, Error>): Plan {
    match names.error
    case Some(e) => Seqs.Partial([], Some(e))
    case None => Seqs.Collect(Seqs.When(NameIn(names.items), project), relevant)
  }

  /**
   * The writing part of a full pass: the solution, every project in order up
   * to the first that throws, and, when none did, the configuration files.
   */
  function AllProjectsPlan(solution: FileOp, relevant: seq<Assembly>, project: Assembly -> Result<FileOp, Error>,
                           config: seq<FileOp>): Plan {
    var rest := AllProjects(relevant, project, config);
    Seqs.Partial([solution] + rest.items, rest.error)
  }

  /** What a full pass writes after the solution. */
  function AllProjects(relevant: seq<Assembly>, project: Assembly -> Result<FileOp, Error>, config: seq<FileOp>): Plan {
    var projects := Seqs.Collect(Seqs.Always(project), relevant);
    if projects.error.Some? then projects
    else Seqs.Partial(projects.items + config, None)
  }

  /**
   * `SyncIfNeeded`: nothing unless the change test passes; then the C#
   * assemblies (which may throw), the solution, the asset parts, the
   * changed names (which may throw), and one project per changed assembly.
   */
  function IncrementalPlan(ctx: Context, affectedFiles: seq<string>, reimportedFiles: seq<string>): (r: Outcome)
    ensures r.synced <==> HasFilesBeenModified(ctx, affectedFiles, reimportedFiles)
    ensures !r.synced ==> r.plan.items == [] && r.plan.error.None?
  {
    if !HasFilesBeenModified(ctx, affectedFiles, reimportedFiles) then Outcome(false, Seqs.Partial([], None))
    else Outcome(true, ChangedPass(ctx, affectedFiles + reimportedFiles))
  }

  /** What `SyncIfNeeded` writes once the change test has passed, for the notified files `changedFiles`. */
  function ChangedPass(ctx: Context, changedFiles: seq<string>): (r: Plan)
    ensures r.error.None? ==> RelevantAssemblies(SolutionAssemblies(ctx)).Ok?
  {
    RelevantAssembliesContents(SolutionAssemblies(ctx));
    match RelevantAssemblies(SolutionAssemblies(ctx))
    case Err(e) => Seqs.Partial([], Some(e))
    case Ok(relevant) =>
      ChangedProjectsPlan(SolutionOp(ctx, relevant), ChangedNames(ctx, changedFiles),
                          relevant, ProjectOpOf(ctx, AssetParts(ctx, ctx.unity.allAssetPaths)))
  }

  /** The four configuration files, each written only when absent. */
  function ConfigOps(ctx: Context, texts: ConfigTexts.Texts): (r: seq<FileOp>)
    ensures |r| == 4 && forall op :: op in r ==> op.CreateOp?
  {
    [CreateOp(ConfigTexts.SettingsFile(ctx.projectDirectory), texts.settingsJson),
     CreateOp(ConfigTexts.WorkspaceFile(ctx.projectDirectory, ctx.projectName), texts.workspaceJson),
     CreateOp(ConfigTexts.OmniSharpFile(ctx.projectDirectory), texts.omniSharpJson),
     CreateOp(ConfigTexts.EditorConfigFile(ctx.projectDirectory), texts.editorConfig)]
  }

  /**
   * `GenerateAndWriteSolutionAndProjects`: the C# assemblies (which may
   * throw), then the solution, the projects and the configuration files.
   */
  function FullPlan(ctx: Context, texts: ConfigTexts.Texts): (r: Plan)
    ensures r.error.None? ==> RelevantAssemblies(SolutionAssemblies(ctx)).Ok?
  {
    RelevantAssembliesContents(SolutionAssemblies(ctx));
    match RelevantAssemblies(SolutionAssemblies(ctx))
    case Err(e) => Seqs.Partial([], Some(e))
    case Ok(relevant) =>
      AllProjectsPlan(SolutionOp(ctx, relevant), relevant, ProjectOpOf(ctx, AssetParts(ctx, ctx.unity.allAssetPaths)),
                      ConfigOps(ctx, texts))
  }

  /** A full pass whose filter succeeds: the solution, then what `AllProjects` writes. */
  lemma FullPlanAfterFilter(ctx: Context, texts: ConfigTexts.Texts)
    requires RelevantAssemblies(SolutionAssemblies(ctx)).Ok?
    ensures var relevant := RelevantAssemblies(SolutionAssemblies(ctx)).value;
      var rest := AllProjects(relevant, ProjectOpOf(ctx, AssetParts(ctx, ctx.unity.allAssetPaths)), ConfigOps(ctx, texts));
      && (forall a :: a in relevant ==> IsCSharp(a))
      && FullPlan(ctx, texts) == Seqs.Partial([SolutionOp(ctx, relevant)] + rest.items, rest.error)
  {
    RelevantAssembliesContents(SolutionAssemblies(ctx));
  }

  // ---------------------------------------------------------------------
  // What the plans promise

  /** A notification that touches no eligible file and reimports no .dll or .asmdef reports no sync and writes nothing. */
  lemma NoChangeWritesNothing(ctx: Context, affectedFiles: seq<string>, reimportedFiles: seq<string>, d: FileIO.Disk)
    requires forall f :: f in affectedFiles ==> !ShouldFileBePartOfSolution(ctx, f)
    requires forall f :: f in reimportedFiles ==> Paths.GetExtension(f) != ".dll" && Paths.GetExtension(f) != ".asmdef"
    ensures !IncrementalPlan(ctx, affectedFiles, reimportedFiles).synced
    ensures ApplyAll(d, IncrementalPlan(ctx, affectedFiles, reimportedFiles).plan.items) == d
  {
    assert !HasFilesBeenModified(ctx, affectedFiles, reimportedFiles);
  }

  /**
   * A sync that gets past the filter always rewrites the solution first;
   * every project written after it belongs to an assembly whose name
   * changed; when nothing throws, every such assembly's project is written;
   * and the pass throws exactly when a name or one of those projects does.
   */
  lemma ChangedProjectsPlanContents(solution: FileOp, names: Seqs.Partial<string, Error>, relevant: seq<Assembly>,
                                    project: Assembly -> Result<FileOp, Error>)
    ensures var plan := ChangedProjectsPlan(solution, names, relevant, project);
      plan.items != [] && plan.items[0] == solution
    ensures var plan := ChangedProjectsPlan(solution, names, relevant, project);
      forall k :: 1 <= k < |plan.items| ==>
        exists a :: a in relevant && a.name in names.items && project(a) == Ok(plan.items[k])
    ensures var plan := ChangedProjectsPlan(solution, names, relevant, project);
      plan.error.None? ==>
        forall a :: a in relevant && a.name in names.items ==> project(a).Ok? && project(a).value in plan.items
    ensures var plan := ChangedProjectsPlan(solution, names, relevant, project);
      plan.error.None? <==>
        names.error.None? && forall a :: a in relevant && a.name in names.items ==> project(a).Ok?
  {
    var plan := ChangedProjectsPlan(solution, names, relevant, project);
    if names.error.None? {
      var select := NameIn(names.items);
      var projects := Seqs.Collect(Seqs.When(select, project), relevant);
      Seqs.CollectWhen(select, project, relevant);
      forall k | 1 <= k < |plan.items|
        ensures exists a :: a in relevant && a.name in names.items && project(a) == Ok(plan.items[k])
      {
        assert plan.items[k] == projects.items[k - 1];
        assert projects.items[k - 1] in projects.items;
        var a :| a in relevant && select(a) && project(a) == Ok(projects.items[k - 1]);
      }
    }
  }

  /**
   * A full pass completes exactly when every project does, and then writes
   * the solution, the project of every assembly in order and the
   * configuration files; when it throws, nothing after the failing project
   * is written, the configuration files included.
   */
  lemma AllProjectsPlanContents(solution: FileOp, relevant: seq<Assembly>, project: Assembly -> Result<FileOp, Error>,
                                config: seq<FileOp>)
    ensures var plan := AllProjectsPlan(solution, relevant, project, config);
      plan.error.None? <==> forall a :: a in relevant ==> project(a).Ok?
    ensures var plan := AllProjectsPlan(solution, relevant, project, config);
      plan.error.None? ==>
        && |plan.items| == |relevant| + 1 + |config|
        && plan.items[0] == solution
        && (forall k :: 0 <= k < |relevant| ==> project(relevant[k]) == Ok(plan.items[k + 1]))
        && plan.items[|relevant| + 1..] == config
    ensures var plan := AllProjectsPlan(solution, relevant, project, config);
      plan.error.Some? ==>
        && plan.items != [] && plan.items[0] == solution && |plan.items| <= |relevant|
        && forall k :: 1 <= k < |plan.items| ==> exists a :: a in relevant && project(a) == Ok(plan.items[k])
  {
    var plan := AllProjectsPlan(solution, relevant, project, config);
    var projects := Seqs.Collect(Seqs.Always(project), relevant);
    assert plan.items == [solution] + AllProjects(relevant, project, config).items;
    Seqs.CollectAlways(project, relevant);
    Seqs.CollectContents(Seqs.Always(project), relevant);
    if plan.error.Some? {
      Seqs.CollectErrorShorter(Seqs.Always(project), relevant);
      forall k | 1 <= k < |plan.items|
        ensures exists a :: a in relevant && project(a) == Ok(plan.items[k])
      {
        assert plan.items[k] == projects.items[k - 1];
        assert projects.items[k - 1] in projects.items;
        var a :| a in relevant && Seqs.Always(project)(a) == Some(Ok(projects.items[k - 1]));
      }
    }
  }

  /**
   * A full pass completes exactly when the C# assemblies can be told apart
   * and every one of their projects can be generated.
   */
  lemma FullPlanCompletes(ctx: Context, texts: ConfigTexts.Texts)
    ensures var relevant := RelevantAssemblies(SolutionAssemblies(ctx));
      var parts := AssetParts(ctx, ctx.unity.allAssetPaths);
      FullPlan(ctx, texts).error.None? <==>
        relevant.Ok? && forall a :: a in relevant.value ==> ProjectOp(ctx, parts, a).Ok?
  {
    var relevant := RelevantAssemblies(SolutionAssemblies(ctx));
    if relevant.Ok? {
      RelevantAssembliesContents(SolutionAssemblies(ctx));
      var parts := AssetParts(ctx, ctx.unity.allAssetPaths);
      var project := ProjectOpOf(ctx, parts);
      assert FullPlan(ctx, texts).error == AllProjects(relevant.value, project, ConfigOps(ctx, texts)).error;
      ProjectOpOfIsProjectOp(ctx, parts);
      Seqs.CollectAlways(project, relevant.value);
    }
  }

  /**
   * A full pass that completes writes the solution, each C# assembly's
   * project in pipeline order, and the four configuration files.
   */
  lemma FullPlanWrites(ctx: Context, texts: ConfigTexts.Texts)
    requires FullPlan(ctx, texts).error.None?
    ensures var relevant := RelevantAssemblies(SolutionAssemblies(ctx)).value;
      var parts := AssetParts(ctx, ctx.unity.allAssetPaths);
      var plan := FullPlan(ctx, texts);
      && (forall a :: a in relevant ==> IsCSharp(a))
      && |plan.items| == |relevant| + 1 + |ConfigOps(ctx, texts)|
      && plan.items[0] == SolutionOp(ctx, relevant)
      && (forall k :: 0 <= k < |relevant| ==> ProjectOp(ctx, parts, relevant[k]) == Ok(plan.items[k + 1]))
      && plan.items[|relevant| + 1..] == ConfigOps(ctx, texts)
  {
    RelevantAssembliesContents(SolutionAssemblies(ctx));
    var relevant := RelevantAssemblies(SolutionAssemblies(ctx)).value;
    var parts := AssetParts(ctx, ctx.unity.allAssetPaths);
    ProjectOpOfIsProjectOp(ctx, parts);
    AllProjectsPlanContents(SolutionOp(ctx, relevant), relevant, ProjectOpOf(ctx, parts), ConfigOps(ctx, texts));
  }

  /**
   * An incremental pass past the change test completes exactly when the C#
   * assemblies can be told apart, no changed name throws and every changed
   * assembly's project can be generated; it writes the solution first, then
   * only projects of assemblies whose name changed, all of them when it completes.
   */
  lemma ChangedPassContents(ctx: Context, changedFiles: seq<string>)
    ensures var relevant := RelevantAssemblies(SolutionAssemblies(ctx));
      var parts := AssetParts(ctx, ctx.unity.allAssetPaths);
      var names := ChangedNames(ctx, changedFiles);
      ChangedPass(ctx, changedFiles).error.None? <==>
        && relevant.Ok? && names.error.None?
        && forall a :: a in relevant.value && a.name in names.items ==> ProjectOp(ctx, parts, a).Ok?
    ensures var relevant := RelevantAssemblies(SolutionAssemblies(ctx));
      var parts := AssetParts(ctx, ctx.unity.allAssetPaths);
      var names := ChangedNames(ctx, changedFiles);
      var plan := ChangedPass(ctx, changedFiles);
      relevant.Ok? ==>
        && (forall a :: a in relevant.value ==> IsCSharp(a))
        && plan.items != [] && plan.items[0] == SolutionOp(ctx, relevant.value)
        && (forall k :: 1 <= k < |plan.items| ==>
              exists a :: a in relevant.value && a.name in names.items && ProjectOp(ctx, parts, a) == Ok(plan.items[k]))
        && (plan.error.None? ==>
              forall a :: a in relevant.value && a.name in names.items ==> ProjectOp(ctx, parts, a).value in plan.items)
  {
    RelevantAssembliesContents(SolutionAssemblies(ctx));
    var parts := AssetParts(ctx, ctx.unity.allAssetPaths);
    var relevant := RelevantAssemblies(SolutionAssemblies(ctx));
    if relevant.Ok? {
      ProjectOpOfIsProjectOp(ctx, parts);
      ChangedProjectsPlanContents(SolutionOp(ctx, relevant.value), ChangedNames(ctx, changedFiles), relevant.value,
                                  ProjectOpOf(ctx, parts));
    }
  }

  /** `GenerateAll` toggles every package origin at once; its argument is not looked at. */
  const AllPackageOrigins: Flags.Mask :=
    Flags.BuiltIn | Flags.Embedded | Flags.Git | Flags.Local | Flags.LocalTarBall | Flags.PlayerAssemblies | Flags.Registry | Flags.Unknown

  /** After `WriteVSCodeSettingsFiles`: the directory `dir` was created unless a file of that name was in the way. */
  predicate GainedDirectory(before: set<string>, files: map<string, string>, after: set<string>, dir: string) {
    before <= after <= before + {dir} && (dir in after || dir in files)
  }

  lemma ApplyAllCons(d: FileIO.Disk, op: FileOp, ops: seq<FileOp>)
    ensures ApplyAll(d, [op] + ops) == ApplyAll(Apply(d, op), ops)
  {
    assert ([op] + ops)[0] == op && ([op] + ops)[1..] == ops;
  }

  /** `ProjectGeneration`: the generator of one Unity project's solution and project files. */
  class ProjectGenerator {
    const projectDirectory: string
    const projectName: string
    const provider: AssemblyNames.AssemblyNameProvider
    const fs: FileIO.FileSystem
    const services: Services
    const texts: ConfigTexts.Texts
    var projectSupportedExtensions: seq<string>

    /** The directory is normalised once; the project is named after its last component. */
    constructor (tempDirectory: string, provider: AssemblyNames.AssemblyNameProvider, fs: FileIO.FileSystem,
                 services: Services, texts: ConfigTexts.Texts)
      ensures projectDirectory == services.normalizePath(tempDirectory)
      ensures projectName == Paths.GetFileName(projectDirectory)
      ensures this.provider == provider && this.fs == fs && this.services == services && this.texts == texts
      ensures projectSupportedExtensions == []
    {
      projectDirectory := services.normalizePath(tempDirectory);
      projectName := Paths.GetFileName(services.normalizePath(tempDirectory));
      this.provider := provider;
      this.fs := fs;
      this.services := services;
      this.texts := texts;
      projectSupportedExtensions := [];
    }

    /** What the generator reads now. */
    function Ctx(): Context
      reads this, provider
    {
      Context(projectDirectory, projectName, projectSupportedExtensions, provider.Index(),
              provider.projectGenerationFlag, provider.unity, services)
    }

    /** What a pass reads once `SetupProjectSupportedExtensions` has copied the user extensions. */
    function PassContext(): Context
      reads this, provider
    {
      Context(projectDirectory, projectName, provider.unity.userExtensions, provider.Index(),
              provider.projectGenerationFlag, provider.unity, services)
    }

    predicate SolutionExists()
      reads this, provider, fs
    {
      fs.Exists(SolutionFile(Ctx()))
    }

    method SetupProjectSupportedExtensions()
      modifies this
      ensures projectSupportedExtensions == provider.unity.userExtensions
    {
      projectSupportedExtensions := provider.unity.userExtensions;
    }

    /** Write the file unless it already holds exactly `newContents`. */
    method SyncFileIfNotChanged(filename: string, newContents: string)
      modifies fs
      ensures fs.State() == FileIO.SyncFile(old(fs.State()), filename, newContents)
      ensures fs.directories == old(fs.directories)
    {
      if fs.Exists(filename) && fs.ReadAllText(filename) == Some(newContents) {
        return;
      }
      fs.WriteAllText(filename, newContents);
    }

    method SyncProjectFileIfNotChanged(path: string, newContents: string)
      modifies fs
      ensures fs.State() == FileIO.SyncFile(old(fs.State()), path, ProjectContents(services, path, newContents))
      ensures fs.directories == old(fs.directories)
    {
      var contents := newContents;
      if Paths.GetExtension(path) == ".csproj" {
        contents := services.onGeneratedCSProject(path, contents);
      }
      SyncFileIfNotChanged(path, contents);
    }

    method SyncSolutionFileIfNotChanged(path: string, newContents: string)
      modifies fs
      ensures fs.State() == FileIO.SyncFile(old(fs.State()), path, services.onGeneratedSlnSolution(path, newContents))
      ensures fs.directories == old(fs.directories)
    {
      SyncFileIfNotChanged(path, services.onGeneratedSlnSolution(path, newContents));
    }

    /** `SyncSolution`: the solution file, unless filtering the assemblies throws. */
    method SyncSolution(ctx: Context, assemblies: seq<Assembly>) returns (error: Option<Error>)
      requires ctx.services == services
      modifies fs
      ensures SolutionText(ctx, assemblies).Err? ==>
                error == Some(SolutionText(ctx, assemblies).error) && fs.State() == old(fs.State())
      ensures SolutionText(ctx, assemblies).Ok? ==>
                error.None?
                && fs.State() == FileIO.SyncFile(old(fs.State()), SolutionFile(ctx),
                                                 services.onGeneratedSlnSolution(SolutionFile(ctx), SolutionText(ctx, assemblies).value))
      ensures fs.directories == old(fs.directories)
    {
      var text := SolutionText(ctx, assemblies);
      if text.Err? {
        return Some(text.error);
      }
      SyncSolutionFileIfNotChanged(SolutionFile(ctx), text.value);
      return None;
    }

    /** `ParseResponseFileData` and `SyncProject` for one assembly. */
    method SyncAssembly(ctx: Context, parts: map<string, seq<string>>, assembly: Assembly,
                        ghost project: Assembly -> Result<FileOp, Error>) returns (error: Option<Error>)
      requires ctx.services == services && IsProjectOp(project, ctx, parts)
      modifies fs
      ensures project(assembly).Err? ==> error == Some(project(assembly).error) && fs.State() == old(fs.State())
      ensures project(assembly).Ok? ==> error.None? && fs.State() == Apply(old(fs.State()), project(assembly).value)
      ensures fs.directories == old(fs.directories)
    {
      assert project(assembly) == ProjectOp(ctx, parts, assembly);
      var responseFiles := ParseResponseFileData(ctx, assembly);
      if responseFiles.Err? {
        return Some(responseFiles.error);
      }
      var document := ProjectDocumentFor(ctx, assembly, parts, responseFiles.value);
      if document.Err? {
        return Some(document.error);
      }
      SyncProjectFileIfNotChanged(ProjectFile(ctx, assembly), services.renderProject(document.value));
      return None;
    }

    /**
     * `GenerateAllAssetProjectParts`: one pass over the asset database,
     * asking the provider (and filling its cache) for every asset.
     */
    method GenerateAllAssetProjectParts() returns (parts: map<string, seq<string>>)
      modifies provider
      ensures parts == AssetParts(old(Ctx()), provider.unity.allAssetPaths)
      ensures forall key :: AssemblyNames.Answer(provider.Index(), key) == AssemblyNames.Answer(old(provider.Index()), key)
      ensures provider.packageLookup == old(provider.packageLookup)
      ensures provider.projectGenerationFlag == old(provider.projectGenerationFlag)
      ensures old(provider.CacheCoherent()) ==> provider.CacheCoherent()
    {
      var ctx := Ctx();
      var assets := provider.unity.allAssetPaths;
      parts := map[];
      var i := 0;
      while i < |assets|
        invariant 0 <= i <= |assets|
        invariant parts == AssetParts(ctx, assets[..i])
        invariant forall key :: AssemblyNames.Answer(provider.Index(), key) == AssemblyNames.Answer(ctx.packages, key)
        invariant provider.packageLookup == ctx.packages.lookup
        invariant provider.projectGenerationFlag == ctx.generationFlag
        invariant old(provider.CacheCoherent()) ==> provider.CacheCoherent()
      {
        AssetPartsStep(ctx, assets, i);
        parts := AddAssetPart(ctx, parts, assets[i]);
        i := i + 1;
      }
      assert assets[..i] == assets;
    }

    /** One pass of the loop of `GenerateAllAssetProjectParts`: the asset joins the list of its assembly, if it has one. */
    method AddAssetPart(ctx: Context, parts: map<string, seq<string>>, asset: string) returns (result: map<string, seq<string>>)
      requires forall key :: AssemblyNames.Answer(provider.Index(), key) == AssemblyNames.Answer(ctx.packages, key)
      requires provider.packageLookup == ctx.packages.lookup
      requires provider.projectGenerationFlag == ctx.generationFlag
      modifies provider
      ensures result == AddPart(ctx, parts, asset)
      ensures forall key :: AssemblyNames.Answer(provider.Index(), key) == AssemblyNames.Answer(ctx.packages, key)
      ensures provider.packageLookup == ctx.packages.lookup
      ensures provider.projectGenerationFlag == ctx.generationFlag
      ensures old(provider.CacheCoherent()) ==> provider.CacheCoherent()
    {
      ghost var index := provider.Index();
      var internalized := provider.IsInternalizedPackagePath(asset);
      AssemblyNames.InternalizedByAnswers(index, ctx.packages, ctx.generationFlag, asset);
      result := AddUnlessInternalized(ctx, parts, asset, internalized);
    }

    /**
     * `SyncIfNeeded`: does exactly what `IncrementalPlan` says for the
     * editor as it was when the call began, and keeps the provider's answers.
     */
    method SyncIfNeeded(affectedFiles: seq<string>, reimportedFiles: seq<string>) returns (synced: bool, error: Option<Error>)
      modifies this, fs, provider
      ensures projectSupportedExtensions == provider.unity.userExtensions
      ensures var outcome := IncrementalPlan(old(PassContext()), affectedFiles, reimportedFiles);
        && synced == outcome.synced && error == outcome.plan.error
        && fs.State() == ApplyAll(old(fs.State()), outcome.plan.items)
      ensures fs.directories == old(fs.directories)
      ensures forall key :: AssemblyNames.Answer(provider.Index(), key) == AssemblyNames.Answer(old(provider.Index()), key)
      ensures provider.packageLookup == old(provider.packageLookup)
      ensures provider.projectGenerationFlag == old(provider.projectGenerationFlag)
      ensures old(provider.CacheCoherent()) ==> provider.CacheCoherent()
    {
      SetupProjectSupportedExtensions();
      var ctx := Ctx();
      if !HasFilesBeenModified(ctx, affectedFiles, reimportedFiles) {
        return false, None;
      }
      error := SyncChanged(ctx, affectedFiles + reimportedFiles);
      return true, error;
    }

    /** `SyncIfNeeded` past the change test. */
    method SyncChanged(ctx: Context, changedFiles: seq<string>) returns (error: Option<Error>)
      requires ctx == Ctx()
      modifies fs, provider
      ensures error == ChangedPass(ctx, changedFiles).error
      ensures fs.State() == ApplyAll(old(fs.State()), ChangedPass(ctx, changedFiles).items)
      ensures fs.directories == old(fs.directories)
      ensures forall key :: AssemblyNames.Answer(provider.Index(), key) == AssemblyNames.Answer(old(provider.Index()), key)
      ensures provider.packageLookup == old(provider.packageLookup)
      ensures provider.projectGenerationFlag == old(provider.projectGenerationFlag)
      ensures old(provider.CacheCoherent()) ==> provider.CacheCoherent()
    {
      var assemblies := SolutionAssemblies(ctx);
      var filtered := RelevantAssemblies(assemblies);
      if filtered.Err? {
        assert ChangedPass(ctx, changedFiles) == Seqs.Partial([], Some(filtered.error));
        return Some(filtered.error);
      }
      var relevant := filtered.value;
      SyncRelevantSolution(ctx, assemblies, relevant);
      error := SyncChangedProjectsPass(ctx, relevant, changedFiles);
      ghost var rest := ChangedProjects(ChangedNames(ctx, changedFiles), relevant,
                                        ProjectOpOf(ctx, AssetParts(ctx, ctx.unity.allAssetPaths)));
      assert ChangedPass(ctx, changedFiles) == Seqs.Partial([SolutionOp(ctx, relevant)] + rest.items, rest.error);
      ApplyAllCons(old(fs.State()), SolutionOp(ctx, relevant), rest.items);
    }

    /** `SyncIfNeeded` after the solution: the asset parts, the changed names, and the projects. */
    method SyncChangedProjectsPass(ctx: Context, relevant: seq<Assembly>, changedFiles: seq<string>) returns (error: Option<Error>)
      requires ctx == Ctx()
      modifies fs, provider
      ensures var plan := ChangedProjects(ChangedNames(ctx, changedFiles), relevant,
                                          ProjectOpOf(ctx, AssetParts(ctx, ctx.unity.allAssetPaths)));
        error == plan.error && fs.State() == ApplyAll(old(fs.State()), plan.items)
      ensures fs.directories == old(fs.directories)
      ensures forall key :: AssemblyNames.Answer(provider.Index(), key) == AssemblyNames.Answer(old(provider.Index()), key)
      ensures provider.packageLookup == old(provider.packageLookup)
      ensures provider.projectGenerationFlag == old(provider.projectGenerationFlag)
      ensures old(provider.CacheCoherent()) ==> provider.CacheCoherent()
    {
      var parts := GenerateAllAssetProjectParts();
      var names := ChangedNames(ctx, changedFiles);
      if names.error.Some? {
        return names.error;
      }
      ProjectOpOfIsProjectOp(ctx, parts);
      error := SyncChangedProjects(ctx, parts, names.items, relevant, ProjectOpOf(ctx, parts));
    }

    /** `SyncSolution` on assemblies that have passed the filter, which cannot throw again. */
    method SyncRelevantSolution(ctx: Context, ghost assemblies: seq<Assembly>, relevant: seq<Assembly>)
      requires ctx.services == services
      requires RelevantAssemblies(assemblies) == Ok(relevant)
      modifies fs
      ensures forall a :: a in relevant ==> IsCSharp(a)
      ensures fs.State() == Apply(old(fs.State()), SolutionOp(ctx, relevant))
      ensures fs.directories == old(fs.directories)
    {
      SolutionOpIsSolutionText(ctx, assemblies);
      var solutionError := SyncSolution(ctx, relevant);
    }

    /** The project loop of `SyncIfNeeded`: every relevant assembly whose name changed, until one throws. */
    method SyncChangedProjects(ctx: Context, parts: map<string, seq<string>>, names: seq<string>, relevant: seq<Assembly>,
                               ghost project: Assembly -> Result<FileOp, Error>) returns (error: Option<Error>)
      requires ctx.services == services && IsProjectOp(project, ctx, parts)
      modifies fs
      ensures error == Seqs.Collect(Seqs.When(NameIn(names), project), relevant).error
      ensures fs.State() == ApplyAll(old(fs.State()), Seqs.Collect(Seqs.When(NameIn(names), project), relevant).items)
      ensures fs.directories == old(fs.directories)
    {
      ghost var step := Seqs.When(NameIn(names), project);
      var i := 0;
      while i < |relevant|
        invariant 0 <= i <= |relevant|
        invariant Seqs.Collect(step, relevant[..i]).error.None?
        invariant fs.State() == ApplyAll(old(fs.State()), Seqs.Collect(step, relevant[..i]).items)
        invariant fs.directories == old(fs.directories)
      {
        var assembly := relevant[i];
        Seqs.CollectStep(step, relevant, i);
        ghost var done := Seqs.Collect(step, relevant[..i]).items;
        if assembly.name in names {
          error := SyncAssembly(ctx, parts, assembly, project);
          if error.Some? {
            Seqs.CollectStops(step, relevant, i + 1);
            return;
          }
          ApplyAllAppend(old(fs.State()), done, [project(assembly).value]);
          ApplyAllOne(ApplyAll(old(fs.State()), done), project(assembly).value);
        }
        i := i + 1;
      }
      assert relevant[..i] == relevant;
      return None;
    }

    /**
     * `Sync`: does exactly what `FullPlan` says for the editor as it was
     * when the call began; when nothing throws, `.vscode` also exists.
     */
    method Sync() returns (error: Option<Error>)
      modifies this, fs, provider
      ensures projectSupportedExtensions == provider.unity.userExtensions
      ensures error == FullPlan(old(PassContext()), texts).error
      ensures fs.State() == ApplyAll(old(fs.State()), FullPlan(old(PassContext()), texts).items)
      ensures error.Some? ==> fs.directories == old(fs.directories)
      ensures error.None? ==> GainedDirectory(old(fs.directories), fs.files, fs.directories, ConfigTexts.VSCodeDirectory(projectDirectory))
      ensures forall key :: AssemblyNames.Answer(provider.Index(), key) == AssemblyNames.Answer(old(provider.Index()), key)
      ensures provider.packageLookup == old(provider.packageLookup)
      ensures provider.projectGenerationFlag == old(provider.projectGenerationFlag)
      ensures old(provider.CacheCoherent()) ==> provider.CacheCoherent()
    {
      SetupProjectSupportedExtensions();
      error := GenerateAndWriteSolutionAndProjects(Ctx());
    }

    method GenerateAndWriteSolutionAndProjects(ctx: Context) returns (error: Option<Error>)
      requires ctx == Ctx()
      modifies fs, provider
      ensures error == FullPlan(ctx, texts).error
      ensures fs.State() == ApplyAll(old(fs.State()), FullPlan(ctx, texts).items)
      ensures error.Some? ==> fs.directories == old(fs.directories)
      ensures error.None? ==> GainedDirectory(old(fs.directories), fs.files, fs.directories, ConfigTexts.VSCodeDirectory(projectDirectory))
      ensures forall key :: AssemblyNames.Answer(provider.Index(), key) == AssemblyNames.Answer(old(provider.Index()), key)
      ensures provider.packageLookup == old(provider.packageLookup)
      ensures provider.projectGenerationFlag == old(provider.projectGenerationFlag)
      ensures old(provider.CacheCoherent()) ==> provider.CacheCoherent()
    {
      var assemblies := SolutionAssemblies(ctx);
      var parts := GenerateAllAssetProjectParts();
      error := SyncSolution(ctx, assemblies);
      if error.Some? {
        return;
      }
      SolutionOpIsSolutionText(ctx, assemblies);
      var relevant := RelevantAssemblies(assemblies).value;
      error := SyncAllAfterSolution(ctx, parts, relevant);
      FullPlanAfterFilter(ctx, texts);
      ApplyAllCons(old(fs.State()), SolutionOp(ctx, relevant), AllProjects(relevant, ProjectOpOf(ctx, parts), ConfigOps(ctx, texts)).items);
    }

    /** The project loop of a full pass, then the configuration files, which are written only when nothing threw. */
    method SyncAllAfterSolution(ctx: Context, parts: map<string, seq<string>>, relevant: seq<Assembly>) returns (error: Option<Error>)
      requires ctx.services == services && ctx.projectDirectory == projectDirectory && ctx.projectName == projectName
      modifies fs
      ensures var plan := AllProjects(relevant, ProjectOpOf(ctx, parts), ConfigOps(ctx, texts));
        error == plan.error && fs.State() == ApplyAll(old(fs.State()), plan.items)
      ensures error.Some? ==> fs.directories == old(fs.directories)
      ensures error.None? ==> GainedDirectory(old(fs.directories), fs.files, fs.directories, ConfigTexts.VSCodeDirectory(projectDirectory))
    {
      ProjectOpOfIsProjectOp(ctx, parts);
      error := SyncAllProjects(ctx, parts, relevant, ProjectOpOf(ctx, parts));
      if error.Some? {
        return;
      }
      ghost var afterProjects := fs.State();
      WriteConfigFiles();
      ApplyAllAppend(old(fs.State()), Seqs.Collect(Seqs.Always(ProjectOpOf(ctx, parts)), relevant).items, ConfigOps(ctx, texts));
      ConfigOpsApplied(ctx, afterProjects);
    }

    /** The project loop of a full pass: every relevant assembly, until one throws. */
    method SyncAllProjects(ctx: Context, parts: map<string, seq<string>>, relevant: seq<Assembly>,
                           ghost project: Assembly -> Result<FileOp, Error>) returns (error: Option<Error>)
      requires ctx.services == services && IsProjectOp(project, ctx, parts)
      modifies fs
      ensures error == Seqs.Collect(Seqs.Always(project), relevant).error
      ensures fs.State() == ApplyAll(old(fs.State()), Seqs.Collect(Seqs.Always(project), relevant).items)
      ensures fs.directories == old(fs.directories)
    {
      ghost var step := Seqs.Always(project);
      var i := 0;
      while i < |relevant|
        invariant 0 <= i <= |relevant|
        invariant Seqs.Collect(step, relevant[..i]).error.None?
        invariant fs.State() == ApplyAll(old(fs.State()), Seqs.Collect(step, relevant[..i]).items)
        invariant fs.directories == old(fs.directories)
      {
        var assembly := relevant[i];
        Seqs.CollectStep(step, relevant, i);
        ghost var done := Seqs.Collect(step, relevant[..i]).items;
        error := SyncAssembly(ctx, parts, assembly, project);
        if error.Some? {
          Seqs.CollectStops(step, relevant, i + 1);
          return;
        }
        ApplyAllAppend(old(fs.State()), done, [project(assembly).value]);
        ApplyAllOne(ApplyAll(old(fs.State()), done), project(assembly).value);
        i := i + 1;
      }
      assert relevant[..i] == relevant;
      return None;
    }

    /** The four configuration files, in the order a full pass writes them. */
    method WriteConfigFiles()
      modifies fs
      ensures fs.State() ==
        FileIO.WriteIfAbsent(
          FileIO.WriteIfAbsent(
            FileIO.WriteIfAbsent(
              FileIO.WriteIfAbsent(old(fs.State()), ConfigTexts.SettingsFile(projectDirectory), texts.settingsJson),
              ConfigTexts.WorkspaceFile(projectDirectory, projectName), texts.workspaceJson),
            ConfigTexts.OmniSharpFile(projectDirectory), texts.omniSharpJson),
          ConfigTexts.EditorConfigFile(projectDirectory), texts.editorConfig)
      ensures GainedDirectory(old(fs.directories), fs.files, fs.directories, ConfigTexts.VSCodeDirectory(projectDirectory))
    {
      WriteVSCodeSettingsFiles();
      ghost var files := fs.files;
      WriteIfAbsent(ConfigTexts.WorkspaceFile(projectDirectory, projectName), texts.workspaceJson);
      WriteIfAbsent(ConfigTexts.OmniSharpFile(projectDirectory), texts.omniSharpJson);
      WriteIfAbsent(ConfigTexts.EditorConfigFile(projectDirectory), texts.editorConfig);
    }

    /** `WriteVSCodeSettingsFiles`: the `.vscode` directory unless something of that name exists, then the settings unless present. */
    method WriteVSCodeSettingsFiles()
      modifies fs
      ensures fs.State() == FileIO.WriteIfAbsent(old(fs.State()), ConfigTexts.SettingsFile(projectDirectory), texts.settingsJson)
      ensures var dir := ConfigTexts.VSCodeDirectory(projectDirectory);
        fs.directories == if dir in old(fs.files) then old(fs.directories) else old(fs.directories) + {dir}
    {
      var vsCodeDirectory := ConfigTexts.VSCodeDirectory(projectDirectory);
      if !fs.Exists(vsCodeDirectory) {
        fs.CreateDirectory(vsCodeDirectory);
      }
      WriteIfAbsent(ConfigTexts.SettingsFile(projectDirectory), texts.settingsJson);
    }

    /** `WriteWorkspaceFile`, `WriteOmniSharpConfigFile` and `WriteEditorConfigFile`: write unless the file exists. */
    method WriteIfAbsent(path: string, content: string)
      modifies fs
      ensures fs.State() == FileIO.WriteIfAbsent(old(fs.State()), path, content)
      ensures fs.directories == old(fs.directories)
    {
      if !fs.Exists(path) {
        fs.WriteAllText(path, content);
      }
    }

    lemma ConfigOpsApplied(ctx: Context, d: FileIO.Disk)
      requires ctx.projectDirectory == projectDirectory && ctx.projectName == projectName
      ensures ApplyAll(d, ConfigOps(ctx, texts)) ==
        FileIO.WriteIfAbsent(
          FileIO.WriteIfAbsent(
            FileIO.WriteIfAbsent(
              FileIO.WriteIfAbsent(d, ConfigTexts.SettingsFile(projectDirectory), texts.settingsJson),
              ConfigTexts.WorkspaceFile(projectDirectory, projectName), texts.workspaceJson),
            ConfigTexts.OmniSharpFile(projectDirectory), texts.omniSharpJson),
          ConfigTexts.EditorConfigFile(projectDirectory), texts.editorConfig)
    {
      var ops := ConfigOps(ctx, texts);
      assert ops == [ops[0]] + ([ops[1]] + ([ops[2]] + [ops[3]]));
      ApplyAllCons(d, ops[0], [ops[1]] + ([ops[2]] + [ops[3]]));
      ApplyAllCons(Apply(d, ops[0]), ops[1], [ops[2]] + [ops[3]]);
      ApplyAllCons(Apply(Apply(d, ops[0]), ops[1]), ops[2], [ops[3]]);
      ApplyAllOne(Apply(Apply(Apply(d, ops[0]), ops[1]), ops[2]), ops[3]);
    }

    /**
     * `GenerateAll`: its argument is not looked at; the preference is toggled over all eight
     * origin bits at once, so all eight are cleared when all are set and otherwise all are set.
     */
    method GenerateAll(generateAll: bool)
      modifies provider, provider.prefs
      ensures provider.projectGenerationFlag == Flags.Toggle(old(provider.projectGenerationFlag), AllPackageOrigins)
      ensures provider.prefs.ints == old(provider.prefs.ints)[Flags.ProjectGenerationFlagKey := provider.projectGenerationFlag]
      ensures provider.prefs.strings == old(provider.prefs.strings)
      ensures provider.Index() == old(provider.Index())
    {
      provider.ToggleProjectGeneration(AllPackageOrigins);
    }
  }
}
