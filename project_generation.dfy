/**
 * The pure half of the project generator: which files belong to the
 * generated solution, how the language of an assembly is decided, the
 * response-file arguments the generator reads, and the contents of one
 * .csproj document and of the .sln text.
 */
module ProjectGeneration {
  import opened Wrappers
  import Seqs
  import Text
  import Paths
  import FileIO
  import Flags
  import opened ProjectModel
  import AssemblyNames

  /**
   * What one generator pass reads: the normalised project directory and its
   * last component, the user extensions copied from the provider before the
   * pass, the provider's package answers and flag, the editor and the services.
   */
  datatype Context = Context(
    projectDirectory: string,
    projectName: string,
    projectSupportedExtensions: seq<string>,
    packages: AssemblyNames.PackageIndex,
    generationFlag: Flags.Mask,
    unity: Unity,
    services: Services)

  const WindowsNewline := "\r\n"

  // ---------------------------------------------------------------------
  // Which files take part

  /** `k_BuiltinSupportedExtensions`: C# sources, and the asset kinds that are listed but not compiled. */
  function BuiltinLanguage(extension: string): Option<ScriptingLanguage> {
    if extension == "cs" then Some(CSharp)
    else if extension in {"uxml", "uss", "shader", "compute", "cginc", "hlsl", "glslinc", "template", "raytrace"}
    then Some(NoLanguage)
    else None
  }

  function TrimDots(extension: string): string {
    Text.TrimStart(extension, {'.'})
  }

  predicate IsSupportedExtension(ctx: Context, extension: string) {
    var bare := TrimDots(extension);
    BuiltinLanguage(bare).Some? || bare in ctx.projectSupportedExtensions
  }

  /** A file name counts by its extension: ".dll" exactly, ".asmdef" in any case, or a supported extension. */
  predicate HasValidExtension(ctx: Context, file: string) {
    var extension := Paths.GetExtension(file);
    extension == ".dll" || Text.EndsWith(Text.ToLower(file), ".asmdef") || IsSupportedExtension(ctx, extension)
  }

  /** Files of excluded packages never take part; any other file takes part by its extension. */
  predicate ShouldFileBePartOfSolution(ctx: Context, file: string) {
    !AssemblyNames.IsInternalizedPath(ctx.packages, ctx.generationFlag, file) && HasValidExtension(ctx, file)
  }

  /** A reimported asset forces a sync when its extension is exactly ".dll" or ".asmdef". */
  predicate ShouldSyncOnReimportedAsset(asset: string) {
    Paths.GetExtension(asset) in [".dll", ".asmdef"]
  }

  predicate HasFilesBeenModified(ctx: Context, affectedFiles: seq<string>, reimportedFiles: seq<string>) {
    (exists f :: f in affectedFiles && ShouldFileBePartOfSolution(ctx, f))
    || (exists f :: f in reimportedFiles && ShouldSyncOnReimportedAsset(f))
  }

  /** A C# script outside "packages/" always takes part, whatever the flags. */
  lemma ScriptOutsidePackagesTakesPart(ctx: Context, file: string)
    requires !Text.StartsWithIgnoreCase(file, AssemblyNames.PackagesPrefix)
    requires Paths.GetExtension(file) == ".cs"
    ensures ShouldFileBePartOfSolution(ctx, file)
  {
    assert !AssemblyNames.IsInternalizedPath(ctx.packages, ctx.generationFlag, file) by {
      assert AssemblyNames.PackageOf(ctx.packages, file).None?;
      AssemblyNames.IsInternalizedPathCases(ctx.packages, ctx.generationFlag, file);
    }
    assert IsSupportedExtension(ctx, ".cs") by {
      assert TrimDots(".cs") == "cs" by {
        assert ".cs"[1..] == "cs";
      }
    }
  }

  /** An assembly definition counts whatever the case of its extension. */
  lemma AsmdefInAnyCase(ctx: Context, file: string)
    requires Text.EndsWith(file, ".ASMDEF")
    ensures HasValidExtension(ctx, file)
  {
    var lower := Text.ToLower(file);
    var n := |file|;
    forall i | 0 <= i < 7 ensures lower[n - 7 + i] == ".asmdef"[i] {
      assert file[n - 7 + i] == ".ASMDEF"[i];
    }
    assert lower[n - 7..] == ".asmdef";
    assert Text.EndsWith(lower, ".asmdef");
  }

  /** A library counts only with a lower-case ".dll", unless the user lists "DLL" as an extension. */
  lemma UpperCaseDllDoesNotCount(ctx: Context, file: string)
    requires Text.EndsWith(file, ".DLL")
    requires "DLL" !in ctx.projectSupportedExtensions
    ensures !HasValidExtension(ctx, file)
  {
    UpperCaseDllExtension(file);
    UpperCaseDllUnsupported(ctx);
    UpperCaseDllIsNoAsmdef(file);
  }

  /** The extension of a name ending in ".DLL" is ".DLL", which is not ".dll". */
  lemma UpperCaseDllExtension(file: string)
    requires Text.EndsWith(file, ".DLL")
    ensures Paths.GetExtension(file) == ".DLL" != ".dll"
  {
    var ext := ".DLL";
    assert ext[0] == '.' && ext[1] == 'D' && ext[2] == 'L' && ext[3] == 'L';
    assert '.' !in ext[1..] && Paths.Separator !in ext;
    Paths.ExtensionOfSuffix(file, ext);
    assert ".dll"[1] == 'd';
  }

  /** "DLL" is no built-in language, so ".DLL" is supported only when listed. */
  lemma UpperCaseDllUnsupported(ctx: Context)
    requires "DLL" !in ctx.projectSupportedExtensions
    ensures !IsSupportedExtension(ctx, ".DLL")
  {
    assert TrimDots(".DLL") == "DLL" by {
      assert ".DLL"[1..] == "DLL";
      assert Text.TrimStart("DLL", {'.'}) == "DLL" by {
        assert "DLL"[0] == 'D';
      }
    }
    assert BuiltinLanguage("DLL").None? by {
      assert "DLL"[0] == 'D';
    }
  }

  /** Lower-cased, a name ending in ".DLL" ends in 'l', so not in ".asmdef". */
  lemma UpperCaseDllIsNoAsmdef(file: string)
    requires Text.EndsWith(file, ".DLL")
    ensures !Text.EndsWith(Text.ToLower(file), ".asmdef")
  {
    var lower := Text.ToLower(file);
    assert file[|file| - 1] == ".DLL"[3];
    assert lower[|lower| - 1] == 'l';
    assert lower[|lower| - 1] != ".asmdef"[6];
  }

  // ---------------------------------------------------------------------
  // Scripting language of an assembly

  /** `GetExtensionOfSourceFiles`: the lower-cased extension of the first source without its dot, "NA" without sources. */
  function ExtensionOfSourceFiles(files: seq<string>): (r: Result<string, Error>)
    ensures files == [] ==> r == Ok("NA")
    ensures files != [] ==> (r.Err? <==> Paths.GetExtension(files[0]) == "")
    ensures files != [] && r.Ok? ==> "." + r.value == Text.ToLower(Paths.GetExtension(files[0]))
    ensures files != [] && r.Ok? ==> '.' !in r.value
  {
    if |files| > 0 then
      var extension := Text.ToLower(Paths.GetExtension(files[0]));
      if extension == "" then Err(SourceFileWithoutExtension)
      else
        LowerExtensionShape(files[0]);
        Ok(extension[1..])
    else Ok("NA")
  }

  /** Lower-casing keeps the dot of `GetExtension` in front and no other dot behind it. */
  lemma LowerExtensionShape(p: string)
    requires Paths.GetExtension(p) != ""
    ensures var extension := Text.ToLower(Paths.GetExtension(p));
      |extension| >= 2 && extension[0] == '.' && '.' !in extension[1..]
  {
    var e := Paths.GetExtension(p);
    var extension := Text.ToLower(e);
    assert Paths.ExtensionAt(p, |p| - |e|);
    assert extension[0] == '.' by {
      assert e[0] == '.';
    }
    forall j | 1 <= j < |e| ensures extension[j] != '.' {
      assert e[j] == p[|p| - |e| + j];
    }
  }

  function ScriptingLanguageForExtension(extension: string): ScriptingLanguage {
    match BuiltinLanguage(TrimDots(extension))
    case Some(language) => language
    case None => NoLanguage
  }

  function ScriptingLanguageFor(assembly: Assembly): Result<ScriptingLanguage, Error> {
    match ExtensionOfSourceFiles(assembly.sourceFiles)
    case Err(e) => Err(e)
    case Ok(extension) => Ok(ScriptingLanguageForExtension(extension))
  }

  predicate IsCSharp(assembly: Assembly) {
    ScriptingLanguageFor(assembly) == Ok(CSharp)
  }

  /** An assembly is C# exactly when its first source file ends in ".cs" in any case. */
  lemma CSharpAssembly(assembly: Assembly)
    ensures IsCSharp(assembly) <==>
              |assembly.sourceFiles| > 0 && Text.ToLower(Paths.GetExtension(assembly.sourceFiles[0])) == ".cs"
    ensures IsCSharp(assembly) ==> ExtensionOfSourceFiles(assembly.sourceFiles) == Ok("cs")
  {
    var files := assembly.sourceFiles;
    match ExtensionOfSourceFiles(files)
    case Err(_) =>
      assert |Text.ToLower(Paths.GetExtension(files[0]))| == 0;
    case Ok(e) =>
      if files == [] {
        assert TrimDots("NA") == "NA";
        assert BuiltinLanguage("NA").None?;
      } else {
        assert e == [] || e[0] != '.';
        assert TrimDots(e) == e;
        assert ScriptingLanguageFor(assembly) == Ok(CSharp) <==> e == "cs";
        var lower := Text.ToLower(Paths.GetExtension(files[0]));
        assert lower == "." + e;
        if lower == ".cs" {
          assert e == lower[1..] == ".cs"[1..] == "cs";
        }
        if e == "cs" {
          assert lower == ".cs";
        }
      }
  }

  /** Whether `RelevantAssembliesForMode` keeps an assembly: it is C#; deciding the language can throw. */
  function KeepsAsRelevant(assembly: Assembly): Result<bool, Error> {
    match ScriptingLanguageFor(assembly)
    case Err(e) => Err(e)
    case Ok(language) => Ok(language == CSharp)
  }

  /** `RelevantAssembliesForMode`: the C# assemblies, in order; fails where a language cannot be decided. */
  function RelevantAssemblies(assemblies: seq<Assembly>): Result<seq<Assembly>, Error> {
    Seqs.FilterOrFail(KeepsAsRelevant, assemblies)
  }

  /** The filter succeeds exactly when every language can be decided, and then keeps exactly the C# assemblies. */
  lemma RelevantAssembliesContents(assemblies: seq<Assembly>)
    ensures RelevantAssemblies(assemblies).Ok? <==> forall a :: a in assemblies ==> ScriptingLanguageFor(a).Ok?
    ensures RelevantAssemblies(assemblies).Ok? ==>
              forall a :: a in RelevantAssemblies(assemblies).value <==> a in assemblies && IsCSharp(a)
    ensures RelevantAssemblies(assemblies).Ok? ==> |RelevantAssemblies(assemblies).value| <= |assemblies|
  {
    Seqs.FilterOrFailContents(KeepsAsRelevant, assemblies);
  }

  /** Filtering the C# assemblies a second time changes nothing. */
  lemma RelevantIdempotent(assemblies: seq<Assembly>)
    requires RelevantAssemblies(assemblies).Ok?
    ensures RelevantAssemblies(RelevantAssemblies(assemblies).value) == RelevantAssemblies(assemblies)
  {
    Seqs.FilterOrFailIdempotent(KeepsAsRelevant, assemblies);
  }

  /** The filter keeps the order of the pipeline: it works part by part. */
  lemma RelevantAppend(s: seq<Assembly>, t: seq<Assembly>)
    requires RelevantAssemblies(s).Ok? && RelevantAssemblies(t).Ok?
    ensures RelevantAssemblies(s + t) == Ok(RelevantAssemblies(s).value + RelevantAssemblies(t).value)
  {
    Seqs.FilterOrFailAppend(KeepsAsRelevant, s, t);
  }

  // ---------------------------------------------------------------------
  // Response files

  /**
   * `ParseResponseFileData`: one parse per response file, in order, against the system
   * directories of the assembly's own API compatibility level; repeated paths make
   * `ToDictionary` throw.
   */
  function ParseResponseFileData(ctx: Context, assembly: Assembly): (r: Result<seq<ResponseFileData>, Error>)
    ensures r.Err? <==> !Seqs.NoDuplicates(assembly.compilerOptions.responseFiles)
    ensures r.Ok? ==> |r.value| == |assembly.compilerOptions.responseFiles|
    ensures r.Ok? ==> forall i :: 0 <= i < |r.value| ==>
              r.value[i] == ctx.unity.parseResponseFile(assembly.compilerOptions.responseFiles[i], ctx.projectDirectory,
                                                          assembly.compilerOptions.apiCompatibilityLevel)
  {
    var paths := assembly.compilerOptions.responseFiles;
    var level := assembly.compilerOptions.apiCompatibilityLevel;
    if Seqs.NoDuplicates(paths) then
      Ok(Seqs.Map((path: string) => ctx.unity.parseResponseFile(path, ctx.projectDirectory, level), paths))
    else Err(DuplicateResponseFile)
  }

  predicate IsOptionToken(token: string) {
    |token| > 0 && (token[0] == '/' || token[0] == '-')
  }

  /** One key/value pair of the lookup, or the default pair that no key query ever returns. */
  datatype Argument = Pair(key: string, value: string) | NoArgument

  const WarnAsError := "warnaserror"

  /**
   * One option token: "/key:value" splits at its first colon (the first
   * character is '/' or '-', so that colon is never the first character);
   * a colon-less "/warnaserror..." keeps what follows the option name.
   */
  function ParseArgument(b: string): (r: Argument)
    requires IsOptionToken(b)
    ensures r.Pair? && ':' in b ==> b == [b[0]] + r.key + ":" + r.value && ':' !in r.key
    ensures r.Pair? && ':' !in b ==> r.key == WarnAsError && b == [b[0]] + WarnAsError + r.value
    ensures r.NoArgument? <==> ':' !in b && !(WarnAsError <= b[1..])
  {
    match Text.IndexOfFrom(b, ':', 0)
    case Some(index) =>
      assert b == [b[0]] + b[1..index] + ":" + b[index + 1..];
      Pair(b[1..index], b[index + 1..])
    case None =>
      if WarnAsError <= b[1..] then
        assert b == [b[0]] + WarnAsError + b[|WarnAsError| + 1..];
        Pair(WarnAsError, b[|WarnAsError| + 1..])
      else NoArgument
  }

  /** The option tokens of one response file, parsed, in order. */
  function OptionArguments(tokens: seq<string>): (r: seq<Argument>)
    ensures forall a :: a in r <==> exists t :: t in tokens && IsOptionToken(t) && ParseArgument(t) == a
  {
    if tokens == [] then []
    else
      assert forall t :: t in tokens <==> t == tokens[0] || t in tokens[1..];
      (if IsOptionToken(tokens[0]) then [ParseArgument(tokens[0])] else []) + OptionArguments(tokens[1..])
  }

  /** `GetOtherArgumentsFromResponseFilesData` before the lookup: every distinct pair of every response file. */
  function OtherArguments(responseFiles: seq<ResponseFileData>): seq<Argument> {
    Seqs.Distinct(Seqs.Flatten(Seqs.Map((rf: ResponseFileData) => OptionArguments(rf.otherArguments), responseFiles)))
  }

  /** `lookup[key]`: the values stored under `key`, in order. */
  function LookupValues(args: seq<Argument>, key: string): (r: seq<string>)
    ensures forall v :: v in r <==> Pair(key, v) in args
    ensures Seqs.NoDuplicates(args) ==> Seqs.NoDuplicates(r)
  {
    if args == [] then []
    else
      var rest := LookupValues(args[1..], key);
      assert forall a :: a in args <==> a == args[0] || a in args[1..];
      assert Seqs.NoDuplicates(args) ==> Seqs.NoDuplicates(args[1..]) && args[0] !in args[1..];
      if args[0].Pair? && args[0].key == key then [args[0].value] + rest else rest
  }

  /** `lookup[key]` over the response files: exactly the values of the tokens that parse to that key, each once. */
  lemma ArgumentValues(responseFiles: seq<ResponseFileData>, key: string, v: string)
    ensures v in LookupValues(OtherArguments(responseFiles), key) <==>
              exists i, t :: 0 <= i < |responseFiles| && t in responseFiles[i].otherArguments
                && IsOptionToken(t) && ParseArgument(t) == Pair(key, v)
    ensures Seqs.NoDuplicates(LookupValues(OtherArguments(responseFiles), key))
  {
    var parts := Seqs.Map((rf: ResponseFileData) => OptionArguments(rf.otherArguments), responseFiles);
    assert forall i :: 0 <= i < |responseFiles| ==> parts[i] == OptionArguments(responseFiles[i].otherArguments);
  }

  // ---------------------------------------------------------------------
  // Common properties

  /** `GenerateLangVersion`: the first response-file value unless it is blank, else the compiler option. */
  function GenerateLangVersion(langVersions: seq<string>, assembly: Assembly): string {
    if |langVersions| > 0 && !Text.IsNullOrWhiteSpace(Some(langVersions[0])) then langVersions[0]
    else assembly.compilerOptions.languageVersion
  }

  function AllowUnsafe(assembly: Assembly, responseFiles: seq<ResponseFileData>): bool {
    assembly.compilerOptions.allowUnsafeCode || exists rf :: rf in responseFiles && rf.unsafe
  }

  const DebugTrace: seq<string> := ["DEBUG", "TRACE"]

  function ResponseFileDefines(responseFiles: seq<ResponseFileData>): seq<string> {
    Seqs.Flatten(Seqs.Map((rf: ResponseFileData) => rf.defines, responseFiles))
  }

  lemma ResponseFileDefinesContents(responseFiles: seq<ResponseFileData>)
    ensures forall d :: d in ResponseFileDefines(responseFiles) <==>
              exists i :: 0 <= i < |responseFiles| && d in responseFiles[i].defines
  {
    assert forall i :: 0 <= i < |responseFiles| ==>
      Seqs.Map((rf: ResponseFileData) => rf.defines, responseFiles)[i] == responseFiles[i].defines;
  }

  /** DEBUG and TRACE are kept in front, and so are the assembly's own defines after them. */
  lemma DistinctDefinesPrefix(assemblyDefines: seq<string>, rest: seq<string>)
    ensures var r := Seqs.Distinct(DebugTrace + assemblyDefines + rest);
      |r| >= 2 && r[..2] == DebugTrace && Seqs.Distinct(DebugTrace + assemblyDefines) <= r
  {
    var all := DebugTrace + assemblyDefines + rest;
    assert all == DebugTrace + (assemblyDefines + rest);
    Seqs.DistinctPrefix(DebugTrace, assemblyDefines + rest);
    Seqs.DistinctOfDistinct(DebugTrace);
    Seqs.DistinctPrefix(DebugTrace + assemblyDefines, rest);
  }

  /** The defines of `AddCommonProperties`: DEBUG and TRACE, then the assembly's, the response files' and the editor's defines, each once. */
  function DefineList(assembly: Assembly, responseFiles: seq<ResponseFileData>, activeDefines: seq<string>): (r: seq<string>)
    ensures |r| >= 2 && r[..2] == DebugTrace
    ensures forall d :: d in r <==>
              d in DebugTrace || d in assembly.defines
              || (exists i :: 0 <= i < |responseFiles| && d in responseFiles[i].defines)
              || d in activeDefines
    ensures Seqs.NoDuplicates(r)
    ensures Seqs.Distinct(DebugTrace + assembly.defines) <= r
    ensures Seqs.Distinct(DebugTrace + assembly.defines + ResponseFileDefines(responseFiles)) <= r
  {
    var fromFiles := ResponseFileDefines(responseFiles);
    ResponseFileDefinesContents(responseFiles);
    assert DebugTrace + assembly.defines + fromFiles + activeDefines
        == DebugTrace + assembly.defines + (fromFiles + activeDefines);
    DistinctDefinesPrefix(assembly.defines, fromFiles + activeDefines);
    Seqs.DistinctPrefix(DebugTrace + assembly.defines + fromFiles, activeDefines);
    Seqs.Distinct(DebugTrace + assembly.defines + fromFiles + activeDefines)
  }

  /** `Distinct` keeps first occurrences: the defines come in the order they are first met in the four lists. */
  lemma DefineListOrder(assembly: Assembly, responseFiles: seq<ResponseFileData>, activeDefines: seq<string>)
    ensures var all := DebugTrace + assembly.defines + ResponseFileDefines(responseFiles) + activeDefines;
      var r := DefineList(assembly, responseFiles, activeDefines);
      (forall d :: d in r <==> d in all)
      && forall i, j :: 0 <= i < j < |r| ==> Seqs.IndexOf(all, r[i]) < Seqs.IndexOf(all, r[j])
  {
    var all := DebugTrace + assembly.defines + ResponseFileDefines(responseFiles) + activeDefines;
    assert DefineList(assembly, responseFiles, activeDefines) == Seqs.Distinct(all);
    Seqs.DistinctInFirstOccurrenceOrder(all);
  }

  function DefineConstants(assembly: Assembly, responseFiles: seq<ResponseFileData>, activeDefines: seq<string>): string {
    Text.Join(DefineList(assembly, responseFiles, activeDefines), ';')
  }

  /** DefineConstants always begins with "DEBUG;TRACE". */
  lemma DefineConstantsStartWithDebugTrace(assembly: Assembly, responseFiles: seq<ResponseFileData>, activeDefines: seq<string>)
    ensures "DEBUG;TRACE" <= DefineConstants(assembly, responseFiles, activeDefines)
  {
    var l := DefineList(assembly, responseFiles, activeDefines);
    assert l[0] == "DEBUG" && l[1] == "TRACE" by {
      assert l[..2][0] == l[0] && l[..2][1] == l[1];
    }
    var tail := Text.Join(l[1..], ';');
    assert Text.Join(l, ';') == "DEBUG" + [';'] + tail;
    assert "TRACE" <= tail by {
      if |l[1..]| > 1 {
        assert tail == "TRACE" + [';'] + Text.Join(l[2..], ';') by {
          assert l[1..][1..] == l[2..];
        }
      }
    }
  }

  /** When no define holds a ';', the joined text splits back into the define list. */
  lemma DefineConstantsSplit(assembly: Assembly, responseFiles: seq<ResponseFileData>, activeDefines: seq<string>)
    requires forall d :: d in assembly.defines ==> ';' !in d
    requires forall i :: 0 <= i < |responseFiles| ==> forall d :: d in responseFiles[i].defines ==> ';' !in d
    requires forall d :: d in activeDefines ==> ';' !in d
    ensures Text.Split(DefineConstants(assembly, responseFiles, activeDefines), ';')
         == DefineList(assembly, responseFiles, activeDefines)
  {
    var l := DefineList(assembly, responseFiles, activeDefines);
    assert ';' !in "DEBUG" && ';' !in "TRACE";
    Text.SplitJoin(l, ';');
  }

  function MakeAbsolutePath(ctx: Context, path: string): string {
    if Paths.IsPathRooted(path) then path else ctx.services.fullPath(path)
  }

  function RulesetCandidates(assembly: Assembly, args: seq<Argument>): seq<string> {
    LookupValues(args, "ruleset") + [assembly.compilerOptions.roslynAnalyzerRulesetPath]
  }

  /** `string.IsNullOrEmpty` negated, for the ruleset candidates (which are never null). */
  predicate NonEmpty(p: string) {
    p != ""
  }

  /** The candidates `GenerateRoslynAnalyzerRulesetPath` keeps: non-empty, each once, in first-occurrence order. */
  function RulesetsKept(assembly: Assembly, args: seq<Argument>): seq<string> {
    Seqs.Distinct(Seqs.Filter(NonEmpty, RulesetCandidates(assembly, args)))
  }

  /** `GenerateRoslynAnalyzerRulesetPath`: each non-empty ruleset once, made absolute and normalised. */
  function RulesetPaths(ctx: Context, assembly: Assembly, args: seq<Argument>): (r: seq<string>)
    ensures |r| <= |RulesetCandidates(assembly, args)|
    ensures forall p :: p in RulesetCandidates(assembly, args) && p != "" ==>
              ctx.services.normalizePath(MakeAbsolutePath(ctx, p)) in r
    ensures forall i :: 0 <= i < |r| ==>
              (exists p :: p in RulesetCandidates(assembly, args) && p != ""
                 && r[i] == ctx.services.normalizePath(MakeAbsolutePath(ctx, p)))
  {
    var f := (p: string) => ctx.services.normalizePath(MakeAbsolutePath(ctx, p));
    var kept := RulesetsKept(assembly, args);
    var r := Seqs.Map(f, kept);
    forall p | p in RulesetCandidates(assembly, args) && p != "" ensures f(p) in r {
      Seqs.MapContains(f, kept, p);
    }
    assert forall i :: 0 <= i < |r| ==> kept[i] in kept && r[i] == f(kept[i]);
    r
  }

  /**
   * The assembly's own ruleset, when it is set and no response file names it
   * already, is listed last: it is the `CodeAnalysisRuleSet` MSBuild applies.
   */
  lemma RulesetPathsOwnLast(ctx: Context, assembly: Assembly, args: seq<Argument>)
    requires assembly.compilerOptions.roslynAnalyzerRulesetPath != ""
    requires assembly.compilerOptions.roslynAnalyzerRulesetPath !in LookupValues(args, "ruleset")
    ensures var r := RulesetPaths(ctx, assembly, args);
      && |r| > 0
      && r[|r| - 1] == ctx.services.normalizePath(MakeAbsolutePath(ctx, assembly.compilerOptions.roslynAnalyzerRulesetPath))
  {
    var own := assembly.compilerOptions.roslynAnalyzerRulesetPath;
    var vals := LookupValues(args, "ruleset");
    Seqs.FilterAppend(NonEmpty, vals, [own]);
    assert Seqs.Filter(NonEmpty, [own]) == [own] by {
      assert [own][1..] == [];
    }
    var t := Seqs.Filter(NonEmpty, vals);
    assert own !in t;
    var s := t + [own];
    assert s[..|s| - 1] == t;
    assert RulesetsKept(assembly, args) == Seqs.Distinct(t) + [own];
  }

  const Net48 := "net48"
  const NetStandard21 := "netstandard2.1"

  /** `GetTargetFrameworkVersion`. */
  function TargetFrameworkVersion(level: ApiCompatibilityLevel): (r: Result<string, Error>)
    ensures r == Ok(NetStandard21) <==> level == NET_Standard
    ensures r == Ok(Net48) <==> level in {NET_2_0, NET_2_0_Subset, NET_Web, NET_Micro, NET_Unity_4_8}
    ensures r.Err? <==> level.Other?
  {
    match level
    case NET_2_0 => Ok(Net48)
    case NET_2_0_Subset => Ok(Net48)
    case NET_Web => Ok(Net48)
    case NET_Micro => Ok(Net48)
    case NET_Standard => Ok(NetStandard21)
    case NET_Unity_4_8 => Ok(Net48)
    case Other(_) => Err(UnknownApiCompatibilityLevel)
  }

  // ---------------------------------------------------------------------
  // References

  const FacadesPath := "UnityReferenceAssemblies\\unity-4.8-api\\Facades\\"

  /** The facades that netstandard 2.1 ships as shims. */
  const NetStandardShims: set<string> := {
    "Microsoft.Win32.Primitives", "System.AppContext", "System.Collections.Concurrent",
    "System.Collections.NonGeneric", "System.Collections.Specialized", "System.ComponentModel",
    "System.ComponentModel.EventBasedAsync", "System.Diagnostics.Contracts", "System.Diagnostics.Debug",
    "System.Diagnostics.Tools", "System.Diagnostics.Tracing", "System.Globalization",
    "System.Globalization.Calendars", "System.IO", "System.IO.Compression", "System.IO.Compression.ZipFile",
    "System.IO.FileSystem", "System.IO.FileSystem.Primitives", "System.Linq", "System.Linq.Expressions",
    "System.Net.Http", "System.Net.Primitives", "System.Net.Sockets", "System.ObjectModel",
    "System.Reflection", "System.Reflection.Extensions", "System.Reflection.Primitives",
    "System.Resources.ResourceManager", "System.Runtime", "System.Runtime.Extensions",
    "System.Runtime.Handles", "System.Runtime.InteropServices",
    "System.Runtime.InteropServices.RuntimeInformation", "System.Runtime.Numerics",
    "System.Security.Cryptography.Algorithms", "System.Security.Cryptography.Encoding",
    "System.Security.Cryptography.Primitives", "System.Security.Cryptography.X509Certificates",
    "System.Text.Encoding", "System.Text.Encoding.Extensions", "System.Text.RegularExpressions",
    "System.Threading", "System.Threading.Tasks", "System.Threading.Tasks.Parallel",
    "System.Threading.Thread", "System.Threading.ThreadPool", "System.Threading.Timer",
    "System.ValueTuple", "System.Xml.ReaderWriter", "System.Xml.XDocument", "System.Xml.XmlDocument",
    "System.Xml.XmlSerializer", "System.Xml.XPath", "System.Xml.XPath.XDocument"
  }

  /** The netstandard folder that replaces the 4.8 facades folder for a reference of this name. */
  function FacadeTarget(referenceName: string): string {
    if referenceName in NetStandardShims then "NetStandard\\compat\\2.1.0\\shims\\netstandard\\"
    else if referenceName == "System.Runtime.InteropServices.WindowsRuntime" then "NetStandard\\Extensions\\2.0.0\\"
    else if referenceName == "netstandard" then "NetStandard\\2.1.0\\"
    else "NetStandard\\compat\\2.1.0\\shims\\"
  }

  /**
   * `HandleEditorReference`. The facades folder is spelt with '\', so only a
   * Windows path can pass through it, and its file name is taken as a
   * Windows host reads it.
   */
  function HandleEditorReference(referencePath: string): string {
    Text.Replace(referencePath, FacadesPath, FacadeTarget(Paths.GetWindowsFileNameWithoutExtension(referencePath)))
  }

  /** A path that passes through the facades folder once is redirected to the netstandard folder its name selects. */
  lemma HandleEditorReferenceRedirects(pre: string, post: string)
    requires forall i :: 0 <= i < |pre| ==> !(FacadesPath <= (pre + FacadesPath + post)[i..])
    requires forall i :: 0 <= i < |post| ==> !(FacadesPath <= post[i..])
    ensures HandleEditorReference(pre + FacadesPath + post)
         == pre + FacadeTarget(Paths.GetWindowsFileNameWithoutExtension(pre + FacadesPath + post)) + post
  {
    var p := pre + FacadesPath + post;
    Text.ReplaceSingle(pre, FacadesPath, FacadeTarget(Paths.GetWindowsFileNameWithoutExtension(p)), post);
  }

  /** A facade assembly `<stem>.dll` right inside the facades folder is redirected by its stem. */
  lemma HandleEditorReferenceOfFacade(pre: string, stem: string)
    requires forall i :: 0 <= i < |pre| ==> !(FacadesPath <= (pre + FacadesPath + (stem + ".dll"))[i..])
    requires forall k :: 0 <= k < |stem| ==> !Paths.IsWindowsSeparator(stem[k])
    ensures HandleEditorReference(pre + FacadesPath + (stem + ".dll")) == pre + FacadeTarget(stem) + (stem + ".dll")
  {
    NoBackslashInDll(stem);
    FacadesPathNeedsBackslash(stem + ".dll");
    HandleEditorReferenceRedirects(pre, stem + ".dll");
    Paths.WindowsStemOfDll(pre + FacadesPath, stem);
  }

  lemma NoBackslashInDll(stem: string)
    requires forall k :: 0 <= k < |stem| ==> !Paths.IsWindowsSeparator(stem[k])
    ensures '\\' !in stem + ".dll"
  {
    var post := stem + ".dll";
    forall k | 0 <= k < |post| ensures post[k] != '\\' {
      if k < |stem| { assert post[k] == stem[k]; } else { assert post[k] == ".dll"[k - |stem|]; }
    }
  }

  /** System.Runtime is one of the netstandard shims. */
  lemma SystemRuntimeFacade(pre: string)
    requires forall i :: 0 <= i < |pre| ==> !(FacadesPath <= (pre + FacadesPath + ("System.Runtime" + ".dll"))[i..])
    ensures HandleEditorReference(pre + FacadesPath + ("System.Runtime" + ".dll"))
         == pre + "NetStandard\\compat\\2.1.0\\shims\\netstandard\\" + ("System.Runtime" + ".dll")
  {
    HandleEditorReferenceOfFacade(pre, "System.Runtime");
    assert "System.Runtime" in NetStandardShims;
  }

  /** The facades folder does not occur in a text without backslashes. */
  lemma FacadesPathNeedsBackslash(s: string)
    requires '\\' !in s
    ensures forall i :: 0 <= i < |s| ==> !(FacadesPath <= s[i..])
  {
    var n := |FacadesPath|;
    assert FacadesPath[n - 1] == '\\';
    forall i | 0 <= i < |s| ensures !(FacadesPath <= s[i..]) {
      assert i + n - 1 >= |s| || s[i + n - 1] != FacadesPath[n - 1];
    }
  }

  /** The facades folder is spelt with backslashes; a path with none is left alone. */
  lemma HandleEditorReferenceWithoutBackslash(referencePath: string)
    requires '\\' !in referencePath
    ensures HandleEditorReference(referencePath) == referencePath
  {
    FacadesPathNeedsBackslash(referencePath);
    Text.ReplaceAbsent(referencePath, FacadesPath,
      FacadeTarget(Paths.GetWindowsFileNameWithoutExtension(referencePath)));
  }

  /** Facades are rewritten only before Unity 2023.1, and only for a netstandard target. */
  predicate RewritesFacades(ctx: Context, targetFramework: string) {
    !ctx.unity.unity2023OrNewer && Text.Contains(targetFramework, "netstandard")
  }

  /** `AppendReference`: the item is named after the file, its hint path is the escaped, normalised path. */
  function AppendReference(ctx: Context, fullReference: string, targetFramework: string): Reference {
    var escapedFullPath := ctx.services.normalizePath(FileIO.XmlEscape(fullReference));
    Reference(Paths.GetFileNameWithoutExtension(escapedFullPath),
              if RewritesFacades(ctx, targetFramework) then HandleEditorReference(escapedFullPath) else escapedFullPath)
  }

  /** A net48 project keeps every hint path as escaped; a netstandard one before 2023.1 has its facades redirected. */
  lemma FacadeRewritingByFramework(ctx: Context)
    ensures !RewritesFacades(ctx, Net48)
    ensures RewritesFacades(ctx, NetStandard21) <==> !ctx.unity.unity2023OrNewer
  {
    assert forall i :: 0 <= i <= |Net48| ==> !("netstandard" <= Net48[i..]);
    assert "netstandard" <= NetStandard21[0..];
  }

  function FullReference(ctx: Context, reference: string): string {
    if Paths.IsPathRooted(reference) then reference else Paths.Combine(ctx.projectDirectory, reference)
  }

  /** An assembly reference becomes a project reference when one of its sources takes part. */
  predicate HasEligibleSource(ctx: Context, assembly: Assembly) {
    exists f :: f in assembly.sourceFiles && ShouldFileBePartOfSolution(ctx, f)
  }

  /** The output paths of the referenced assemblies that are not themselves projects. */
  function InternalAssemblyReferences(ctx: Context, assembly: Assembly): (r: seq<string>)
    ensures forall i :: i in assembly.assemblyReferences && !HasEligibleSource(ctx, i) ==> i.outputPath in r
    ensures forall k :: 0 <= k < |r| ==>
              (exists i :: i in assembly.assemblyReferences && !HasEligibleSource(ctx, i) && r[k] == i.outputPath)
  {
    var f := (i: Assembly) => i.outputPath;
    var kept := Seqs.Filter((i: Assembly) => !HasEligibleSource(ctx, i), assembly.assemblyReferences);
    var r := Seqs.Map(f, kept);
    forall i | i in assembly.assemblyReferences && !HasEligibleSource(ctx, i) ensures f(i) in r {
      Seqs.MapContains(f, kept, i);
    }
    assert forall k :: 0 <= k < |r| ==> kept[k] in kept && r[k] == f(kept[k]);
    r
  }

  /** The response files' references, one file after another. */
  function ResponseFileReferences(responseFiles: seq<ResponseFileData>): seq<string> {
    Seqs.Flatten(Seqs.Map((rf: ResponseFileData) => rf.fullPathReferences, responseFiles))
  }

  /** The union of compiled references, response-file references and internal references, each once, in that order. */
  function AllReferences(ctx: Context, assembly: Assembly, responseFiles: seq<ResponseFileData>): (r: seq<string>)
    ensures forall x :: x in assembly.compiledAssemblyReferences ==> x in r
    ensures forall i :: 0 <= i < |responseFiles| ==> forall x :: x in responseFiles[i].fullPathReferences ==> x in r
    ensures forall x :: x in InternalAssemblyReferences(ctx, assembly) ==> x in r
    ensures forall x :: x in r ==>
              x in assembly.compiledAssemblyReferences
              || (exists i :: 0 <= i < |responseFiles| && x in responseFiles[i].fullPathReferences)
              || x in InternalAssemblyReferences(ctx, assembly)
    ensures Seqs.NoDuplicates(r)
    ensures Seqs.Distinct(assembly.compiledAssemblyReferences) <= r
  {
    var responseRefs := ResponseFileReferences(responseFiles);
    assert forall i :: 0 <= i < |responseFiles| ==>
      Seqs.Map((rf: ResponseFileData) => rf.fullPathReferences, responseFiles)[i] == responseFiles[i].fullPathReferences;
    var internal := InternalAssemblyReferences(ctx, assembly);
    assert assembly.compiledAssemblyReferences + responseRefs + internal
        == assembly.compiledAssemblyReferences + (responseRefs + internal);
    Seqs.DistinctPrefix(assembly.compiledAssemblyReferences, responseRefs + internal);
    Seqs.Distinct(assembly.compiledAssemblyReferences + responseRefs + internal)
  }

  /** `Union` keeps first occurrences: the references come in the order they are first met in the three lists. */
  lemma AllReferencesOrder(ctx: Context, assembly: Assembly, responseFiles: seq<ResponseFileData>)
    ensures var all := assembly.compiledAssemblyReferences + ResponseFileReferences(responseFiles)
                       + InternalAssemblyReferences(ctx, assembly);
      var r := AllReferences(ctx, assembly, responseFiles);
      (forall x :: x in r <==> x in all)
      && forall i, j :: 0 <= i < j < |r| ==> Seqs.IndexOf(all, r[i]) < Seqs.IndexOf(all, r[j])
  {
    var all := assembly.compiledAssemblyReferences + ResponseFileReferences(responseFiles)
               + InternalAssemblyReferences(ctx, assembly);
    assert AllReferences(ctx, assembly, responseFiles) == Seqs.Distinct(all);
    Seqs.DistinctInFirstOccurrenceOrder(all);
  }

  /** The `<ProjectReference>` items: one "<name>.csproj" per referenced assembly that is a project, in order. */
  function ProjectReferenceNames(ctx: Context, assembly: Assembly): (r: seq<string>)
    ensures forall i :: i in assembly.assemblyReferences && HasEligibleSource(ctx, i) ==> i.name + ".csproj" in r
    ensures forall k :: 0 <= k < |r| ==>
              (exists i :: i in assembly.assemblyReferences && HasEligibleSource(ctx, i) && r[k] == i.name + ".csproj")
  {
    var f := (i: Assembly) => i.name + ".csproj";
    var kept := Seqs.Filter((i: Assembly) => HasEligibleSource(ctx, i), assembly.assemblyReferences);
    var r := Seqs.Map(f, kept);
    forall i | i in assembly.assemblyReferences && HasEligibleSource(ctx, i) ensures f(i) in r {
      Seqs.MapContains(f, kept, i);
    }
    assert forall k :: 0 <= k < |r| ==> kept[k] in kept && r[k] == f(kept[k]);
    r
  }

  /** Every referenced assembly shows up: as a project reference when it is a project, otherwise by its output path. */
  lemma ReferencedAssemblyIsListed(ctx: Context, assembly: Assembly, responseFiles: seq<ResponseFileData>, i: Assembly)
    requires i in assembly.assemblyReferences
    ensures HasEligibleSource(ctx, i) ==> i.name + ".csproj" in ProjectReferenceNames(ctx, assembly)
    ensures !HasEligibleSource(ctx, i) ==> i.outputPath in AllReferences(ctx, assembly, responseFiles)
  {
  }

  // ---------------------------------------------------------------------
  // The project document

  /** The Microsoft.Unity.Analyzers package every project references. */
  const UnityAnalyzers := PackageReference(
    "Microsoft.Unity.Analyzers", "*", "all", "runtime; build; native; contentfiles; analyzers")

  function CompileItem(ctx: Context, file: string): string {
    FileIO.EscapedRelativePathFor(file, ctx.projectDirectory, ctx.services.fullPath, ctx.services.normalizePath)
  }

  /** `ProjectText` before serialisation. */
  function ProjectDocumentFor(ctx: Context, assembly: Assembly, parts: map<string, seq<string>>,
                              responseFiles: seq<ResponseFileData>): (r: Result<ProjectDocument, Error>)
    ensures r.Err? <==> ctx.unity.apiCompatibilityLevel.Other?
  {
    match TargetFrameworkVersion(ctx.unity.apiCompatibilityLevel)
    case Err(e) => Err(e)
    case Ok(targetFramework) =>
      var args := OtherArguments(responseFiles);
      var references := AllReferences(ctx, assembly, responseFiles);
      Ok(ProjectDocument(
        targetFramework := targetFramework,
        langVersion := GenerateLangVersion(LookupValues(args, "langversion"), assembly),
        allowUnsafeBlocks := AllowUnsafe(assembly, responseFiles),
        warningLevel := "4",
        noStdLib := "true",
        assemblyName := assembly.name,
        defineConstants := DefineConstants(assembly, responseFiles, ctx.unity.activeScriptCompilationDefines),
        codeAnalysisRuleSets := RulesetPaths(ctx, assembly, args),
        compileItems :=
          if |assembly.sourceFiles| != 0
          then Some(Seqs.Map((file: string) => CompileItem(ctx, file), assembly.sourceFiles))
          else None,
        noneItems := if assembly.name in parts then Some(parts[assembly.name]) else None,
        references :=
          if |references| > 0
          then Some(Seqs.Map((reference: string) => AppendReference(ctx, FullReference(ctx, reference), targetFramework), references))
          else None,
        projectReferences :=
          if |assembly.assemblyReferences| > 0 then Some(ProjectReferenceNames(ctx, assembly)) else None,
        analyzer := UnityAnalyzers))
  }

  /** The properties every generated project carries. */
  lemma ProjectDocumentProperties(ctx: Context, assembly: Assembly, parts: map<string, seq<string>>,
                                  responseFiles: seq<ResponseFileData>)
    requires !ctx.unity.apiCompatibilityLevel.Other?
    ensures var doc := ProjectDocumentFor(ctx, assembly, parts, responseFiles).value;
      && (doc.targetFramework == Net48 || doc.targetFramework == NetStandard21)
      && "DEBUG;TRACE" <= doc.defineConstants
      && doc.assemblyName == assembly.name
      && doc.warningLevel == "4" && doc.noStdLib == "true"
      && (doc.allowUnsafeBlocks <==> assembly.compilerOptions.allowUnsafeCode || exists rf :: rf in responseFiles && rf.unsafe)
      && (var vs := LookupValues(OtherArguments(responseFiles), "langversion");
          doc.langVersion
          == if |vs| > 0 && !Text.IsNullOrWhiteSpace(Some(vs[0])) then vs[0]
             else assembly.compilerOptions.languageVersion)
      && (doc.noneItems.Some? <==> assembly.name in parts)
      && (doc.compileItems.Some? <==> |assembly.sourceFiles| > 0)
      && (doc.projectReferences.Some? <==> |assembly.assemblyReferences| > 0)
  {
    var doc := ProjectDocumentFor(ctx, assembly, parts, responseFiles).value;
    var args := OtherArguments(responseFiles);
    assert doc.langVersion == GenerateLangVersion(LookupValues(args, "langversion"), assembly);
    DefineConstantsStartWithDebugTrace(assembly, responseFiles, ctx.unity.activeScriptCompilationDefines);
  }

  /**
   * The reference group is present exactly when there is a reference, with
   * one entry per reference; the project-reference group is present, possibly
   * empty, exactly when the assembly references any assembly.
   */
  lemma ProjectDocumentReferenceGroups(ctx: Context, assembly: Assembly, parts: map<string, seq<string>>,
                                       responseFiles: seq<ResponseFileData>)
    requires !ctx.unity.apiCompatibilityLevel.Other?
    ensures var doc := ProjectDocumentFor(ctx, assembly, parts, responseFiles).value;
      && (doc.references.Some? <==> |AllReferences(ctx, assembly, responseFiles)| > 0)
      && (doc.references.Some? ==> |doc.references.value| == |AllReferences(ctx, assembly, responseFiles)|)
      && (doc.projectReferences.Some? <==> |assembly.assemblyReferences| > 0)
  {
    var references := AllReferences(ctx, assembly, responseFiles);
    var doc := ProjectDocumentFor(ctx, assembly, parts, responseFiles).value;
    var targetFramework := TargetFrameworkVersion(ctx.unity.apiCompatibilityLevel).value;
    assert doc.targetFramework == targetFramework;
    assert doc.references
        == if |references| > 0
           then Some(Seqs.Map((reference: string) => AppendReference(ctx, FullReference(ctx, reference), targetFramework), references))
           else None;
  }

  /** Each source file is listed, in order, by its path relative to the project directory. */
  lemma CompileItemsAreRelative(ctx: Context, assembly: Assembly, parts: map<string, seq<string>>,
                                responseFiles: seq<ResponseFileData>, k: nat)
    requires ProjectDocumentFor(ctx, assembly, parts, responseFiles).Ok?
    requires k < |assembly.sourceFiles|
    ensures var doc := ProjectDocumentFor(ctx, assembly, parts, responseFiles).value;
      && doc.compileItems.Some? && |doc.compileItems.value| == |assembly.sourceFiles|
      && FileIO.XmlUnescape(doc.compileItems.value[k])
         == FileIO.SkipPathPrefix(ctx.services.fullPath(ctx.services.normalizePath(assembly.sourceFiles[k])),
                                  ctx.services.fullPath(ctx.projectDirectory))
  {
    var doc := ProjectDocumentFor(ctx, assembly, parts, responseFiles).value;
    var items := Seqs.Map((file: string) => CompileItem(ctx, file), assembly.sourceFiles);
    assert doc.compileItems == Some(items);
    assert items[k] == CompileItem(ctx, assembly.sourceFiles[k]);
  }

  /** Every referenced assembly lands in the document: as a project reference or as a reference by output path. */
  lemma ReferencedAssemblyInDocument(ctx: Context, assembly: Assembly, parts: map<string, seq<string>>,
                                     responseFiles: seq<ResponseFileData>, i: Assembly)
    requires ProjectDocumentFor(ctx, assembly, parts, responseFiles).Ok?
    requires i in assembly.assemblyReferences
    ensures var doc := ProjectDocumentFor(ctx, assembly, parts, responseFiles).value;
      && (HasEligibleSource(ctx, i) ==>
            doc.projectReferences.Some? && i.name + ".csproj" in doc.projectReferences.value)
      && (!HasEligibleSource(ctx, i) ==>
            doc.references.Some?
            && AppendReference(ctx, FullReference(ctx, i.outputPath), doc.targetFramework) in doc.references.value)
  {
    var doc := ProjectDocumentFor(ctx, assembly, parts, responseFiles).value;
    var references := AllReferences(ctx, assembly, responseFiles);
    if !HasEligibleSource(ctx, i) {
      var f := (reference: string) => AppendReference(ctx, FullReference(ctx, reference), doc.targetFramework);
      assert i.outputPath in references;
      Seqs.MapContains(f, references, i.outputPath);
    }
  }

  // ---------------------------------------------------------------------
  // File names and the solution

  function ProjectFile(ctx: Context, assembly: Assembly): string {
    Paths.Combine(ctx.projectDirectory, assembly.name + ".csproj")
  }

  function SolutionFile(ctx: Context): string {
    Paths.Combine(ctx.projectDirectory, ctx.projectName + ".sln")
  }

  function ProjectGuid(ctx: Context, assemblyName: string): string {
    ctx.services.projectGuid(ctx.projectName, assemblyName)
  }

  /** `Project("{solution guid}") = "name", "name.csproj", "{project guid}"` and `EndProject`. */
  function ProjectEntry(ctx: Context, assembly: Assembly): string
    requires IsCSharp(assembly)
  {
    CSharpAssembly(assembly);
    var solutionGuid := ctx.services.solutionGuid(ctx.projectName, ExtensionOfSourceFiles(assembly.sourceFiles).value);
    "Project(\"{" + solutionGuid + "}\") = \"" + assembly.name + "\", \""
      + Paths.GetFileName(ProjectFile(ctx, assembly)) + "\", \"{" + ProjectGuid(ctx, assembly.name) + "}\""
      + WindowsNewline + "EndProject"
  }

  /** The two configuration lines of one project. */
  function ProjectConfiguration(projectGuid: string): string {
    "\t\t{" + projectGuid + "}.Debug|Any CPU.ActiveCfg = Debug|Any CPU" + WindowsNewline
      + "\t\t{" + projectGuid + "}.Debug|Any CPU.Build.0 = Debug|Any CPU"
  }

  /** `GetProjectEntries` formats each relevant assembly; the formatting is defined on C# assemblies. */
  function EntryOf(ctx: Context): Assembly --> string {
    (a: Assembly) requires IsCSharp(a) => ProjectEntry(ctx, a)
  }

  function ProjectEntries(ctx: Context, relevant: seq<Assembly>): (r: seq<string>)
    requires forall a :: a in relevant ==> IsCSharp(a)
    ensures |r| == |relevant|
  {
    Seqs.MapPartial(EntryOf(ctx), relevant)
  }

  function ProjectConfigurations(ctx: Context, relevant: seq<Assembly>): (r: seq<string>)
    ensures |r| == |relevant|
  {
    seq(|relevant|, i requires 0 <= i < |relevant| => ProjectConfiguration(ProjectGuid(ctx, relevant[i].name)))
  }

  /** The template lines before the project entries. */
  function SolutionHead(): (r: seq<string>)
    ensures |r| == 3
  {
    ["", "Microsoft Visual Studio Solution File, Format Version 11.00", "# Visual Studio 2020"]
  }

  /** The template lines between the project entries and the configurations. */
  function SolutionMiddle(): (r: seq<string>)
    ensures |r| == 5
  {
    ["Global",
     "\tGlobalSection(SolutionConfigurationPlatforms) = preSolution",
     "\t\tDebug|Any CPU = Debug|Any CPU",
     "\tEndGlobalSection",
     "\tGlobalSection(ProjectConfigurationPlatforms) = postSolution"]
  }

  /** The template lines after the configurations. */
  function SolutionTail(): (r: seq<string>)
    ensures |r| == 6
  {
    ["\tEndGlobalSection",
     "\tGlobalSection(SolutionProperties) = preSolution",
     "\t\tHideSolutionNode = FALSE",
     "\tEndGlobalSection",
     "EndGlobal",
     ""]
  }

  /** The lines of the solution template with the entries and the configurations filled in. */
  function SolutionLayout(entries: string, configurations: string): (r: seq<string>)
    ensures |r| == 16 && r[3] == entries && r[9] == configurations
  {
    SolutionHead() + [entries] + SolutionMiddle() + [configurations] + SolutionTail()
  }

  function SolutionParts(ctx: Context, relevant: seq<Assembly>): seq<string>
    requires forall a :: a in relevant ==> IsCSharp(a)
  {
    SolutionLayout(Text.JoinWith(ProjectEntries(ctx, relevant), WindowsNewline),
                   Text.JoinWith(ProjectConfigurations(ctx, relevant), WindowsNewline))
  }

  /** The solution text for assemblies already filtered to C#: the template lines joined by CR LF. */
  function SolutionTextOf(ctx: Context, relevant: seq<Assembly>): string
    requires forall a :: a in relevant ==> IsCSharp(a)
  {
    Text.JoinWith(SolutionParts(ctx, relevant), WindowsNewline)
  }

  /** `SolutionText`: filters to the C# assemblies, then lays them out. */
  function SolutionText(ctx: Context, assemblies: seq<Assembly>): (r: Result<string, Error>)
    ensures r.Err? <==> RelevantAssemblies(assemblies).Err?
  {
    RelevantAssembliesContents(assemblies);
    match RelevantAssemblies(assemblies)
    case Err(e) => Err(e)
    case Ok(relevant) => Ok(SolutionTextOf(ctx, relevant))
  }

  /** Assemblies of other languages leave the solution text as it is. */
  lemma SolutionIgnoresOtherLanguages(ctx: Context, assemblies: seq<Assembly>)
    requires RelevantAssemblies(assemblies).Ok?
    ensures SolutionText(ctx, RelevantAssemblies(assemblies).value) == SolutionText(ctx, assemblies)
  {
    RelevantIdempotent(assemblies);
  }

  /** Each C# assembly has its project entry and its configuration block, keyed by its project GUID, in the text. */
  lemma SolutionListsEveryProject(ctx: Context, relevant: seq<Assembly>, k: nat)
    requires forall a :: a in relevant ==> IsCSharp(a)
    requires k < |relevant|
    ensures Text.Contains(SolutionTextOf(ctx, relevant), ProjectEntry(ctx, relevant[k]))
    ensures Text.Contains(SolutionTextOf(ctx, relevant), ProjectConfiguration(ProjectGuid(ctx, relevant[k].name)))
  {
    var entries := Text.JoinWith(ProjectEntries(ctx, relevant), WindowsNewline);
    var configurations := Text.JoinWith(ProjectConfigurations(ctx, relevant), WindowsNewline);
    var text := SolutionTextOf(ctx, relevant);
    Text.JoinWithContains(ProjectEntries(ctx, relevant), WindowsNewline, k);
    Text.JoinWithContains(ProjectConfigurations(ctx, relevant), WindowsNewline, k);
    ContainsTransitive(text, entries, ProjectEntry(ctx, relevant[k])) by {
      Text.JoinWithContains(SolutionParts(ctx, relevant), WindowsNewline, 3);
    }
    ContainsTransitive(text, configurations, ProjectConfiguration(ProjectGuid(ctx, relevant[k].name))) by {
      Text.JoinWithContains(SolutionParts(ctx, relevant), WindowsNewline, 9);
    }
  }

  lemma ContainsTransitive(s: string, t: string, u: string)
    requires Text.Contains(s, t) && Text.Contains(t, u)
    ensures Text.Contains(s, u)
  {
    var i :| 0 <= i <= |s| - |t| && t <= s[i..];
    var j :| 0 <= j <= |t| - |u| && u <= t[j..];
    assert s[i + j..][..|u|] == t[j..][..|u|];
    assert u <= s[i + j..];
  }

  /** The entries keep the order of the assemblies: the entries of a concatenation are the two runs glued by one newline. */
  lemma SolutionEntriesInOrder(ctx: Context, s: seq<Assembly>, t: seq<Assembly>)
    requires forall a :: a in s + t ==> IsCSharp(a)
    requires s != [] && t != []
    ensures forall a :: a in s ==> IsCSharp(a)
    ensures forall a :: a in t ==> IsCSharp(a)
    ensures Text.JoinWith(ProjectEntries(ctx, s + t), WindowsNewline)
         == Text.JoinWith(ProjectEntries(ctx, s), WindowsNewline) + WindowsNewline
            + Text.JoinWith(ProjectEntries(ctx, t), WindowsNewline)
  {
    Seqs.MapPartialAppend(EntryOf(ctx), s, t);
    Text.JoinWithAppend(ProjectEntries(ctx, s), ProjectEntries(ctx, t), WindowsNewline);
  }

  // ---------------------------------------------------------------------
  // Non-script assets

  /** The assembly a non-script asset is listed under, if any. */
  function PartAssemblyName(ctx: Context, asset: string): Option<string> {
    if AssemblyNames.IsInternalizedPath(ctx.packages, ctx.generationFlag, asset) then None
    else
      var extension := Paths.GetExtension(asset);
      if IsSupportedExtension(ctx, extension) && ScriptingLanguageForExtension(extension) == NoLanguage then
        match ctx.unity.assemblyNameFromScriptPath(asset)
        case None => None
        case Some(name) => if name == "" then None else Some(Paths.GetFileNameWithoutExtension(name))
      else None
  }

  function PartItem(ctx: Context, asset: string): string {
    FileIO.EscapedRelativePathFor(asset, ctx.projectDirectory, ctx.services.fullPath, ctx.services.normalizePath)
  }

  /** One step of `GenerateAllAssetProjectParts`: the asset joins the list of its assembly. */
  function AddPart(ctx: Context, parts: map<string, seq<string>>, asset: string): map<string, seq<string>> {
    var name := PartAssemblyName(ctx, asset);
    if name.None? then parts else Joined(parts, name.value, PartItem(ctx, asset))
  }

  /** The list of `name` with `item` appended; a missing list starts empty. */
  function Joined(parts: map<string, seq<string>>, name: string, item: string): map<string, seq<string>> {
    parts[name := (if name in parts then parts[name] else []) + [item]]
  }

  /** The part of a `GenerateAllAssetProjectParts` step after the provider has answered whether the asset is internalized. */
  method AddUnlessInternalized(ctx: Context, parts: map<string, seq<string>>, asset: string, internalized: bool)
    returns (result: map<string, seq<string>>)
    requires internalized == AssemblyNames.IsInternalizedPath(ctx.packages, ctx.generationFlag, asset)
    ensures result == AddPart(ctx, parts, asset)
  {
    result := parts;
    if !internalized {
      var extension := Paths.GetExtension(asset);
      if IsSupportedExtension(ctx, extension) && ScriptingLanguageForExtension(extension) == NoLanguage {
        var assemblyName := ctx.unity.assemblyNameFromScriptPath(asset);
        if assemblyName.Some? && assemblyName.value != "" {
          var name := Paths.GetFileNameWithoutExtension(assemblyName.value);
          var projectBuilder := if name in parts then parts[name] else [];
          AddPartJoins(ctx, parts, asset, name);
          result := parts[name := projectBuilder + [PartItem(ctx, asset)]];
          assert result == Joined(parts, name, PartItem(ctx, asset));
        } else {
          AddPartSkips(ctx, parts, asset);
        }
      } else {
        AddPartSkips(ctx, parts, asset);
      }
    } else {
      AddPartSkips(ctx, parts, asset);
    }
  }

  /** An asset without an assembly leaves the lists as they were. */
  lemma AddPartSkips(ctx: Context, parts: map<string, seq<string>>, asset: string)
    requires PartAssemblyName(ctx, asset).None?
    ensures AddPart(ctx, parts, asset) == parts
  {
  }

  /** An asset of an assembly is appended to that assembly's list, which starts empty. */
  lemma AddPartJoins(ctx: Context, parts: map<string, seq<string>>, asset: string, name: string)
    requires PartAssemblyName(ctx, asset) == Some(name)
    ensures AddPart(ctx, parts, asset) == Joined(parts, name, PartItem(ctx, asset))
  {
  }

  /** `GenerateAllAssetProjectParts` over the assets in the order the asset database lists them. */
  function AssetParts(ctx: Context, assets: seq<string>): map<string, seq<string>> {
    Seqs.GroupAll((a: string) => PartAssemblyName(ctx, a), (a: string) => PartItem(ctx, a), assets)
  }

  /** The loop of `GenerateAllAssetProjectParts` takes one asset at a time. */
  lemma AssetPartsStep(ctx: Context, assets: seq<string>, i: nat)
    requires i < |assets|
    ensures AssetParts(ctx, assets[..i + 1]) == AddPart(ctx, AssetParts(ctx, assets[..i]), assets[i])
  {
    assert assets[..i + 1][..i] == assets[..i];
  }

  /** An assembly has a list exactly when some asset belongs to it, and the list holds its assets' items in asset order. */
  lemma AssetPartsContents(ctx: Context, assets: seq<string>, name: string)
    ensures name in AssetParts(ctx, assets) <==> exists a :: a in assets && PartAssemblyName(ctx, a) == Some(name)
    ensures name in AssetParts(ctx, assets) ==>
              var items := AssetParts(ctx, assets)[name];
              |items| <= |assets|
              && forall j :: 0 <= j < |items| ==>
                   exists a :: a in assets && PartAssemblyName(ctx, a) == Some(name) && items[j] == PartItem(ctx, a)
  {
    Seqs.GroupAllContents((a: string) => PartAssemblyName(ctx, a), (a: string) => PartItem(ctx, a), assets, name);
    Seqs.GroupItemsFrom((a: string) => PartAssemblyName(ctx, a), (a: string) => PartItem(ctx, a), assets, name);
  }
}
