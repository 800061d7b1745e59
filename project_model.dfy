/**
 * The values the project generator reads from the Unity compilation
 * pipeline, and the documents it produces. A .csproj is kept as a
 * structured document; turning it into XML text is the host's business.
 */
module ProjectModel {
  import opened Wrappers

  /** `ApiCompatibilityLevel`; `Other` is any level the generator does not know. */
  datatype ApiCompatibilityLevel =
    | NET_2_0
    | NET_2_0_Subset
    | NET_Web
    | NET_Micro
    | NET_Standard
    | NET_Unity_4_8
    | Other(code: int)

  datatype ScriptingLanguage = NoLanguage | CSharp

  datatype ScriptCompilerOptions = ScriptCompilerOptions(
    allowUnsafeCode: bool,
    languageVersion: string,
    roslynAnalyzerRulesetPath: string,   // "" stands for a missing ruleset
    responseFiles: seq<string>,
    apiCompatibilityLevel: ApiCompatibilityLevel)

  /** `UnityEditor.Compilation.Assembly`. */
  datatype Assembly = Assembly(
    name: string,
    outputPath: string,
    sourceFiles: seq<string>,
    defines: seq<string>,
    compiledAssemblyReferences: seq<string>,
    assemblyReferences: seq<Assembly>,
    compilerOptions: ScriptCompilerOptions)

  /** What `CompilationPipeline.ParseResponseFile` reports about one .rsp file. */
  datatype ResponseFileData = ResponseFileData(
    defines: seq<string>,
    fullPathReferences: seq<string>,
    errors: seq<string>,
    otherArguments: seq<string>,
    unsafe: bool)

  /** The exceptions the generator can raise. */
  datatype Error =
    | UnknownApiCompatibilityLevel      // GetTargetFrameworkVersion's ArgumentOutOfRangeException
    | SourceFileWithoutExtension        // the `ext[1..]` slice of an empty extension
    | EmptyAssemblyName                 // `[0]` of a name that splits into nothing on ".dll"
    | DuplicateResponseFile             // ToDictionary over repeated response-file paths

  /**
   * The Unity editor as the generator sees it: the compilation pipeline,
   * the asset database and the editor and player settings.
   * `parseResponseFile` takes the response-file path, the project
   * directory and the assembly's own API compatibility level, which picks
   * the system reference directories (`GetSystemAssemblyDirectories`).
   * `apiCompatibilityLevel` is the player setting that picks the target
   * framework.
   */
  datatype Unity = Unity(
    assemblies: seq<Assembly>,
    allAssetPaths: seq<string>,
    assemblyNameFromScriptPath: string -> Option<string>,
    parseResponseFile: (string, string, ApiCompatibilityLevel) -> ResponseFileData,
    userExtensions: seq<string>,
    apiCompatibilityLevel: ApiCompatibilityLevel,
    activeScriptCompilationDefines: seq<string>,
    unity2023OrNewer: bool)

  /** A `<Reference>` item: the assembly name and its hint path. */
  datatype Reference = Reference(assemblyName: string, hintPath: string)

  /** A NuGet `<PackageReference>`. */
  datatype PackageReference = PackageReference(
    packageId: string,
    version: string,
    privateAssets: string,
    includeAssets: string)

  /** A generated .csproj: the SDK-style skeleton filled in by ProjectText. */
  datatype ProjectDocument = ProjectDocument(
    targetFramework: string,
    langVersion: string,
    allowUnsafeBlocks: bool,
    warningLevel: string,
    noStdLib: string,
    assemblyName: string,
    defineConstants: string,
    codeAnalysisRuleSets: seq<string>,
    compileItems: Option<seq<string>>,     // None: no source files, no item group
    noneItems: Option<seq<string>>,        // None: no non-script assets for this assembly
    references: Option<seq<Reference>>,    // None: no references at all
    projectReferences: Option<seq<string>>,// None: the assembly references no assembly
    analyzer: PackageReference)

  /**
   * The services the generator is handed or calls into: GUIDs, the path
   * functions of the editor, XML rendering and the post-processor hooks.
   */
  datatype Services = Services(
    projectGuid: (string, string) -> string,
    solutionGuid: (string, string) -> string,
    fullPath: string -> string,
    normalizePath: string -> string,
    renderProject: ProjectDocument -> string,
    onGeneratedCSProject: (string, string) -> string,
    onGeneratedSlnSolution: (string, string) -> string)
}
