# VS Code editor integration for Unity, modelled in Dafny

This project models the deterministic core of the `com.tsk.ide.vscode` Unity
editor package, which lets Unity use Visual Studio Code as its script editor.
The package keeps a C# solution (`.sln`) and one SDK-style project (`.csproj`)
per compiled assembly in sync with the Unity project. It also writes the VS
Code configuration files, finds the VS Code installations on the machine and
builds the command line that opens a script at a line and column.

The Unity host is abstract. The compilation pipeline, the asset database,
the package manager, `CodeEditor.ParseArgument`, `Path.GetFullPath`, the
editor's path normalisation, the GUID generator and the asset post-processor
hooks are all function-valued inputs. The file system is a class that holds a
map from path to text, a set of directories and the log of writes. `EditorPrefs`
is a class holding two maps.

Modules, one per component:

- `ProjectGeneration` holds the pure part of project generation. It covers:
  - which files belong to the solution;
  - the scripting language of an assembly;
  - response-file arguments;
  - the project document (a datatype in place of the XML text);
  - facade rewriting;
  - the target framework;
  - the solution text.
- `ProjectSync` holds the class `ProjectGenerator`, whose methods write the
  solution, the projects and the configuration files through the file system.
  Each method is proved equal to a list of file operations (a plan) that
  functions compute. The lemmas state what those plans contain.
- `AssemblyNames` holds the assembly-name provider: the package root of an
  asset path, the memo of package lookups, the test that keeps packages out
  of the solution by their origin, and the project-generation flag.
- `Flags` holds the three `[Flags]` enums as 32-bit masks, the shared toggle
  rule and the `FlagHandler` class.
- `FileIO` holds the file-system class, XML escaping and the
  project-relative path of an asset.
- `ConfigGeneration` holds the configuration generator: the settings,
  workspace, OmniSharp and `.editorconfig` files, and the marker file.
- `ConfigTexts` names the configuration files that both generators write.
- `VSCodeDiscovery` holds the candidate install paths, the longest common
  prefix loop, the naming rules and the lazily filled installation list.
- `ScriptEditor` holds both versions of `VSCodeScriptEditor` in one class,
  told apart by a `Package` value: `Current` for
  `com.tsk.ide.vscode/Editor` and `Legacy` for `Packages/com.tsk.ide.vscode/Editor`.
  It covers the handled extensions, the installation lookup, the launch
  command and the change notification.
- `Wrappers`, `Seqs`, `Text` and `Paths` are helpers. They hold `Option`
  and `Result`, LINQ-style sequence operations, string operations and the
  parts of `System.IO.Path` the package uses.
- `ProjectModel` holds the Unity types: `Assembly`, `ResponseFileData`, the
  host record and the error values.
- `Preferences` holds `EditorPrefs`.

Exceptions the source can raise are modelled as `Result` errors:
- an unknown API compatibility level;
- a source file without an extension;
- an assembly name that is only ".dll";
- a compiler option that names the same response file twice.

## Model

| member | source | states |
|---|---|---|
| VSCodeDiscovery.PairPrefixLength | com.tsk.ide.vscode/Editor/VSCodeDiscovery.cs:120-129 | the shared length of two strings: both agree on that many characters and differ right after it, unless one has ended |
| VSCodeDiscovery.PairPrefixUnique | com.tsk.ide.vscode/Editor/VSCodeDiscovery.cs:120-129 | any length at which two strings agree and after which they differ or one ends is the shared length: the inner loop's stopping point is unique |
| VSCodeDiscovery.CommonPrefixIsLongest | com.tsk.ide.vscode/Editor/VSCodeDiscovery.cs:114-133 | the common prefix is a prefix of every path, and every string that prefixes all paths is a prefix of it |
| VSCodeDiscovery.GetLongestCommonPrefix | com.tsk.ide.vscode/Editor/VSCodeDiscovery.cs:114-133 | the nested loop that shortens `baseLength` path by path returns exactly the longest common prefix of the paths |
| VSCodeDiscovery.NameInstallationsCases | com.tsk.ide.vscode/Editor/VSCodeDiscovery.cs:59-98 | no existing path gives no installation; one path, or two of which one has no separator after the prefix, gives one installation named by whether it contains "Insiders"; otherwise every path, in order, is named "Visual Studio Code Insiders (<rest>)" with prefix + rest equal to the path |
| VSCodeDiscovery.KeepsFirstOnlyCases | com.tsk.ide.vscode/Editor/VSCodeDiscovery.cs:81-86 | a single installation is kept exactly for one path, or for two of which the first or the second has no separator after the common prefix |
| VSCodeDiscovery.NameInstallationsPaths | com.tsk.ide.vscode/Editor/VSCodeDiscovery.cs:59-98 | every installation found is at an existing path, there are at most as many as paths, and the list is empty exactly when no path exists |
| VSCodeDiscovery.DiscoveredPathsExist | com.tsk.ide.vscode/Editor/VSCodeDiscovery.cs:29-100 | only candidate paths of the platform that pass the existence test are reported, and nothing is reported exactly when no candidate exists |
| VSCodeDiscovery.Discovery.constructor | com.tsk.ide.vscode/Editor/VSCodeDiscovery.cs:16 | the installation list starts absent |
| VSCodeDiscovery.Discovery.PathCallback | com.tsk.ide.vscode/Editor/VSCodeDiscovery.cs:18-27 | the first call discovers and stores the installations; later calls return the stored list unchanged without discovering again |
| VSCodeDiscovery.Discovery.FindInstallationPaths | com.tsk.ide.vscode/Editor/VSCodeDiscovery.cs:29-100 | the list becomes the named existing candidates; with no candidate it stays empty |
| FileIO.Write | com.tsk.ide.vscode/Editor/Utils/FileIO.cs:33-36 | the file holds the new content, every other file is as it was, and the write is logged |
| FileIO.FileSystem.WriteAllText | com.tsk.ide.vscode/Editor/Utils/FileIO.cs:33-36 | the disk becomes `Write` of the old disk; directories are unchanged |
| FileIO.FileSystem.ReadAllText | com.tsk.ide.vscode/Editor/Utils/FileIO.cs:28-31 | a file that exists yields its content; a missing one yields None (the exception) |
| FileIO.FileSystem.Copy | com.tsk.ide.vscode/Editor/Utils/FileIO.cs:38-41 | copies exactly when the source exists and the target is absent or overwrite is set; otherwise nothing changes |
| FileIO.FileSystem.CreateDirectory | com.tsk.ide.vscode/Editor/Utils/FileIO.cs:43-46 | the directory is added (an existing one is no error) and no file changes |
| FileIO.FileSystem.constructor | com.tsk.ide.vscode/Editor/Utils/FileIO.cs:23-46 | the disk starts with the given files and directories and an empty write log |
| FileIO.SkipPathPrefix | com.tsk.ide.vscode/Editor/Utils/FileIO.cs:60-68 | the path is returned whole, or it was prefix + "/" + result; it is stripped exactly when it starts with prefix + "/" |
| FileIO.SkipPathPrefixInside | com.tsk.ide.vscode/Editor/Utils/FileIO.cs:60-68 | a path inside the directory comes back as its relative part |
| FileIO.SkipPathPrefixSibling | com.tsk.ide.vscode/Editor/Utils/FileIO.cs:60-68 | a sibling directory that only shares the name's beginning ("/p/Assets2" against "/p/Assets") is not stripped |
| FileIO.XmlEscape | com.tsk.ide.vscode/Editor/Utils/FileIO.cs:57 | `SecurityElement.Escape` leaves no '<', '>', '"' or '\'' in its result, and every '&' in it begins one of the five entities |
| FileIO.XmlEscapeRoundTrip | com.tsk.ide.vscode/Editor/Utils/FileIO.cs:57 | escaping loses nothing: unescaping the escaped text gives the original back |
| FileIO.XmlEscapePlain | com.tsk.ide.vscode/Editor/Utils/FileIO.cs:57 | a text without special characters is written unchanged |
| FileIO.EscapedRelativePathFor | com.tsk.ide.vscode/Editor/Utils/FileIO.cs:48-58 | the result unescapes to the full normalised path with the full project directory and one separator stripped when it is inside |
| FileIO.EscapedRelativePathIsXmlText | com.tsk.ide.vscode/Editor/Utils/FileIO.cs:48-58 | the relative path holds no raw '<', '>', '"' or '\'' and every '&' in it begins one of the five entities |
| FileIO.EscapedRelativePathInside | com.tsk.ide.vscode/Editor/Utils/FileIO.cs:48-58 | an asset whose full path lies below the full project directory is written as its relative part |
| Flags.ToggleKeepsOtherBits | com.tsk.ide.vscode/Editor/Utils/FlagHandler.cs:72-94 | a toggle never touches bits outside the preference |
| Flags.ToggleClears | com.tsk.ide.vscode/Editor/Utils/FlagHandler.cs:72-94 | a preference that is wholly on is switched wholly off (`^=`) |
| Flags.ToggleSets | com.tsk.ide.vscode/Editor/Utils/FlagHandler.cs:72-94 | a preference not wholly on is switched wholly on (`\|=`) |
| Flags.ToggleTwice | com.tsk.ide.vscode/Editor/Utils/FlagHandler.cs:72-94 | toggling a preference that is wholly on or wholly off twice gives the flags back |
| Flags.ToggleBitTwice | com.tsk.ide.vscode/Editor/Utils/FlagHandler.cs:27-39 | a single-bit preference (every origin of the project-generation enum) is restored by two toggles |
| Flags.TogglePartialTwice | com.tsk.ide.vscode/Editor/Utils/FlagHandler.cs:27-39 | a preference of several bits that is partly on ends wholly off after two toggles, so toggling is not always an involution |
| Flags.FlagHandler.constructor | com.tsk.ide.vscode/Editor/Utils/FlagHandler.cs:51-54 | both fields start from the stored values, 0 when nothing is stored, and agree with the store |
| Flags.FlagHandler.SetArgumentFlag | com.tsk.ide.vscode/Editor/Utils/FlagHandler.cs:56-60 | as written: the store gets the value, the field is not assigned |
| Flags.FlagHandler.SetConfigFlag | com.tsk.ide.vscode/Editor/Utils/FlagHandler.cs:62-70 | the store and the field both get the value; the other flag is unchanged |
| Flags.FlagHandler.ToggleArgument | com.tsk.ide.vscode/Editor/Utils/FlagHandler.cs:72-82 | as written: the store gets the toggled value of the field; the field stays as it was |
| Flags.FlagHandler.ToggleConfig | com.tsk.ide.vscode/Editor/Utils/FlagHandler.cs:84-94 | the field becomes the toggle of its old value, the store gets the same value, the argument flag is unchanged |
| Flags.FlagHandler.SetArgumentFlagCorrected | com.tsk.ide.vscode/Editor/Utils/FlagHandler.cs:56-60 | corrected setter: store and field change together |
| Flags.FlagHandler.ToggleArgumentCorrected | com.tsk.ide.vscode/Editor/Utils/FlagHandler.cs:72-82 | with the corrected setter: field and store both become the toggle of the old field |
| Flags.ArgumentToggleIsLost | com.tsk.ide.vscode/Editor/Utils/FlagHandler.cs:56-82 | from an empty store, two `ToggleArgument(Argument)` calls store 1 both times while the field stays 0 |
| Flags.ArgumentToggleCorrectedRestores | com.tsk.ide.vscode/Editor/Utils/FlagHandler.cs:56-82 | with the corrected setter the same two toggles restore both field and store to 0 |
| AssemblyNames.ResolvePotentialParentPackageAssetPath | com.tsk.ide.vscode/Editor/ProjectGeneration/AssemblyNameProvider.cs:75-90 | None exactly when the path does not start with "packages/" in any case; otherwise the lower-cased path up to the end of the package name |
| AssemblyNames.ResolveIdempotent | com.tsk.ide.vscode/Editor/ProjectGeneration/AssemblyNameProvider.cs:75-90 | a package root resolves to itself |
| AssemblyNames.ResolveAssetInPackage | com.tsk.ide.vscode/Editor/ProjectGeneration/AssemblyNameProvider.cs:75-90 | every asset below a package root resolves to that root, lower-cased |
| AssemblyNames.SourceFlag | com.tsk.ide.vscode/Editor/ProjectGeneration/AssemblyNameProvider.cs:130-159 | each listed package origin maps to one project-generation bit; only an unlisted origin maps to none |
| AssemblyNames.ToggleOriginFlipsExclusion | com.tsk.ide.vscode/Editor/ProjectGeneration/AssemblyNameProvider.cs:130-171 | toggling the bit of a package's origin flips whether the package is kept out of the solution |
| AssemblyNames.PackageOf | com.tsk.ide.vscode/Editor/ProjectGeneration/AssemblyNameProvider.cs:97-115 | a path outside "packages/" belongs to no package |
| AssemblyNames.IsInternalizedPathCases | com.tsk.ide.vscode/Editor/ProjectGeneration/AssemblyNameProvider.cs:130-159 | a blank path or a path of no package is not internalized; for a listed origin the verdict is "the origin's bit is clear"; a path of an unlisted origin is not internalized |
| AssemblyNames.InternalizedByAnswers | com.tsk.ide.vscode/Editor/ProjectGeneration/AssemblyNameProvider.cs:130-159 | the verdict depends only on the lookup answers, not on what was memoised |
| AssemblyNames.GetAssemblies | com.tsk.ide.vscode/Editor/ProjectGeneration/AssemblyNameProvider.cs:61-68 | an assembly is kept exactly when it has a source file the predicate accepts; order is kept |
| AssemblyNames.GetAssembliesAppend | com.tsk.ide.vscode/Editor/ProjectGeneration/AssemblyNameProvider.cs:61-68 | filtering a concatenation is concatenating the filtered parts, so pipeline order is kept |
| AssemblyNames.AssemblyNameProvider.constructor | com.tsk.ide.vscode/Editor/ProjectGeneration/AssemblyNameProvider.cs:35-54 | empty cache, no lookups yet, the flag read from the store (0 if absent), cache coherent |
| AssemblyNames.AssemblyNameProvider.CoherentAnswersAreLookups | com.tsk.ide.vscode/Editor/ProjectGeneration/AssemblyNameProvider.cs:97-115 | while the cache is coherent, every memoised answer is the package manager's answer |
| AssemblyNames.AssemblyNameProvider.PackagesChanged | com.tsk.ide.vscode/Editor/ProjectGeneration/AssemblyNameProvider.cs:35-38 | the package manager's view changes and nothing else, so a stale memo can disagree with it |
| AssemblyNames.AssemblyNameProvider.ResetPackageInfoCache | com.tsk.ide.vscode/Editor/ProjectGeneration/AssemblyNameProvider.cs:92-95 | the memo is emptied and the cache is coherent again; flag and lookup unchanged |
| AssemblyNames.AssemblyNameProvider.FindForAssetPath | com.tsk.ide.vscode/Editor/ProjectGeneration/AssemblyNameProvider.cs:97-115 | answers the package of the asset per the memo-or-lookup index; a path outside "packages/" and a memo hit touch nothing; a miss asks once and memoises the answer, None included |
| AssemblyNames.AssemblyNameProvider.IsInternalizedPackagePath | com.tsk.ide.vscode/Editor/ProjectGeneration/AssemblyNameProvider.cs:130-159 | the verdict of `IsInternalizedPath` for the current index and flag; answers, lookup and flag are kept |
| AssemblyNames.AssemblyNameProvider.ToggleProjectGeneration | com.tsk.ide.vscode/Editor/ProjectGeneration/AssemblyNameProvider.cs:161-171 | the flag becomes its toggle through a setter that stores it and assigns the field; the cache is unchanged |
| ConfigGeneration.WriteAllFiles | com.tsk.ide.vscode/Editor/ConfigGeneration/ConfigGeneration.cs:158-209 | a sequence of writes leaves the files as the overlay says and logs every path in order |
| ConfigGeneration.WritingTwiceKeepsFiles | com.tsk.ide.vscode/Editor/ConfigGeneration/ConfigGeneration.cs:166-209 | running the same unconditional writes again leaves the same files |
| ConfigGeneration.ConfigPathsDistinct | com.tsk.ide.vscode/Editor/ConfigGeneration/ConfigGeneration.cs:144-209 | settings, workspace, OmniSharp, .editorconfig and marker are five different paths for any project directory and project name |
| ConfigGeneration.SyncResult | com.tsk.ide.vscode/Editor/ConfigGeneration/ConfigGeneration.cs:158-209 | after `Sync(canForce)` the settings hold their text; each optional file holds its text when wanted (its flag set or forced) and is as it was otherwise; every other file is as it was |
| ConfigGeneration.FourWrites | com.tsk.ide.vscode/Editor/ConfigGeneration/ConfigGeneration.cs:158-164 | one write that always happens and three conditional ones to four different paths leave exactly those contents |
| ConfigGeneration.ConfigGenerator.constructor | com.tsk.ide.vscode/Editor/ConfigGeneration/ConfigGeneration.cs:129-142 | project directory and name are taken from the given directory; a fresh flag handler over the preferences and the real disk are used, not the ones passed in |
| ConfigGeneration.ConfigGenerator.TskFileExists | com.tsk.ide.vscode/Editor/ConfigGeneration/ConfigGeneration.cs:144-156 | true exactly when the marker existed; otherwise the marker is written and false returned, so the marker exists afterwards |
| ConfigGeneration.ConfigGenerator.Sync | com.tsk.ide.vscode/Editor/ConfigGeneration/ConfigGeneration.cs:158-164 | the disk becomes exactly the writes of `SyncWrites`, and `.vscode` is created unless a file of that name is in the way |
| ConfigGeneration.ConfigGenerator.WriteVSCodeSettingsFiles | com.tsk.ide.vscode/Editor/ConfigGeneration/ConfigGeneration.cs:166-176 | the settings are rewritten unconditionally after creating `.vscode` |
| ConfigGeneration.ConfigGenerator.WriteWanted | com.tsk.ide.vscode/Editor/ConfigGeneration/ConfigGeneration.cs:178-209 | one configuration file is written exactly when its flag is set or the sync is forced |
| ProjectGeneration.ScriptOutsidePackagesTakesPart | com.tsk.ide.vscode/Editor/ProjectGeneration/ProjectGeneration.cs:362-368 | a ".cs" file outside "packages/" always belongs to the solution, whatever the flags |
| ProjectGeneration.AsmdefInAnyCase | com.tsk.ide.vscode/Editor/ProjectGeneration/ProjectGeneration.cs:370-382 | an assembly definition counts whatever the case of its extension |
| ProjectGeneration.UpperCaseDllDoesNotCount | com.tsk.ide.vscode/Editor/ProjectGeneration/ProjectGeneration.cs:370-382 | a library counts only with a lower-case ".dll", unless "DLL" is a listed extension |
| ProjectGeneration.ExtensionOfSourceFiles | com.tsk.ide.vscode/Editor/ProjectGeneration/ProjectGeneration.cs:399-409 | "NA" without sources; an error exactly when the first source has no extension; otherwise its lower-cased extension without the dot |
| ProjectGeneration.CSharpAssembly | com.tsk.ide.vscode/Editor/ProjectGeneration/ProjectGeneration.cs:394-419 | an assembly is C# exactly when its first source ends in ".cs" in any case |
| ProjectGeneration.RelevantAssembliesContents | com.tsk.ide.vscode/Editor/ProjectGeneration/ProjectGeneration.cs:1025-1028 | the filter fails exactly when some language cannot be decided; otherwise it keeps exactly the C# assemblies |
| ProjectGeneration.RelevantIdempotent | com.tsk.ide.vscode/Editor/ProjectGeneration/ProjectGeneration.cs:1025-1028 | filtering the C# assemblies again changes nothing |
| ProjectGeneration.RelevantAppend | com.tsk.ide.vscode/Editor/ProjectGeneration/ProjectGeneration.cs:1025-1028 | the filter works part by part, so pipeline order is kept |
| ProjectGeneration.ParseResponseFileData | com.tsk.ide.vscode/Editor/ProjectGeneration/ProjectGeneration.cs:447-478 | one parse per response file in order, each against the system directories of the assembly's own API compatibility level; repeated paths make `ToDictionary` throw, and only they do |
| ProjectGeneration.ParseArgument | com.tsk.ide.vscode/Editor/ProjectGeneration/ProjectGeneration.cs:927-957 | "/key:value" splits at its first colon; a colon-less "/warnaserror…" keeps what follows the option name; anything else yields no pair |
| ProjectGeneration.OptionArguments | com.tsk.ide.vscode/Editor/ProjectGeneration/ProjectGeneration.cs:927-957 | the parsed option tokens (starting with '/' or '-') of one response file, and only those |
| ProjectGeneration.LookupValues | com.tsk.ide.vscode/Editor/ProjectGeneration/ProjectGeneration.cs:927-957 | the values stored under a key are exactly those of its pairs, without duplicates when the pairs have none |
| ProjectGeneration.ArgumentValues | com.tsk.ide.vscode/Editor/ProjectGeneration/ProjectGeneration.cs:927-957 | `lookup[key]` over all response files: exactly the values of tokens that parse to that key, each once |
| ProjectGeneration.DefineList | com.tsk.ide.vscode/Editor/ProjectGeneration/ProjectGeneration.cs:858-866 | DEBUG and TRACE first, then every define of the assembly, the response files and the editor, each once; the distinct defines of DEBUG/TRACE, the assembly and the response files form a prefix of the list |
| ProjectGeneration.DefineListOrder | com.tsk.ide.vscode/Editor/ProjectGeneration/ProjectGeneration.cs:858-866 | the list holds exactly the concatenated defines, in the order of their first occurrence there |
| ProjectGeneration.DefineConstantsStartWithDebugTrace | com.tsk.ide.vscode/Editor/ProjectGeneration/ProjectGeneration.cs:858-866 | DefineConstants always begins with "DEBUG;TRACE" |
| ProjectGeneration.DefineConstantsSplit | com.tsk.ide.vscode/Editor/ProjectGeneration/ProjectGeneration.cs:858-866 | when no define contains ';', the joined text splits back into the define list |
| ProjectGeneration.RulesetPaths | com.tsk.ide.vscode/Editor/ProjectGeneration/ProjectGeneration.cs:909-920 | every non-empty ruleset candidate appears made absolute and normalised, and nothing else |
| ProjectGeneration.RulesetPathsOwnLast | com.tsk.ide.vscode/Editor/ProjectGeneration/ProjectGeneration.cs:909-920 | the assembly's own ruleset, when set and not named by a response file, comes last, so it is the `CodeAnalysisRuleSet` that MSBuild applies |
| ProjectGeneration.TargetFrameworkVersion | com.tsk.ide.vscode/Editor/ProjectGeneration/ProjectGeneration.cs:983-996 | netstandard2.1 exactly for .NET Standard, net48 exactly for the .NET Framework levels, an error for any other level |
| ProjectGeneration.HandleEditorReferenceRedirects | com.tsk.ide.vscode/Editor/ProjectGeneration/ProjectGeneration.cs:750-820 | a path through the facades folder is redirected to the netstandard folder its file name, read with '\' and '/' as separators, selects |
| ProjectGeneration.HandleEditorReferenceOfFacade | com.tsk.ide.vscode/Editor/ProjectGeneration/ProjectGeneration.cs:750-820 | a `<stem>.dll` directly inside the facades folder is redirected to the folder `stem` selects |
| ProjectGeneration.SystemRuntimeFacade | com.tsk.ide.vscode/Editor/ProjectGeneration/ProjectGeneration.cs:750-820 | `...\Facades\System.Runtime.dll` is redirected to the netstandard shims folder |
| ProjectGeneration.HandleEditorReferenceWithoutBackslash | com.tsk.ide.vscode/Editor/ProjectGeneration/ProjectGeneration.cs:750-820 | a path without backslashes is left alone |
| ProjectGeneration.FacadeRewritingByFramework | com.tsk.ide.vscode/Editor/ProjectGeneration/ProjectGeneration.cs:721-743 | net48 projects keep every hint path; netstandard projects have facades redirected exactly before Unity 2023.1 |
| ProjectGeneration.InternalAssemblyReferences | com.tsk.ide.vscode/Editor/ProjectGeneration/ProjectGeneration.cs:645-647 | every referenced assembly that is not itself a project contributes its output path, and every entry is such an output path |
| ProjectGeneration.AllReferences | com.tsk.ide.vscode/Editor/ProjectGeneration/ProjectGeneration.cs:642-650 | compiled, response-file and internal references are all present, each once, nothing else is, and the distinct compiled references come first |
| ProjectGeneration.AllReferencesOrder | com.tsk.ide.vscode/Editor/ProjectGeneration/ProjectGeneration.cs:642-650 | the union holds exactly the three lists' references, in the order of their first occurrence in them |
| ProjectGeneration.ProjectReferenceNames | com.tsk.ide.vscode/Editor/ProjectGeneration/ProjectGeneration.cs:666-684 | exactly the referenced assemblies that are projects, as "<name>.csproj" |
| ProjectGeneration.ReferencedAssemblyIsListed | com.tsk.ide.vscode/Editor/ProjectGeneration/ProjectGeneration.cs:642-684 | every referenced assembly appears: as a project reference when it is a project, otherwise by output path |
| ProjectGeneration.ProjectDocumentFor | com.tsk.ide.vscode/Editor/ProjectGeneration/ProjectGeneration.cs:596-614 | the document fails exactly when the API compatibility level is unknown |
| ProjectGeneration.ProjectDocumentProperties | com.tsk.ide.vscode/Editor/ProjectGeneration/ProjectGeneration.cs:823-884 | target framework is net48 or netstandard2.1, defines start with DEBUG;TRACE, assembly name, warning level 4, NoStdLib, unsafe exactly when the assembly or a response file allows it, the lang version is the first response-file `langversion` value unless that is blank and the assembly's own otherwise (:898-907), the None and Compile groups are present exactly when they have content, and the project-reference group is present exactly when the assembly references any assembly, possibly empty |
| ProjectGeneration.ProjectDocumentReferenceGroups | com.tsk.ide.vscode/Editor/ProjectGeneration/ProjectGeneration.cs:642-684 | the reference group is present exactly when there is a reference and holds one entry per reference; the project-reference group is present, possibly empty, exactly when the assembly references any assembly |
| ProjectGeneration.CompileItemsAreRelative | com.tsk.ide.vscode/Editor/ProjectGeneration/ProjectGeneration.cs:616-630 | each source file is listed, in order, by its escaped path relative to the project directory |
| ProjectGeneration.ReferencedAssemblyInDocument | com.tsk.ide.vscode/Editor/ProjectGeneration/ProjectGeneration.cs:642-684 | every referenced assembly lands in the document as a project reference or as a reference by output path |
| ProjectGeneration.SolutionLayout | com.tsk.ide.vscode/Editor/ProjectGeneration/ProjectGeneration.cs:959-981 | the solution template has the project entries on line 4 and the configurations on line 10 of 16 |
| ProjectGeneration.SolutionText | com.tsk.ide.vscode/Editor/ProjectGeneration/ProjectGeneration.cs:1003-1023 | the solution text fails exactly when the C# filter does |
| ProjectGeneration.SolutionIgnoresOtherLanguages | com.tsk.ide.vscode/Editor/ProjectGeneration/ProjectGeneration.cs:1003-1023 | assemblies of other languages do not change the solution text |
| ProjectGeneration.SolutionListsEveryProject | com.tsk.ide.vscode/Editor/ProjectGeneration/ProjectGeneration.cs:1034-1056 | each C# assembly's project entry and its configuration block, keyed by its GUID, are in the text |
| ProjectGeneration.SolutionEntriesInOrder | com.tsk.ide.vscode/Editor/ProjectGeneration/ProjectGeneration.cs:1034-1048 | entries follow assembly order: the entries of a concatenation are the two runs joined by one CR LF |
| ProjectGeneration.AssetPartsStep | com.tsk.ide.vscode/Editor/ProjectGeneration/ProjectGeneration.cs:480-531 | the loop takes one asset at a time |
| ProjectGeneration.AssetPartsContents | com.tsk.ide.vscode/Editor/ProjectGeneration/ProjectGeneration.cs:480-531 | an assembly has a list exactly when one of the assets belongs to it, and the list holds those assets' items in asset order |
| ProjectSync.ApplyAllElsewhere | com.tsk.ide.vscode/Editor/ProjectGeneration/ProjectGeneration.cs:562-580 | a file no operation names is left as it was |
| ProjectSync.ApplyAllSettles | com.tsk.ide.vscode/Editor/ProjectGeneration/ProjectGeneration.cs:562-580 | after operations on distinct files every one of them is settled |
| ProjectSync.ApplyAllSettled | com.tsk.ide.vscode/Editor/ProjectGeneration/ProjectGeneration.cs:562-580 | operations that are all settled change nothing, not even the write log |
| ProjectSync.ApplyAllTwice | com.tsk.ide.vscode/Editor/ProjectGeneration/ProjectGeneration.cs:562-580 | a second identical pass writes nothing |
| ProjectSync.ApplyAllAppend | com.tsk.ide.vscode/Editor/ProjectGeneration/ProjectGeneration.cs:562-580 | applying two lists is applying one after the other |
| ProjectSync.ProjectFileIsCsproj | com.tsk.ide.vscode/Editor/ProjectGeneration/ProjectGeneration.cs:886-891 | every project file name ends in ".csproj" |
| ProjectSync.ProjectOp | com.tsk.ide.vscode/Editor/ProjectGeneration/ProjectGeneration.cs:533-553 | the project file of the assembly, or an error exactly when the response files repeat or the API level is unknown |
| ProjectSync.ProjectOpContents | com.tsk.ide.vscode/Editor/ProjectGeneration/ProjectGeneration.cs:533-553 | a project file receives the rendered document passed through the .csproj post-processors |
| ProjectSync.SolutionOpIsSolutionText | com.tsk.ide.vscode/Editor/ProjectGeneration/ProjectGeneration.cs:998-1023 | filtering again, as `SolutionText` does, leaves the solution text of the filtered assemblies unchanged |
| ProjectSync.AssemblyKeyPlain | com.tsk.ide.vscode/Editor/ProjectGeneration/ProjectGeneration.cs:245-257 | a name without ".dll" is its own key |
| ProjectSync.AssemblyKeyCut | com.tsk.ide.vscode/Editor/ProjectGeneration/ProjectGeneration.cs:245-257 | a name is cut at its first ".dll" when something precedes it |
| ProjectSync.AssemblyKeyOfBareDll | com.tsk.ide.vscode/Editor/ProjectGeneration/ProjectGeneration.cs:245-257 | a name that is only ".dll" leaves nothing to index and the pass throws |
| ProjectSync.ChangedNamesContents | com.tsk.ide.vscode/Editor/ProjectGeneration/ProjectGeneration.cs:245-257 | no error exactly when every changed asset with a non-blank assembly name has a key; every name comes from such an asset, and every such key is there |
| ProjectSync.ChangedProjectsPlanContents | com.tsk.ide.vscode/Editor/ProjectGeneration/ProjectGeneration.cs:259-265 | the solution comes first; every project after it belongs to an assembly whose name changed; when nothing throws all of them are written; it throws exactly when a name or one of those projects does |
| ProjectSync.AllProjectsPlanContents | com.tsk.ide.vscode/Editor/ProjectGeneration/ProjectGeneration.cs:421-445 | a full pass completes exactly when every project does and then writes solution, all projects in order, then configuration files; when it throws nothing after the failing project is written |
| ProjectSync.FullPlanCompletes | com.tsk.ide.vscode/Editor/ProjectGeneration/ProjectGeneration.cs:421-445 | `GenerateAndWriteSolutionAndProjects` completes exactly when the C# filter succeeds and every C# assembly's project can be made |
| ProjectSync.FullPlanWrites | com.tsk.ide.vscode/Editor/ProjectGeneration/ProjectGeneration.cs:421-445 | a completed full pass writes the solution, each C# project in pipeline order, then the four configuration files |
| ProjectSync.ChangedPassContents | com.tsk.ide.vscode/Editor/ProjectGeneration/ProjectGeneration.cs:245-269 | an incremental pass past the change test writes the solution first and then only projects of changed assemblies, all of them when it completes; it completes exactly when the filter, the names and those projects do |
| ProjectSync.IncrementalPlan | com.tsk.ide.vscode/Editor/ProjectGeneration/ProjectGeneration.cs:228-269 | `SyncIfNeeded` syncs exactly when the change test holds, and writes nothing otherwise |
| ProjectSync.NoChangeWritesNothing | com.tsk.ide.vscode/Editor/ProjectGeneration/ProjectGeneration.cs:271-280 | a notification with no eligible file and no reimported .dll or .asmdef neither syncs nor writes |
| ProjectSync.ConfigOps | com.tsk.ide.vscode/Editor/ProjectGeneration/ProjectGeneration.cs:1114-1149 | four configuration files, each created only when absent |
| ProjectSync.ProjectGenerator.constructor | com.tsk.ide.vscode/Editor/ProjectGeneration/ProjectGeneration.cs:194-214 | the directory is normalised once, the project is named after its last component, and the extension list starts empty |
| ProjectSync.ProjectGenerator.SetupProjectSupportedExtensions | com.tsk.ide.vscode/Editor/ProjectGeneration/ProjectGeneration.cs:357-360 | the supported extensions become the user's project-generation extensions |
| ProjectSync.ProjectGenerator.SyncFileIfNotChanged | com.tsk.ide.vscode/Editor/ProjectGeneration/ProjectGeneration.cs:562-580 | the file is written unless it already holds exactly the new text |
| ProjectSync.ProjectGenerator.SyncProjectFileIfNotChanged | com.tsk.ide.vscode/Editor/ProjectGeneration/ProjectGeneration.cs:545-553 | the project text passes through the .csproj post-processors, then is written only if different |
| ProjectSync.ProjectGenerator.SyncSolutionFileIfNotChanged | com.tsk.ide.vscode/Editor/ProjectGeneration/ProjectGeneration.cs:555-560 | the solution text passes through the .sln post-processors, then is written only if different |
| ProjectSync.ProjectGenerator.SyncSolution | com.tsk.ide.vscode/Editor/ProjectGeneration/ProjectGeneration.cs:998-1001 | the solution file is synced, unless the C# filter throws, in which case nothing is written |
| ProjectSync.ProjectGenerator.SyncAssembly | com.tsk.ide.vscode/Editor/ProjectGeneration/ProjectGeneration.cs:533-543 | one assembly's project is synced, or its error is reported with nothing written |
| ProjectSync.ProjectGenerator.GenerateAllAssetProjectParts | com.tsk.ide.vscode/Editor/ProjectGeneration/ProjectGeneration.cs:480-531 | the loop over the asset database builds exactly `AssetParts` of the assets, keeping the provider's answers |
| ProjectSync.ProjectGenerator.AddAssetPart | com.tsk.ide.vscode/Editor/ProjectGeneration/ProjectGeneration.cs:483-520 | one step of the loop asks the provider whether the asset is internalized, adds exactly what `AddPart` adds and keeps the provider's answers |
| ProjectGeneration.AddUnlessInternalized | com.tsk.ide.vscode/Editor/ProjectGeneration/ProjectGeneration.cs:487-519 | an internalized asset, an unsupported or scripted extension, or no owning assembly leaves the parts unchanged; otherwise a `None` item is appended under the assembly's bare name, the same map `AddPart` gives |
| ProjectSync.ProjectGenerator.SyncIfNeeded | com.tsk.ide.vscode/Editor/ProjectGeneration/ProjectGeneration.cs:228-269 | sets up the extensions, then does exactly what `IncrementalPlan` says for the state at the call; directories, provider answers, lookup and flag kept |
| ProjectSync.ProjectGenerator.SyncChanged | com.tsk.ide.vscode/Editor/ProjectGeneration/ProjectGeneration.cs:245-269 | past the change test: exactly `ChangedPass` |
| ProjectSync.ProjectGenerator.SyncChangedProjectsPass | com.tsk.ide.vscode/Editor/ProjectGeneration/ProjectGeneration.cs:245-269 | after the solution: exactly the changed-projects plan |
| ProjectSync.ProjectGenerator.SyncRelevantSolution | com.tsk.ide.vscode/Editor/ProjectGeneration/ProjectGeneration.cs:998-1001 | the solution of already filtered assemblies is synced |
| ProjectSync.ProjectGenerator.SyncChangedProjects | com.tsk.ide.vscode/Editor/ProjectGeneration/ProjectGeneration.cs:259-265 | the loop syncs each relevant assembly whose name changed, stopping at the first that throws |
| ProjectSync.ProjectGenerator.Sync | com.tsk.ide.vscode/Editor/ProjectGeneration/ProjectGeneration.cs:344-350 | sets up the extensions, then does exactly what `FullPlan` says; when nothing throws `.vscode` exists afterwards |
| ProjectSync.ProjectGenerator.GenerateAndWriteSolutionAndProjects | com.tsk.ide.vscode/Editor/ProjectGeneration/ProjectGeneration.cs:421-445 | exactly `FullPlan`: solution, projects, then configuration files |
| ProjectSync.ProjectGenerator.SyncAllAfterSolution | com.tsk.ide.vscode/Editor/ProjectGeneration/ProjectGeneration.cs:421-445 | the project loop and then, only when nothing threw, the configuration files |
| ProjectSync.ProjectGenerator.SyncAllProjects | com.tsk.ide.vscode/Editor/ProjectGeneration/ProjectGeneration.cs:421-445 | the loop syncs every relevant assembly, stopping at the first that throws |
| ProjectSync.ProjectGenerator.WriteConfigFiles | com.tsk.ide.vscode/Editor/ProjectGeneration/ProjectGeneration.cs:1114-1149 | settings, workspace, OmniSharp and .editorconfig, each written only if absent, in that order |
| ProjectSync.ProjectGenerator.WriteVSCodeSettingsFiles | com.tsk.ide.vscode/Editor/ProjectGeneration/ProjectGeneration.cs:1114-1125 | `.vscode` is created unless a file is in the way, and the settings are written only if absent |
| ProjectSync.ProjectGenerator.WriteIfAbsent | com.tsk.ide.vscode/Editor/ProjectGeneration/ProjectGeneration.cs:1127-1149 | a configuration file is written only when it does not exist |
| ProjectSync.ProjectGenerator.ConfigOpsApplied | com.tsk.ide.vscode/Editor/ProjectGeneration/ProjectGeneration.cs:1114-1149 | the four create operations equal the four write-if-absent calls in order |
| ProjectSync.ProjectGenerator.GenerateAll | com.tsk.ide.vscode/Editor/ProjectGeneration/ProjectGeneration.cs:173-185 | its argument is ignored; the preference is toggled over the mask of all eight origin bits and stored: all eight are cleared when all are set, otherwise all are set |
| ScriptEditor.DefaultExtensions | com.tsk.ide.vscode/Editor/VSCodeScriptEditor.cs:163-174 | built-in, user and package extensions, each once; the distinct built-in ones come first, then the distinct user ones not already seen; the legacy copy at Packages/com.tsk.ide.vscode/Editor/VSCodeScriptEditor.cs:53-64 does the same |
| ScriptEditor.DefaultExtensionsOrder | com.tsk.ide.vscode/Editor/VSCodeScriptEditor.cs:163-174 | the list holds exactly the built-in, user and package extensions, in the order of their first occurrence there; the legacy copy at Packages/com.tsk.ide.vscode/Editor/VSCodeScriptEditor.cs:53-64 does the same |
| ScriptEditor.HandledExtensions | com.tsk.ide.vscode/Editor/VSCodeScriptEditor.cs:176-185 | the entries are pieces without ';' and without a leading '.' or '*'; the legacy copy at Packages/com.tsk.ide.vscode/Editor/VSCodeScriptEditor.cs:66-75 does the same |
| ScriptEditor.HandledExtensionsOfJoin | com.tsk.ide.vscode/Editor/VSCodeScriptEditor.cs:176-191 | the joined default setting reads back as exactly those extensions; the legacy copy at Packages/com.tsk.ide.vscode/Editor/VSCodeScriptEditor.cs:66-81 does the same |
| ScriptEditor.SupportsExtensionMeans | com.tsk.ide.vscode/Editor/VSCodeScriptEditor.cs:690-696 | a path is supported exactly when its extension is "." plus a handled entry; the legacy copy at Packages/com.tsk.ide.vscode/Editor/VSCodeScriptEditor.cs:431-437 does the same |
| ScriptEditor.SupportsExtensionOfSuffix | com.tsk.ide.vscode/Editor/VSCodeScriptEditor.cs:690-696 | a path ending in "." plus a handled entry with no dot and no separator is supported; the legacy copy at Packages/com.tsk.ide.vscode/Editor/VSCodeScriptEditor.cs:431-437 does the same |
| ScriptEditor.FirstWithPath | com.tsk.ide.vscode/Editor/VSCodeScriptEditor.cs:193-232 | the first installation at exactly that path, or None when none is at it; the legacy copy at Packages/com.tsk.ide.vscode/Editor/VSCodeScriptEditor.cs:83-122 does the same |
| ScriptEditor.InstallationForPath | com.tsk.ide.vscode/Editor/VSCodeScriptEditor.cs:193-232 | None exactly for an executable that is not VS Code; otherwise the first discovered installation at that path or, failing that, one named "Visual Studio Code"; the legacy copy at Packages/com.tsk.ide.vscode/Editor/VSCodeScriptEditor.cs:83-122 does the same |
| ScriptEditor.IsVSCodeInstallationMeans | com.tsk.ide.vscode/Editor/VSCodeScriptEditor.cs:728-743 | the start-up test is false for an empty path and otherwise is the installation test after reading '\' as a separator; the legacy copy at Packages/com.tsk.ide.vscode/Editor/VSCodeScriptEditor.cs:461-476 does the same |
| ScriptEditor.DefaultArgumentIsTemplate | com.tsk.ide.vscode/Editor/VSCodeScriptEditor.cs:55-56 | the default argument is the project template with placeholders |
| ScriptEditor.WorkplaceArgumentIsTemplate | com.tsk.ide.vscode/Editor/VSCodeScriptEditor.cs:58-59 | the workspace default argument is the workspace template with placeholders; the legacy copy at Packages/com.tsk.ide.vscode/Editor/VSCodeScriptEditor.cs:40-41 does the same |
| ScriptEditor.BuiltInArgumentsFollowTemplate | com.tsk.ide.vscode/Editor/VSCodeScriptEditor.cs:637-648 | the hand-built default is the template filled in; the "-g" part is there exactly when a file other than the project is opened; the legacy copy at Packages/com.tsk.ide.vscode/Editor/VSCodeScriptEditor.cs:253-260 does the same |
| ScriptEditor.Open | com.tsk.ide.vscode/Editor/VSCodeScriptEditor.cs:611-672 | None exactly for a non-empty path that is unhandled or missing; the empty path is never refused; the legacy copy at Packages/com.tsk.ide.vscode/Editor/VSCodeScriptEditor.cs:230-284 does the same |
| ScriptEditor.OpenFileWithDefaults | com.tsk.ide.vscode/Editor/VSCodeScriptEditor.cs:618-648 | with default arguments a file opens on the workspace (or the project directory for the current package without the flag) at the normalised line and column, never -1; the legacy copy at Packages/com.tsk.ide.vscode/Editor/VSCodeScriptEditor.cs:237-260 does the same |
| ScriptEditor.OpenProjectItself | com.tsk.ide.vscode/Editor/VSCodeScriptEditor.cs:627-636 | with a custom template, opening the project itself passes the unquoted workspace path; the legacy copy at Packages/com.tsk.ide.vscode/Editor/VSCodeScriptEditor.cs:246-251 does the same |
| ScriptEditor.AffectedFilesInOrder | com.tsk.ide.vscode/Editor/VSCodeScriptEditor.cs:585-600 | the united lists are the distinct files of all four in order of first mention; the legacy copy at Packages/com.tsk.ide.vscode/Editor/VSCodeScriptEditor.cs:204-219 does the same |
| ScriptEditor.AffectedFilesContents | com.tsk.ide.vscode/Editor/VSCodeScriptEditor.cs:585-600 | every file of the four lists, exactly once; the legacy copy at Packages/com.tsk.ide.vscode/Editor/VSCodeScriptEditor.cs:204-219 does the same |
| ScriptEditor.AffectedFilesAddedFirst | com.tsk.ide.vscode/Editor/VSCodeScriptEditor.cs:585-600 | the added files come first; the legacy copy at Packages/com.tsk.ide.vscode/Editor/VSCodeScriptEditor.cs:204-219 does the same |
| ScriptEditor.Editor.constructor | com.tsk.ide.vscode/Editor/VSCodeScriptEditor.cs:700-709 | the editor keeps the given discovery and generator and has not read its arguments yet; the legacy copy at Packages/com.tsk.ide.vscode/Editor/VSCodeScriptEditor.cs:441-445 does the same |
| ScriptEditor.Editor.HandledExtensionsDefault | com.tsk.ide.vscode/Editor/VSCodeScriptEditor.cs:163-191 | with no setting stored the handled extensions are the defaults; the legacy copy at Packages/com.tsk.ide.vscode/Editor/VSCodeScriptEditor.cs:53-81 does the same |
| ScriptEditor.Editor.GetEditorArguments | com.tsk.ide.vscode/Editor/VSCodeScriptEditor.cs:61-73 | the first read comes from the store (default template if absent) and is remembered; the legacy copy at Packages/com.tsk.ide.vscode/Editor/VSCodeScriptEditor.cs:43-51 does the same |
| ScriptEditor.Editor.OpenProject | com.tsk.ide.vscode/Editor/VSCodeScriptEditor.cs:611-672 | the launch is `Open` of the session; the arguments are read and remembered only when the file is accepted; the legacy copy at Packages/com.tsk.ide.vscode/Editor/VSCodeScriptEditor.cs:230-284 does the same |
| ScriptEditor.Editor.TryGetInstallationForPath | com.tsk.ide.vscode/Editor/VSCodeScriptEditor.cs:193-232 | discovery runs once; the answer is `InstallationForPath` of the discovered list; the legacy copy at Packages/com.tsk.ide.vscode/Editor/VSCodeScriptEditor.cs:83-122 does the same |
| ScriptEditor.Editor.SyncIfNeeded | com.tsk.ide.vscode/Editor/VSCodeScriptEditor.cs:585-600 | the package cache is emptied, then the incremental plan runs on the united lists; the legacy copy at Packages/com.tsk.ide.vscode/Editor/VSCodeScriptEditor.cs:204-219 does the same |
| ScriptEditor.Editor.SyncAll | com.tsk.ide.vscode/Editor/VSCodeScriptEditor.cs:602-609 | the package cache is emptied, then the full plan runs; the legacy copy at Packages/com.tsk.ide.vscode/Editor/VSCodeScriptEditor.cs:221-228 does the same |

## Left out

- `GenerateNugetJsonSourceFiles` and `RunDotnetProcess` (`com.tsk.ide.vscode/Editor/ProjectGeneration/ProjectGeneration.cs:1076-1112`), which `GenerateAndWriteSolutionAndProjects` calls after the projects (line 439): they search the project directory for every .csproj and run `dotnet restore` on each, an external process whose effects on disk are not modelled.
- Launching the process (`Process.Start`, `open -n` on macOS through `OpenOSX`): the model stops at the command line, a `Launch` value with the executable and the arguments, because starting a process is I/O.
- The NuGet and `dotnet` handling of the legacy editor (`Packages/com.tsk.ide.vscode/Editor/VSCodeScriptEditor.cs:302-429`, `CreateIfDoesntExist`, the Roslyn, OmniSharp and `.editorconfig` helpers there): it shells out to external tools and downloads packages.
- `CreateIfDoesntExist` of the current editor (`com.tsk.ide.vscode/Editor/VSCodeScriptEditor.cs:572-583`): it only chains operations that are modelled (`ProjectGenerator.Sync` when the solution is missing, `ConfigGenerator.TskFileExists`, `ConfigGenerator.Sync`) and adds no behaviour of its own.
- The asset post-processor hooks (`OnGeneratedCSProject`, `OnGeneratedSlnSolution`) and the MD5-based GUID generator: they call into user code and hashing, so they are host functions.
- XML serialisation of the project: the project is a `ProjectDocument` value and the host's `render` function turns it into text; the repeated `XElement.Add` calls of `ProjectText` become the fields of that one value.
- The bodies of the settings, workspace, OmniSharp and `.editorconfig` files: they are constant JSON and INI text, taken as the opaque `ConfigTexts` value that both generators share.
- `Path.GetFullPath` and `NormalizePath`: host functions; paths use '/' only, so the Windows alternative separator is not modelled.
- HandleEditorReference: the facades folder it rewrites is spelt with '\', so only a Windows path can contain it; the file name that picks the netstandard folder is therefore read as a Windows host reads it, with '\' and '/' both separators, while every other path operation of the model keeps '/' as its only separator.
- `ToLower`, `ToLowerInvariant` and `OrdinalIgnoreCase` comparisons are modelled as ASCII case folding; culture-specific casing is not.
- The preferences GUI (`OnGUI`, the toggles and buttons that call `ToggleArgument`, `ToggleConfig` and `GenerateAll`) and the public `EditorArguments` setter: user interface.
- `Helper.cs`, `GetRoslynAnalyzerPaths` and the logging of response-file errors: they are not part of this model; analyzer paths are an input of the host.
- The growth of `AssemblyNameProvider`'s package cache during one pass is taken as one snapshot of the lookup answers; `AssemblyNameProvider.CacheCoherent()` states that the cache agrees with the package manager.
- The exception that `SyncFileIfNotChanged` catches and logs while reading: every file of the model can be read, so that path does not arise.
- Writing a file whose parent directory is missing: the file system does not require the parent directory, so `DirectoryNotFoundException` is not modelled.
- `CodeEditor.ParseArgument` is a host function; the test for `ArgumentFlag.EditorArgument` that the current editor makes is a boolean input, because that enum member does not exist in the `FlagHandler` this model follows.
- `TryGetInstallationForPath`: the Windows and Unix spellings of the path are merged into one lookup, because the model has one separator.
- `AssetDatabase.Refresh` inside `SyncAll`, before the full pass: it re-imports assets in the Unity editor; the model takes the Unity snapshot after the refresh as its input.
- Threads, the editor main loop and the `CompilationPipeline` events are left out; each call is one step of a sequential model.

## Findings

| source | as written | input that shows it | evidently intended | confidence | as-written member | corrected member |
|---|---|---|---|---|---|---|
| com.tsk.ide.vscode/Editor/Utils/FlagHandler.cs:56-60 | The private `ArgumentFlag` setter stores the value in `EditorPrefs` but never assigns `m_ArgumentFlag`, so the handler keeps answering the value it read at start-up | Nothing stored; call `ToggleArgument(Argument)` twice. The store holds 1 after each call and the handler reports 0 throughout, so the second toggle sets the bit again instead of clearing it | The setter assigns the field as well, as the `ConfigFlag` setter at com.tsk.ide.vscode/Editor/Utils/FlagHandler.cs:62-70 does; two toggles then restore both the field and the store | not executed | Flags.ArgumentToggleIsLost | Flags.ArgumentToggleCorrectedRestores |
