# Collate local publish driver, modelled in Dafny

This project models `Tomat.Collate.LocalPublish`. That program runs on a
developer machine to build the Collate NuGet package and push it to a local
package source. In order, it:

1. normalizes the working directory to the repository root, using a table of
   known directory names;
2. makes sure a local package source named `CollateLocalSources`, backed by
   `<root>/nuget`, is registered and enabled;
3. purges the package's directory from the NuGet package cache;
4. deletes stale `*.nupkg` files below the project directory;
5. builds the projects;
6. pushes every `*.nupkg` below the project directory to the local source.

The machine is the class `LocalPublish.Host`. It has four fields:

- `dirs`: the set of directory paths;
- `files`: the set of file paths;
- `sources`: the package manager's source list, a sequence of
  `Registry.Source`;
- `commands`: the append-only log of the external commands launched.

Each stage of `Main` is a method of `Host` that changes exactly the fields its
`modifies` clause names. The method's postcondition ties the outcome and the
new state to a pure function of the old state. Those functions are defined in
their own modules:

- `Normalization`: the directory-name table;
- `Registry`: the source list and the sanitizer;
- `CacheLocator`: the cache root;
- `Cleaning`: what the purges remove;
- `Commands`: the command strings;
- `Stages`: whole-machine functions over a `Machine` value (directories,
  files, sources, log). `Register` is the registration stage. `CleanAndBuild`
  is the purge, the deletion of old packages and the builds. `Pipeline` is
  all of `Main` up to the pushes.

The composed methods `Host.PurgeCleanBuild`, `Host.CleanBuildPublish` and
`Host.Run` state `Step(o, <new state>) == <stage function>(<old state>)`.
The first failing stage decides the outcome and the state it leaves, so
these contracts cover the failures as well as the success. Properties of the
functions are proved as lemmas.

Modelling conventions:

- **Paths.** A path is a sequence of segments (`Paths.Path`). `Path.Combine(a, b)`
  is `a + [b]`. The string form joins the segments with `/`.
- **Path lookup.** The filesystem holds resolved paths. Every lookup first
  resolves `..`, `.` and empty segments lexically (`Paths.Resolve`), the way
  the operating system treats the literal `..` segments that `up` appends.
- **Exceptions.** An exception the driver raises becomes a `Fail`/`Failure`
  value from `Errors`. No exception is ever caught, so the first failing stage
  ends `Run`.
- **Launching a process** appends an `Invocation(command, args)` to
  `commands`. Exit codes are not observed, and the driver never checks them.
- **The external build** is the parameter `produced` of `Run`: the files it
  writes.
- **Enumeration order.** Directory enumeration order is unspecified. A ghost
  listing (`chunk`, `chunks`, `pushed`) records the order that was used, and
  the contracts say that it holds each enumerated file exactly once
  (`Cleaning.Enumerates`, multiset equality).

## Model

| member | source | states |
|---|---|---|
| Paths.Up | src/Tomat.Collate.LocalPublish/Program.cs:87-92 | the loop of `up(n)` returns `Ascend(cwd, n)`, the path with `n` literal `..` segments appended |
| Paths.AscendShape | src/Tomat.Collate.LocalPublish/Program.cs:87-92 | `up(n)` keeps `cwd` as a prefix and appends exactly `n` segments, each of them `..` |
| Paths.ResolveAscend | src/Tomat.Collate.LocalPublish/Program.cs:87-92 | as long as the root is not reached, the path `up(n)` builds resolves to the resolved `cwd` without its last `n` segments (the `n`-th ancestor) |
| Paths.ResolveNames | src/Tomat.Collate.LocalPublish/Program.cs:47 | combining a path with ordinary names resolves to the resolved path followed by those names |
| Paths.RenderParse | src/Tomat.Collate.LocalPublish/Program.cs:195-201 | parsing an environment string into segments and rendering it back gives the string unchanged |
| Paths.RenderSnoc | src/Tomat.Collate.LocalPublish/Program.cs:197 | the string of `Path.Combine(p, x)` for a non-empty `p` is `p`, one separator, then `x` |
| Paths.RenderHasSep | src/Tomat.Collate.LocalPublish/Program.cs:119 | the full path of a directory entry (two or more segments) contains a separator |
| Text.LowerChar | src/Tomat.Collate.LocalPublish/Program.cs:215 | the result is never an upper-case ASCII letter; upper-case letters map to lower case (+32) and every other character is unchanged |
| Text.LowerAllIdempotent | src/Tomat.Collate.LocalPublish/Program.cs:215 | lower-casing the package ids twice equals lower-casing them once |
| Registry.Lookup | src/Tomat.Collate.LocalPublish/Program.cs:145 | `FirstOrDefault(x => x.Name == repoName)`: the index found carries the name and no earlier entry does; `None` exactly when no entry carries the name |
| Registry.EnableAt | src/Tomat.Collate.LocalPublish/Program.cs:182-184 | `EnablePackageSource` sets the enabled flag of the found entry, keeps its name and location, and leaves every other entry unchanged |
| Registry.CountNamedEnable | src/Tomat.Collate.LocalPublish/Program.cs:182-184 | enabling a source does not change how many sources carry a name |
| Registry.RegisteredEnabled | src/Tomat.Collate.LocalPublish/Program.cs:142-189 | after a registration the source is found and enabled; if it existed before, the same entry is found and its location is kept |
| Registry.RegistrationIdempotent | src/Tomat.Collate.LocalPublish/Program.cs:142-189 | a second registration takes the "present and enabled" branch and leaves the source list unchanged |
| Registry.RegistrationUnique | src/Tomat.Collate.LocalPublish/Program.cs:142-189 | from a list with at most one source of that name, registration leaves exactly one |
| Registry.SanitizeAsWritten | src/Tomat.Collate.LocalPublish/Program.cs:161-172 | the sanitizer as written returns its input or its input with exactly one backslash appended |
| Registry.SanitizeAsWrittenIdempotent | src/Tomat.Collate.LocalPublish/Program.cs:161-172 | the sanitizer as written is idempotent |
| Registry.SanitizeAsWrittenLeavesOddRun | src/Tomat.Collate.LocalPublish/Program.cs:165-166 | as written, a path ending in three backslashes comes back unchanged, still ending in an odd run |
| Registry.EndsWithBackslashes | src/Tomat.Collate.LocalPublish/Program.cs:165-168 | the two `EndsWith` tests hold exactly when the trailing backslash run is at least one or two long |
| Registry.Sanitize | src/Tomat.Collate.LocalPublish/Program.cs:157-172 | corrected sanitizer: returns its input or its input with exactly one backslash appended, the result always ends in an even run of backslashes, and the input is kept exactly when its run is already even |
| Registry.SanitizeIdempotent | src/Tomat.Collate.LocalPublish/Program.cs:157-172 | the corrected sanitizer is idempotent |
| Registry.SanitizeAgreesBelowThree | src/Tomat.Collate.LocalPublish/Program.cs:161-172 | the corrected and the written sanitizer agree whenever the trailing run is shorter than three backslashes |
| Registry.SanitizeRepoDirIsIdentity | src/Tomat.Collate.LocalPublish/Program.cs:150-180 | on the only argument the driver sanitizes, `Path.Combine(cwd, "nuget")`, both sanitizers return it unchanged |
| CacheLocator.UnixCache | src/Tomat.Collate.LocalPublish/Program.cs:194-204 | the local function `unix` fails exactly when neither `XDG_CACHE_HOME` nor `HOME` is set and non-empty, always with `PlatformNotSupported`; a root it returns always ends in a folder named `NuGetPackages` |
| CacheLocator.GetNuGetCache | src/Tomat.Collate.LocalPublish/Program.cs:191-211 | a cache root is found exactly on Win32NT, or on Unix or MacOSX when `XDG_CACHE_HOME` or `HOME` is set and non-empty; every failure is `PlatformNotSupported` |
| CacheLocator.CacheRootString | src/Tomat.Collate.LocalPublish/Program.cs:194-211 | MacOSX and Unix choose the same root; the root's string is `<UserProfile>/.nuget/packages` on Win32NT, `<XDG_CACHE_HOME>/NuGetPackages` when that is set, and otherwise `<HOME>/.cache/NuGetPackages` |
| Normalization.AscentLevels | src/Tomat.Collate.LocalPublish/Program.cs:94-116 | the `switch` takes the `default` branch exactly for names outside the table; every name in the table is an ordinary segment, and no case ascends more than five levels |
| Normalization.NormalizeWith | src/Tomat.Collate.LocalPublish/Program.cs:78-139 | whatever the marker test says: every failure is `DirectoryNotFound` for the starting directory; a success needs an existing directory that is not a file, and the result is the starting directory followed only by `..` segments |
| Normalization.NormalizeAsWritten | src/Tomat.Collate.LocalPublish/Program.cs:78-139 | `NormalizeWorkingDirectory` as written (marker test `files.Contains("publish.sh")` on full paths): every failure is `DirectoryNotFound` for the starting directory; a success needs an existing directory that is not a file, and the result only ascends from it |
| Normalization.MarkerNeverListed | src/Tomat.Collate.LocalPublish/Program.cs:119-135 | no entry of `Directory.GetFiles(cwd)` (a full path) is the bare string `publish.sh` |
| Normalization.AsWrittenRejectsUnknownNames | src/Tomat.Collate.LocalPublish/Program.cs:118-138 | as written, a directory whose name is not in the table is always rejected with `DirectoryNotFound` |
| Normalization.MarkerAccepted | src/Tomat.Collate.LocalPublish/Program.cs:118-138 | with the intended test, a directory whose name is not in the table is accepted as the root exactly when it holds `publish.sh` |
| Normalization.MarkerCounterexample | src/Tomat.Collate.LocalPublish/Program.cs:135 | `/work` holding `/work/publish.sh` is rejected as written and accepted by the intended test |
| Normalization.NormalizeFindsRoot | src/Tomat.Collate.LocalPublish/Program.cs:94-116 | started `k` ordinary names below the root, where the table maps the last name to `k` levels, normalization succeeds and resolves to the root, whatever the marker test would say |
| Normalization.FromRoot | src/Tomat.Collate.LocalPublish/Program.cs:102-103 | a directory named `collate` is returned unchanged by normalization as written |
| Normalization.FromSourceDir | src/Tomat.Collate.LocalPublish/Program.cs:105-106 | started in `<root>/src`, normalization as written resolves to the root |
| Normalization.FromProjectDir | src/Tomat.Collate.LocalPublish/Program.cs:108-111 | started in `<root>/src/<project>` for any of the three projects, normalization as written resolves to the root |
| Normalization.FromBuildOutput | src/Tomat.Collate.LocalPublish/Program.cs:113-116 | started in `<root>/src/<project>/bin/<configuration>/<framework>` for any of the three frameworks, normalization as written resolves to the root |
| Cleaning.CacheVictims | src/Tomat.Collate.LocalPublish/Program.cs:217-218 | the directories selected for deletion are existing directories strictly inside the cache root, so the root itself is never deleted |
| Cleaning.PurgeRemovesExactlyMatches | src/Tomat.Collate.LocalPublish/Program.cs:214-224 | an immediate subdirectory of the cache root is deleted if and only if its name is a lower-cased package id |
| Cleaning.PurgeKeepsOutside | src/Tomat.Collate.LocalPublish/Program.cs:214-224 | nothing outside the cache root is deleted |
| Cleaning.PurgeRemovesOnlyMatches | src/Tomat.Collate.LocalPublish/Program.cs:218-222 | every deleted entry lies inside a matching immediate subdirectory of the cache root |
| Cleaning.PurgeCaseInsensitive | src/Tomat.Collate.LocalPublish/Program.cs:215-218 | mixed-case ids purge exactly what their lower-case forms purge |
| Cleaning.PackagesUnder | src/Tomat.Collate.LocalPublish/Program.cs:230 | `GetFiles("*.nupkg", AllDirectories)` yields existing files, each a `.nupkg` strictly below the directory |
| Cleaning.ExistingPrefix | src/Tomat.Collate.LocalPublish/Program.cs:227-228 | the number of leading projects whose directory exists: all of those exist, and the next one, if any, does not |
| Cleaning.WithoutPackagesMeaning | src/Tomat.Collate.LocalPublish/Program.cs:226-235 | package deletion keeps every non-package file and every file outside the project directories, and leaves no package below any processed project directory |
| Cleaning.WithoutPackagesStep | src/Tomat.Collate.LocalPublish/Program.cs:227-233 | processing one more project removes exactly that project's remaining packages |
| Cleaning.SingleProject | src/Tomat.Collate.LocalPublish/Program.cs:227-230 | with one project, the deletion and publishing loops fail with `DirectoryNotFound(<srcDir>/<project>)` exactly when its directory is missing, and otherwise pass |
| Cleaning.WithoutPackagesNone | src/Tomat.Collate.LocalPublish/Program.cs:226-235 | when the first project directory is already missing, no file is deleted |
| Cleaning.SingleCleared | src/Tomat.Collate.LocalPublish/Program.cs:226-235 | after deleting one project's packages, its directory holds none |
| Cleaning.OnlyProducedPackages | src/Tomat.Collate.LocalPublish/Program.cs:60-75 | once a directory holds no package, the packages below it after the build are exactly the ones the build produced |
| Cleaning.PushedWereProduced | src/Tomat.Collate.LocalPublish/Program.cs:245-252 | every file of an enumeration of the produced packages is a produced file |
| Cleaning.ListedAll | src/Tomat.Collate.LocalPublish/Program.cs:246-249 | the recursive `Listed` record means that each listing enumerates its project's packages |
| Commands.AddSourceCommand | src/Tomat.Collate.LocalPublish/Program.cs:180 | the registration launches `dotnet` with arguments that start with `nuget add source "<dir>"` and end with `--name "<name>"` |
| Commands.BuildCommand | src/Tomat.Collate.LocalPublish/Program.cs:239-241 | a build launches `dotnet` with arguments that start with `build <srcDir>/<p>/<p>.csproj` and end with ` -c Release` |
| Commands.PushCommand | src/Tomat.Collate.LocalPublish/Program.cs:251 | a push launches `dotnet` with arguments that start with `nuget push <package>` and end with ` -s <repository>` |
| Commands.BuildCommandsAt | src/Tomat.Collate.LocalPublish/Program.cs:237-243 | the `j`-th build command builds the `j`-th project, and there is one per project |
| Commands.PushCommandsAt | src/Tomat.Collate.LocalPublish/Program.cs:249-252 | the `j`-th push command pushes the `j`-th package listed |
| Commands.PushCommandsAppend | src/Tomat.Collate.LocalPublish/Program.cs:245-254 | pushing two listings one after the other logs their commands one after the other |
| Stages.CleanAndBuildFresh | src/Tomat.Collate.LocalPublish/Program.cs:54-69 | after a passing purge, clean and build, the packages below the published project are exactly the ones the build produced: none survives from an earlier run |
| Stages.CleanAndBuildFailure | src/Tomat.Collate.LocalPublish/Program.cs:54-63 | a purge or clean that fails launches no build and creates no directory or file |
| Stages.CleanAndBuildKeeps | src/Tomat.Collate.LocalPublish/Program.cs:54-69 | a passing purge, clean and build keeps every directory outside the cache root, every file outside the cache root that is not a package below the published project, and every produced file |
| Stages.CleanAndBuildLog | src/Tomat.Collate.LocalPublish/Program.cs:65-69 | a passing purge, clean and build appends exactly the two builds, in order, and leaves the source list alone |
| Stages.PipelinePass | src/Tomat.Collate.LocalPublish/Program.cs:42-69 | a passing run logs the registration command (when the source was absent) and then the two builds from the normalized root, and leaves the source list with the local source enabled in place |
| Stages.PipelineFailure | src/Tomat.Collate.LocalPublish/Program.cs:42-69 | a failing run writes no file and launches nothing but, at most, the registration command |
| LocalPublish.SinglePublished | src/Tomat.Collate.LocalPublish/Program.cs:71-75 | publishing the one project whose packages are exactly the produced ones pushes an enumeration of exactly those packages |
| LocalPublish.Host.NormalizeWorkingDirectory | src/Tomat.Collate.LocalPublish/Program.cs:78-140 | the method, with its call to `up`, returns `NormalizeAsWritten` (existence checks, then the table, then the marker test as written) |
| LocalPublish.Host.FindOrCreateLocalNuGetRepository | src/Tomat.Collate.LocalPublish/Program.cs:142-189 | absent source: `IOError` and no change when a file occupies `cwd/nuget`; otherwise the directory and its missing ancestors are created and exactly one `nuget add source "<sanitized dir>" --name "<name>"` is logged. Present: no command, no directory change, and only the found entry's flag becomes true if it was false. Outcome and new state equal `Stages.Register` of the old state |
| LocalPublish.Host.DeleteNuGetCaches | src/Tomat.Collate.LocalPublish/Program.cs:214-224 | a missing cache root throws and changes nothing; otherwise the new directories and files are the old ones with every matching cache subdirectory deleted recursively |
| LocalPublish.Host.DeletePackages | src/Tomat.Collate.LocalPublish/Program.cs:226-235 | the outcome fails at the first missing project directory; the files are the old ones minus the packages of the projects before that point |
| LocalPublish.Host.BuildProjects | src/Tomat.Collate.LocalPublish/Program.cs:237-243 | the log grows by one `build <srcDir/p/p.csproj> -c Release` per project, in order |
| LocalPublish.Host.PushListing | src/Tomat.Collate.LocalPublish/Program.cs:249-252 | one `nuget push <file> -s <repo>` is logged per enumerated file, and the files pushed are each enumerated file exactly once |
| LocalPublish.Host.PublishPackages | src/Tomat.Collate.LocalPublish/Program.cs:245-254 | the outcome fails at the first missing project directory; each listing pushed enumerates its project's packages, and the log grows by their push commands in project order |
| LocalPublish.Host.PurgeCleanBuild | src/Tomat.Collate.LocalPublish/Program.cs:54-69 | outcome and new state are `Stages.CleanAndBuild` of the old state: a missing platform root or cache root fails before anything changes; a missing project directory fails after the purge; otherwise the purge, the package deletion, the two builds and the build output |
| LocalPublish.Host.CleanBuildPublish | src/Tomat.Collate.LocalPublish/Program.cs:54-75 | outcome and new state are `Stages.CleanAndBuild` of the old state, followed on success by one push per package; nothing is pushed on failure; every pushed file was produced by this build, and every package the build produced below the NuGet project is pushed exactly once |
| LocalPublish.Host.Run | src/Tomat.Collate.LocalPublish/Program.cs:42-76 | outcome and new state are `Stages.Pipeline` of the old state (normalization as written, registration, purge, clean, build, with the first failure ending the run and keeping what earlier stages did), followed on success by the pushes; nothing is pushed on failure; on success normalization succeeded and exactly the packages the build produced below `<root>/src/Tomat.Collate.NuGet` are pushed |

## Left out

- `RunCommand` (process start, stream redirection, waiting): launching a process is modelled as appending to `commands`. No exit code is observed, because the driver never checks one.
- The NuGet configuration API (`Settings.LoadDefaultSettings`, `PackageSourceProvider`): the source list is the field `sources`. What `dotnet nuget add source` does to the list belongs to the external tool. `Host.FindOrCreateLocalNuGetRepository` therefore leaves `sources` unchanged on that branch. The lemmas about repeated registration state what the tool does as an explicit assumption (`Registry.AddedByCommand`).
- `Console.WriteLine`: logging only.
- Real path semantics: the separator is fixed, and a rooted second argument to `Path.Combine` does not replace the first. `Path.Combine` adds no second separator after a first argument that already ends in one; the model's string form always joins segments with exactly one separator. `..` is resolved lexically, with no symbolic links. Name comparison is case-sensitive, as on Linux.
- `string.EndsWith(string)` in .NET compares by the current culture. `Text.EndsWith` compares characters exactly, as an ordinal comparison does; culture-specific comparison rules are not modelled.
- `ToLowerInvariant` and the case-insensitive `*.nupkg` match on Windows are modelled on ASCII only, and the match is case-sensitive.
- The `repoDir is null` check in the sanitizer cannot fail and is not modelled.
- `Directory.CreateDirectory` failing because an ancestor is a file is not modelled.
- The order of `GetDirectories`/`GetFiles` is not modelled. Only "each entry exactly once" is stated.
- The push argument is the rendered resolved path, not the string `FileInfo.ToString` returns.
- LocalPublish.Host.Run: states what the driver does to the source list (`EnabledInPlace`), not the list after the external `add source` command has run.
- The driver's marker test is modelled as written (`Normalization.NormalizeAsWritten`), in `Host.NormalizeWorkingDirectory` and in `Host.Run`. The intended test, `Normalization.Normalize`, is not used by the driver; its behaviour is proved in `Normalization.MarkerAccepted` (see Findings).
- The build's own new directories (`bin`, `obj`) are not modelled; the build adds only the files in `produced`.
- LocalPublish.Host.FindOrCreateLocalNuGetRepository and LocalPublish.Host.Run use the intended sanitizer. By `Registry.SanitizeRepoDirIsIdentity`, it agrees with the written one on every argument the driver passes.
- `src/Tomat.Collate.NuGet.Shared/CollateTask.cs` (MSBuild task glue over JSON and logging), `src/Tomat.Collate.NuGet.Shared/Config/CollateConfig.cs` (a data-only settings class) and `src/Tomat.Collate.TestProjectBoilerplate/ThisIsAnInternalClass.cs` (an empty fixture) are not part of this model.

Two behaviours of the code are worth stating outright:

- Listing a missing cache root (`GetDirectories`) or a missing project directory (`GetFiles`) throws `DirectoryNotFoundException`. The model fails with `DirectoryNotFound` there; neither is a no-op.
- `Main` never checks that `src` exists before purging the cache. A missing source directory is reported only by `DeletePackages`, after the purge has already run.

## Findings

| source | as written | input that shows it | evidently intended | confidence | as-written member | corrected member |
|---|---|---|---|---|---|---|
| src/Tomat.Collate.LocalPublish/Program.cs:119-136 | `files.Contains("publish.sh")` compares the bare name with `Directory.GetFiles` entries, which are full paths, so the test never holds and every directory outside the name table is rejected | working directory `/work` holding `/work/publish.sh` | accept a directory that holds a file named `publish.sh` | not executed; follows from the documented `GetFiles` result | Normalization.MarkerCounterexample | Normalization.MarkerAccepted |
| src/Tomat.Collate.LocalPublish/Program.cs:165-171 | a path ending in `\\` is returned as is, even when the run of trailing backslashes is odd (three or more), so its last backslash still escapes the closing quote | `C:\repo\\\` (three trailing backslashes) | make the trailing run even, so that the closing quote is never escaped | not executed; unreachable from the driver, whose only argument ends in `nuget` | Registry.SanitizeAsWrittenLeavesOddRun | Registry.Sanitize |
