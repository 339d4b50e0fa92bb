/** The stages of `Main` as functions of the whole machine: what each stage
    leaves behind and how it ends, so that the driver's methods can be
    stated against them and the pipeline's promises proved about them. */
module Stages {
  import opened Paths
  import opened Errors
  import opened Commands
  import opened Registry
  import opened CacheLocator
  import opened Cleaning
  import opened Normalization

  /** `nuget_repo_name`. */
  const NuGetRepoName: string := "CollateLocalSources"
  /** The directory, below the root, that backs the local source. */
  const RepoDirName: string := "nuget"

  /** Everything the driver can change: directories, files, the source list
      and the log of launched commands. */
  datatype Machine = Machine(dirs: set<Path>, files: set<Path>, sources: seq<Source>, log: seq<Invocation>)

  /** How a stage ends and the machine it leaves. */
  datatype Step = Step(outcome: Outcome, after: Machine)

  /** `Directory.CreateDirectory(p)` creates `p` and every missing ancestor. */
  function Ancestry(p: Path): set<Path> {
    set k | 1 <= k <= |p| :: p[..k]
  }

  /** The command log a registration adds: one `nuget add source` when the
      source is absent, nothing otherwise. */
  function RegistrationCommands(sources: seq<Source>, root: Path, repoName: string): seq<Invocation> {
    if Lookup(sources, repoName).None? then [AddSourceCommand(Sanitize(Render(root + [RepoDirName])), repoName)]
    else []
  }

  /** `FindOrCreateLocalNuGetRepository(root, repoName)`. */
  function Register(m: Machine, root: Path, repoName: string): Step {
    var repoDir := root + [RepoDirName];
    if Lookup(m.sources, repoName).None? && Resolve(repoDir) in m.files then Step(Fail(IOError(repoDir)), m)
    else
      var dirs := if Lookup(m.sources, repoName).Some? || Resolve(repoDir) in m.dirs then m.dirs
                  else m.dirs + Ancestry(Resolve(repoDir));
      Step(Pass, Machine(dirs, m.files, EnabledInPlace(m.sources, repoName),
                         m.log + RegistrationCommands(m.sources, root, repoName)))
  }

  /** The cache directories `DeleteNuGetCaches` removes for the package. */
  function PurgeVictims(m: Machine, cacheRoot: Path): set<Path> {
    CacheVictims(m.dirs, Resolve(cacheRoot), [TomatCollateNuGet])
  }

  /** The stages after registration up to the build: locate and purge the
      package cache, delete stale packages, build both projects. The first
      failing stage ends the run and keeps what earlier stages did.
      `produced` stands for the files the external build writes. */
  function CleanAndBuild(m: Machine, srcDir: Path, platform: PlatformId, env: map<string, string>,
                         userProfile: string, produced: set<Path>): Step {
    var cache := GetNuGetCache(platform, env, userProfile);
    if cache.Failure? then Step(Fail(cache.error), m)
    else if Resolve(cache.value) !in m.dirs then Step(Fail(DirectoryNotFound(cache.value)), m)
    else
      var victims := PurgeVictims(m, cache.value);
      var purged := m.(dirs := Prune(m.dirs, victims), files := Prune(m.files, victims));
      if ProjectDir(srcDir, TomatCollateNuGet) !in purged.dirs then
        Step(Fail(DirectoryNotFound(srcDir + [TomatCollateNuGet])), purged)
      else
        Step(Pass, purged.(files := WithoutPackages(purged.files, srcDir, [TomatCollateNuGet], 1) + produced,
                           log := purged.log + BuildCommands(srcDir, [TomatCollate, TomatCollateNuGet])))
  }

  /** `Main` up to the pushes: normalize, register, then clean and build. */
  function Pipeline(m: Machine, cwd: Path, platform: PlatformId, env: map<string, string>,
                    userProfile: string, produced: set<Path>): Step {
    var normalized := NormalizeAsWritten(m.dirs, m.files, cwd);
    if normalized.Failure? then Step(Fail(normalized.error), m)
    else
      var root := normalized.value;
      var registered := Register(m, root, NuGetRepoName);
      if registered.outcome.Fail? then registered
      else CleanAndBuild(registered.after, root + [SourceDirName], platform, env, userProfile, produced)
  }

  /** After a clean and build that passes, the packages below the published
      project are exactly the ones the build produced: none survives from
      an earlier run. */
  lemma CleanAndBuildFresh(m: Machine, srcDir: Path, platform: PlatformId, env: map<string, string>,
                           userProfile: string, produced: set<Path>)
    ensures var s := CleanAndBuild(m, srcDir, platform, env, userProfile, produced);
      s.outcome.Pass? ==>
        PackagesUnder(s.after.files, ProjectDir(srcDir, TomatCollateNuGet))
          == PackagesUnder(produced, ProjectDir(srcDir, TomatCollateNuGet))
  {
    var s := CleanAndBuild(m, srcDir, platform, env, userProfile, produced);
    if s.outcome.Pass? {
      var pruned := Prune(m.files, PurgeVictims(m, GetNuGetCache(platform, env, userProfile).value));
      SingleCleared(pruned, srcDir, TomatCollateNuGet);
      OnlyProducedPackages(WithoutPackages(pruned, srcDir, [TomatCollateNuGet], 1), produced,
                           ProjectDir(srcDir, TomatCollateNuGet));
    }
  }

  /** A clean and build that fails launches no build and creates nothing:
      the log is untouched and the directories and files are a subset of
      those before. */
  lemma CleanAndBuildFailure(m: Machine, srcDir: Path, platform: PlatformId, env: map<string, string>,
                             userProfile: string, produced: set<Path>)
    ensures var s := CleanAndBuild(m, srcDir, platform, env, userProfile, produced);
      s.outcome.Fail? ==> s.after.log == m.log && s.after.dirs <= m.dirs && s.after.files <= m.files
  {
  }

  /** A clean and build that passes touches nothing outside the cache root
      except packages below the published project: every other directory
      and file survives, and the build output is added. */
  lemma CleanAndBuildKeeps(m: Machine, srcDir: Path, platform: PlatformId, env: map<string, string>,
                           userProfile: string, produced: set<Path>)
    ensures var s := CleanAndBuild(m, srcDir, platform, env, userProfile, produced);
      s.outcome.Pass? ==>
        && produced <= s.after.files
        && (forall d :: d in m.dirs && !Within(d, Resolve(GetNuGetCache(platform, env, userProfile).value))
              ==> d in s.after.dirs)
        && (forall f :: f in m.files && !Within(f, Resolve(GetNuGetCache(platform, env, userProfile).value))
              && !(IsPackageFile(f) && StrictlyWithin(f, ProjectDir(srcDir, TomatCollateNuGet)))
              ==> f in s.after.files)
  {
    var s := CleanAndBuild(m, srcDir, platform, env, userProfile, produced);
    if s.outcome.Pass? {
      var root := Resolve(GetNuGetCache(platform, env, userProfile).value);
      forall d | d in m.dirs && !Within(d, root)
        ensures d in s.after.dirs
      {
        PurgeKeepsOutside(m.dirs, m.dirs, root, [TomatCollateNuGet], d);
      }
      var pruned := Prune(m.files, PurgeVictims(m, GetNuGetCache(platform, env, userProfile).value));
      WithoutPackagesMeaning(pruned, srcDir, [TomatCollateNuGet], 1);
      forall f | f in m.files && !Within(f, root)
                 && !(IsPackageFile(f) && StrictlyWithin(f, ProjectDir(srcDir, TomatCollateNuGet)))
        ensures f in s.after.files
      {
        PurgeKeepsOutside(m.files, m.dirs, root, [TomatCollateNuGet], f);
      }
    }
  }

  /** A passing run from the root `root` that normalization found launches,
      after whatever was logged before, the registration command (if the
      source was absent) and then the two builds, in that order; the source
      list ends with the local source enabled in place when it was already
      present. */
  lemma PipelinePass(m: Machine, cwd: Path, root: Path, platform: PlatformId, env: map<string, string>,
                     userProfile: string, produced: set<Path>)
    requires NormalizeAsWritten(m.dirs, m.files, cwd) == Success(root)
    ensures var s := Pipeline(m, cwd, platform, env, userProfile, produced);
      s.outcome.Pass? ==>
        && s.after.log == m.log + RegistrationCommands(m.sources, root, NuGetRepoName)
                                + BuildCommands(root + [SourceDirName], [TomatCollate, TomatCollateNuGet])
        && s.after.sources == EnabledInPlace(m.sources, NuGetRepoName)
  {
    PipelineFrom(m, cwd, root, platform, env, userProfile, produced);
    var registered := Register(m, root, NuGetRepoName);
    if registered.outcome.Pass? {
      CleanAndBuildLog(registered.after, root + [SourceDirName], platform, env, userProfile, produced);
    }
  }

  /** A passing clean and build appends the two builds to the log and
      leaves the source list alone. */
  lemma CleanAndBuildLog(m: Machine, srcDir: Path, platform: PlatformId, env: map<string, string>,
                         userProfile: string, produced: set<Path>)
    ensures var s := CleanAndBuild(m, srcDir, platform, env, userProfile, produced);
      s.outcome.Pass? ==>
        s.after.log == m.log + BuildCommands(srcDir, [TomatCollate, TomatCollateNuGet]) && s.after.sources == m.sources
  {
  }

  /** A run that fails builds nothing and writes no file; at most the
      registration command was launched. */
  lemma PipelineFailure(m: Machine, cwd: Path, platform: PlatformId, env: map<string, string>,
                        userProfile: string, produced: set<Path>)
    ensures var s := Pipeline(m, cwd, platform, env, userProfile, produced);
      s.outcome.Fail? ==>
        && s.after.files <= m.files
        && (|| s.after.log == m.log
            || (&& NormalizeAsWritten(m.dirs, m.files, cwd).Success?
                && s.after.log == m.log + RegistrationCommands(m.sources, NormalizeAsWritten(m.dirs, m.files, cwd).value,
                                                               NuGetRepoName)))
  {
    var normalized := NormalizeAsWritten(m.dirs, m.files, cwd);
    if normalized.Success? {
      PipelineFrom(m, cwd, normalized.value, platform, env, userProfile, produced);
      var registered := Register(m, normalized.value, NuGetRepoName);
      if registered.outcome.Pass? {
        CleanAndBuildFailure(registered.after, normalized.value + [SourceDirName], platform, env, userProfile, produced);
      }
    }
  }

  /** A stage followed by one push per path of `pushed`, in order. */
  function Published(s: Step, pushed: seq<Path>): Step {
    s.(after := s.after.(log := s.after.log + PushCommands(pushed, NuGetRepoName)))
  }

  /** How `Pipeline` decomposes once normalization has found `root`. */
  lemma PipelineFrom(m: Machine, cwd: Path, root: Path, platform: PlatformId, env: map<string, string>,
                     userProfile: string, produced: set<Path>)
    requires NormalizeAsWritten(m.dirs, m.files, cwd) == Success(root)
    ensures var registered := Register(m, root, NuGetRepoName);
      Pipeline(m, cwd, platform, env, userProfile, produced)
        == if registered.outcome.Fail? then registered
           else CleanAndBuild(registered.after, root + [SourceDirName], platform, env, userProfile, produced)
  {
  }
}
