/** The local publish driver: the state it works against (directories,
    files, the package-source list, the log of launched commands) and its
    stages, run in the order of `Main`. */
module LocalPublish {
  import opened Paths
  import opened Errors
  import opened Commands
  import opened Registry
  import opened CacheLocator
  import opened Cleaning
  import opened Normalization
  import opened Stages

  /** Publishing a single project whose directory holds only what the
      build produced pushes exactly those packages. */
  lemma SinglePublished(chunks: seq<seq<Path>>, files: set<Path>, produced: set<Path>, srcDir: Path, project: string)
    requires |chunks| == 1 && Listed(chunks, files, srcDir, [project])
    requires PackagesUnder(files, ProjectDir(srcDir, project)) == PackagesUnder(produced, ProjectDir(srcDir, project))
    ensures Flatten(chunks) == chunks[0]
    ensures Enumerates(chunks[0], PackagesUnder(produced, ProjectDir(srcDir, project)))
    ensures forall f :: f in chunks[0] ==> f in produced
  {
    assert chunks == [chunks[0]];
    FlattenSingle(chunks[0]);
    ListedAll(chunks, files, srcDir, [project]);
    PushedWereProduced(chunks[0], produced, ProjectDir(srcDir, project));
  }

  /** The machine the driver runs on. Directory and file sets hold resolved
      paths; `sources` is the package manager's source list; `commands` is
      every external command launched so far, in order. */
  class Host {
    var dirs: set<Path>
    var files: set<Path>
    var sources: seq<Source>
    var commands: seq<Invocation>

    constructor (dirs: set<Path>, files: set<Path>, sources: seq<Source>)
      ensures this.dirs == dirs && this.files == files && this.sources == sources
      ensures commands == []
    {
      this.dirs := dirs;
      this.files := files;
      this.sources := sources;
      commands := [];
    }

    /** `NormalizeWorkingDirectory`, with the marker test of the `default`
        branch as written: membership of the bare name in the listing. */
    method NormalizeWorkingDirectory(cwd: Path) returns (r: Result<Path>)
      ensures r == NormalizeAsWritten(dirs, files, cwd)
    {
      if Resolve(cwd) !in dirs {
        return Failure(DirectoryNotFound(cwd));
      }
      if Resolve(cwd) in files {
        return Failure(DirectoryNotFound(cwd));
      }
      match AscentLevels(FileName(cwd))
      case Some(n) =>
        var up := Up(cwd, n);
        r := Success(up);
      case None =>
        var listing := FileListing(files, cwd);
        if Marker in listing {
          r := Success(cwd);
        } else {
          r := Failure(DirectoryNotFound(cwd));
        }
    }

    /** `FindOrCreateLocalNuGetRepository`: the three-way update of the
        source list. */
    method FindOrCreateLocalNuGetRepository(cwd: Path, repoName: string) returns (o: Outcome)
      modifies this`dirs, this`sources, this`commands
      ensures Lookup(old(sources), repoName).None? ==>
        var repoDir := Resolve(cwd + [RepoDirName]);
        if repoDir in old(files) then
          o == Fail(IOError(cwd + [RepoDirName])) && unchanged(this)
        else
          && o == Pass
          && sources == old(sources)
          && dirs == (if repoDir in old(dirs) then old(dirs) else old(dirs) + Ancestry(repoDir))
          && commands == old(commands) + [AddSourceCommand(Sanitize(Render(cwd + [RepoDirName])), repoName)]
      ensures Lookup(old(sources), repoName).Some? ==>
        var i := Lookup(old(sources), repoName).value;
        && o == Pass
        && dirs == old(dirs) && commands == old(commands)
        && sources == (if old(sources)[i].enabled then old(sources) else EnableAt(old(sources), i))
      ensures Step(o, Machine(dirs, files, sources, commands))
           == Register(Machine(old(dirs), old(files), old(sources), old(commands)), cwd, repoName)
    {
      var found := Lookup(sources, repoName);
      match found
      case None =>
        var repoDir := cwd + [RepoDirName];
        if Resolve(repoDir) in files {
          return Fail(IOError(repoDir));
        }
        if Resolve(repoDir) !in dirs {
          dirs := dirs + Ancestry(Resolve(repoDir));
        }
        commands := commands + [AddSourceCommand(Sanitize(Render(repoDir)), repoName)];
        o := Pass;
      case Some(i) =>
        if !sources[i].enabled {
          sources := EnableAt(sources, i);
        }
        o := Pass;
    }

    /** `DeleteNuGetCaches`: recursively delete the cache root's immediate
        subdirectories named like a lower-cased package id. Listing a
        missing root throws. */
    method DeleteNuGetCaches(cacheDir: Path, packages: seq<string>) returns (o: Outcome)
      modifies this`dirs, this`files
      ensures o.Pass? <==> Resolve(cacheDir) in old(dirs)
      ensures o.Fail? ==> o.error == DirectoryNotFound(cacheDir) && dirs == old(dirs) && files == old(files)
      ensures o.Pass? ==>
        var victims := CacheVictims(old(dirs), Resolve(cacheDir), packages);
        dirs == Prune(old(dirs), victims) && files == Prune(old(files), victims)
    {
      var root := Resolve(cacheDir);
      if root !in dirs {
        return Fail(DirectoryNotFound(cacheDir));
      }
      var victims := CacheVictims(dirs, root, packages);
      var pending := victims;
      while pending != {}
        invariant pending <= victims
        invariant dirs == Prune(old(dirs), victims - pending)
        invariant files == Prune(old(files), victims - pending)
        decreases pending
      {
        var d :| d in pending;
        dirs := Prune(dirs, {d});
        files := Prune(files, {d});
        pending := pending - {d};
      }
      o := Pass;
    }

    /** `DeletePackages`: for each project in turn, delete every `*.nupkg`
        below its directory; a missing project directory throws. */
    method DeletePackages(srcDir: Path, projects: seq<string>) returns (o: Outcome)
      modifies this`files
      ensures o == ProjectsOutcome(dirs, srcDir, projects)
      ensures files == WithoutPackages(old(files), srcDir, projects, ExistingPrefix(dirs, srcDir, projects))
      ensures o.Pass? ==> files == WithoutPackages(old(files), srcDir, projects, |projects|)
    {
      var i := 0;
      while i < |projects|
        invariant i <= ExistingPrefix(dirs, srcDir, projects)
        invariant files == WithoutPackages(old(files), srcDir, projects, i)
      {
        var dir := ProjectDir(srcDir, projects[i]);
        ExistingPrefixStep(dirs, srcDir, projects, i);
        if dir !in dirs {
          return Fail(DirectoryNotFound(srcDir + [projects[i]]));
        }
        var found := PackagesUnder(files, dir);
        var pending := found;
        while pending != {}
          invariant pending <= found
          invariant files == WithoutPackages(old(files), srcDir, projects, i) - (found - pending)
          decreases pending
        {
          var f :| f in pending;
          files := files - {f};
          pending := pending - {f};
        }
        WithoutPackagesStep(old(files), srcDir, projects, i);
        i := i + 1;
      }
      o := Pass;
    }

    /** `BuildProjects`: one build command per project, in order. */
    method BuildProjects(srcDir: Path, projects: seq<string>)
      modifies this`commands
      ensures commands == old(commands) + BuildCommands(srcDir, projects)
    {
      var i := 0;
      while i < |projects|
        invariant i <= |projects|
        invariant commands == old(commands) + BuildCommands(srcDir, projects[..i])
      {
        assert projects[..i + 1][..i] == projects[..i];
        commands := commands + [BuildCommand(srcDir, projects[i])];
        i := i + 1;
      }
      assert projects[..i] == projects;
    }

    /** The inner loop of `PublishPackages`: one push per file of a
        listing, in the order the enumeration yields them. */
    method PushListing(found: set<Path>, repoName: string) returns (ghost chunk: seq<Path>)
      modifies this`commands
      ensures Enumerates(chunk, found)
      ensures commands == old(commands) + PushCommands(chunk, repoName)
    {
      var pending := found;
      chunk := [];
      while pending != {}
        invariant pending <= found
        invariant multiset(chunk) + multiset(pending) == multiset(found)
        invariant commands == old(commands) + PushCommands(chunk, repoName)
        decreases pending
      {
        var f :| f in pending;
        PushCommandsAppend(chunk, [f], repoName);
        assert PushCommands([f], repoName) == [PushCommand(f, repoName)];
        commands := commands + [PushCommand(f, repoName)];
        assert multiset(pending) == multiset(pending - {f}) + multiset{f};
        chunk := chunk + [f];
        pending := pending - {f};
      }
    }

    /** `PublishPackages`: for each project in turn, one push per package
        below its directory. `chunks[j]` is the listing of project `j`, in
        whatever order the filesystem enumerates it. */
    method PublishPackages(srcDir: Path, repoName: string, projects: seq<string>)
      returns (o: Outcome, ghost chunks: seq<seq<Path>>)
      modifies this`commands
      ensures o == ProjectsOutcome(dirs, srcDir, projects)
      ensures |chunks| == ExistingPrefix(dirs, srcDir, projects)
      ensures o.Pass? ==> |chunks| == |projects|
      ensures Listed(chunks, files, srcDir, projects)
      ensures commands == old(commands) + PushCommands(Flatten(chunks), repoName)
    {
      chunks := [];
      var i := 0;
      while i < |projects|
        invariant i <= ExistingPrefix(dirs, srcDir, projects) && |chunks| == i
        invariant Listed(chunks, files, srcDir, projects)
        invariant commands == old(commands) + PushCommands(Flatten(chunks), repoName)
      {
        var dir := ProjectDir(srcDir, projects[i]);
        ExistingPrefixStep(dirs, srcDir, projects, i);
        if dir !in dirs {
          return Fail(DirectoryNotFound(srcDir + [projects[i]])), chunks;
        }
        ghost var chunk := PushListing(PackagesUnder(files, dir), repoName);
        PushLogSnoc(old(commands), chunks, chunk, repoName);
        ListedSnoc(chunks, chunk, files, srcDir, projects);
        chunks := chunks + [chunk];
        i := i + 1;
      }
      o := Pass;
    }

    /** The stages of `Main` after registration up to the build: purge the
        package cache, delete old packages, build both projects, each stage
        running only if the one before it passed. `produced` stands for the
        files the external build writes. */
    method PurgeCleanBuild(srcDir: Path, platform: PlatformId, env: map<string, string>, userProfile: string,
                           produced: set<Path>)
      returns (o: Outcome)
      modifies this`dirs, this`files, this`commands
      ensures Step(o, Machine(dirs, files, sources, commands))
           == CleanAndBuild(Machine(old(dirs), old(files), old(sources), old(commands)),
                            srcDir, platform, env, userProfile, produced)
    {
      var cache := GetNuGetCache(platform, env, userProfile);
      if cache.Failure? {
        return Fail(cache.error);
      }
      o := DeleteNuGetCaches(cache.value, [TomatCollateNuGet]);
      if o.Fail? {
        return;
      }

      ghost var stale := files;
      SingleProject(dirs, srcDir, TomatCollateNuGet);
      o := DeletePackages(srcDir, [TomatCollateNuGet]);
      if o.Fail? {
        WithoutPackagesNone(stale, srcDir, [TomatCollateNuGet]);
        return;
      }

      BuildProjects(srcDir, [TomatCollate, TomatCollateNuGet]);
      // The external build tool writes its output.
      files := files + produced;
    }

    /** The stages of `Main` after registration: purge, clean and build as
        `CleanAndBuild` says, then, if those passed, one push per package
        of the published project. */
    method CleanBuildPublish(srcDir: Path, platform: PlatformId, env: map<string, string>, userProfile: string,
                             produced: set<Path>)
      returns (o: Outcome, ghost pushed: seq<Path>)
      modifies this`dirs, this`files, this`commands
      ensures Step(o, Machine(dirs, files, sources, commands))
           == Published(CleanAndBuild(Machine(old(dirs), old(files), old(sources), old(commands)),
                                      srcDir, platform, env, userProfile, produced), pushed)
      ensures o.Fail? ==> pushed == []
      ensures o.Pass? ==>
        && (forall f :: f in pushed ==> f in produced)
        && Enumerates(pushed, PackagesUnder(produced, ProjectDir(srcDir, TomatCollateNuGet)))
    {
      pushed := [];
      o := PurgeCleanBuild(srcDir, platform, env, userProfile, produced);
      if o.Fail? {
        return;
      }
      CleanAndBuildFresh(Machine(old(dirs), old(files), old(sources), old(commands)),
                         srcDir, platform, env, userProfile, produced);
      SingleProject(dirs, srcDir, TomatCollateNuGet);
      ghost var chunks;
      o, chunks := PublishPackages(srcDir, NuGetRepoName, [TomatCollateNuGet]);
      SinglePublished(chunks, files, produced, srcDir, TomatCollateNuGet);
      pushed := chunks[0];
    }

    /** `Main`: normalize the working directory, register the local source,
        then clean, build and publish. No exit code is checked. The machine
        is left as `Pipeline` says, with one push per package appended on
        success; every pushed package is one the build produced, so no
        package from an earlier run reaches the registry. */
    method Run(cwd: Path, platform: PlatformId, env: map<string, string>, userProfile: string, produced: set<Path>)
      returns (o: Outcome, ghost pushed: seq<Path>)
      modifies this
      ensures Step(o, Machine(dirs, files, sources, commands))
           == Published(Pipeline(Machine(old(dirs), old(files), old(sources), old(commands)),
                                 cwd, platform, env, userProfile, produced), pushed)
      ensures o.Fail? ==> pushed == []
      ensures o.Pass? ==> NormalizeAsWritten(old(dirs), old(files), cwd).Success?
      ensures o.Pass? ==>
        var srcDir := NormalizeAsWritten(old(dirs), old(files), cwd).value + [SourceDirName];
        && (forall f :: f in pushed ==> f in produced)
        && Enumerates(pushed, PackagesUnder(produced, ProjectDir(srcDir, TomatCollateNuGet)))
    {
      pushed := [];
      ghost var start := Machine(dirs, files, sources, commands);
      var normalized := NormalizeWorkingDirectory(cwd);
      if normalized.Failure? {
        return Fail(normalized.error), pushed;
      }
      var root := normalized.value;
      var srcDir := root + [SourceDirName];
      PipelineFrom(start, cwd, root, platform, env, userProfile, produced);

      o := FindOrCreateLocalNuGetRepository(root, NuGetRepoName);
      ghost var registered := Register(start, root, NuGetRepoName);
      if o.Fail? {
        return;
      }
      assert Machine(dirs, files, sources, commands) == registered.after;
      o, pushed := CleanBuildPublish(srcDir, platform, env, userProfile, produced);
    }
  }
}
