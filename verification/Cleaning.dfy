/** What `DeleteNuGetCaches` and `DeletePackages` remove, as functions of
    the filesystem before the call, and what that removal guarantees. */
module Cleaning {
  import opened Paths
  import opened Text
  import opened Errors

  /** `x` is `root` or lies below it. */
  predicate Within(x: Path, root: Path) {
    |root| <= |x| && x[..|root|] == root
  }

  /** `x` lies strictly below `root`. */
  predicate StrictlyWithin(x: Path, root: Path) {
    |root| < |x| && x[..|root|] == root
  }

  /** What remains of a set of entries after every victim directory is
      deleted recursively (`DirectoryInfo.Delete(true)`). */
  function Prune(entries: set<Path>, victims: set<Path>): (r: set<Path>)
    ensures r <= entries
  {
    set x | x in entries && forall v :: v in victims ==> !Within(x, v)
  }

  // ---- package-cache purge ----

  /** The immediate subdirectories of the cache root `root` whose name is a
      requested package id in lower case. */
  function CacheVictims(dirs: set<Path>, root: Path, ids: seq<string>): (r: set<Path>)
    ensures r <= dirs
    ensures forall d :: d in r ==> StrictlyWithin(d, root)
  {
    set d | d in dirs && |d| == |root| + 1 && d[..|root|] == root && d[|root|] in LowerAll(ids)
  }

  /** Exactly the matching children of the root go: an immediate
      subdirectory is removed if and only if its name is a lower-cased id. */
  lemma PurgeRemovesExactlyMatches(dirs: set<Path>, root: Path, ids: seq<string>, d: Path)
    requires d in dirs && |d| == |root| + 1 && d[..|root|] == root
    ensures d !in Prune(dirs, CacheVictims(dirs, root, ids)) <==> d[|root|] in LowerAll(ids)
  {
    var victims := CacheVictims(dirs, root, ids);
    if d !in Prune(dirs, victims) {
      var v :| v in victims && Within(d, v);
      assert d == v;
    } else {
      assert Within(d, d);
    }
  }

  /** Nothing outside the cache root is touched. */
  lemma PurgeKeepsOutside(entries: set<Path>, dirs: set<Path>, root: Path, ids: seq<string>, x: Path)
    requires x in entries && !Within(x, root)
    ensures x in Prune(entries, CacheVictims(dirs, root, ids))
  {
    forall v | v in CacheVictims(dirs, root, ids)
      ensures !Within(x, v)
    {
      assert v[..|root|] == root;
    }
  }

  /** An entry is removed only when it lies in a matching child of the root. */
  lemma PurgeRemovesOnlyMatches(entries: set<Path>, dirs: set<Path>, root: Path, ids: seq<string>, x: Path)
    requires x in entries && x !in Prune(entries, CacheVictims(dirs, root, ids))
    ensures |x| > |root| && x[..|root|] == root && x[|root|] in LowerAll(ids) && x[..|root| + 1] in dirs
  {
    var v :| v in CacheVictims(dirs, root, ids) && Within(x, v);
    assert x[..|root|] == v[..|root|];
    assert x[..|root| + 1] == v;
  }

  /** Mixed-case ids purge exactly what their lower-case forms purge. */
  lemma PurgeCaseInsensitive(dirs: set<Path>, root: Path, ids: seq<string>)
    ensures CacheVictims(dirs, root, LowerAll(ids)) == CacheVictims(dirs, root, ids)
  {
    LowerAllIdempotent(ids);
  }

  // ---- package deletion and enumeration ----

  const PackageExtension: string := ".nupkg"

  /** The search pattern `*.nupkg` on the file name. */
  predicate IsPackageFile(f: Path) {
    |f| > 0 && EndsWith(f[|f| - 1], PackageExtension)
  }

  /** `new DirectoryInfo(Path.Combine(srcDir, project))`, resolved. */
  function ProjectDir(srcDir: Path, project: string): Path {
    Resolve(srcDir + [project])
  }

  /** `dir.GetFiles("*.nupkg", SearchOption.AllDirectories)` as a set. */
  function PackagesUnder(files: set<Path>, dir: Path): (r: set<Path>)
    ensures r <= files
    ensures forall f :: f in r ==> IsPackageFile(f) && StrictlyWithin(f, dir)
  {
    set f | f in files && StrictlyWithin(f, dir) && IsPackageFile(f)
  }

  /** `listing` enumerates the set `found`: each element once, in some order. */
  predicate Enumerates(listing: seq<Path>, found: set<Path>) {
    multiset(listing) == multiset(found)
  }

  /** How many leading projects have a directory; the first one that does
      not is where enumeration throws. */
  function ExistingPrefix(dirs: set<Path>, srcDir: Path, projects: seq<string>): (k: nat)
    ensures k <= |projects|
    ensures forall j :: 0 <= j < k ==> ProjectDir(srcDir, projects[j]) in dirs
    ensures k < |projects| ==> ProjectDir(srcDir, projects[k]) !in dirs
  {
    if projects == [] || ProjectDir(srcDir, projects[0]) !in dirs then 0
    else 1 + ExistingPrefix(dirs, srcDir, projects[1..])
  }

  /** Walking the projects in order, the directory of project `i` exists
      exactly when the walk has not yet reached the first missing one. */
  lemma ExistingPrefixStep(dirs: set<Path>, srcDir: Path, projects: seq<string>, i: nat)
    requires i < |projects| && i <= ExistingPrefix(dirs, srcDir, projects)
    ensures ProjectDir(srcDir, projects[i]) in dirs <==> i < ExistingPrefix(dirs, srcDir, projects)
  {
  }

  /** `chunks[j]` enumerates the packages below the directory of project
      `j`, for every listed project. */
  ghost predicate Listed(chunks: seq<seq<Path>>, files: set<Path>, srcDir: Path, projects: seq<string>)
    requires |chunks| <= |projects|
    decreases |chunks|
  {
    chunks == []
    || (&& Listed(chunks[..|chunks| - 1], files, srcDir, projects)
        && Enumerates(chunks[|chunks| - 1], PackagesUnder(files, ProjectDir(srcDir, projects[|chunks| - 1]))))
  }

  /** A listing of the next project extends the listed prefix. */
  lemma ListedSnoc(chunks: seq<seq<Path>>, chunk: seq<Path>, files: set<Path>, srcDir: Path, projects: seq<string>)
    requires |chunks| < |projects| && Listed(chunks, files, srcDir, projects)
    requires Enumerates(chunk, PackagesUnder(files, ProjectDir(srcDir, projects[|chunks|])))
    ensures Listed(chunks + [chunk], files, srcDir, projects)
  {
    assert (chunks + [chunk])[..|chunks|] == chunks;
  }

  lemma {:induction false} ListedAll(chunks: seq<seq<Path>>, files: set<Path>, srcDir: Path, projects: seq<string>)
    requires |chunks| <= |projects|
    requires Listed(chunks, files, srcDir, projects)
    ensures forall j :: 0 <= j < |chunks| ==>
      Enumerates(chunks[j], PackagesUnder(files, ProjectDir(srcDir, projects[j])))
  {
    if chunks != [] {
      var front := chunks[..|chunks| - 1];
      ListedAll(front, files, srcDir, projects);
      assert forall j :: 0 <= j < |front| ==> chunks[j] == front[j];
    }
  }

  /** The outcome of a loop over project directories that enumerates each. */
  function ProjectsOutcome(dirs: set<Path>, srcDir: Path, projects: seq<string>): Outcome {
    var k := ExistingPrefix(dirs, srcDir, projects);
    if k == |projects| then Pass else Fail(DirectoryNotFound(srcDir + [projects[k]]))
  }

  /** A package below one of the first `k` project directories. */
  predicate Stale(f: Path, srcDir: Path, projects: seq<string>, k: nat)
    requires k <= |projects|
  {
    IsPackageFile(f) && exists j :: 0 <= j < k && StrictlyWithin(f, ProjectDir(srcDir, projects[j]))
  }

  /** The files after deleting the packages of the first `k` projects. */
  function WithoutPackages(files: set<Path>, srcDir: Path, projects: seq<string>, k: nat): (r: set<Path>)
    requires k <= |projects|
    ensures r <= files
  {
    set f | f in files && !Stale(f, srcDir, projects, k)
  }

  /** Deleting packages keeps every other file (every non-package, and
      every package outside the first `k` project directories), and leaves
      no package below any of those directories. */
  lemma WithoutPackagesMeaning(files: set<Path>, srcDir: Path, projects: seq<string>, k: nat)
    requires k <= |projects|
    ensures forall f :: f in files && !IsPackageFile(f) ==> f in WithoutPackages(files, srcDir, projects, k)
    ensures forall f ::
      (f in files && (forall j :: 0 <= j < k ==> !StrictlyWithin(f, ProjectDir(srcDir, projects[j]))))
      ==> f in WithoutPackages(files, srcDir, projects, k)
    ensures forall j :: 0 <= j < k ==> PackagesUnder(WithoutPackages(files, srcDir, projects, k), ProjectDir(srcDir, projects[j])) == {}
  {
    forall j | 0 <= j < k
      ensures PackagesUnder(WithoutPackages(files, srcDir, projects, k), ProjectDir(srcDir, projects[j])) == {}
    {
      var d := ProjectDir(srcDir, projects[j]);
      forall f | f in PackagesUnder(WithoutPackages(files, srcDir, projects, k), d)
        ensures false
      {
        assert Stale(f, srcDir, projects, k);
      }
    }
  }

  /** One more project: the next directory's packages are deleted too. */
  lemma WithoutPackagesStep(files: set<Path>, srcDir: Path, projects: seq<string>, i: nat)
    requires i < |projects|
    ensures WithoutPackages(files, srcDir, projects, i + 1)
      == WithoutPackages(files, srcDir, projects, i)
         - PackagesUnder(WithoutPackages(files, srcDir, projects, i), ProjectDir(srcDir, projects[i]))
  {
    var d := ProjectDir(srcDir, projects[i]);
    forall f
      ensures Stale(f, srcDir, projects, i + 1)
          <==> Stale(f, srcDir, projects, i) || (IsPackageFile(f) && StrictlyWithin(f, d))
    {
      if Stale(f, srcDir, projects, i + 1) && !Stale(f, srcDir, projects, i) {
        var j :| 0 <= j < i + 1 && StrictlyWithin(f, ProjectDir(srcDir, projects[j]));
        assert j == i;
      }
    }
  }

  /** With one project, the prefix of existing directories is that one
      directory or nothing, and the loop fails exactly when it is missing. */
  lemma SingleProject(dirs: set<Path>, srcDir: Path, project: string)
    ensures ExistingPrefix(dirs, srcDir, [project]) == if ProjectDir(srcDir, project) in dirs then 1 else 0
    ensures ProjectsOutcome(dirs, srcDir, [project])
         == if ProjectDir(srcDir, project) in dirs then Pass else Fail(DirectoryNotFound(srcDir + [project]))
  {
    assert [project][1..] == [];
  }

  /** Deleting the packages of no project deletes nothing. */
  lemma WithoutPackagesNone(files: set<Path>, srcDir: Path, projects: seq<string>)
    ensures WithoutPackages(files, srcDir, projects, 0) == files
  {
    forall f | f in files
      ensures !Stale(f, srcDir, projects, 0)
    {
    }
  }

  /** After deleting the packages of a single project, its directory holds
      none. */
  lemma SingleCleared(files: set<Path>, srcDir: Path, project: string)
    ensures PackagesUnder(WithoutPackages(files, srcDir, [project], 1), ProjectDir(srcDir, project)) == {}
  {
    WithoutPackagesMeaning(files, srcDir, [project], 1);
    assert [project][0] == project;
  }

  /** Once a directory holds no package, the packages below it after new
      files arrive are exactly the new ones. */
  lemma OnlyProducedPackages(cleaned: set<Path>, produced: set<Path>, dir: Path)
    requires PackagesUnder(cleaned, dir) == {}
    ensures PackagesUnder(cleaned + produced, dir) == PackagesUnder(produced, dir)
  {
    forall f | f in PackagesUnder(cleaned + produced, dir)
      ensures f in produced
    {
      assert f in produced || f in PackagesUnder(cleaned, dir);
    }
  }

  lemma PushedWereProduced(pushed: seq<Path>, produced: set<Path>, dir: Path)
    requires Enumerates(pushed, PackagesUnder(produced, dir))
    ensures forall f :: f in pushed ==> f in produced
  {
    forall f | f in pushed
      ensures f in produced
    {
      assert f in multiset(pushed);
    }
  }
}
