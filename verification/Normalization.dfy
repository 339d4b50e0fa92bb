/** `NormalizeWorkingDirectory`: from whatever directory the driver starts
    in, find the repository root by the name of the directory, and the
    specification of that decision as pure functions. */
module Normalization {
  import opened Paths
  import opened Errors

  const RepositoryName: string := "collate"
  /** `root_dir`: the directory that holds the projects. */
  const SourceDirName: string := "src"
  const TomatCollate: string := "Tomat.Collate"
  const TomatCollateNuGet: string := "Tomat.Collate.NuGet"
  const TomatCollateLocalPublish: string := "Tomat.Collate.LocalPublish"
  const NetStandard20: string := "netstandard2.0"
  const Net60: string := "net6.0"
  const Net70: string := "net7.0"
  /** The script whose presence marks the repository root. */
  const Marker: string := "publish.sh"

  predicate IsProjectName(name: string) {
    name == TomatCollate || name == TomatCollateNuGet || name == TomatCollateLocalPublish
  }

  predicate IsFrameworkName(name: string) {
    name == NetStandard20 || name == Net60 || name == Net70
  }

  /** The `switch` on the directory name: how many levels to ascend, or
      `None` for the `default` branch. */
  function AscentLevels(name: string): (r: Option<nat>)
    ensures r.Some? ==> IsName(name) && r.value <= 5
    ensures r.None? <==>
      !(name == RepositoryName || name == SourceDirName || IsProjectName(name) || IsFrameworkName(name))
  {
    if name == RepositoryName then Some(0)
    else if name == SourceDirName then Some(1)
    else if IsProjectName(name) then Some(2)
    else if IsFrameworkName(name) then Some(5)
    else None
  }

  /** `Directory.Exists`: the resolved path is a directory. */
  predicate DirExists(dirs: set<Path>, p: Path) {
    Resolve(p) in dirs
  }

  /** `Directory.GetFiles(dir)`: the full paths of the files directly in the
      directory, as strings. */
  function FileListing(files: set<Path>, dir: Path): set<string> {
    var d := Resolve(dir);
    set f | f in files && |f| == |d| + 1 && f[..|d|] == d :: Render(f)
  }

  /** The decision of `NormalizeWorkingDirectory`, given the outcome of the
      marker test of the `default` branch. */
  function NormalizeWith(dirs: set<Path>, files: set<Path>, cwd: Path, markerFound: bool): (r: Result<Path>)
    ensures r.Failure? ==> r.error == DirectoryNotFound(cwd)
    ensures r.Success? ==> DirExists(dirs, cwd) && Resolve(cwd) !in files
    ensures r.Success? ==> IsAscent(cwd, r.value)
  {
    if !DirExists(dirs, cwd) then Failure(DirectoryNotFound(cwd))
    else if Resolve(cwd) in files then Failure(DirectoryNotFound(cwd))
    else match AscentLevels(FileName(cwd))
      case Some(n) => AscendShape(cwd, n); Success(Ascend(cwd, n))
      case None => if markerFound then Success(cwd) else Failure(DirectoryNotFound(cwd))
  }

  /** `q` is `p` followed by `..` segments only. */
  predicate IsAscent(p: Path, q: Path) {
    |p| <= |q| && q[..|p|] == p && forall k :: |p| <= k < |q| ==> q[k] == ParentSegment
  }

  /** As written: `files.Contains("publish.sh")` on the listing of full
      paths. Every failure is `DirectoryNotFound` for the starting
      directory; a success requires an existing directory and is that
      directory with only `..` segments appended. */
  function NormalizeAsWritten(dirs: set<Path>, files: set<Path>, cwd: Path): (r: Result<Path>)
    ensures r.Failure? ==> r.error == DirectoryNotFound(cwd)
    ensures r.Success? ==> DirExists(dirs, cwd) && Resolve(cwd) !in files
    ensures r.Success? ==> IsAscent(cwd, r.value)
  {
    NormalizeWith(dirs, files, cwd, Marker in FileListing(files, cwd))
  }

  /** As intended: the directory holds a file named `publish.sh`. */
  function Normalize(dirs: set<Path>, files: set<Path>, cwd: Path): Result<Path> {
    NormalizeWith(dirs, files, cwd, Resolve(cwd) + [Marker] in files)
  }

  /** No entry of a listing of a directory other than the empty path is the
      bare name `publish.sh`: every entry has a separator in it. */
  lemma MarkerNeverListed(files: set<Path>, dir: Path)
    requires Resolve(dir) != []
    ensures Marker !in FileListing(files, dir)
  {
    var d := Resolve(dir);
    forall f | f in files && |f| == |d| + 1 && f[..|d|] == d
      ensures Render(f) != Marker
    {
      RenderHasSep(f);
      assert Sep !in Marker;
    }
  }

  /** Consequence: as written, the `default` branch always throws, even in a
      directory that holds `publish.sh`. */
  lemma AsWrittenRejectsUnknownNames(dirs: set<Path>, files: set<Path>, cwd: Path)
    requires [] !in dirs
    requires AscentLevels(FileName(cwd)).None?
    ensures NormalizeAsWritten(dirs, files, cwd) == Failure(DirectoryNotFound(cwd))
  {
    if DirExists(dirs, cwd) {
      MarkerNeverListed(files, cwd);
    }
  }

  /** The intended marker test accepts a directory that holds `publish.sh`
      and that the name table does not know. */
  lemma MarkerAccepted(dirs: set<Path>, files: set<Path>, cwd: Path)
    requires DirExists(dirs, cwd) && Resolve(cwd) !in files
    requires AscentLevels(FileName(cwd)).None?
    ensures Normalize(dirs, files, cwd) == Success(cwd) <==> Resolve(cwd) + [Marker] in files
  {
  }

  /** An input on which the two differ: `/work` holding `/work/publish.sh`. */
  lemma MarkerCounterexample()
    ensures NormalizeAsWritten({["", "work"]}, {["", "work", Marker]}, ["", "work"]).Failure?
    ensures Normalize({["", "work"]}, {["", "work", Marker]}, ["", "work"]) == Success(["", "work"])
  {
    var cwd: Path := ["", "work"];
    assert Resolve(cwd[..1]) == [""];
    assert Resolve(cwd) == cwd;
    assert cwd + [Marker] == ["", "work", Marker];
    assert AscentLevels("work").None?;
    AsWrittenRejectsUnknownNames({["", "work"]}, {["", "work", Marker]}, cwd);
  }

  /** Starting in a directory `below` the root whose last name the table
      maps to `|below|` levels, normalization ends at the root, whatever the
      marker test would say. */
  lemma {:induction false} NormalizeFindsRoot(dirs: set<Path>, files: set<Path>, root: Path, below: seq<string>,
                                              markerFound: bool)
    requires Resolve(root) != []
    requires below != [] && forall i :: 0 <= i < |below| ==> IsName(below[i])
    requires AscentLevels(below[|below| - 1]) == Some(|below|)
    requires DirExists(dirs, root + below) && Resolve(root + below) !in files
    ensures NormalizeWith(dirs, files, root + below, markerFound).Success?
    ensures Resolve(NormalizeWith(dirs, files, root + below, markerFound).value) == Resolve(root)
  {
    var cwd := root + below;
    ResolveNames(root, below);
    ResolveAscend(cwd, |below|);
    assert (Resolve(root) + below)[..|Resolve(root)|] == Resolve(root);
  }

  lemma SourceDirNameKnown()
    ensures IsName(SourceDirName) && AscentLevels(SourceDirName) == Some(1)
  {
  }

  lemma ProjectNameKnown(project: string)
    requires IsProjectName(project)
    ensures IsName(project) && AscentLevels(project) == Some(2)
  {
  }

  lemma FrameworkNameKnown(framework: string)
    requires IsFrameworkName(framework)
    ensures IsName(framework) && AscentLevels(framework) == Some(5)
  {
  }

  /** Started in `src`, normalization ends at the root. */
  lemma FromSourceDir(dirs: set<Path>, files: set<Path>, root: Path)
    requires Resolve(root) != []
    requires DirExists(dirs, root + [SourceDirName]) && Resolve(root + [SourceDirName]) !in files
    ensures NormalizeAsWritten(dirs, files, root + [SourceDirName]).Success?
    ensures Resolve(NormalizeAsWritten(dirs, files, root + [SourceDirName]).value) == Resolve(root)
  {
    SourceDirNameKnown();
    NormalizeFindsRoot(dirs, files, root, [SourceDirName], Marker in FileListing(files, root + [SourceDirName]));
  }

  /** Started in a project directory `src/<project>`, normalization ends at
      the root. */
  lemma FromProjectDir(dirs: set<Path>, files: set<Path>, root: Path, project: string)
    requires Resolve(root) != [] && IsProjectName(project)
    requires DirExists(dirs, root + [SourceDirName, project]) && Resolve(root + [SourceDirName, project]) !in files
    ensures NormalizeAsWritten(dirs, files, root + [SourceDirName, project]).Success?
    ensures Resolve(NormalizeAsWritten(dirs, files, root + [SourceDirName, project]).value) == Resolve(root)
  {
    SourceDirNameKnown();
    ProjectNameKnown(project);
    var below := [SourceDirName, project];
    assert IsName(below[0]) && IsName(below[1]);
    NormalizeFindsRoot(dirs, files, root, below, Marker in FileListing(files, root + below));
  }

  /** Started in a build-output directory
      `src/<project>/bin/<configuration>/<framework>`, normalization ends at
      the root. */
  lemma FromBuildOutput(dirs: set<Path>, files: set<Path>, root: Path,
                        project: string, bin: string, config: string, framework: string)
    requires Resolve(root) != []
    requires IsProjectName(project) && IsFrameworkName(framework) && IsName(bin) && IsName(config)
    requires DirExists(dirs, root + [SourceDirName, project, bin, config, framework])
    requires Resolve(root + [SourceDirName, project, bin, config, framework]) !in files
    ensures NormalizeAsWritten(dirs, files, root + [SourceDirName, project, bin, config, framework]).Success?
    ensures Resolve(NormalizeAsWritten(dirs, files, root + [SourceDirName, project, bin, config, framework]).value) == Resolve(root)
  {
    SourceDirNameKnown();
    ProjectNameKnown(project);
    FrameworkNameKnown(framework);
    var below := [SourceDirName, project, bin, config, framework];
    assert IsName(below[0]) && IsName(below[1]) && IsName(below[2]) && IsName(below[3]) && IsName(below[4]);
    NormalizeFindsRoot(dirs, files, root, below, Marker in FileListing(files, root + below));
  }

  /** Started in the root itself, when it is named `collate`, normalization
      stays there. */
  lemma FromRoot(dirs: set<Path>, files: set<Path>, root: Path)
    requires FileName(root) == RepositoryName && DirExists(dirs, root) && Resolve(root) !in files
    ensures NormalizeAsWritten(dirs, files, root) == Success(root)
  {
    assert AscentLevels(RepositoryName) == Some(0);
  }
}
