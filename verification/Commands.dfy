/** The external commands the driver launches. Launching one is modelled as
    appending it to a log: the child process, its output streams and its
    exit code are not observed, and the driver never checks the exit code. */
module Commands {
  import opened Paths
  import opened Text

  /** One `RunCommand(command, args)` call. */
  datatype Invocation = Invocation(command: string, args: string)

  const DotNet: string := "dotnet"
  const Configuration: string := "Release"
  const ProjectExtension: string := ".csproj"

  /** `srcDir/<project>/<project>.csproj`. */
  function ProjectFile(srcDir: Path, project: string): Path {
    srcDir + [project, project + ProjectExtension]
  }

  /** `dotnet nuget add source "<dir>" --name "<name>"`. */
  function AddSourceCommand(dir: string, name: string): (r: Invocation)
    ensures r.command == DotNet
    ensures StartsWith(r.args, "nuget add source \"" + dir + "\"")
    ensures EndsWith(r.args, "--name \"" + name + "\"")
  {
    Invocation(DotNet, "nuget add source \"" + dir + "\" --name \"" + name + "\"")
  }

  /** `dotnet build <project file> -c Release`. */
  function BuildCommand(srcDir: Path, project: string): (r: Invocation)
    ensures r.command == DotNet
    ensures StartsWith(r.args, "build " + Render(srcDir + [project, project + ".csproj"]))
    ensures EndsWith(r.args, " -c Release")
  {
    Invocation(DotNet, "build " + Render(ProjectFile(srcDir, project)) + " -c " + Configuration)
  }

  /** `dotnet nuget push <package> -s <repository>`. */
  function PushCommand(package: Path, repoName: string): (r: Invocation)
    ensures r.command == DotNet
    ensures StartsWith(r.args, "nuget push " + Render(package))
    ensures EndsWith(r.args, " -s " + repoName)
  {
    Invocation(DotNet, "nuget push " + Render(package) + " -s " + repoName)
  }

  /** One build command per project, in the order given. */
  function BuildCommands(srcDir: Path, projects: seq<string>): (r: seq<Invocation>)
    ensures |r| == |projects|
  {
    if projects == [] then []
    else BuildCommands(srcDir, projects[..|projects| - 1]) + [BuildCommand(srcDir, projects[|projects| - 1])]
  }

  /** The `j`-th build command builds the `j`-th project. */
  lemma {:induction false} BuildCommandsAt(srcDir: Path, projects: seq<string>)
    ensures forall j :: 0 <= j < |projects| ==>
      BuildCommands(srcDir, projects)[j] == BuildCommand(srcDir, projects[j])
  {
    if projects != [] {
      var front := projects[..|projects| - 1];
      BuildCommandsAt(srcDir, front);
      assert forall j :: 0 <= j < |front| ==> projects[j] == front[j];
    }
  }

  /** One push command per package, in the order given. */
  function PushCommands(packages: seq<Path>, repoName: string): (r: seq<Invocation>)
    ensures |r| == |packages|
  {
    if packages == [] then []
    else PushCommands(packages[..|packages| - 1], repoName) + [PushCommand(packages[|packages| - 1], repoName)]
  }

  /** The `j`-th push command pushes the `j`-th package. */
  lemma {:induction false} PushCommandsAt(packages: seq<Path>, repoName: string)
    ensures forall j :: 0 <= j < |packages| ==>
      PushCommands(packages, repoName)[j] == PushCommand(packages[j], repoName)
  {
    if packages != [] {
      var front := packages[..|packages| - 1];
      PushCommandsAt(front, repoName);
      assert forall j :: 0 <= j < |front| ==> packages[j] == front[j];
    }
  }

  /** Pushing two listings one after the other logs their commands one
      after the other. */
  lemma {:induction false} PushCommandsAppend(a: seq<Path>, b: seq<Path>, repoName: string)
    ensures PushCommands(a + b, repoName) == PushCommands(a, repoName) + PushCommands(b, repoName)
  {
    if b == [] {
      assert a + b == a;
    } else {
      var front := b[..|b| - 1];
      assert (a + b)[..|a + b| - 1] == a + front;
      PushCommandsAppend(a, front, repoName);
    }
  }

  /** The listings of several directories, one after the other. */
  function Flatten(chunks: seq<seq<Path>>): seq<Path> {
    if chunks == [] then [] else Flatten(chunks[..|chunks| - 1]) + chunks[|chunks| - 1]
  }

  lemma FlattenSnoc(chunks: seq<seq<Path>>, chunk: seq<Path>)
    ensures Flatten(chunks + [chunk]) == Flatten(chunks) + chunk
  {
    assert (chunks + [chunk])[..|chunks|] == chunks;
  }

  /** Logging the pushes of one more listing extends the log of the
      pushes of all listings so far. */
  lemma PushLogSnoc(log: seq<Invocation>, chunks: seq<seq<Path>>, chunk: seq<Path>, repoName: string)
    ensures log + PushCommands(Flatten(chunks), repoName) + PushCommands(chunk, repoName)
         == log + PushCommands(Flatten(chunks + [chunk]), repoName)
  {
    FlattenSnoc(chunks, chunk);
    PushCommandsAppend(Flatten(chunks), chunk, repoName);
  }

  /** A single listing flattens to itself. */
  lemma FlattenSingle(chunk: seq<Path>)
    ensures Flatten([chunk]) == chunk
  {
    FlattenSnoc([], chunk);
    assert [] + [chunk] == [chunk];
  }
}
