/**
  The decision logic of `DockerDistTarget` (src/docker/dist_target.rs):
  where the target stages its files, which image name and registry it
  uses, and the order of external calls that `build` and `publish` make,
  with every external result (file system, compiler, template engine,
  Docker CLI, ECR API) given as a parameter.
 */
module DistTarget {
  import opened Maybe
  import opened Errors
  import opened Paths
  import Ecr

  const DefaultDockerRegistryEnvVarName := "CARGO_MONOREPO_DOCKER_REGISTRY"

  // The texts of the pipeline's messages.
  const RegistryUnknown := "failed to determine Docker registry"
  const RegistryUnknownExplanation := "The field registry is empty and the environment variable " + DefaultDockerRegistryEnvVarName + " was not set"
  const SpawnFailureText := " of the Docker image failed which could indicate a configuration problem."
  const VerboseHint := " You may want to re-run the command with `--verbose` to get more information."
  const LogsAboveText := " of the Docker image failed. Check the logs above to determine the cause."
  const LogsBelowText := " of the Docker image failed. Check the logs below to determine the cause."
  const CleanFailure := "failed to clean the docker root directory"
  const CompileFailure := "failed to compile binaries"
  const RenderFailure := "failed to render Dockerfile template"
  const RenderFailureExplanation := "The specified Dockerfile template could not rendered properly, which may indicate a possible syntax error."
  const DockerfileDirFailure := "could not create Dockerfile path"
  const WriteFailure := "failed to write Dockerfile"
  const BinDirFailure := "could not create `target_bin_dir` in Docker root"
  const CopyFailureTail := "` could not be copied to the Docker image."
  const DockerRootUnknown := "failed to determine Docker root"
  const CreationFailure := "failed to create AWS ECR repository"
  const CreationAdvice := "` failed. Please check your credentials and permissions and make sure the repository does not already exist with incompatible tags."
  const BuildOnWindows := "Docker build is not supported on Windows"
  const PublishOnWindows := "Docker publish is not supported on Windows"
  const PublishInDebug := "Docker images can't be published in debug mode unless `--force` is specified"

  const CreateDirHead := "The build process needed to create `"
  const CreateDirTail := "` but it could not. You may want to verify permissions."

  /** The explanation given when a directory the build needs cannot be created. */
  function CreateDirExplanation(dir: Path): string
  {
    CreateDirHead + Paths.Display(dir) + CreateDirTail
  }

  // ----- Configuration -----

  datatype Mode = Debug | Release

  /** The command-line options the target reads from its context. */
  datatype RunOptions = RunOptions(mode: Mode, force: bool, dryRun: bool, verbose: bool)

  /** One `CopyCommand` of `extra_files`. */
  datatype ExtraFile = ExtraFile(source: Path, destination: Path)

  /** A value the Dockerfile template can refer to. */
  datatype ContextValue = Text(text: string) | TextMap(entries: map<string, string>) | TextSet(items: set<string>)

  type TemplateContext = map<string, ContextValue>

  datatype RenderOutcome = Rendered(text: string) | RenderFailed(message: string)

  /**
    The metadata fields the pipeline reads. `extraFiles` is in the
    iteration order of the source's set; `template` is the compiled
    template, a pure function of the context it is rendered with.
   */
  datatype TargetMetadata = TargetMetadata(
    registry: Option<string>,
    allowAwsEcrCreation: bool,
    targetBinDir: Path,
    targetRuntime: string,
    extraFiles: seq<ExtraFile>,
    template: TemplateContext -> RenderOutcome)

  /** `targetDir` is the context's target root joined with the build mode. */
  datatype DockerDistTarget = DockerDistTarget(
    packageName: string,
    packageVersion: string,
    metadata: TargetMetadata,
    targetDir: Path)

  // ----- The outside world -----

  datatype IoErrorKind = NotFound | OtherKind

  datatype IoOutcome = IoOk | IoFailed(kind: IoErrorKind, message: string)

  /** A child process either cannot be spawned or exits with a status. */
  datatype ProcessOutcome = SpawnFailed(message: string) | Exited(success: bool, stderr: string)

  datatype DockerCommand =
    | DockerBuild(contextDir: Path, image: string)
    | DockerPull(image: string)
    | DockerPush(image: string)

  /** A compiled binary target: its name and the path of the produced file. */
  datatype Binary = Binary(name: string, path: Path)

  datatype CompileRequest = CompileRequest(package: string, profile: string, target: Option<string>)

  datatype CompileOutcome = Compiled(binaries: seq<Binary>) | CompileFailed(message: string)

  datatype Tag = Tag(key: string, value: string)

  datatype CreateRepositoryRequest = CreateRepositoryRequest(region: string, repositoryName: string, tags: seq<Tag>)

  /** The result of the ECR `CreateRepository` call as the SDK reports it. */
  datatype CreateOutcome =
    | Created
    | ServiceError(repositoryAlreadyExists: bool, message: string)
    | OtherSdkError(message: string)

  /**
    The host: platform, the registry environment variable (`None` when it
    is unset or not Unicode), the workspace lookup and the check whether a
    target triple is the one of the running host.
   */
  datatype Host = Host(
    isWindows: bool,
    registryVariable: Option<string>,
    workspace: Result<()>,
    isCurrentTargetRuntime: string -> Result<bool>)

  /** `CopyCommand::copy_files` is `copyExtraFile`. */
  datatype FileSystem = FileSystem(
    removeDirAll: Path -> IoOutcome,
    createDirAll: Path -> IoOutcome,
    copy: (Path, Path) -> IoOutcome,
    write: (Path, string) -> IoOutcome,
    copyExtraFile: ExtraFile -> Result<()>)

  datatype Environment = Environment(
    host: Host,
    fs: FileSystem,
    compiler: CompileRequest -> CompileOutcome,
    docker: DockerCommand -> ProcessOutcome,
    ecr: CreateRepositoryRequest -> CreateOutcome)

  /** One call into the outside world, in the order the pipeline makes them. */
  datatype Effect =
    | RemoveDirAll(path: Path)
    | Compile(request: CompileRequest)
    | CreateDirAll(path: Path)
    | WriteFile(path: Path, contents: string)
    | CopyFile(source: Path, target: Path)
    | CopyExtra(file: ExtraFile)
    | RunDocker(command: DockerCommand)
    | CreateRepository(creation: CreateRepositoryRequest)

  /**
    How `build` or `publish` ends: `Done` after real work, `Ignored` for
    an `ignore_step!` (with its tag and message), `DryRunStopped` where a
    dry run stops before pushing; the first three are `Ok(())` in the source.
   */
  datatype Outcome = Done | Ignored(tag: string, message: string) | DryRunStopped | Failed(error: Error)

  /** The effects of one step and its result. */
  datatype StepRun<T> = StepRun(effects: seq<Effect>, result: Result<T>)

  // ----- Names and paths -----

  /** `registry`: the target's own registry, else the environment variable, else an error. */
  function Registry(t: DockerDistTarget, host: Host): (r: Result<string>)
    ensures t.metadata.registry.Some? ==> r == Ok(t.metadata.registry.value)
    ensures t.metadata.registry.None? && host.registryVariable.Some? ==> r == Ok(host.registryVariable.value)
    ensures r.Err? <==> t.metadata.registry.None? && host.registryVariable.None?
    ensures r.Err? ==> r.error.description == RegistryUnknown
  {
    match t.metadata.registry
    case Some(registry) => Ok(registry)
    case None =>
      match host.registryVariable
      case Some(registry) => Ok(registry)
      case None =>
        Err(WithExplanation(
          New(RegistryUnknown),
          RegistryUnknownExplanation))
  }

  /** `docker_image_name`: `registry/name:version`. */
  function DockerImageName(t: DockerDistTarget, host: Host): (r: Result<string>)
    ensures r.Ok? <==> Registry(t, host).Ok?
    ensures r.Ok? ==> r.value == Registry(t, host).value + "/" + t.packageName + ":" + t.packageVersion
    ensures r.Err? ==> r.error == Registry(t, host).error
  {
    match Registry(t, host)
    case Ok(registry) => Ok(registry + "/" + t.packageName + ":" + t.packageVersion)
    case Err(e) => Err(e)
  }

  /** The string `get_aws_ecr_information` parses: `registry/name`. */
  function EcrProbe(t: DockerDistTarget, host: Host): (r: Result<string>)
    ensures r.Ok? <==> Registry(t, host).Ok?
    ensures r.Ok? ==> r.value == Registry(t, host).value + "/" + t.packageName
    ensures r.Err? ==> r.error == Registry(t, host).error
  {
    match Registry(t, host)
    case Ok(registry) => Ok(registry + "/" + t.packageName)
    case Err(e) => Err(e)
  }

  /** `get_aws_ecr_information`. */
  function AwsEcrInformation(t: DockerDistTarget, host: Host): Result<Option<Ecr.EcrInformation>>
  {
    match EcrProbe(t, host)
    case Ok(probe) => Ok(Ecr.Parse(probe))
    case Err(e) => Err(e)
  }

  /** `docker_root`: `target_dir/docker/<package name>`. */
  function DockerRoot(t: DockerDistTarget): Path
  {
    Join(Join(t.targetDir, Named("docker")), Named(t.packageName))
  }

  /** `docker_target_bin_dir`: the target bin dir, without its root, under the Docker root. */
  function DockerTargetBinDir(t: DockerDistTarget): Path
  {
    Join(DockerRoot(t), StripRoot(t.metadata.targetBinDir))
  }

  function DockerfilePath(t: DockerDistTarget): Path
  {
    Join(DockerRoot(t), Named("Dockerfile"))
  }

  /** `Path::parent`. */
  function Parent(p: Path): Option<Path>
  {
    if p == [] || p == [RootDir] then None else Some(p[..|p| - 1])
  }

  /** `Mode`'s `to_string`, which names the build profile. */
  function ModeName(mode: Mode): string
  {
    match mode
    case Debug => "debug"
    case Release => "release"
  }

  /** Every compiled binary has a distinct name and a file name (`file_name().unwrap()`). */
  predicate WellFormedBinaries(bs: seq<Binary>)
  {
    && (forall i, j :: 0 <= i < j < |bs| ==> bs[i].name != bs[j].name)
    && (forall i :: 0 <= i < |bs| ==> FileName(bs[i].path).Some?)
  }

  /** Where a compiled binary is staged (`copy_binaries`). */
  function StagedPath(t: DockerDistTarget, b: Binary): Path
    requires FileName(b.path).Some?
  {
    Join(DockerTargetBinDir(t), Named(FileName(b.path).value))
  }

  /** Where the image holds a compiled binary, as given to the template. */
  function InImagePath(t: DockerDistTarget, b: Binary): Path
    requires FileName(b.path).Some?
  {
    Join(t.metadata.targetBinDir, Named(FileName(b.path).value))
  }

  // ----- The template context -----

  /** The `binaries` variable: binary name to in-image path. */
  function InImageBinaries(t: DockerDistTarget, bs: seq<Binary>): map<string, string>
    requires WellFormedBinaries(bs)
  {
    if bs == [] then map[]
    else InImageBinaries(t, bs[1..])[bs[0].name := Paths.Display(InImagePath(t, bs[0]))]
  }

  /** Every binary name maps to the in-image path of its file, and every key is a binary name. */
  lemma {:induction false} InImageBinariesContents(t: DockerDistTarget, bs: seq<Binary>)
    requires WellFormedBinaries(bs)
    ensures var m := InImageBinaries(t, bs);
      && (forall i :: 0 <= i < |bs| ==> bs[i].name in m && m[bs[i].name] == Paths.Display(InImagePath(t, bs[i])))
      && (forall name :: name in m ==> exists i :: 0 <= i < |bs| && bs[i].name == name)
  {
    if bs != [] {
      var rest := InImageBinaries(t, bs[1..]);
      InImageBinariesContents(t, bs[1..]);
      assert forall i :: 1 <= i < |bs| ==> bs[1..][i - 1] == bs[i];
      forall name | name in rest ensures exists i :: 0 <= i < |bs| && bs[i].name == name {
        var j :| 0 <= j < |bs[1..]| && bs[1..][j].name == name;
        assert bs[j + 1].name == name;
      }
    }
  }

  /** The `extra_files` variable: the destinations of the extra files. */
  function ExtraFileDestinations(files: seq<ExtraFile>): set<string>
  {
    set f | f in files :: Paths.Display(f.destination)
  }

  /** The variables `generate_context` gives the template. */
  function TemplateContextOf(t: DockerDistTarget, bs: seq<Binary>): TemplateContext
    requires WellFormedBinaries(bs)
  {
    map[
      "package_name" := Text(t.packageName),
      "package_version" := Text(t.packageVersion),
      "binaries" := TextMap(InImageBinaries(t, bs)),
      "extra_files" := TextSet(ExtraFileDestinations(t.metadata.extraFiles))]
  }

  /** `generate_context`, one `insert` at a time. */
  method GenerateContext(t: DockerDistTarget, bs: seq<Binary>) returns (context: TemplateContext)
    requires WellFormedBinaries(bs)
    ensures context == TemplateContextOf(t, bs)
  {
    context := map[];
    context := context["package_name" := Text(t.packageName)];
    context := context["package_version" := Text(t.packageVersion)];
    var binaries := InImageBinaries(t, bs);
    context := context["binaries" := TextMap(binaries)];
    var extraFiles := ExtraFileDestinations(t.metadata.extraFiles);
    context := context["extra_files" := TextSet(extraFiles)];
  }

  // ----- The error texts of external commands -----

  function SpawnExplanation(action: string, verbose: bool): string
  {
    "The " + action + SpawnFailureText
    + (if verbose then "" else VerboseHint)
  }

  /**
    The result of a `docker build` or `docker push` run: a process that
    cannot be spawned, or that exits unsuccessfully, is an error; in quiet
    mode the captured error output is attached.
   */
  function CommandResult(action: string, verbose: bool, outcome: ProcessOutcome): (r: Result<()>)
    ensures r.Ok? <==> outcome.Exited? && outcome.success
    ensures r.Err? ==> r.error.description == "failed to " + action + " Docker image"
    ensures r.Err? ==> r.error.output == if !verbose && outcome.Exited? then Some(outcome.stderr) else None
  {
    var description := "failed to " + action + " Docker image";
    match outcome
    case SpawnFailed(message) =>
      ResultWithFullContext(Err(FromSource(Foreign(message))), description, SpawnExplanation(action, verbose))
    case Exited(success, stderr) =>
      if success then Ok(())
      else if verbose then
        Err(WithExplanation(New(description),
          "The " + action + LogsAboveText))
      else
        Err(WithOutput(WithExplanation(New(description),
          "The " + action + LogsBelowText), stderr))
  }

  /**
    `pull_docker_image`: whether the image already exists. An unsuccessful
    exit is the answer "no"; only a process that cannot be spawned is an error.
   */
  function PullProbe(verbose: bool, outcome: ProcessOutcome): (r: Result<bool>)
    ensures r.Err? <==> outcome.SpawnFailed?
    ensures outcome.Exited? ==> r == Ok(outcome.success)
    ensures r.Err? ==> r.error.description == "failed to pull Docker image" && r.error.output == None
  {
    match outcome
    case SpawnFailed(message) =>
      ResultWithFullContext(Err(FromSource(Foreign(message))), "failed to pull Docker image", SpawnExplanation("pull", verbose))
    case Exited(success, _) => Ok(success)
  }

  // ----- The steps of a build -----

  /** `clean`: a missing Docker root is not an error. */
  function CleanResult(removal: IoOutcome): (r: Result<()>)
    ensures r.Ok? <==> removal.IoOk? || removal.kind == NotFound
    ensures r.Err? ==> r.error == Error(CleanFailure, None, Some(Foreign(removal.message)), None)
  {
    match removal
    case IoOk => Ok(())
    case IoFailed(NotFound, _) => Ok(())
    case IoFailed(_, message) => Err(WithSource(New(CleanFailure), Foreign(message)))
  }

  function CleanStep(t: DockerDistTarget, env: Environment): StepRun<()>
  {
    StepRun([RemoveDirAll(DockerRoot(t))], CleanResult(env.fs.removeDirAll(DockerRoot(t))))
  }

  /** `build_binaries`: one package, the mode's profile, and a target triple only when cross-compiling. */
  function CompileStep(t: DockerDistTarget, opts: RunOptions, env: Environment): StepRun<seq<Binary>>
  {
    match env.host.workspace
    case Err(e) => StepRun([], Err(e))
    case Ok(_) =>
      match env.host.isCurrentTargetRuntime(t.metadata.targetRuntime)
      case Err(e) => StepRun([], Err(e))
      case Ok(current) =>
        var request := CompileRequest(t.packageName, ModeName(opts.mode),
                                      if current then None else Some(t.metadata.targetRuntime));
        match env.compiler(request)
        case Compiled(binaries) => StepRun([Compile(request)], Ok(binaries))
        case CompileFailed(message) =>
          StepRun([Compile(request)], Err(WithSource(New(CompileFailure), Foreign(message))))
  }

  /** `write_dockerfile`: render the template, create the Docker root, write the Dockerfile. */
  function WriteDockerfileStep(t: DockerDistTarget, context: TemplateContext, env: Environment): StepRun<Path>
  {
    match t.metadata.template(context)
    case RenderFailed(message) =>
      StepRun([], ResultWithFullContext(Err(FromSource(Foreign(message))),
        RenderFailure,
        RenderFailureExplanation))
    case Rendered(dockerfile) =>
      var root := DockerRoot(t);
      match env.fs.createDirAll(root)
      case IoFailed(_, message) =>
        StepRun([CreateDirAll(root)], ResultWithFullContext(Err(FromSource(Foreign(message))),
          DockerfileDirFailure,
          CreateDirExplanation(root)))
      case IoOk =>
        var effects := [CreateDirAll(root), WriteFile(DockerfilePath(t), dockerfile)];
        match env.fs.write(DockerfilePath(t), dockerfile)
        case IoFailed(_, message) =>
          StepRun(effects, ResultWithContext(Err(FromSource(Foreign(message))), WriteFailure))
        case IoOk => StepRun(effects, Ok(DockerfilePath(t)))
  }

  function CopyBinaryError(t: DockerDistTarget, b: Binary, message: string): Error
    requires FileName(b.path).Some?
  {
    ResultWithFullContext(Result<()>.Err(FromSource(Foreign(message))),
      "failed to copy binary",
      "The binary `" + FileName(b.path).value + CopyFailureTail).error
  }

  /** The copy loop of `copy_binaries`: one copy per binary, stopping at the first failure. */
  function CopyEach(t: DockerDistTarget, bs: seq<Binary>, copy: (Path, Path) -> IoOutcome): StepRun<()>
    requires forall i :: 0 <= i < |bs| ==> FileName(bs[i].path).Some?
  {
    if bs == [] then StepRun([], Ok(()))
    else
      var b := bs[0];
      var effect := CopyFile(b.path, StagedPath(t, b));
      match copy(b.path, StagedPath(t, b))
      case IoFailed(_, message) => StepRun([effect], Err(CopyBinaryError(t, b, message)))
      case IoOk =>
        var rest := CopyEach(t, bs[1..], copy);
        StepRun([effect] + rest.effects, rest.result)
  }

  /**
    The copy loop copies the binaries in order, each to its staged path;
    every copy before the last one succeeded; it succeeds exactly when all
    copies do, and otherwise fails with the error of the last copy it tried.
   */
  lemma CopyEachOutcome(t: DockerDistTarget, bs: seq<Binary>, copy: (Path, Path) -> IoOutcome)
    requires forall i :: 0 <= i < |bs| ==> FileName(bs[i].path).Some?
    ensures var run := CopyEach(t, bs, copy);
      && |run.effects| <= |bs|
      && (forall i :: 0 <= i < |run.effects| ==> run.effects[i] == CopyFile(bs[i].path, StagedPath(t, bs[i])))
      && (forall i :: 0 <= i < |run.effects| - 1 ==> copy(bs[i].path, StagedPath(t, bs[i])).IoOk?)
      && (run.result.Ok? <==> |run.effects| == |bs| && forall i :: 0 <= i < |bs| ==> copy(bs[i].path, StagedPath(t, bs[i])).IoOk?)
      && (run.result.Err? ==>
            |run.effects| > 0 &&
            var i := |run.effects| - 1;
            copy(bs[i].path, StagedPath(t, bs[i])).IoFailed? &&
            run.result.error == CopyBinaryError(t, bs[i], copy(bs[i].path, StagedPath(t, bs[i])).message))
  {
    CopyEachEffects(t, bs, copy);
    CopyEachResult(t, bs, copy);
  }

  /** The copies the loop makes: in order, each to its staged path, all but the last successful. */
  lemma {:induction false} CopyEachEffects(t: DockerDistTarget, bs: seq<Binary>, copy: (Path, Path) -> IoOutcome)
    requires forall i :: 0 <= i < |bs| ==> FileName(bs[i].path).Some?
    ensures var run := CopyEach(t, bs, copy);
      && |run.effects| <= |bs|
      && (forall i :: 0 <= i < |run.effects| ==> run.effects[i] == CopyFile(bs[i].path, StagedPath(t, bs[i])))
      && (forall i :: 0 <= i < |run.effects| - 1 ==> copy(bs[i].path, StagedPath(t, bs[i])).IoOk?)
  {
    if bs != [] && copy(bs[0].path, StagedPath(t, bs[0])).IoOk? {
      CopyEachEffects(t, bs[1..], copy);
      assert forall i :: 1 <= i < |bs| ==> bs[1..][i - 1] == bs[i];
    }
  }

  /** How the copy loop ends: success when every copy succeeds, else the error of the last copy tried. */
  lemma {:induction false} CopyEachResult(t: DockerDistTarget, bs: seq<Binary>, copy: (Path, Path) -> IoOutcome)
    requires forall i :: 0 <= i < |bs| ==> FileName(bs[i].path).Some?
    ensures var run := CopyEach(t, bs, copy);
      && |run.effects| <= |bs|
      && (run.result.Ok? <==> |run.effects| == |bs| && forall i :: 0 <= i < |bs| ==> copy(bs[i].path, StagedPath(t, bs[i])).IoOk?)
      && (run.result.Err? ==>
            |run.effects| > 0 &&
            var i := |run.effects| - 1;
            copy(bs[i].path, StagedPath(t, bs[i])).IoFailed? &&
            run.result.error == CopyBinaryError(t, bs[i], copy(bs[i].path, StagedPath(t, bs[i])).message))
  {
    if bs != [] && copy(bs[0].path, StagedPath(t, bs[0])).IoOk? {
      CopyEachResult(t, bs[1..], copy);
      assert forall i :: 1 <= i < |bs| ==> bs[1..][i - 1] == bs[i];
    }
  }

  /** `copy_binaries`: create the binary directory, then copy each binary into it. */
  function CopyBinariesStep(t: DockerDistTarget, bs: seq<Binary>, env: Environment): StepRun<()>
    requires forall i :: 0 <= i < |bs| ==> FileName(bs[i].path).Some?
  {
    var dir := DockerTargetBinDir(t);
    match env.fs.createDirAll(dir)
    case IoFailed(_, message) =>
      StepRun([CreateDirAll(dir)], ResultWithFullContext(Err(FromSource(Foreign(message))),
        BinDirFailure,
        CreateDirExplanation(dir)))
    case IoOk =>
      var copies := CopyEach(t, bs, env.fs.copy);
      StepRun([CreateDirAll(dir)] + copies.effects, copies.result)
  }

  /** `copy_extra_files`: copy each extra file, stopping at the first error, which is passed on as it is. */
  function CopyExtraFilesStep(files: seq<ExtraFile>, copyFile: ExtraFile -> Result<()>): StepRun<()>
  {
    if files == [] then StepRun([], Ok(()))
    else
      match copyFile(files[0])
      case Err(e) => StepRun([CopyExtra(files[0])], Err(e))
      case Ok(_) =>
        var rest := CopyExtraFilesStep(files[1..], copyFile);
        StepRun([CopyExtra(files[0])] + rest.effects, rest.result)
  }

  /**
    The extra files are copied in order; the step succeeds exactly when
    every copy does, and otherwise fails with the error of the last copy it tried.
   */
  lemma {:induction false} CopyExtraFilesOutcome(files: seq<ExtraFile>, copyFile: ExtraFile -> Result<()>)
    ensures var run := CopyExtraFilesStep(files, copyFile);
      && |run.effects| <= |files|
      && (forall i :: 0 <= i < |run.effects| ==> run.effects[i] == CopyExtra(files[i]))
      && (forall i :: 0 <= i < |run.effects| - 1 ==> copyFile(files[i]).Ok?)
      && (run.result.Ok? <==> |run.effects| == |files| && forall i :: 0 <= i < |files| ==> copyFile(files[i]).Ok?)
      && (run.result.Err? ==> |run.effects| > 0 && copyFile(files[|run.effects| - 1]) == run.result)
  {
    if files != [] && copyFile(files[0]).Ok? {
      CopyExtraFilesOutcome(files[1..], copyFile);
      assert forall i :: 1 <= i < |files| ==> files[1..][i - 1] == files[i];
    }
  }

  /** `build_dockerfile`: `docker build -t <image> .` run in the Dockerfile's directory. */
  function DockerBuildStep(t: DockerDistTarget, opts: RunOptions, env: Environment, dockerfile: Path): StepRun<()>
  {
    match DockerImageName(t, env.host)
    case Err(e) => StepRun([], Err(e))
    case Ok(image) =>
      match Parent(dockerfile)
      case None => StepRun([], Err(New(DockerRootUnknown)))
      case Some(root) =>
        var command := DockerBuild(root, image);
        StepRun([RunDocker(command)], CommandResult("build", opts.verbose, env.docker(command)))
  }

  /** The arguments and extra environment variables of each Docker command. */
  function Arguments(command: DockerCommand): seq<string>
  {
    match command
    case DockerBuild(_, image) => ["build", "-t", image, "."]
    case DockerPull(image) => ["pull", image]
    case DockerPush(image) => ["push", image]
  }

  function EnvironmentOverrides(command: DockerCommand): seq<(string, string)>
  {
    if command.DockerBuild? then [("DOCKER_SCAN_SUGGEST", "false")] else []
  }

  /** The compiler only reports binaries with distinct names and file names. */
  ghost predicate CompilerWellBehaved(env: Environment)
  {
    forall request :: env.compiler(request).Compiled? ==> WellFormedBinaries(env.compiler(request).binaries)
  }

  /** The calls a run made and how it ended. */
  type Run = (seq<Effect>, Outcome)

  /** A step whose error ends the run (`?`), followed by the rest of the run. */
  function Chain(step: StepRun<()>, next: Run): Run
  {
    if step.result.Err? then (step.effects, Failed(step.result.error)) else (step.effects + next.0, next.1)
  }

  /** The last step of a run. */
  function Final(step: StepRun<()>): Run
  {
    (step.effects, if step.result.Err? then Failed(step.result.error) else Done)
  }

  /** The whole of `build`, step by step, as a function of the world. */
  function BuildSpec(t: DockerDistTarget, opts: RunOptions, env: Environment): Run
    requires CompilerWellBehaved(env)
  {
    if env.host.isWindows then ([], Ignored("Unsupported", BuildOnWindows))
    else Chain(CleanStep(t, env), AfterClean(t, opts, env))
  }

  /** `build` from the compilation on. */
  function AfterClean(t: DockerDistTarget, opts: RunOptions, env: Environment): Run
    requires CompilerWellBehaved(env)
  {
    var compile := CompileStep(t, opts, env);
    match compile.result
    case Err(e) => (compile.effects, Failed(e))
    case Ok(bs) =>
      var staging := Staging(t, opts, env, bs);
      (compile.effects + staging.0, staging.1)
  }

  /** `build` from the Dockerfile on, once the binaries `bs` are compiled. */
  function Staging(t: DockerDistTarget, opts: RunOptions, env: Environment, bs: seq<Binary>): Run
    requires WellFormedBinaries(bs)
  {
    var write := WriteDockerfileStep(t, TemplateContextOf(t, bs), env);
    match write.result
    case Err(e) => (write.effects, Failed(e))
    case Ok(dockerfile) =>
      var rest := Chain(CopyBinariesStep(t, bs, env),
                    Chain(CopyExtraFilesStep(t.metadata.extraFiles, env.fs.copyExtraFile),
                      Final(DockerBuildStep(t, opts, env, dockerfile))));
      (write.effects + rest.0, rest.1)
  }

  // ----- Publishing -----

  /** The request `ensure_aws_ecr_repository_exists` sends. */
  function CreationRequest(t: DockerDistTarget, info: Ecr.EcrInformation): CreateRepositoryRequest
  {
    CreateRepositoryRequest(info.region, info.repositoryName,
      [Tag("CreatedBy", "cargo-monorepo"), Tag("PackageName", t.packageName)])
  }

  function CreationExplanation(info: Ecr.EcrInformation): string
  {
    "The creation of the AWS ECR repository `" + Ecr.Format(info)
    + CreationAdvice
  }

  /** An existing repository is as good as a created one; any other failure is an error. */
  function CreationResult(info: Ecr.EcrInformation, outcome: CreateOutcome): (r: Result<()>)
    ensures r.Ok? <==> outcome.Created? || (outcome.ServiceError? && outcome.repositoryAlreadyExists)
    ensures r.Err? ==>
              r.error == Error(CreationFailure, Some(CreationExplanation(info)), Some(Foreign(outcome.message)), None)
  {
    match outcome
    case Created => Ok(())
    case ServiceError(true, _) => Ok(())
    case _ =>
      ResultWithFullContext(Err(FromSource(Foreign(outcome.message))), CreationFailure, CreationExplanation(info))
  }

  /** The repository the image goes to when the registry is on AWS ECR. */
  function EcrTarget(t: DockerDistTarget, host: Host): Option<Ecr.EcrInformation>
  {
    match AwsEcrInformation(t, host)
    case Ok(info) => info
    case Err(_) => None
  }

  /** The step `push_docker_image` ignores when the image is already in the registry. */
  function UpToDate(image: string): Outcome
  {
    Ignored("Up-to-date", "Docker image `" + image + "` already exists")
  }

  /** Without `--force`, the image is pulled first to see whether it already exists. */
  predicate PullRequired(t: DockerDistTarget, opts: RunOptions, env: Environment)
  {
    DockerImageName(t, env.host).Ok? && !opts.force
  }

  function PullResult(t: DockerDistTarget, opts: RunOptions, env: Environment): Result<bool>
    requires DockerImageName(t, env.host).Ok?
  {
    PullProbe(opts.verbose, env.docker(DockerPull(DockerImageName(t, env.host).value)))
  }

  /** The push goes on past the existence check. */
  predicate Proceeds(t: DockerDistTarget, opts: RunOptions, env: Environment)
  {
    DockerImageName(t, env.host).Ok? && (opts.force || PullResult(t, opts, env) == Ok(false))
  }

  /** The ECR repository is created (or found) before pushing. */
  predicate ProvisionRequested(t: DockerDistTarget, opts: RunOptions, env: Environment)
  {
    Proceeds(t, opts, env) && EcrTarget(t, env.host).Some? && t.metadata.allowAwsEcrCreation && !opts.dryRun
  }

  function ProvisionResult(t: DockerDistTarget, env: Environment): Result<()>
    requires EcrTarget(t, env.host).Some?
  {
    var info := EcrTarget(t, env.host).value;
    CreationResult(info, env.ecr(CreationRequest(t, info)))
  }

  predicate PushAttempted(t: DockerDistTarget, opts: RunOptions, env: Environment)
  {
    && Proceeds(t, opts, env)
    && !opts.dryRun
    && (ProvisionRequested(t, opts, env) ==> ProvisionResult(t, env).Ok?)
  }

  /**
    The calls `push_docker_image` makes, in order: pull, repository
    creation, push, each only when reached.
   */
  ghost function PushCalls(t: DockerDistTarget, opts: RunOptions, env: Environment): seq<Effect>
  {
    var image := DockerImageName(t, env.host);
    (if PullRequired(t, opts, env) then [RunDocker(DockerPull(image.value))] else [])
    + (if ProvisionRequested(t, opts, env) then [CreateRepository(CreationRequest(t, EcrTarget(t, env.host).value))] else [])
    + (if PushAttempted(t, opts, env) then [RunDocker(DockerPush(image.value))] else [])
  }

  /** How `push_docker_image` ends, by the first step that decides it. */
  ghost predicate PushEnds(t: DockerDistTarget, opts: RunOptions, env: Environment, outcome: Outcome)
  {
    var image := DockerImageName(t, env.host);
    && (image.Err? ==> outcome == Failed(image.error))
    && (PullRequired(t, opts, env) && PullResult(t, opts, env).Err? ==> outcome == Failed(PullResult(t, opts, env).error))
    && (PullRequired(t, opts, env) && PullResult(t, opts, env) == Ok(true) ==>
          outcome == UpToDate(image.value))
    && (ProvisionRequested(t, opts, env) && ProvisionResult(t, env).Err? ==> outcome == Failed(ProvisionResult(t, env).error))
    && (Proceeds(t, opts, env) && opts.dryRun ==> outcome == DryRunStopped)
    && (PushAttempted(t, opts, env) ==>
          var pushed := CommandResult("push", opts.verbose, env.docker(DockerPush(image.value)));
          outcome == if pushed.Ok? then Done else Failed(pushed.error))
  }

  /** What `push_docker_image` does: the calls it makes and how it ends. */
  ghost predicate PushBehaviour(t: DockerDistTarget, opts: RunOptions, env: Environment, trace: seq<Effect>, outcome: Outcome)
  {
    trace == PushCalls(t, opts, env) && PushEnds(t, opts, env, outcome)
  }

  /** `push_docker_image`, step by step, as a function of the world. */
  function PushSpec(t: DockerDistTarget, opts: RunOptions, env: Environment): Run
  {
    match DockerImageName(t, env.host)
    case Err(e) => ([], Failed(e))
    case Ok(image) =>
      var pull := if opts.force then [] else [RunDocker(DockerPull(image))];
      var probe := if opts.force then Ok(false) else PullProbe(opts.verbose, env.docker(DockerPull(image)));
      match probe
      case Err(e) => (pull, Failed(e))
      case Ok(exists_) =>
        if exists_ then (pull, UpToDate(image))
        else
          match AwsEcrInformation(t, env.host)
          case Err(e) => (pull, Failed(e))
          case Ok(info) =>
            var rest := ProvisionAndPush(t, opts, env, image, info);
            (pull + rest.0, rest.1)
  }

  /** `push_docker_image` once the image is known not to be there: ensure the repository, then push. */
  function ProvisionAndPush(t: DockerDistTarget, opts: RunOptions, env: Environment, image: string, info: Option<Ecr.EcrInformation>): Run
  {
    var provision := info.Some? && t.metadata.allowAwsEcrCreation && !opts.dryRun;
    var create := if provision then [CreateRepository(CreationRequest(t, info.value))] else [];
    var created := if provision then CreationResult(info.value, env.ecr(CreationRequest(t, info.value))) else Ok(());
    if created.Err? then (create, Failed(created.error))
    else if opts.dryRun then (create, DryRunStopped)
    else
      var pushed := CommandResult("push", opts.verbose, env.docker(DockerPush(image)));
      (create + [RunDocker(DockerPush(image))], if pushed.Ok? then Done else Failed(pushed.error))
  }

  /** `push_docker_image`. */
  method PushDockerImage(t: DockerDistTarget, opts: RunOptions, env: Environment) returns (trace: seq<Effect>, outcome: Outcome)
    ensures (trace, outcome) == PushSpec(t, opts, env)
  {
    var image: string;
    match DockerImageName(t, env.host) {
      case Err(e) =>
        return [], Failed(e);
      case Ok(name) =>
        image := name;
    }
    var pulled: seq<Effect> := [];
    if !opts.force {
      pulled := [RunDocker(DockerPull(image))];
      match PullProbe(opts.verbose, env.docker(DockerPull(image))) {
        case Err(e) =>
          return pulled, Failed(e);
        case Ok(exists_) =>
          if exists_ {
            return pulled, UpToDate(image);
          }
      }
    }
    var created: seq<Effect> := [];
    match AwsEcrInformation(t, env.host) {
      case Err(e) =>
        return pulled, Failed(e);
      case Ok(information) =>
        if information.Some? && t.metadata.allowAwsEcrCreation && !opts.dryRun {
          var request := CreationRequest(t, information.value);
          created := [CreateRepository(request)];
          match CreationResult(information.value, env.ecr(request)) {
            case Err(e) =>
              return pulled + created, Failed(e);
            case Ok(_) =>
          }
        }
    }
    if opts.dryRun {
      return pulled + created, DryRunStopped;
    }
    trace := pulled + (created + [RunDocker(DockerPush(image))]);
    match CommandResult("push", opts.verbose, env.docker(DockerPush(image))) {
      case Err(e) => outcome := Failed(e);
      case Ok(_) => outcome := Done;
    }
  }

  /** `publish`: refused on Windows, and in debug mode without `--force`. */
  method Publish(t: DockerDistTarget, opts: RunOptions, env: Environment) returns (trace: seq<Effect>, outcome: Outcome)
    ensures env.host.isWindows ==> trace == [] && outcome == Ignored("Unsupported", PublishOnWindows)
    ensures !env.host.isWindows && opts.mode == Debug && !opts.force ==>
              trace == [] && outcome == Ignored("Unsupported", PublishInDebug)
    ensures !env.host.isWindows && (opts.mode == Release || opts.force) ==> PushBehaviour(t, opts, env, trace, outcome)
  {
    if env.host.isWindows {
      return [], Ignored("Unsupported", PublishOnWindows);
    }
    if opts.mode == Debug && !opts.force {
      return [], Ignored("Unsupported", PublishInDebug);
    }
    trace, outcome := PushDockerImage(t, opts, env);
    PushSpecBehaves(t, opts, env);
  }

  /** The step-by-step push makes the calls, and ends, as `PushBehaviour` describes. */
  lemma PushSpecBehaves(t: DockerDistTarget, opts: RunOptions, env: Environment)
    ensures PushBehaviour(t, opts, env, PushSpec(t, opts, env).0, PushSpec(t, opts, env).1)
  {
    PushSpecCalls(t, opts, env);
    PushSpecEnds(t, opts, env);
  }

  lemma PushSpecCalls(t: DockerDistTarget, opts: RunOptions, env: Environment)
    ensures PushSpec(t, opts, env).0 == PushCalls(t, opts, env)
  {
  }

  lemma PushSpecEnds(t: DockerDistTarget, opts: RunOptions, env: Environment)
    ensures PushEnds(t, opts, env, PushSpec(t, opts, env).1)
  {
    if Proceeds(t, opts, env) {
      var image := DockerImageName(t, env.host).value;
      assert PushSpec(t, opts, env).1 == ProvisionAndPush(t, opts, env, image, EcrTarget(t, env.host)).1;
    }
  }

  // ----- Building -----

  /** One turn of the binary copy loop, seen from position `i`. */
  lemma CopyEachAt(t: DockerDistTarget, bs: seq<Binary>, i: nat, copy: (Path, Path) -> IoOutcome)
    requires i < |bs| && forall j :: 0 <= j < |bs| ==> FileName(bs[j].path).Some?
    ensures var effect := CopyFile(bs[i].path, StagedPath(t, bs[i]));
            var copied := copy(bs[i].path, StagedPath(t, bs[i]));
            CopyEach(t, bs[i..], copy) ==
              if copied.IoFailed? then StepRun([effect], Err(CopyBinaryError(t, bs[i], copied.message)))
              else StepRun([effect] + CopyEach(t, bs[i + 1..], copy).effects, CopyEach(t, bs[i + 1..], copy).result)
  {
    assert bs[i..][0] == bs[i] && bs[i..][1..] == bs[i + 1..];
  }

  /** The copy loop of `copy_binaries`, proved against `CopyBinariesStep`. */
  method CopyBinaries(t: DockerDistTarget, bs: seq<Binary>, env: Environment) returns (effects: seq<Effect>, result: Result<()>)
    requires forall i :: 0 <= i < |bs| ==> FileName(bs[i].path).Some?
    ensures StepRun(effects, result) == CopyBinariesStep(t, bs, env)
  {
    var dir := DockerTargetBinDir(t);
    var created := env.fs.createDirAll(dir);
    if created.IoFailed? {
      effects := [CreateDirAll(dir)];
      result := ResultWithFullContext(Err(FromSource(Foreign(created.message))), BinDirFailure, CreateDirExplanation(dir));
      return;
    }
    var copies: seq<Effect> := [];
    assert bs[0..] == bs;
    var i := 0;
    while i < |bs|
      invariant 0 <= i <= |bs|
      invariant CopyEach(t, bs, env.fs.copy) == StepRun(copies + CopyEach(t, bs[i..], env.fs.copy).effects, CopyEach(t, bs[i..], env.fs.copy).result)
    {
      CopyEachAt(t, bs, i, env.fs.copy);
      var source := bs[i];
      var target := StagedPath(t, source);
      var copied := env.fs.copy(source.path, target);
      copies := copies + [CopyFile(source.path, target)];
      if copied.IoFailed? {
        return [CreateDirAll(dir)] + copies, Err(CopyBinaryError(t, source, copied.message));
      }
      i := i + 1;
    }
    assert bs[i..] == [];
    return [CreateDirAll(dir)] + copies, Ok(());
  }

  /** One turn of the extra-file loop, seen from position `i`. */
  lemma CopyExtraFilesStepAt(files: seq<ExtraFile>, i: nat, copyFile: ExtraFile -> Result<()>)
    requires i < |files|
    ensures CopyExtraFilesStep(files[i..], copyFile) ==
              if copyFile(files[i]).Err? then StepRun([CopyExtra(files[i])], copyFile(files[i]))
              else StepRun([CopyExtra(files[i])] + CopyExtraFilesStep(files[i + 1..], copyFile).effects, CopyExtraFilesStep(files[i + 1..], copyFile).result)
  {
    assert files[i..][0] == files[i] && files[i..][1..] == files[i + 1..];
  }

  /** `copy_extra_files`, proved against `CopyExtraFilesStep`. */
  method CopyExtraFiles(files: seq<ExtraFile>, copyFile: ExtraFile -> Result<()>) returns (effects: seq<Effect>, result: Result<()>)
    ensures StepRun(effects, result) == CopyExtraFilesStep(files, copyFile)
  {
    effects := [];
    assert files[0..] == files;
    for i := 0 to |files|
      invariant CopyExtraFilesStep(files, copyFile) == StepRun(effects + CopyExtraFilesStep(files[i..], copyFile).effects, CopyExtraFilesStep(files[i..], copyFile).result)
    {
      CopyExtraFilesStepAt(files, i, copyFile);
      var copied := copyFile(files[i]);
      effects := effects + [CopyExtra(files[i])];
      if copied.Err? {
        result := copied;
        return;
      }
    }
    assert files[|files|..] == [];
    result := Ok(());
  }

  /** `build`, one step after the other, stopping at the first error. */
  method Build(t: DockerDistTarget, opts: RunOptions, env: Environment) returns (trace: seq<Effect>, outcome: Outcome)
    requires CompilerWellBehaved(env)
    ensures (trace, outcome) == BuildSpec(t, opts, env)
  {
    if env.host.isWindows {
      return [], Ignored("Unsupported", BuildOnWindows);
    }
    var clean := CleanStep(t, env);
    trace := clean.effects;
    if clean.result.Err? {
      return trace, Failed(clean.result.error);
    }
    var compile := CompileStep(t, opts, env);
    trace := trace + compile.effects;
    if compile.result.Err? {
      return trace, Failed(compile.result.error);
    }
    var binaries := compile.result.value;
    ghost var staged := Staging(t, opts, env, binaries);
    Concatenated(clean.effects, compile.effects, staged.0);
    var context := GenerateContext(t, binaries);
    var write := WriteDockerfileStep(t, context, env);
    trace := trace + write.effects;
    if write.result.Err? {
      return trace, Failed(write.result.error);
    }
    ghost var front := trace;
    ghost var copies := CopyBinariesStep(t, binaries, env);
    ghost var extra := CopyExtraFilesStep(t.metadata.extraFiles, env.fs.copyExtraFile);
    ghost var docker := DockerBuildStep(t, opts, env, write.result.value);
    assert BuildSpec(t, opts, env) == (front + Chain(copies, Chain(extra, Final(docker))).0, Chain(copies, Chain(extra, Final(docker))).1) by {
      Concatenated(clean.effects + compile.effects, write.effects, Chain(copies, Chain(extra, Final(docker))).0);
    }
    var copyEffects, copied := CopyBinaries(t, binaries, env);
    trace := trace + copyEffects;
    if copied.Err? {
      return trace, Failed(copied.error);
    }
    Concatenated(front, copyEffects, Chain(extra, Final(docker)).0);
    var extraEffects, extraCopied := CopyExtraFiles(t.metadata.extraFiles, env.fs.copyExtraFile);
    trace := trace + extraEffects;
    if extraCopied.Err? {
      return trace, Failed(extraCopied.error);
    }
    Concatenated(front + copyEffects, extraEffects, docker.effects);
    var built := DockerBuildStep(t, opts, env, write.result.value);
    trace := trace + built.effects;
    outcome := if built.result.Err? then Failed(built.result.error) else Done;
  }

  /** Concatenation of traces is associative. */
  lemma Concatenated(a: seq<Effect>, b: seq<Effect>, c: seq<Effect>)
    ensures (a + b) + c == a + (b + c)
  {
  }

  // ----- Properties -----

  /** The binary directory always lies under the Docker root, whatever `target_bin_dir` says. */
  lemma DockerTargetBinDirUnderRoot(t: DockerDistTarget)
    ensures DockerTargetBinDir(t) == DockerRoot(t) + StripRoot(t.metadata.targetBinDir)
    ensures |DockerTargetBinDir(t)| >= |DockerRoot(t)| && DockerTargetBinDir(t)[..|DockerRoot(t)|] == DockerRoot(t)
  {
  }

  /** `/usr/bin` and `usr/bin` stage the binaries in the same place. */
  lemma BinDirIgnoresLeadingRoot(t: DockerDistTarget, relative: Path)
    requires !IsAbsolute(relative)
    ensures DockerTargetBinDir(t.(metadata := t.metadata.(targetBinDir := [RootDir] + relative)))
         == DockerTargetBinDir(t.(metadata := t.metadata.(targetBinDir := relative)))
  {
    assert ([RootDir] + relative)[1..] == relative;
  }

  /**
    A binary is staged at the place, relative to the Docker build context,
    where the template says the image holds it: the build context is the
    Docker root, so an `ADD p p` line of the template finds the file.
   */
  lemma StagedWhereTheImageExpects(t: DockerDistTarget, b: Binary)
    requires FileName(b.path).Some?
    ensures StagedPath(t, b) == DockerRoot(t) + StripRoot(InImagePath(t, b))
  {
    var bin := t.metadata.targetBinDir;
    var file := Named(FileName(b.path).value);
    assert InImagePath(t, b) == bin + file;
    if IsAbsolute(bin) {
      assert (bin + file)[1..] == bin[1..] + file;
    }
  }

  /** The Dockerfile sits directly in the Docker root, so `docker build` always finds its directory. */
  lemma DockerfileParentIsDockerRoot(t: DockerDistTarget)
    ensures Parent(DockerfilePath(t)) == Some(DockerRoot(t))
  {
    var p := DockerfilePath(t);
    assert p == DockerRoot(t) + [Normal("Dockerfile")];
    assert p[..|p| - 1] == DockerRoot(t);
  }

  /** The image name is the ECR probe string with the version as tag. */
  lemma ImageNameExtendsProbe(t: DockerDistTarget, host: Host)
    ensures DockerImageName(t, host).Ok? <==> EcrProbe(t, host).Ok?
    ensures DockerImageName(t, host).Ok? ==>
              DockerImageName(t, host).value == EcrProbe(t, host).value + ":" + t.packageVersion
  {
  }

  /** A registry that is an ECR host makes the package name the repository. */
  lemma EcrRegistryIsRecognised(t: DockerDistTarget, host: Host, account: string, region: string)
    requires Registry(t, host) == Ok(account + ".dkr.ecr." + region + ".amazonaws.com")
    requires Ecr.Valid(Ecr.EcrInformation(account, region, t.packageName))
    ensures EcrTarget(t, host) == Some(Ecr.EcrInformation(account, region, t.packageName))
  {
    var info := Ecr.EcrInformation(account, region, t.packageName);
    assert ".amazonaws.com" + "/" == ".amazonaws.com/";
    assert EcrProbe(t, host).value == Ecr.Format(info);
    Ecr.ParseFormat(info);
  }

  /** A registry with a path on an ECR host puts the package below that path. */
  lemma EcrRegistryPathIsKept(t: DockerDistTarget, host: Host, registry: Ecr.EcrInformation)
    requires Registry(t, host) == Ok(Ecr.Format(registry))
    requires Ecr.Valid(registry.(repositoryName := registry.repositoryName + "/" + t.packageName))
    ensures EcrTarget(t, host) == Some(registry.(repositoryName := registry.repositoryName + "/" + t.packageName))
  {
    var info := registry.(repositoryName := registry.repositoryName + "/" + t.packageName);
    assert EcrProbe(t, host).value == Ecr.Format(info);
    Ecr.ParseFormat(info);
  }

  /** The calls a build makes when it ends in `Done`, step by step. */
  lemma BuildDoneShape(t: DockerDistTarget, opts: RunOptions, env: Environment)
    requires CompilerWellBehaved(env)
    requires BuildSpec(t, opts, env).1 == Done
    ensures !env.host.isWindows && CleanStep(t, env).result.Ok? && CompileStep(t, opts, env).result.Ok?
    ensures WellFormedBinaries(CompileStep(t, opts, env).result.value)
    ensures var staged := Staging(t, opts, env, CompileStep(t, opts, env).result.value);
      && staged.1 == Done
      && BuildSpec(t, opts, env).0 == CleanStep(t, env).effects + (CompileStep(t, opts, env).effects + staged.0)
  {
    assert BuildSpec(t, opts, env) == Chain(CleanStep(t, env), AfterClean(t, opts, env));
    ChainDone(CleanStep(t, env), AfterClean(t, opts, env));
    var compile := CompileStep(t, opts, env);
    assert compile.result.Ok?;
    CompiledWellFormed(t, opts, env);
    assert AfterClean(t, opts, env) == (compile.effects + Staging(t, opts, env, compile.result.value).0, Staging(t, opts, env, compile.result.value).1);
  }

  /** A run that ends in `Done` got past each of its steps. */
  lemma ChainDone(step: StepRun<()>, next: Run)
    requires Chain(step, next).1 == Done
    ensures step.result.Ok? && next.1 == Done && Chain(step, next).0 == step.effects + next.0
  {
  }

  /** A well-behaved compiler reports well-formed binaries. */
  lemma CompiledWellFormed(t: DockerDistTarget, opts: RunOptions, env: Environment)
    requires CompilerWellBehaved(env) && CompileStep(t, opts, env).result.Ok?
    ensures WellFormedBinaries(CompileStep(t, opts, env).result.value)
  {
  }

  /** The calls the staging of an image makes when it ends in `Done`, step by step. */
  lemma StagingDoneShape(t: DockerDistTarget, opts: RunOptions, env: Environment, bs: seq<Binary>)
    requires WellFormedBinaries(bs)
    requires Staging(t, opts, env, bs).1 == Done
    ensures DockerImageName(t, env.host).Ok?
    ensures var write := WriteDockerfileStep(t, TemplateContextOf(t, bs), env);
      var copies := CopyEach(t, bs, env.fs.copy);
      var extra := CopyExtraFilesStep(t.metadata.extraFiles, env.fs.copyExtraFile);
      var command := DockerBuild(DockerRoot(t), DockerImageName(t, env.host).value);
      && write.result == Ok(DockerfilePath(t))
      && copies.result.Ok? && extra.result.Ok?
      && env.docker(command).Exited? && env.docker(command).success
      && Staging(t, opts, env, bs).0 ==
           (write.effects + [CreateDirAll(DockerTargetBinDir(t))]) + (copies.effects + (extra.effects + [RunDocker(command)]))
  {
    var write := WriteDockerfileStep(t, TemplateContextOf(t, bs), env);
    WrittenDockerfile(t, TemplateContextOf(t, bs), env);
    var copy := CopyBinariesStep(t, bs, env);
    var extra := CopyExtraFilesStep(t.metadata.extraFiles, env.fs.copyExtraFile);
    var docker := DockerBuildStep(t, opts, env, DockerfilePath(t));
    assert Staging(t, opts, env, bs) == (write.effects + (copy.effects + (extra.effects + docker.effects)), Done);
    CopiedBinaries(t, bs, env);
    DockerfileParentIsDockerRoot(t);
    BuiltImage(t, opts, env, DockerfilePath(t));
    var dir := [CreateDirAll(DockerTargetBinDir(t))];
    Concatenated(dir, CopyEach(t, bs, env.fs.copy).effects, extra.effects + docker.effects);
    Concatenated(write.effects, dir, CopyEach(t, bs, env.fs.copy).effects + (extra.effects + docker.effects));
  }

  /** A Dockerfile that was written is the one in the Docker root. */
  lemma WrittenDockerfile(t: DockerDistTarget, context: TemplateContext, env: Environment)
    ensures WriteDockerfileStep(t, context, env).result.Ok? ==> WriteDockerfileStep(t, context, env).result == Ok(DockerfilePath(t))
  {
  }

  /** Copying the binaries succeeds after creating the binary directory, when every copy does. */
  lemma CopiedBinaries(t: DockerDistTarget, bs: seq<Binary>, env: Environment)
    requires forall i :: 0 <= i < |bs| ==> FileName(bs[i].path).Some?
    ensures var copy := CopyBinariesStep(t, bs, env);
      copy.result.Ok? ==>
        && env.fs.createDirAll(DockerTargetBinDir(t)).IoOk?
        && CopyEach(t, bs, env.fs.copy).result.Ok?
        && copy.effects == [CreateDirAll(DockerTargetBinDir(t))] + CopyEach(t, bs, env.fs.copy).effects
  {
  }

  /** A successful `docker build` step ran once, in the Dockerfile's directory, on the image name. */
  lemma BuiltImage(t: DockerDistTarget, opts: RunOptions, env: Environment, dockerfile: Path)
    ensures var docker := DockerBuildStep(t, opts, env, dockerfile);
      docker.result.Ok? ==>
        && DockerImageName(t, env.host).Ok? && Parent(dockerfile).Some?
        && var command := DockerBuild(Parent(dockerfile).value, DockerImageName(t, env.host).value);
        && docker.effects == [RunDocker(command)]
        && env.docker(command).Exited? && env.docker(command).success
  {
  }

  /** What a trace of a completed build holds, stated over its parts. */
  lemma CompletedTraceHolds(t: DockerDistTarget, bs: seq<Binary>, files: seq<ExtraFile>, fs: FileSystem,
                            front: seq<Effect>, last: Effect, effects: seq<Effect>)
    requires forall i :: 0 <= i < |bs| ==> FileName(bs[i].path).Some?
    requires CopyEach(t, bs, fs.copy).result.Ok? && CopyExtraFilesStep(files, fs.copyExtraFile).result.Ok?
    requires effects == front + (CopyEach(t, bs, fs.copy).effects + (CopyExtraFilesStep(files, fs.copyExtraFile).effects + [last]))
    ensures |front| > 0 ==> effects[0] == front[0]
    ensures forall i :: 0 <= i < |bs| ==> CopyFile(bs[i].path, StagedPath(t, bs[i])) in effects
    ensures forall f :: f in files ==> CopyExtra(f) in effects
    ensures effects[|effects| - 1] == last
  {
    var copies := CopyEach(t, bs, fs.copy).effects;
    var extra := CopyExtraFilesStep(files, fs.copyExtraFile).effects;
    CopyEachOutcome(t, bs, fs.copy);
    CopyExtraFilesOutcome(files, fs.copyExtraFile);
    forall i | 0 <= i < |bs|
      ensures CopyFile(bs[i].path, StagedPath(t, bs[i])) in effects
    {
      assert effects[|front| + i] == copies[i];
    }
    forall f | f in files
      ensures CopyExtra(f) in effects
    {
      var i :| 0 <= i < |files| && files[i] == f;
      assert effects[|front| + |copies| + i] == extra[i];
    }
  }

  /**
    A build that ends in `Done` ran every step: it began by cleaning the
    Docker root, each compiled binary was copied to its staged path, each
    extra file was copied, and the last call was a successful
    `docker build` run in the Docker root.
   */
  lemma BuildDoneRanEveryStep(t: DockerDistTarget, opts: RunOptions, env: Environment)
    requires CompilerWellBehaved(env)
    requires BuildSpec(t, opts, env).1 == Done
    ensures var effects := BuildSpec(t, opts, env).0;
      && |effects| > 0 && effects[0] == RemoveDirAll(DockerRoot(t))
      && CompileStep(t, opts, env).result.Ok?
      && (var bs := CompileStep(t, opts, env).result.value;
          forall i :: 0 <= i < |bs| ==> CopyFile(bs[i].path, StagedPath(t, bs[i])) in effects)
      && (forall f :: f in t.metadata.extraFiles ==> CopyExtra(f) in effects)
      && DockerImageName(t, env.host).Ok?
      && effects[|effects| - 1] == RunDocker(DockerBuild(DockerRoot(t), DockerImageName(t, env.host).value))
  {
    BuildDoneShape(t, opts, env);
    var bs := CompileStep(t, opts, env).result.value;
    StagingDoneShape(t, opts, env, bs);
    var clean := CleanStep(t, env).effects;
    var compile := CompileStep(t, opts, env).effects;
    var head := WriteDockerfileStep(t, TemplateContextOf(t, bs), env).effects + [CreateDirAll(DockerTargetBinDir(t))];
    var last := RunDocker(DockerBuild(DockerRoot(t), DockerImageName(t, env.host).value));
    var rest := CopyEach(t, bs, env.fs.copy).effects + (CopyExtraFilesStep(t.metadata.extraFiles, env.fs.copyExtraFile).effects + [last]);
    Concatenated(compile, head, rest);
    Concatenated(clean, compile + head, rest);
    CompletedTraceHolds(t, bs, t.metadata.extraFiles, env.fs, clean + (compile + head), last, BuildSpec(t, opts, env).0);
  }

  /** A failed clean stops the build with the clean error; a missing Docker root is no failure. */
  lemma BuildStopsWhenCleanFails(t: DockerDistTarget, opts: RunOptions, env: Environment)
    requires CompilerWellBehaved(env)
    ensures var removal := env.fs.removeDirAll(DockerRoot(t));
      !env.host.isWindows && removal.IoFailed? && removal.kind == OtherKind ==>
        BuildSpec(t, opts, env) == ([RemoveDirAll(DockerRoot(t))], Failed(Error(CleanFailure, None, Some(Foreign(removal.message)), None)))
  {
  }

  /** A Docker root that is not there is no failure: the build goes on to compile. */
  lemma BuildToleratesMissingRoot(t: DockerDistTarget, opts: RunOptions, env: Environment, message: string)
    requires CompilerWellBehaved(env) && !env.host.isWindows
    requires env.fs.removeDirAll(DockerRoot(t)) == IoFailed(NotFound, message)
    ensures BuildSpec(t, opts, env) == ([RemoveDirAll(DockerRoot(t))] + AfterClean(t, opts, env).0, AfterClean(t, opts, env).1)
  {
  }

  /** Building ignores `--force` and `--dry-run`: a dry run still builds the image. */
  lemma BuildIgnoresPublishOptions(t: DockerDistTarget, opts: RunOptions, env: Environment, force: bool, dryRun: bool)
    requires CompilerWellBehaved(env)
    ensures BuildSpec(t, opts, env) == BuildSpec(t, opts.(force := force, dryRun := dryRun), env)
  {
    var opts' := opts.(force := force, dryRun := dryRun);
    assert CompileStep(t, opts, env) == CompileStep(t, opts', env);
  }

  /** A dry run never creates a repository, never pushes and never ends in `Done`. */
  lemma DryRunPublishesNothing(t: DockerDistTarget, opts: RunOptions, env: Environment)
    requires opts.dryRun
    ensures forall e :: e in PushSpec(t, opts, env).0 ==> e.RunDocker? && e.command.DockerPull?
    ensures PushSpec(t, opts, env).1 != Done
  {
  }

  /** With `--force` the existence check is skipped: nothing is pulled. */
  lemma ForceSkipsPull(t: DockerDistTarget, opts: RunOptions, env: Environment)
    requires opts.force
    ensures forall e :: e in PushSpec(t, opts, env).0 ==> !(e.RunDocker? && e.command.DockerPull?)
  {
  }

  /** An image the pull finds is not pushed again. */
  lemma ExistingImageIsNotPushed(t: DockerDistTarget, opts: RunOptions, env: Environment)
    requires !opts.force && DockerImageName(t, env.host).Ok?
    requires PullResult(t, opts, env) == Ok(true)
    ensures PushSpec(t, opts, env) == ([RunDocker(DockerPull(DockerImageName(t, env.host).value))], UpToDate(DockerImageName(t, env.host).value))
  {
  }

  /** A registry that is not on ECR never leads to a repository creation. */
  lemma NoEcrNoCreation(t: DockerDistTarget, opts: RunOptions, env: Environment)
    requires EcrTarget(t, env.host).None?
    ensures forall e :: e in PushSpec(t, opts, env).0 ==> !e.CreateRepository?
  {
  }

  /**
    A publish that ends in `Done` pushed last, and the push succeeded; when
    the target allows it and the registry is on ECR, the repository was
    ensured right before.
   */
  lemma PushDoneMeansPushed(t: DockerDistTarget, opts: RunOptions, env: Environment)
    requires PushSpec(t, opts, env).1 == Done
    ensures DockerImageName(t, env.host).Ok? && !opts.dryRun
    ensures var trace := PushSpec(t, opts, env).0;
            var push := DockerPush(DockerImageName(t, env.host).value);
            |trace| > 0 && trace[|trace| - 1] == RunDocker(push) && env.docker(push).Exited? && env.docker(push).success
    ensures var trace := PushSpec(t, opts, env).0;
            EcrTarget(t, env.host).Some? && t.metadata.allowAwsEcrCreation ==>
              |trace| >= 2 && trace[|trace| - 2] == CreateRepository(CreationRequest(t, EcrTarget(t, env.host).value))
  {
  }
}
