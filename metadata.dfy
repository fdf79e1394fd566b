/**
  Turning a package's Docker metadata into a `DockerPackage`
  (src/docker/metadata.rs): the package's binary targets are collected,
  a package without any is refused, and the Docker directory is derived
  from the target directory.
 */
module Metadata {
  import opened Maybe
  import opened Errors
  import opened Paths
  import DistTarget

  datatype EnvironmentVariable = EnvironmentVariable(name: string, value: string)

  datatype CopyCommand = CopyCommand(source: string, destination: string)

  /** The Docker section of a package's manifest. */
  datatype DockerMetadata = DockerMetadata(
    depsHash: Option<string>,
    base: string,
    copyDestDir: string,
    env: Option<seq<EnvironmentVariable>>,
    run: Option<seq<string>>,
    expose: Option<seq<int>>,
    workdir: Option<string>,
    extraCopies: Option<seq<CopyCommand>>,
    extraCommands: Option<seq<string>>)

  /** A build target of a package and its kinds (`bin`, `lib`, ...). */
  datatype Target = Target(name: string, kind: seq<string>)

  /** The fields of `cargo_metadata::Package` that are read; `id` is the package id as displayed. */
  datatype Package = Package(id: string, name: string, version: string, manifestPath: string, targets: seq<Target>)

  datatype TargetDir = TargetDir(binaryDir: Path, dockerDir: Path)

  /** The package ready for the Docker pipeline; `D` is the dependency list, passed through. */
  datatype DockerPackage<D> = DockerPackage(
    name: string,
    version: string,
    tomlPath: string,
    binaries: seq<string>,
    metadata: DockerMetadata,
    dependencies: D,
    targetDir: TargetDir,
    package: Package)

  const NoBinaries := "package contain no binaries"
  const NoBinariesHead := "Building a Docker image requires at least one binary but the package "
  const NoBinariesTail := " does not contain any."

  predicate IsBinary(t: Target)
  {
    "bin" in t.kind
  }

  /** The names of the binary targets, in target order. */
  function BinaryNames(targets: seq<Target>): (names: seq<string>)
    ensures |names| <= |targets|
    ensures names == [] <==> forall i :: 0 <= i < |targets| ==> !IsBinary(targets[i])
    ensures forall n :: n in names <==> exists i :: 0 <= i < |targets| && IsBinary(targets[i]) && targets[i].name == n
  {
    if targets == [] then []
    else
      var rest := BinaryNames(targets[1..]);
      assert forall i :: 1 <= i < |targets| ==> targets[1..][i - 1] == targets[i];
      if IsBinary(targets[0]) then [targets[0].name] + rest else rest
  }

  /** Filtering keeps the order: it distributes over concatenation. */
  lemma {:induction false} BinaryNamesAppend(a: seq<Target>, b: seq<Target>)
    ensures BinaryNames(a + b) == BinaryNames(a) + BinaryNames(b)
  {
    if a == [] {
      assert a + b == b;
    } else {
      assert (a + b)[0] == a[0] && (a + b)[1..] == a[1..] + b;
      BinaryNamesAppend(a[1..], b);
    }
  }

  /** `target_dir/docker/<package name>`. */
  function DockerDir(targetDir: Path, packageName: string): Path
  {
    Join(Join(targetDir, Named("docker")), Named(packageName))
  }

  /** `DockerMetadata::into_dist_target`. */
  function IntoDistTarget<D>(metadata: DockerMetadata, targetDir: Path, package: Package, dependencies: D): (r: Result<DockerPackage<D>>)
    ensures r.Err? <==> forall i :: 0 <= i < |package.targets| ==> !IsBinary(package.targets[i])
    ensures r.Err? ==> r.error == Error(NoBinaries, Some(NoBinariesHead + package.id + NoBinariesTail), None, None)
    ensures r.Ok? ==> && r.value.name == package.name && r.value.version == package.version
                      && r.value.tomlPath == package.manifestPath && r.value.package == package
                      && r.value.metadata == metadata && r.value.dependencies == dependencies
    ensures r.Ok? ==> r.value.binaries == BinaryNames(package.targets)
    ensures r.Ok? ==> r.value.binaries != [] &&
                      forall n :: n in r.value.binaries <==>
                        exists i :: 0 <= i < |package.targets| && IsBinary(package.targets[i]) && package.targets[i].name == n
    ensures r.Ok? ==> r.value.targetDir == TargetDir(targetDir, targetDir + [Normal("docker"), Normal(package.name)])
  {
    var binaries := BinaryNames(package.targets);
    if binaries == [] then
      Err(WithExplanation(New(NoBinaries), NoBinariesHead + package.id + NoBinariesTail))
    else
      Ok(DockerPackage(
        package.name,
        package.version,
        package.manifestPath,
        binaries,
        metadata,
        dependencies,
        TargetDir(targetDir, DockerDir(targetDir, package.name)),
        package))
  }

  /** The Docker directory of the package is the Docker root its distribution target stages in. */
  lemma DockerDirIsDockerRoot(targetDir: Path, packageName: string, t: DistTarget.DockerDistTarget)
    requires t.targetDir == targetDir && t.packageName == packageName
    ensures DockerDir(targetDir, packageName) == DistTarget.DockerRoot(t)
  {
  }
}
