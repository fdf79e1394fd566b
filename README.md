# Docker distribution pipeline of cargo-monorepo, modelled in Dafny

This project models the part of `cargo-monorepo` that packages a Rust
workspace member as a Docker image and publishes it:

- the crate's error record and its builders (`src/errors.rs`);
- the AWS ECR registry notation: its parser, an anchored regular expression, and its printer;
- the naming of the registry, image and Docker directories;
- the `build` and `publish` sequences of `DockerDistTarget`. These are written as imperative methods over an abstract world. Every file-system call, compiler run, `docker` process and AWS call is a function-valued field of an `Environment`, and the methods return the ordered trace of the calls they made together with the outcome;
- the `Sources` map of a package: a sorted path-to-bytes map, kept as a class whose `remove` works in place;
- the conversion of a package's Docker metadata into a `DockerPackage` (`src/docker/metadata.rs`).

Modules:

- `Maybe`: `Option`.
- `Errors`: the error record, `with_context`, and `Display`.
- `Paths`: `PathBuf` as a sequence of components, with the component-wise order that `BTreeMap<PathBuf, _>` uses.
- `Ecr`: `AwsEcrInformation`.
- `DistTarget`: the build and publish logic.
- `Sources`: the sources map.
- `Metadata`: `into_dist_target`.

Each module is one file.

## Model

| member | source | states |
|---|---|---|
| Errors.New | src/errors.rs:17-24 | the description is the argument; explanation, source and output are all absent |
| Errors.FromSource | src/errors.rs:26-28 | empty description, the given source, nothing else |
| Errors.WithSource | src/errors.rs:30-34 | sets the source and leaves the other three fields unchanged |
| Errors.WithExplanation | src/errors.rs:36-40 | sets the explanation and leaves the other three fields unchanged |
| Errors.WithOutput | src/errors.rs:42-46 | sets the output and leaves the other three fields unchanged |
| Errors.BuildersOverwrite | src/errors.rs:30-46 | setting a field twice keeps only the second value |
| Errors.BuildersCommute | src/errors.rs:30-46 | the three setters touch disjoint fields, so their order does not matter |
| Errors.WithContext | src/errors.rs:64-72 | an empty description is filled in place; otherwise the old error becomes the `Nested` source of a fresh error with no explanation or output |
| Errors.ResultWithContext | src/errors.rs:85-87 | `Ok` is unchanged; `Err(e)` becomes `Err(with_context(e))` |
| Errors.ResultWithFullContext | src/errors.rs:89-95 | `Ok` is unchanged; on `Err` the result has the new description and explanation, and the old error is nested only when its description was non-empty |
| Errors.Display | src/errors.rs:98-112 | the description, then `": "` and the source when there is one, then a blank line and the explanation when there is one; the output is never printed |
| Errors.SourceDisplay | src/errors.rs:98-112 | a foreign source prints its own message; a nested crate error prints as its `Display` |
| Errors.DisplayNew | src/errors.rs:98-112 | a fresh error prints as its description |
| Errors.DisplayIgnoresOutput | src/errors.rs:98-112 | the output never changes what `Display` prints |
| Errors.DisplayWithContext | src/errors.rs:64-72 | adding context prepends the description; the `": "` separator appears only when the old error is nested |
| Errors.DepthWithContext | src/errors.rs:64-72 | adding context nests one level deeper exactly when the old description was non-empty |
| Errors.FullContextOfForeignError | src/errors.rs:26-28 | `Err(from_source(s)).with_full_context(d, x)` is one level deep (`d`, source `s`, explanation `x`), and it prints as `d: s` followed by a blank line and `x` |
| Paths.Display | src/docker/dist_target.rs:484-497 | `Path::display` of the component form: the names joined by `/`, with a leading `/` for an absolute path |
| Paths.StripRoot | src/docker/dist_target.rs:357-365 | the result is relative; an absolute path loses exactly its root; a relative path is unchanged |
| Paths.FileName | src/docker/dist_target.rs:394-427 | a name exists exactly when the last component is a normal one |
| Paths.NameLessIrreflexive | src/sources.rs:12 | no name is below itself |
| Paths.NameLessTransitive | src/sources.rs:12 | the order of names is transitive |
| Paths.NameLessTotal | src/sources.rs:12 | any two distinct names are ordered |
| Paths.PathLessIrreflexive | src/sources.rs:12 | no path is below itself |
| Paths.PathLessTransitive | src/sources.rs:12 | the component-wise path order is transitive |
| Paths.PathLessAsymmetric | src/sources.rs:12 | two paths are never below each other |
| Paths.PathLessTotal | src/sources.rs:12 | any two distinct paths are ordered, so the map's order is a strict total order |
| Paths.AbsoluteBeforeRelative | src/sources.rs:12 | `/a` and `a` are different keys, and the absolute one comes first |
| Ecr.Parse | src/docker/dist_target.rs:565-576 | `from_string`: the digit run, the literal `.dkr.ecr.`, the longest region run that leaves a matching tail, a wildcard, `amazonaws`, a wildcard, `com/` and a repository running to the end; its meaning is stated by the lemmas below |
| Ecr.Format | src/docker/dist_target.rs:579-587 | the printed form is `account.dkr.ecr.region.amazonaws.com/repository` |
| Ecr.ParseIsLongestMatch | src/docker/dist_target.rs:565-576 | the parser returns `c` exactly when the whole input matches the pattern with captures `c` and no match has a longer region, which is the backtracking regex's choice |
| Ecr.ParseNoneIffNoMatch | src/docker/dist_target.rs:565-576 | the parser returns nothing exactly when no capture triple matches the whole input |
| Ecr.ParseFormat | src/docker/dist_target.rs:579-587 | every valid triple survives printing and parsing back |
| Ecr.ParseSpell | src/docker/dist_target.rs:565-576 | the two unescaped dots accept any character except a newline, provided it cannot be part of the region |
| Ecr.FormatParse | src/docker/dist_target.rs:594-603 | a parsed input whose wildcard positions hold literal dots is printed back exactly |
| Ecr.WildcardsBreakRoundTrip | src/docker/dist_target.rs:567 | with a non-dot wildcard character that cannot belong to the region, the input is accepted but does not print back to itself |
| Ecr.RepositoryEndsInput | src/docker/dist_target.rs:567 | the repository capture runs to the end of the input |
| Ecr.BlockedRepository | src/docker/dist_target.rs:567 | a character outside `[a-zA-Z0-9-_/]` that is not followed by a slash makes the parse fail |
| Ecr.ExampleValid | src/docker/dist_target.rs:594-603 | the valid example parses to `550877636976` / `ca-central-1` / `my/repo-si_tory` and prints back unchanged |
| Ecr.ExampleWrongPrefix | src/docker/dist_target.rs:606-611 | a leading `foo.` is refused |
| Ecr.ExampleWrongSuffix | src/docker/dist_target.rs:614-620 | a `#` in the repository is refused |
| Ecr.ExampleEmptyRepository | src/docker/dist_target.rs:567 | an empty repository is refused |
| Ecr.WildcardDotsAcceptUnderscores | src/docker/dist_target.rs:567 | `1.dkr.ecr.r_amazonaws_com/p` is accepted and does not print back to itself |
| DistTarget.Registry | src/docker/dist_target.rs:309-327 | the target's registry wins, then the environment variable; the result is an error exactly when both are missing |
| DistTarget.DockerImageName | src/docker/dist_target.rs:329-336 | `registry/name:version`; fails exactly when the registry fails, with the registry's error |
| DistTarget.EcrProbe | src/docker/dist_target.rs:338-344 | `registry/name`; fails exactly when the registry fails, with the registry's error |
| DistTarget.AwsEcrInformation | src/docker/dist_target.rs:338-344 | the registry's error, or else the parse of `registry/name` |
| DistTarget.DockerRoot | src/docker/dist_target.rs:353-355 | `target_dir/docker/<package name>` |
| DistTarget.DockerTargetBinDir | src/docker/dist_target.rs:357-365 | the configured binary directory, without its root, joined to the Docker root |
| DistTarget.DockerfilePath | src/docker/dist_target.rs:474-476 | `Dockerfile` in the Docker root |
| DistTarget.ImageNameExtendsProbe | src/docker/dist_target.rs:329-344 | the image name is the ECR probe string followed by `:version` |
| DistTarget.EcrRegistryIsRecognised | src/docker/dist_target.rs:338-344 | a registry `A.dkr.ecr.R.amazonaws.com` gives the ECR target `A` / `R` / package name |
| DistTarget.EcrRegistryPathIsKept | src/docker/dist_target.rs:338-344 | a registry that already names a repository path keeps that path in front of the package name |
| DistTarget.DockerTargetBinDirUnderRoot | src/docker/dist_target.rs:353-365 | the binary directory is the Docker root extended by the configured directory without its root |
| DistTarget.BinDirIgnoresLeadingRoot | src/docker/dist_target.rs:357-365 | `/app/bin` and `app/bin` give the same staging directory |
| DistTarget.StagedWhereTheImageExpects | src/docker/dist_target.rs:394-427 | a binary is staged at its in-image path, re-rooted under the Docker root |
| DistTarget.DockerfileParentIsDockerRoot | src/docker/dist_target.rs:474-476 | `docker build` runs in the Docker root |
| DistTarget.InImageBinaries | src/docker/dist_target.rs:484-497 | the `binaries` variable, one insert per binary; its contents are stated by `InImageBinariesContents` |
| DistTarget.TemplateContextOf | src/docker/dist_target.rs:478-508 | the four variables the template sees: `package_name`, `package_version`, `binaries` and `extra_files` |
| DistTarget.InImageBinariesContents | src/docker/dist_target.rs:484-497 | every binary name maps to the displayed in-image path of its file, and every key is a binary name |
| DistTarget.GenerateContext | src/docker/dist_target.rs:478-508 | the template context is built insert by insert and ends up holding the package name, the version, the binaries map and the extra-file destinations |
| DistTarget.CommandResult | src/docker/dist_target.rs:261-307 | a build or push succeeds exactly when the process ran and exited successfully; a failure is `failed to <action> Docker image`, and it carries the standard error output only in quiet mode |
| DistTarget.PullProbe | src/docker/dist_target.rs:79-108 | an unsuccessful exit is the answer "not there" and not an error; only a spawn failure is an error, with no output |
| DistTarget.CleanStep | src/docker/dist_target.rs:429-438 | one `remove_dir_all` of the Docker root, whose result is judged by `CleanResult` |
| DistTarget.CompileStep | src/docker/dist_target.rs:367-392 | the workspace and target-runtime lookups, whose errors stop it with no call; otherwise one compile of the package in the run's mode, for the target runtime when it is not the current one, failing with `failed to compile binaries` and the compiler's message as source |
| DistTarget.WriteDockerfileStep | src/docker/dist_target.rs:450-472 | render the template (a failure is a render error with no call), create the Docker root, then write the Dockerfile, each failure stopping the step with its own error |
| DistTarget.CopyBinariesStep | src/docker/dist_target.rs:394-427 | create the binary directory (a failure stops with ``could not create `target_bin_dir` in Docker root`` and the directory in the explanation), then the copy loop |
| DistTarget.CopyExtraFilesStep | src/docker/dist_target.rs:440-448 | one copy per extra file in order, the first error passed through unchanged |
| DistTarget.DockerBuildStep | src/docker/dist_target.rs:261-307 | the image name's error, or one `docker build -t <image> .` in the Dockerfile's directory judged by `CommandResult` |
| DistTarget.Arguments | src/docker/dist_target.rs:261-277 | the argument vector of each Docker command: `build -t <image> .` here, and likewise `pull <image>` (line 87) and `push <image>` (line 152) |
| DistTarget.EnvironmentOverrides | src/docker/dist_target.rs:279-280 | only `docker build` runs with `DOCKER_SCAN_SUGGEST=false` |
| DistTarget.BuildSpec | src/docker/dist_target.rs:42-58 | the whole build as a function of the world: ignored on Windows, otherwise the steps in order, each error ending the run |
| DistTarget.CleanResult | src/docker/dist_target.rs:429-438 | removal succeeds or the root is not found, or else the error is `failed to clean the docker root directory` with the I/O error as source |
| DistTarget.CopyEachEffects | src/docker/dist_target.rs:410-424 | the loop copies the binaries in order, each to its staged path, at most one copy per binary, and every copy before the last one succeeded |
| DistTarget.CopyEachResult | src/docker/dist_target.rs:410-424 | the loop succeeds exactly when it copied every binary successfully; otherwise its error is that of the last copy it tried, which failed |
| DistTarget.CopyEachOutcome | src/docker/dist_target.rs:394-427 | the binaries are copied in order to their staged paths; the loop succeeds exactly when every copy does, and otherwise stops at the first failure with that binary's error |
| DistTarget.CopyBinaries | src/docker/dist_target.rs:394-427 | the loop's trace and result are those of creating the binary directory and then the copy loop |
| DistTarget.CopyExtraFilesOutcome | src/docker/dist_target.rs:440-448 | the extra files are copied in order and every copy before the last one succeeded; the step succeeds exactly when every copy does, and otherwise stops at the first failing copy and passes its error through |
| DistTarget.CopyExtraFiles | src/docker/dist_target.rs:440-448 | the loop's trace and result are those of the in-order copy step |
| DistTarget.CreationRequest | src/docker/dist_target.rs:206-226 | the request names the region and the repository and carries the tags `CreatedBy=cargo-monorepo` and `PackageName=<package name>` |
| DistTarget.CreationResult | src/docker/dist_target.rs:228-248 | Ok exactly when the repository was created or already exists; any other failure is `failed to create AWS ECR repository` with an explanation naming the repository |
| DistTarget.Build | src/docker/dist_target.rs:42-58 | the method's trace and outcome are the step-by-step build: ignored on Windows, otherwise clean, compile, write the Dockerfile, copy the binaries, copy the extra files and run `docker build`, stopping at the first error |
| DistTarget.BuildDoneRanEveryStep | src/docker/dist_target.rs:42-58 | a build that completes started by removing the Docker root, staged every binary and every extra file, and ended by running `docker build` in the Docker root on the image name |
| DistTarget.BuildDoneShape | src/docker/dist_target.rs:42-58 | a completed build ran on a non-Windows host, cleaned and compiled successfully, got well-formed binaries, and its trace is the clean, the compile and a completed staging |
| DistTarget.StagingDoneShape | src/docker/dist_target.rs:51-55 | a completed staging wrote the Dockerfile at its path, copied every binary and extra file successfully and ran `docker build` last on the image name |
| DistTarget.WrittenDockerfile | src/docker/dist_target.rs:450-472 | a successful write returns the Dockerfile path under the Docker root |
| DistTarget.CopiedBinaries | src/docker/dist_target.rs:394-427 | a successful binary copy created the binary directory first and then every copy succeeded |
| DistTarget.BuiltImage | src/docker/dist_target.rs:261-307 | a successful `docker build` step ran one command, in the Dockerfile's directory, on the image name, and it exited successfully |
| DistTarget.BuildStopsWhenCleanFails | src/docker/dist_target.rs:429-438 | a removal error other than "not found" stops the build right after the clean, with the clean error |
| DistTarget.BuildToleratesMissingRoot | src/docker/dist_target.rs:429-438 | a Docker root that does not exist is no failure: after the removal call the build goes on to compile and stage like after a successful removal |
| DistTarget.BuildIgnoresPublishOptions | src/docker/dist_target.rs:42-58 | `--force` and `--dry-run` do not change a build |
| DistTarget.PushSpec | src/docker/dist_target.rs:110-190 | the push as a function of the world: image name, pull unless `--force`, ECR lookup, repository creation, dry-run stop, push |
| DistTarget.PushDockerImage | src/docker/dist_target.rs:110-190 | the method's trace and outcome are the step-by-step push: image name, pull unless `--force`, ECR lookup, repository creation, push, stopping at the first error, an existing image or a dry run |
| DistTarget.PushSpecBehaves | src/docker/dist_target.rs:110-190 | the step-by-step push makes the calls, and ends, as the order-independent description of the push says |
| DistTarget.PushSpecCalls | src/docker/dist_target.rs:110-190 | the calls come in order: the pull unless `--force`, the repository creation only when the push proceeds, the registry is on ECR, creation is allowed and it is not a dry run, then the push unless it is a dry run or the creation failed |
| DistTarget.PushSpecEnds | src/docker/dist_target.rs:110-190 | each early exit yields its own outcome: the image name's error, the pull's error, up to date, the creation error, the dry-run stop; an attempted push ends as `Done` exactly when the push succeeded |
| DistTarget.Publish | src/docker/dist_target.rs:60-77 | nothing is done on Windows, or in debug mode without `--force`; otherwise the result is the push behaviour |
| DistTarget.DryRunPublishesNothing | src/docker/dist_target.rs:136-158 | a dry run makes no call except the pull, and it never ends as a completed push |
| DistTarget.ForceSkipsPull | src/docker/dist_target.rs:114-116 | with `--force` nothing is pulled |
| DistTarget.ExistingImageIsNotPushed | src/docker/dist_target.rs:116-124 | an image the pull finds ends the publish as up to date after the pull alone |
| DistTarget.NoEcrNoCreation | src/docker/dist_target.rs:128-150 | a registry that is not on ECR never leads to a repository creation |
| DistTarget.PushDoneMeansPushed | src/docker/dist_target.rs:128-190 | a completed publish was no dry run; it pushed last and the push succeeded; on ECR with creation allowed, the repository was ensured right before the push |
| Sources.ToMap | src/sources.rs:44-58 | the map's keys are exactly the paths of the entries |
| Sources.KeysMember | src/sources.rs:44-58 | a path is a key exactly when some entry has it |
| Sources.Insert | src/sources.rs:56-57 | inserting keeps the entries strictly sorted, and the keys gain the inserted path |
| Sources.InsertContents | src/sources.rs:56-57 | inserting is a map update, so a later pair overrides an earlier one |
| Sources.Delete | src/sources.rs:65-67 | deleting keeps the entries sorted, and the keys lose the path |
| Sources.DeleteContents | src/sources.rs:65-67 | deleting is map removal of the path |
| Sources.SortedUnique | src/sources.rs:70-81 | two sorted entry lists with the same contents are equal |
| Sources.Collect | src/sources.rs:56-57 | collecting yields sorted entries with one per distinct path |
| Sources.CollectContents | src/sources.rs:49-57 | each path maps to the bytes of the last pair carrying it |
| Sources.ReadAll | src/sources.rs:50-55 | all files are read exactly when every read succeeds, and the entries are the files with their bytes in order; otherwise the result is `failed to read file` with the error of the first failed read as its source |
| Sources.CollectReads | src/sources.rs:44-58 | after successful reads, the keys are exactly the paths read, each mapped to its bytes |
| Sources.MemberSourcesContents | src/sources.rs:44-58 | the map's keys are the listed files plus the manifest, each mapped to that file's bytes |
| Sources.UnreadableFileFails | src/sources.rs:50-55 | one unreadable file fails the whole construction with `failed to read file` |
| Sources.MemberSources | src/sources.rs:33-58 | `Sources::new`: the path-source update and listing errors stop it; otherwise the listed files plus the manifest are read and collected |
| Sources.FromPackage | src/sources.rs:15-31 | the workspace error, or `failed to find package` when no member has the name, or else the sources of the first member that has it |
| Sources.FindMember | src/sources.rs:20-22 | no member is found exactly when none has the name; otherwise the result is the first member that has it |
| Sources.MissingPackageReported | src/sources.rs:19-28 | the result is a `failed to find package` error exactly when no member has that name, and its explanation then says no package of that name is in the current workspace |
| Sources.Sources.constructor | src/sources.rs:44-58 | the map holds the collected pairs, sorted, one per path |
| Sources.Sources.Contains | src/sources.rs:61-63 | true exactly when some entry has the path |
| Sources.Sources.Remove | src/sources.rs:65-67 | returns `Some` exactly when the path was present; afterwards the path is gone, every other entry is unchanged and the map stays sorted |
| Sources.Sources.HashItems | src/sources.rs:70-81 | one `[path, bytes]` item per entry, in ascending path order |
| Sources.HashItemsDependOnContents | src/sources.rs:70-81 | the hash items depend only on the map's contents, not on how it was built, and follow strictly ascending paths |
| Metadata.BinaryNames | src/docker/metadata.rs:35-45 | the names of the `bin` targets; the list is empty exactly when there is no `bin` target, and a name is in it exactly when a `bin` target has it |
| Metadata.BinaryNamesAppend | src/docker/metadata.rs:35-45 | the filter keeps target order |
| Metadata.DockerDir | src/docker/metadata.rs:33 | `target_dir/docker/<package name>` |
| Metadata.IntoDistTarget | src/docker/metadata.rs:25-69 | an error exactly when there is no `bin` target, namely `package contain no binaries` with the explanation naming the package id; otherwise name, version, manifest path, metadata and dependencies are copied and the binaries are `BinaryNames` of the targets, the `bin` targets' names in target order; the binary directory is the given target directory and the Docker directory is `target_dir/docker/<name>` |
| Metadata.DockerDirIsDockerRoot | src/docker/metadata.rs:33 | the package's Docker directory is the Docker root its distribution target stages in |

## Left out

- Processes, compilation, the file system and AWS: `docker pull/build/push`, the cargo compile of `build_binaries`, `remove_dir_all`, `create_dir_all`, `copy`, `write`, `CopyCommand::copy_files`, `std::fs::read` and the AWS SDK with its tokio runtime are not executed. Their results are parameters of the model: the fields of `Environment` and the `read` function.
- `is_current_target_runtime` and the workspace lookup are foreign calls, given as results in `Host`.
- Tera rendering is a foreign library. The template is a function from the context to the rendered text.
- The `copy_all_binaries`, `copy_all_extra_files` and `copy_all` fragments of `generate_context`: their line order follows a `HashSet` and is unspecified.
- `Hashable`/`HashItem` and the digest itself (`crate::hash`) are not part of this model. Only the ordered item sequence is modelled.
- Logging (`debug!`, `warn!`) and the `action_step!`/`ignore_step!` macros. An ignored step is an `Ignored(tag, message)` outcome.
- `main.rs` (command-line parsing and dispatch) is not part of this model.
- Concurrency and hash-map order: the binaries map from `build_binaries` and the extra files are iterated in the order of the given sequence. The source iterates a `HashMap` and a `HashSet` in an unspecified order.
- Path components `.`, `..` and Windows prefixes are not modelled. Paths are made of a root and normal names, and display joins them with `/`.
- Ecr.Parse: `\d` is modelled as the ASCII digits. The regex crate's `\d` also accepts other Unicode decimal digits.
- `DistTarget.ModeName` names only the two build modes, `debug` and `release`.
- The `DockerMetadata` record of `src/docker/metadata.rs` is carried through `into_dist_target` unchanged. The target fields that `dist_target.rs` reads (`registry`, `allow_aws_ecr_creation`, `target_bin_dir`, `target_runtime`, `extra_files`, `template`) are the separate `TargetMetadata` record, because the two files disagree on the metadata's fields.
- Panics the model does not reach: `target_root().unwrap()` (src/docker/dist_target.rs:349), the tokio runtime's `build().unwrap()` (204), `CompileOptions::new(..).unwrap()` (369), `CompileTarget::new(..).unwrap()` (379) and `repository_name.unwrap()` (253). The target directory is a given path, and the compiler, the target-runtime check and the AWS call are results in the world. Where the source would panic on one of these, the model goes on to compile or push.
- DistTarget.Build: it requires that the compiler reports binaries with distinct names and with file names. It also requires every binary path to have a file name. This replaces `file_name().unwrap()`, which the model cannot reach.
- The error `failed to determine Docker root`: the Dockerfile path always has the Docker root as its parent, so the model cannot reach this error. It appears in the model only as a branch.
- `Sources.Sources.Remove` returns `()` inside `Some` and does not model the removed bytes, because the source discards them too.
- The AWS ECR creation request carries its tags and names. The SDK's own error variants are reduced to "already exists", another service error, and any other failure.
