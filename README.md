# condo-cli core, modelled in Dafny

condo-cli (`condo`) is a command-line tool that sets up a local Kubernetes
development cluster. `condo create cluster`:

1. checks that the tools it needs are on the search path;
2. resolves a per-cluster workspace `~/.am/clusters/<name>`;
3. refuses a cluster that `kind` already lists;
4. creates the cluster with `kind` and provisions it, in a fixed order:
   namespaces, policies and ingress, an SSH key pair, a git-server sidecar
   container, the in-cluster git service, sealed secrets, and the Flux
   GitOps operator with its Helm operator.

Beside that command the model covers:

- the sidecar containers: a git server, a docker registry and a database;
- `cluster stop`;
- the fetcher that clones the `deploy` and `helm` configuration
  repositories and re-roots them as local repositories on a branch named
  after the cluster;
- `condo git`, which computes the current version from tagged
  conventional-commit headers.

The Go code drives external tools (`kind`, `kubectl`, `helm`, `git`,
`docker`) and the operating system. The model treats every such
interaction as an event on a trace, and makes one modelling choice per concern:

- **Replies.** An oracle `(position in trace, event) -> Reply` supplies each
  event's reply (success and output).
- **World.** An abstract world records the workspace paths (files with data
  and mode, and directories) and the containers (running, attached to the
  `kind` network).
- **Effects.** A successful event changes the world by a fixed `Effect`:
  - `rm -rf` removes a subtree;
  - a rename puts the renamed entry at the target and drops what lay below
    the source (the model tracks the moved directory, not its contents);
  - `MkdirAll` adds an absent path;
  - a file write keeps an existing mode;
  - `git clone` adds its target;
  - `docker run`, `network connect`, `stop` and `rm` update the container.
- **Failure rules.** Each Go call site is modelled as *Required* (its failure
  ends the process, as with `log.Fatalf` or `check`) or *Tolerated* (its
  failure is logged or discarded). A lookup failure in `checkExecExists` is a
  *Panic*.
- **Methods and specification functions.** Every Go function is a `method`
  on a `Shell.Host` object, which holds the oracle, the trace and the world.
  Each method `ensures` that its final state is a pure specification function
  (`...Spec`) of the oracle and the old state. The properties are lemmas
  about those functions.
- **Pure code.** Splitting on line breaks, the address prefix, the tag-ref
  and commit-header matchers, and the version fold are functions with their
  own contracts.

Modules:

- `text.dfy` (`Text`): `bytes.Split` / `Join` on strings, and lines.
- `shell.dfy` (`Shell`): the event vocabulary, effects, failure rules, the
  `Host` class and `os.Stat`.
- `docker.dfy` (`Docker`): `internal/docker`.
- `mongo.dfy` (`Mongo`): `internal/mongo`.
- `services.dfy` (`Services`): `services/dockerRegistry.go` and
  `services/mongoService.go`.
- `gitdocker.dfy` (`GitDocker`): `internal/git/gitDocker.go`.
- `gitservice.dfy` (`GitService`): `internal/git/gitService.go`.
- `cmdgitservice.dfy` (`CmdGitService`): `cmd/gitService.go`.
- `flux.dfy` (`Flux`): `internal/flux/fluxHelm.go`.
- `stop.dfy` (`ClusterStop`): `cmd/cluster/stop.go`.
- `cluster.dfy` (`Cluster`): `cmd/cluster.go`.
- `versioning.dfy` (`Versioning`): `cmd/git.go`.

Where the code differs from the project's own description, the model
follows the code:

- `cluster()` never fetches the auxiliary repositories and never writes
  default configuration. `createDefaultClusterConfig` only logs.
- `cluster()` checks neither the docker daemon nor the registry and database
  sidecars. `installDockerRegistry` only logs.
- The saved sealing key is never restored. The branch is guarded by
  `os.IsExist` of a `Stat` error, which `Stat` never produces.
- The fetchers remove the temporary staging directory only on the success
  path. A fatal step leaves it behind.
- Outside Windows the error of `kind create cluster` is never assigned, so a
  failed creation is not fatal.
- The sidecar probe compares `"true"` with the output of the quoted format
  `'{{.State.Running}}'`. That output is the quoted word, so the probe never
  reports a running container.

## Model

| member | source | states |
|---|---|---|
| Text.Split | cmd/cluster.go:134 | at least one piece, and no piece contains the separator |
| Text.JoinSplit | cmd/cluster.go:134 | joining the pieces of a split with the separator gives back the original bytes |
| Text.SplitJoin | cmd/cluster.go:134 | splitting undoes joining when no piece holds the separator |
| Text.SplitAround | cmd/cluster.go:134 | the pieces of `x + sep + y` are those of `x` followed by those of `y` |
| Text.FirstPiece | internal/git/gitDocker.go:168 | the first piece is the longest separator-free prefix: the whole input without a separator, else the text before the first one |
| Text.LinesAreSplitPieces | cmd/cluster.go:134-141 | a string is a piece of the newline split exactly when it is a complete line of the output |
| Shell.StatNeverReportsExist | cmd/cluster.go:397 | `os.IsExist` of a `Stat` error never holds; `os.IsNotExist` holds exactly for an absent path |
| Shell.RequiredAllStopsAtFirstFailure | cmd/cluster.go:491-495 | events that are each fatal on failure stop at the first failure: a prefix is issued whose every event but the last succeeded; `Ok` exactly when all were issued and the last succeeded; a `Fatal` run ends with the event that failed |
| Shell.RequiredAllAppend | cmd/gitService.go:69-74 | issuing `xs + ys` is issuing `xs`, then `ys` only when `xs` did not stop |
| Shell.UnderSibling | internal/git/gitService.go:59 | one entry of a directory lies below another exactly when their names do |
| Docker.IsRunningFatalIffPsFails | internal/docker/dockerEngine.go:10-21 | the daemon check issues `docker ps` only, changes nothing, and is fatal exactly when it fails |
| Docker.IsImageRunningOnlyInspects | internal/docker/dockerEngine.go:23-44 | the probe issues the inspect only, changes nothing, and answers running exactly when the inspect succeeded with output `true` |
| Docker.QuotedOutputIsNotRunning | internal/docker/dockerEngine.go:29-39 | the quoted output the format produces is not `true`, so the probe says not running |
| Docker.StartSkipsWhenProbeRuns | internal/docker/dockerRegistry.go:14-17 | when the probe reports running, nothing further is issued and nothing changes |
| Docker.StartRunsThenConnects | internal/docker/dockerRegistry.go:19-54 | otherwise run then connect are issued; a failed run is only logged; fatal exactly when connect fails; on success the container runs on `kind` |
| Docker.RunCmdNames | internal/docker/dockerRegistry.go:19-31 | the container started is the one named by the `--name=` flag |
| Docker.StopNeverAborts | internal/docker/dockerRegistry.go:57-87 | stop then rm are always issued, never fatal; after a successful rm the container is gone |
| Docker.IsRunning | internal/docker/dockerEngine.go:10-21 | the method's final state is the daemon-check specification |
| Docker.IsImageRunning | internal/docker/dockerEngine.go:23-44 | the method's answer and final state are the probe specification |
| Docker.Run | internal/docker/dockerRegistry.go:12-54 | registry start: final state equals the probe-then-start specification |
| Docker.Stop | internal/docker/dockerRegistry.go:57-87 | registry stop: final state equals the stop specification |
| Mongo.Run | internal/mongo/mongoDocker.go:13-55 | database start, probing its own container: final state equals the start specification |
| Mongo.Stop | internal/mongo/mongoDocker.go:58-89 | database stop: final state equals the stop specification |
| Services.InstallMongoFollowsRegistryProbe | services/mongoService.go:36-78 | the database install probes the registry, never the database, and is skipped exactly when the registry probe reports running |
| Services.CheckDockerRegistryRunning | services/dockerRegistry.go:11-34 | answer is true exactly when the registry inspect succeeds with output `true`; never fatal |
| Services.CheckMongoRunning | services/mongoService.go:11-34 | the same probe on the database container |
| Services.InstallDockerRegistry | services/dockerRegistry.go:36-78 | final state equals the registry start specification |
| Services.InstallMongo | services/mongoService.go:36-78 | final state equals the start specification guarded by the registry probe |
| Services.RemoveDockerRegistryDockerContainer | services/dockerRegistry.go:80-111 | stop and rm are issued and tolerated |
| Services.RemoveMongoDockerContainer | services/mongoService.go:80-111 | stop and rm are issued and tolerated |
| GitDocker.RSAKeyGate | internal/git/gitDocker.go:67-72 | when either key file exists nothing is issued and nothing changes |
| GitDocker.RSAKeyCreated | internal/git/gitDocker.go:74-105 | from scratch: never a panic; on success the new events are those of a new pair (`mkdir .ssh` when missing, the key, its public half, the public file, the private file); the public file holds the authorized-key reply and the private one the PEM block of the generated key, both created with mode 0600 |
| GitDocker.KeyPairWritten | internal/git/gitDocker.go:80-105 | once `.ssh` exists: on success exactly the key, its public half and the two writes are issued, and each file holds what the events before it produced |
| GitDocker.RSAKeyOrder | internal/git/gitDocker.go:60-106 | never a panic, only appends; on success the new events are none (a key file existed) or those of a new pair |
| GitDocker.RSAKeyIdempotent | internal/git/gitDocker.go:60-106 | after a successful creation a second one issues nothing and changes nothing |
| GitDocker.RSAKeyAppends | internal/git/gitDocker.go:60-106 | key creation only appends to the trace and never panics |
| GitDocker.StartGitServerShape | internal/git/gitDocker.go:108-144 | no run or connect when the probe reports running; otherwise run first, a failed run is fatal, then connect |
| GitDocker.AddressOf | internal/git/gitDocker.go:168 | the address is a prefix of the output with no `/`, ending at the output's end or at its first `/` |
| GitDocker.AddressUnique | internal/git/gitDocker.go:168 | those three conditions determine the address uniquely |
| GitDocker.ConfigApplyIsDiscarded | internal/git/gitDocker.go:160-193 | once the inspect and the parse succeed the step is `Ok`; it renders with the address and issues the apply last whatever it returns |
| GitDocker.ConfigGitAppends | internal/git/gitDocker.go:146-194 | the step only appends to the trace and never panics |
| GitDocker.ConfigGitOrder | internal/git/gitDocker.go:146-194 | `Ok` exactly when the network inspect and the parse succeed; then the new events are exactly inspect, parse, render of the template with the address, echo of the rendered document, apply |
| GitDocker.RunOrder | internal/git/gitDocker.go:22-26 | never a panic, only appends; on success the new events are the key step's, then the server start's (the probe alone when it reports running, else probe, run, connect), then the configuration's five, in that order |
| GitDocker.CreateRSAKey | internal/git/gitDocker.go:60-106 | final state equals the key-creation specification |
| GitDocker.StartGitServer | internal/git/gitDocker.go:108-144 | final state equals the probe-then-start specification |
| GitDocker.ConfigGitInCluster | internal/git/gitDocker.go:146-194 | final state equals the inspect, parse, render, echo, apply specification |
| GitDocker.Run | internal/git/gitDocker.go:22-26 | final state is key creation, then server start, then configuration, each stopping the rest when fatal |
| GitDocker.Stop | internal/git/gitDocker.go:29-58 | stop then rm of `git-server`, both tolerated |
| GitService.MoveCloneIsSequence | internal/git/gitService.go:92-107 | moving the clone is `rm -rf .git` then the rename, each fatal on failure |
| GitService.InitLocalRepoIsSequence | internal/git/gitService.go:59-90 | `git init`, `switch -c <cluster>`, `add -A`, `commit`, in order, each fatal |
| GitService.GetGitRepoIsSequence | internal/git/gitService.go:109-129 | `getGitRepo` is the fixed nine-event sequence, each fatal on failure |
| GitService.GetGitRepoOrder | internal/git/gitService.go:55-129 | the trace is a prefix of that sequence whose every step but the last succeeded; `Ok` exactly when all nine ran and the last succeeded; a `Fatal` run ends with the step that failed; the new branch is the cluster name |
| GitService.CloneIsInTmp | internal/git/gitService.go:111-116 | the clone lies inside `<root>/tmp` |
| GitService.InitLocalRepoKeepsWorld | internal/git/gitService.go:59-90 | the four git commands change no path and no container |
| GitService.MoveCloneMoves | internal/git/gitService.go:92-107 | on success `<root>/<folder>` is what the clone was; outside the clone only the target changes |
| GitService.SetUpMovesClone | internal/git/gitService.go:55-90 | the same for the whole set-up step |
| GitService.CloneLands | internal/git/gitService.go:115-118 | a successful clone adds the clone directory and nothing else |
| GitService.InstallCloneSucceeds | internal/git/gitService.go:119-128 | never a panic; on success the target is the clone and nothing is left below `<root>/tmp` |
| GitService.RemoveTmpLands | internal/git/gitService.go:125-128 | a successful removal leaves exactly the paths outside `<root>/tmp`; a failed one changes nothing |
| GitService.InstallCloneKeeps | internal/git/gitService.go:119-128 | paths outside `<root>/tmp` other than the target are kept |
| GitService.InstallCloneFailureLeavesTmp | internal/git/gitService.go:119-128 | a fatal step leaves `<root>/tmp` in place |
| GitService.GetGitRepoSucceeds | internal/git/gitService.go:109-129 | on success `<root>/<folder>` is a directory and nothing is left below `<root>/tmp` |
| GitService.GetGitRepoKeeps | internal/git/gitService.go:109-129 | every other path outside `<root>/tmp` is kept, whatever the replies |
| GitService.GetGitRepoFailureLeavesTmp | internal/git/gitService.go:109-129 | once `<root>/tmp` exists, a fatal step leaves it behind |
| GitService.HelmAfterDeploy | internal/git/gitService.go:16-20 | with `deploy` in place, a successful `helm` fetch leaves both repositories and no temporary path |
| GitService.CreateAuxilaryConfigDeployOnlyOutcome | internal/git/gitService.go:22-25 | without a configuration nothing is issued and the run is fatal; with one it is exactly the nine-event fetch of the deploy repository; success leaves `deploy` a folder and no temporary path |
| GitService.CreateAuxilaryConfigHelmOnlyOutcome | internal/git/gitService.go:27-30 | the same with the Helm repository and `helm` |
| GitService.CreateAuxilaryConfigOutcome | internal/git/gitService.go:16-53 | without a decoded configuration nothing is issued and the run is fatal; with one, success leaves both repositories and no temporary path |
| GitService.MoveCloneIntoLocalRepo | internal/git/gitService.go:92-107 | final state equals the move specification |
| GitService.InitLocalRepo | internal/git/gitService.go:59-90 | final state equals the four-command specification |
| GitService.SetUpLocalGitFolder | internal/git/gitService.go:55-90 | final state equals move then initialisation |
| GitService.GetGitRepo | internal/git/gitService.go:109-129 | final state equals the `getGitRepo` specification |
| GitService.CreateAuxilaryConfig | internal/git/gitService.go:16-20 | final state equals configuration loading, then the deploy and helm fetches |
| GitService.CreateAuxilaryConfigDeployOnly | internal/git/gitService.go:22-25 | the deploy fetch only |
| GitService.CreateAuxilaryConfigHelmOnly | internal/git/gitService.go:27-30 | the helm fetch only |
| CmdGitService.GetGitRepoIsSequence | cmd/gitService.go:106-119 | this `getGitRepo` is the clone followed by the set-up sequence, each fatal |
| CmdGitService.CreateAuxilaryConfigIsSequence | cmd/gitService.go:69-74 | the whole command is one fixed sixteen-event sequence, each fatal |
| CmdGitService.CreateAuxilaryConfigDeployOnlyIsSequence | cmd/gitService.go:76-80 | the command is exactly `tmp`, the deploy fetch, `cleanTmp`, each fatal on failure |
| CmdGitService.CreateAuxilaryConfigHelmOnlyIsSequence | cmd/gitService.go:82-86 | the command is exactly `tmp`, the Helm fetch, `cleanTmp`, each fatal on failure |
| CmdGitService.SingleFetchShape | cmd/gitService.go:76-86 | in those nine events the temporary directory is created once, first, and removed once, last |
| CmdGitService.CreateAuxilaryConfigDeployOnlySucceeds | cmd/gitService.go:76-80 | on success `deploy` is a directory and nothing is left below `<root>/tmp` |
| CmdGitService.CreateAuxilaryConfigHelmOnlySucceeds | cmd/gitService.go:82-86 | on success `helm` is a directory and nothing is left below `<root>/tmp` |
| CmdGitService.TmpCreatedOnceRemovedOnce | cmd/gitService.go:54-74 | the temporary directory is created once, first, and removed once, last |
| CmdGitService.FetchSetsUpRepo | cmd/gitService.go:106-119 | on success `<root>/<folder>` is a directory; paths neither below the clone nor the target are kept |
| CmdGitService.CreateAuxilaryConfigSucceeds | cmd/gitService.go:69-74 | on success both repositories are directories and nothing is left below `<root>/tmp` |
| CmdGitService.HelmThenClean | cmd/gitService.go:72-73 | with `deploy` in place, fetching `helm` then cleaning ends with both and no temporary path |
| CmdGitService.CleanTmpLands | cmd/gitService.go:54-62 | a successful `rm -rf tmp` in the workspace leaves exactly the paths outside `<root>/tmp`; a failed one changes nothing |
| CmdGitService.CreateAuxilaryConfigFailureLeavesTmp | cmd/gitService.go:69-74 | a fatal fetch skips `cleanTmp` and leaves the temporary directory |
| CmdGitService.CreateTmp | cmd/gitService.go:64-67 | final state equals `MkdirAll <root>/tmp 0755`, fatal on failure |
| CmdGitService.CleanTmp | cmd/gitService.go:54-62 | final state equals `rm -rf tmp` in the workspace, fatal on failure |
| CmdGitService.GetGitRepo | cmd/gitService.go:106-119 | final state equals the clone-then-set-up specification |
| CmdGitService.CreateAuxilaryConfig | cmd/gitService.go:69-74 | final state equals create, deploy, helm, clean |
| CmdGitService.CreateAuxilaryConfigDeployOnly | cmd/gitService.go:76-80 | create, deploy, clean |
| CmdGitService.CreateAuxilaryConfigHelmOnly | cmd/gitService.go:82-86 | create, helm, clean |
| Flux.InstallIsSequence | internal/flux/fluxHelm.go:10-81 | `Install` is exactly the fatal sequence secret, operator, Helm operator |
| Flux.InstallOrder | internal/flux/fluxHelm.go:10-81 | secret, operator, Helm operator in order; the trace is a prefix of the three whose every command but the last succeeded; `Ok` exactly when all ran and the last succeeded; a `Fatal` run ends with the command that failed |
| Flux.SecretUsesDeployKey | internal/flux/fluxHelm.go:19-26 | the deploy-key secret is read from `<root>/.ssh/identity` |
| Flux.FluxTracksClusterBranch | internal/flux/fluxHelm.go:50-51 | the release passes `git.branch=<name>` and `git.label=flux-<name>`; distinct names give distinct releases |
| Flux.CreateSecret | internal/flux/fluxHelm.go:16-34 | final state equals the secret command, fatal on failure |
| Flux.FluxInstall | internal/flux/fluxHelm.go:36-58 | final state equals the operator release, fatal on failure |
| Flux.HelmInstall | internal/flux/fluxHelm.go:60-81 | final state equals the Helm operator release, fatal on failure |
| Flux.Install | internal/flux/fluxHelm.go:10-14 | final state equals the three steps in order |
| ClusterStop.StopClusterOutcome | cmd/cluster/stop.go:30-39 | a failed daemon check is fatal before any container is touched; otherwise git server, registry and database are stopped and removed in that order and the command completes |
| ClusterStop.StopCluster | cmd/cluster/stop.go:30-39 | final state equals the stop specification |
| Cluster.RootPathSeparatesClusters | cmd/cluster.go:150 | the workspace lies under `<home>/.am/clusters`, and equal workspaces mean equal names |
| Cluster.DependenciesProbedInOrder | cmd/cluster.go:109-125 | kind, git, kubectl, helm, docker are looked up in order; every lookup but the last found its tool; `Ok` exactly when all five were found; a panic ends with the lookup that failed; nothing in the world changes |
| Cluster.ClusterConfigExistsOutcome | cmd/cluster.go:144-161 | a missing home is fatal; the workspace is reported existing exactly when present, then nothing changes; otherwise one `Mkdir 0755` is issued, fatal on failure |
| Cluster.ListsCluster | cmd/cluster.go:134-141 | the loop finds the name exactly when it is a piece of the newline split |
| Cluster.IsClusterRunningMeansListed | cmd/cluster.go:127-142 | fatal exactly when the listing fails; running exactly when the name is one whole line of its output |
| Cluster.CreateClusterFailureRule | cmd/cluster.go:168-203 | on Windows a failed create is fatal by itself; elsewhere the context check always follows and decides |
| Cluster.GitServerRunNames | cmd/cluster.go:288-298 | the container started is `git-server` |
| Cluster.InstallGitServerStartsUnconditionally | cmd/cluster.go:285-316 | no probe: the first event is the run; on success the new events are exactly the run and the connect, and `git-server` runs on `kind` |
| Cluster.SealedSecretsArchiveOverwritten | cmd/cluster.go:377-429 | no saved key is ever reapplied; after install and fetch the archive is overwritten with the fetched key, `Ok` exactly when the write succeeds |
| Cluster.SealedSecretsOrder | cmd/cluster.go:377-429 | never a panic, only appends; on success the new events are exactly the controller install, the key fetch and the archive write of the fetched key |
| Cluster.GitSetUpOrder | cmd/cluster.go:97-99 | never a panic, only appends; on success the new events are the key step's, then the server run and connect, then the configuration's five, in that order |
| Cluster.ManifestsInOrder | cmd/cluster.go:94-96 | namespaces, policies, ingress never panic, and on success are exactly the three new events, in that order |
| Cluster.PreFluxOrder | cmd/cluster.go:97-101 | never a panic, only appends; on success the new events are the git set-up's, then the three sealed-secrets events (the registry issues none) |
| Cluster.AddOnsOrder | cmd/cluster.go:97-104 | never a panic, only appends; on success the new events are the steps before Flux's, then the secret, operator and Helm operator commands |
| Cluster.ProvisionOrder | cmd/cluster.go:94-104 | never a panic; on success the new events are, in order, namespaces, policies, ingress, the key step's, the server run and connect, the configuration's five, the three sealed-secrets events, then the secret, operator and Helm operator commands |
| Cluster.OnlyMissingToolPanics | cmd/cluster.go:81-125 | a panic comes only from a missing tool: the world is unchanged, only lookups were issued, and the last of them failed |
| Cluster.ListedClusterIsNotRecreated | cmd/cluster.go:88-91 | a listed cluster is fatal right after the listing; `kind create cluster` is never issued |
| Cluster.CheckExecExists | cmd/cluster.go:117-125 | final state equals one lookup, a panic on failure |
| Cluster.CheckExecDependencies | cmd/cluster.go:109-115 | final state equals the five lookups in order |
| Cluster.CreateIngress | cmd/cluster.go:205-215 | final state equals the ingress apply, fatal on failure |
| Cluster.InstallDockerRegistry | cmd/cluster.go:373-375 | changes nothing and succeeds |
| Cluster.ClusterCommand.ClusterConfigExists | cmd/cluster.go:144-161 | answer, assigned workspace path and final state equal the workspace specification |
| Cluster.ClusterCommand.IsClusterRunning | cmd/cluster.go:127-142 | answer and final state equal the listing specification |
| Cluster.ClusterCommand.CreateCluster | cmd/cluster.go:168-203 | final state equals the creation specification for the platform |
| Cluster.ClusterCommand.CreateNamespaces | cmd/cluster.go:217-225 | the namespaces apply, fatal on failure |
| Cluster.ClusterCommand.CreatePolicies | cmd/cluster.go:227-235 | the policies apply, fatal on failure |
| Cluster.ClusterCommand.InstallGitServer | cmd/cluster.go:285-316 | run then connect, each fatal |
| Cluster.ClusterCommand.InstallSealedSecrets | cmd/cluster.go:377-429 | final state equals the sealed-secrets specification, with the `os.IsExist` guard as written |
| Cluster.ClusterCommand.ReloadSavedSecret | cmd/cluster.go:398-411 | read the archive then apply it, each fatal |
| Cluster.ClusterCommand.GitSetUp | cmd/cluster.go:97-99 | key creation, server, in-cluster configuration |
| Cluster.ClusterCommand.AddOns | cmd/cluster.go:97-104 | key pair through Helm operator, in order |
| Cluster.ClusterCommand.Provision | cmd/cluster.go:93-104 | namespaces, policies, ingress, then the add-ons |
| Cluster.ClusterCommand.Cluster | cmd/cluster.go:81-107 | final state, status and workspace path equal the whole `cluster()` specification |
| Versioning.TagOf | cmd/git.go:15 | a tag exactly for `refs/tags/` followed by a non-empty, newline-free name, which is the result |
| Versioning.TagMapIsLastTag | cmd/git.go:58-67 | a hash is mapped exactly when some tag ref names it, and then to the tag of the last such ref |
| Versioning.TagMapValuesNonEmpty | cmd/git.go:60-65 | every mapped tag is non-empty |
| Versioning.BuildTags | cmd/git.go:58-67 | the loop builds exactly that map |
| Versioning.WordSpan | cmd/git.go:16 | `\w*` consumes the longest word-character prefix |
| Versioning.ParseHeaderSound | cmd/git.go:16 | a returned header occurs at the start of the message: groups within their classes, description up to the line end |
| Versioning.ParseHeaderComplete | cmd/git.go:16 | a message with a header yields that header: the match is unique |
| Versioning.ParseHeaderMatchesIffShaped | cmd/git.go:16 | a message matches exactly when it has a header of that shape |
| Versioning.HeaderRoundTrip | cmd/git.go:16 | a well-formed header followed by a line end or nothing is read back unchanged |
| Versioning.SkippedCommitsKeepVersion | cmd/git.go:81-84 | a non-matching message, or an untagged commit (its lookup is "" and fails to parse), leaves the version unchanged |
| Versioning.VersionNeverDecreases | cmd/git.go:75-86 | the running version never decreases along the log |
| Versioning.VersionIsMaximum | cmd/git.go:75-86 | the final version is at least the zero version and every candidate, and is one of them |
| Versioning.RecordShowsEntry | cmd/git.go:78-96 | an entry yields a record exactly when its message matches, carrying its hash, tag, parsed version and three groups |
| Versioning.ShownAreMatchingEntries | cmd/git.go:88-97 | one record per matching commit, each carrying that commit's hash, tag, parsed version and three groups |
| Versioning.GitRun | cmd/git.go:53-104 | the loop's version and records equal the fold and the record list of the log |

## Left out

- What the external tools do. Each call's success and output is an oracle
  input, and only the effects listed above are modelled. This covers `kind`, `kubectl`, `helm`,
  `git`, `docker`, `exec.LookPath` and the cluster itself.
- RSA key generation, PKCS#1, PEM and ssh public-key encoding. These are
  opaque producers: `GenerateKey` and `PublicKey` events, with the PEM block
  as an uninterpreted wrapper.
- `html/template` parsing and rendering, and JSON decoding of `config.json`.
  Template parsing and rendering are events, and the decoded configuration
  is an input.
- Semantic-version parsing and precedence. They are parameters of
  `Versioning`: a strict parser with `parse("") == None`, a strict weak order,
  and the zero version.
- go-git repository access. The refs and the commit log are inputs, taken
  in iteration order.
- Printing and log text. `Versioning.GitRun` returns the records it would
  print.
- `Commit.Author` and `Commit.Actions`, and the unused patterns `revert`,
  `breaking`, `action`, `reference` and `mention` in `cmd/git.go`.
- The `echo | kubectl apply` pipe. It is two sequential tolerated events,
  not concurrent processes.
- Terminal handling (`pty`) in `createCluster` and `internal/console`. Which
  platform runs is the `onWindows` flag.
- The docker SDK code in `cmd/run.go` and `cmd/root.go`, the kubeconfig
  edit in `services/kubectl.go`, and the cobra command wiring and flags.
- `os.Stat` errors other than "does not exist", such as permission errors.
  The model's `Stat` fails only for an absent path.
- `fmt.Sprintf` directives inside the home directory. The workspace path is
  plain concatenation.
- `filepath.Join` cleaning. Paths are joined with `/`.
- `FPS` in `cmd/gitService.go`. It is not defined in that package, and it
  is modelled as `/`.
- Byte slices. Outputs are strings.
- GitService.GetGitRepoSucceeds: stated only for a folder outside `tmp`.
  The source calls it only with `deploy` and `helm`.
- CmdGitService.CreateAuxilaryConfigSucceeds: stated for a non-empty
  workspace path, as are CmdGitService.HelmThenClean,
  CmdGitService.CleanTmpLands, CmdGitService.FetchThenClean,
  CmdGitService.CreateAuxilaryConfigDeployOnlySucceeds and
  CmdGitService.CreateAuxilaryConfigHelmOnlySucceeds. With an empty path
  `rm -rf tmp` runs in the working directory, not below the workspace.
- The contents of a renamed directory. A rename does not carry the
  descendants of the source to the target: they are dropped, and only the
  renamed entry itself is tracked.
- Cluster.GitSetUpOrder, Cluster.PreFluxOrder, Cluster.AddOnsOrder,
  Cluster.ProvisionOrder, GitDocker.RunOrder and GitDocker.RSAKeyOrder: the
  key events are stated as none or those of a new pair, not which;
  GitDocker.RSAKeyGate and GitDocker.RSAKeyCreated say which one applies.
- Versioning.VersionIsMaximum: assumes the precedence is a strict weak
  order; it says nothing for an order that is not.
