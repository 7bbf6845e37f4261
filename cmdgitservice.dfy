/** cmd/gitService.go: the command package's own copy of the configuration
    fetch. The repositories and branches are constants instead of
    `config.json`, and the temporary directory is created once before the
    fetches and removed once after them. Moving the clone and setting it up
    as a local repository are the same steps as in `GitService`
    (`GitService.MoveCloneIntoLocalRepoSpec`, `GitService.SetUpLocalGitFolderSpec`). */
module CmdGitService {
  import opened Shell
  import GitService

  const DeployRepo := "https://automotivemastermind@dev.azure.com/automotivemastermind/aM/_git/am.devops.deploy"
  const DeployBranch := "local"
  const HelmRepo := "https://automotivemastermind@dev.azure.com/automotivemastermind/aM/_git/am.devops.helm"
  const HelmBranch := "local"

  function CreateTmpCmd(root: string): Event { MkdirAll(GitService.TmpDir(root), Mode0755) }
  function CleanTmpCmd(root: string): Event { Exec(root, ["rm", "-rf", "tmp"]) }

  /** `createTmp`: `MkdirAll(<root>/tmp)`, fatal on failure. */
  function CreateTmpSpec(o: Oracle, m: Machine, root: string): After
  {
    Required(o, m, CreateTmpCmd(root))
  }

  /** `cleanTmp`: `rm -rf tmp` in `<root>`, fatal on failure. */
  function CleanTmpSpec(o: Oracle, m: Machine, root: string): After
  {
    Required(o, m, CleanTmpCmd(root))
  }

  /** `getGitRepo`: clone into `<root>/tmp` (fatal on failure) and set the
      clone up; the temporary directory is left to the caller. */
  function GetGitRepoSpec(o: Oracle, m: Machine, url: string, folder: string, branch: string, root: string, name: string): After
  {
    var clone := Required(o, m, GitService.CloneCmd(url, folder, branch, root));
    if clone.status != Ok then clone
    else GitService.SetUpLocalGitFolderSpec(o, clone.m, folder, root, name)
  }

  function CreateAuxilaryConfigSpec(o: Oracle, m: Machine, root: string, name: string): After
  {
    var tmp := CreateTmpSpec(o, m, root);
    if tmp.status != Ok then tmp
    else
      var deploy := GetGitRepoSpec(o, tmp.m, DeployRepo, "deploy", DeployBranch, root, name);
      if deploy.status != Ok then deploy
      else
        var helm := GetGitRepoSpec(o, deploy.m, HelmRepo, "helm", HelmBranch, root, name);
        if helm.status != Ok then helm
        else CleanTmpSpec(o, helm.m, root)
  }

  function CreateAuxilaryConfigDeployOnlySpec(o: Oracle, m: Machine, root: string, name: string): After
  {
    var tmp := CreateTmpSpec(o, m, root);
    if tmp.status != Ok then tmp
    else
      var deploy := GetGitRepoSpec(o, tmp.m, DeployRepo, "deploy", DeployBranch, root, name);
      if deploy.status != Ok then deploy
      else CleanTmpSpec(o, deploy.m, root)
  }

  function CreateAuxilaryConfigHelmOnlySpec(o: Oracle, m: Machine, root: string, name: string): After
  {
    var tmp := CreateTmpSpec(o, m, root);
    if tmp.status != Ok then tmp
    else
      var helm := GetGitRepoSpec(o, tmp.m, HelmRepo, "helm", HelmBranch, root, name);
      if helm.status != Ok then helm
      else CleanTmpSpec(o, helm.m, root)
  }

  /** The events of one fetch when nothing fails: no creation or removal of
      the temporary directory among them. */
  function FetchEvents(url: string, folder: string, branch: string, root: string, name: string): seq<Event>
  {
    [GitService.CloneCmd(url, folder, branch, root)] + GitService.MoveCloneEvents(root, folder) +
    GitService.InitLocalRepoEvents(GitService.RepoPath(root, folder), name)
  }

  function CreateAuxilaryConfigEvents(root: string, name: string): seq<Event>
  {
    [CreateTmpCmd(root)] + FetchEvents(DeployRepo, "deploy", DeployBranch, root, name) +
    FetchEvents(HelmRepo, "helm", HelmBranch, root, name) + [CleanTmpCmd(root)]
  }

  /** The events of `CreateAuxilaryConfigDeployOnly` and `HelmOnly` when
      nothing fails: the temporary directory, one fetch, its removal. */
  function SingleFetchEvents(url: string, folder: string, branch: string, root: string, name: string): seq<Event>
  {
    [CreateTmpCmd(root)] + FetchEvents(url, folder, branch, root, name) + [CleanTmpCmd(root)]
  }

  lemma GetGitRepoIsSequence(o: Oracle, m: Machine, url: string, folder: string, branch: string, root: string, name: string)
    ensures GetGitRepoSpec(o, m, url, folder, branch, root, name) ==
      RequiredAll(o, m, FetchEvents(url, folder, branch, root, name))
  {
    var clone := GitService.CloneCmd(url, folder, branch, root);
    var mv := GitService.MoveCloneEvents(root, folder);
    var init := GitService.InitLocalRepoEvents(GitService.RepoPath(root, folder), name);
    assert FetchEvents(url, folder, branch, root, name) == [clone] + (mv + init);
    RequiredAllCons(o, m, clone, mv + init);
    var a := Required(o, m, clone);
    RequiredAllAppend(o, a.m, mv, init);
    GitService.MoveCloneIsSequence(o, a.m, folder, root);
    GitService.InitLocalRepoIsSequence(o, RequiredAll(o, a.m, mv).m, GitService.RepoPath(root, folder), name);
  }

  /** `CreateAuxilaryConfig` is the fixed sequence `CreateAuxilaryConfigEvents`,
      every step fatal on failure. */
  lemma CreateAuxilaryConfigIsSequence(o: Oracle, m: Machine, root: string, name: string)
    ensures CreateAuxilaryConfigSpec(o, m, root, name) == RequiredAll(o, m, CreateAuxilaryConfigEvents(root, name))
  {
    var deploy := FetchEvents(DeployRepo, "deploy", DeployBranch, root, name);
    var helm := FetchEvents(HelmRepo, "helm", HelmBranch, root, name);
    var clean := [CleanTmpCmd(root)];
    assert CreateAuxilaryConfigEvents(root, name) == [CreateTmpCmd(root)] + (deploy + (helm + clean));
    RequiredAllCons(o, m, CreateTmpCmd(root), deploy + (helm + clean));
    var a0 := Required(o, m, CreateTmpCmd(root));
    RequiredAllAppend(o, a0.m, deploy, helm + clean);
    GetGitRepoIsSequence(o, a0.m, DeployRepo, "deploy", DeployBranch, root, name);
    var a1 := RequiredAll(o, a0.m, deploy);
    RequiredAllAppend(o, a1.m, helm, clean);
    GetGitRepoIsSequence(o, a1.m, HelmRepo, "helm", HelmBranch, root, name);
    var a2 := RequiredAll(o, a1.m, helm);
    RequiredAllCons(o, a2.m, CleanTmpCmd(root), []);
    assert clean == [CleanTmpCmd(root)] + [];
  }

  /** `tmp`, one fetch and `cleanTmp`, each step fatal on failure, are the
      fixed sequence `SingleFetchEvents`. */
  lemma SingleFetchIsSequence(o: Oracle, m: Machine, url: string, folder: string, branch: string, root: string, name: string)
    ensures var tmp := CreateTmpSpec(o, m, root);
      var fetch := GetGitRepoSpec(o, tmp.m, url, folder, branch, root, name);
      (if tmp.status != Ok then tmp else if fetch.status != Ok then fetch else CleanTmpSpec(o, fetch.m, root)) ==
        RequiredAll(o, m, SingleFetchEvents(url, folder, branch, root, name))
  {
    var fetch := FetchEvents(url, folder, branch, root, name);
    var clean := [CleanTmpCmd(root)];
    assert SingleFetchEvents(url, folder, branch, root, name) == [CreateTmpCmd(root)] + (fetch + clean);
    RequiredAllCons(o, m, CreateTmpCmd(root), fetch + clean);
    var a0 := Required(o, m, CreateTmpCmd(root));
    RequiredAllAppend(o, a0.m, fetch, clean);
    GetGitRepoIsSequence(o, a0.m, url, folder, branch, root, name);
    var a1 := RequiredAll(o, a0.m, fetch);
    RequiredAllCons(o, a1.m, CleanTmpCmd(root), []);
    assert clean == [CleanTmpCmd(root)] + [];
  }

  /** `CreateAuxilaryConfigDeployOnly` is `SingleFetchEvents` for the deploy
      repository: `tmp`, the deploy fetch, `cleanTmp`, and nothing else. */
  lemma CreateAuxilaryConfigDeployOnlyIsSequence(o: Oracle, m: Machine, root: string, name: string)
    ensures CreateAuxilaryConfigDeployOnlySpec(o, m, root, name) ==
      RequiredAll(o, m, SingleFetchEvents(DeployRepo, "deploy", DeployBranch, root, name))
  {
    SingleFetchIsSequence(o, m, DeployRepo, "deploy", DeployBranch, root, name);
  }

  /** `CreateAuxilaryConfigHelmOnly` is `SingleFetchEvents` for the Helm
      repository. */
  lemma CreateAuxilaryConfigHelmOnlyIsSequence(o: Oracle, m: Machine, root: string, name: string)
    ensures CreateAuxilaryConfigHelmOnlySpec(o, m, root, name) ==
      RequiredAll(o, m, SingleFetchEvents(HelmRepo, "helm", HelmBranch, root, name))
  {
    SingleFetchIsSequence(o, m, HelmRepo, "helm", HelmBranch, root, name);
  }

  /** In a single fetch the temporary directory is created once, first, and
      removed once, last. */
  lemma SingleFetchShape(url: string, folder: string, branch: string, root: string, name: string)
    ensures var es := SingleFetchEvents(url, folder, branch, root, name);
      |es| == 9 && es[0] == CreateTmpCmd(root) && es[8] == CleanTmpCmd(root) &&
      forall i :: 0 < i < 8 ==> !es[i].MkdirAll? && es[i] != CleanTmpCmd(root)
  {
  }

  /** The temporary directory is created once, first, and removed once,
      last; the fetches in between neither create nor remove it. */
  lemma TmpCreatedOnceRemovedOnce(root: string, name: string)
    ensures var es := CreateAuxilaryConfigEvents(root, name);
      |es| == 16 && es[0] == CreateTmpCmd(root) && es[15] == CleanTmpCmd(root) &&
      forall i :: 0 < i < 15 ==> !es[i].MkdirAll? && es[i] != CleanTmpCmd(root)
  {
  }

  /** One fetch: on success `<root>/<folder>` is a directory; any path neither
      below the clone nor the target is kept, whatever the replies. */
  lemma FetchSetsUpRepo(o: Oracle, m: Machine, url: string, folder: string, branch: string, root: string, name: string, p: string)
    ensures var a := GetGitRepoSpec(o, m, url, folder, branch, root, name);
      a.status != Panic &&
      (a.status == Ok ==> (GitService.RepoPath(root, folder) in a.m.world.fs &&
         a.m.world.fs[GitService.RepoPath(root, folder)] == Dir)) &&
      (p in m.world.fs && !Under(p, GitService.ClonePath(root, folder)) && p != GitService.RepoPath(root, folder) ==>
         p in a.m.world.fs && a.m.world.fs[p] == m.world.fs[p])
  {
    if o(|m.trace|, GitService.CloneCmd(url, folder, branch, root)).ok {
      GitService.CloneLands(o, m, url, folder, branch, root);
      GitService.SetUpMovesClone(o, Issue(o, m, GitService.CloneCmd(url, folder, branch, root)), folder, root, name, p);
    }
  }

  /** After a successful `CreateAuxilaryConfig`, both local repositories are
      directories and nothing is left at or below `<root>/tmp`. */
  lemma CreateAuxilaryConfigSucceeds(o: Oracle, m: Machine, root: string, name: string)
    requires root != ""
    ensures var a := CreateAuxilaryConfigSpec(o, m, root, name);
      a.status != Panic &&
      (a.status == Ok ==>
         GitService.RepoPath(root, "deploy") in a.m.world.fs && a.m.world.fs[GitService.RepoPath(root, "deploy")] == Dir &&
         GitService.RepoPath(root, "helm") in a.m.world.fs && a.m.world.fs[GitService.RepoPath(root, "helm")] == Dir &&
         forall q :: q in a.m.world.fs ==> !Under(q, GitService.TmpDir(root)))
  {
    var tmp := CreateTmpSpec(o, m, root);
    if tmp.status == Ok {
      FetchSetsUpRepo(o, tmp.m, DeployRepo, "deploy", DeployBranch, root, name, "");
      var deploy := GetGitRepoSpec(o, tmp.m, DeployRepo, "deploy", DeployBranch, root, name);
      if deploy.status == Ok {
        HelmThenClean(o, deploy.m, root, name);
      }
    }
  }

  /** One fetch then `cleanTmp`: on success `<root>/<folder>` is a directory
      and nothing is left at or below `<root>/tmp`. */
  lemma FetchThenClean(o: Oracle, m: Machine, url: string, folder: string, branch: string, root: string, name: string)
    requires root != "" && !Under(folder, "tmp")
    ensures var fetch := GetGitRepoSpec(o, m, url, folder, branch, root, name);
      var a := CleanTmpSpec(o, fetch.m, root);
      fetch.status == Ok && a.status == Ok ==>
        GitService.RepoPath(root, folder) in a.m.world.fs && a.m.world.fs[GitService.RepoPath(root, folder)] == Dir &&
        forall q :: q in a.m.world.fs ==> !Under(q, GitService.TmpDir(root))
  {
    FetchSetsUpRepo(o, m, url, folder, branch, root, name, "");
    var fetch := GetGitRepoSpec(o, m, url, folder, branch, root, name);
    if fetch.status == Ok {
      CleanTmpLands(o, fetch.m, root);
      UnderSibling(root, folder, "tmp");
      assert GitService.TmpDir(root) == root + "/" + "tmp";
    }
  }

  /** After a successful `CreateAuxilaryConfigDeployOnly`, `<root>/deploy` is
      a directory and nothing is left at or below `<root>/tmp`. */
  lemma CreateAuxilaryConfigDeployOnlySucceeds(o: Oracle, m: Machine, root: string, name: string)
    requires root != ""
    ensures var a := CreateAuxilaryConfigDeployOnlySpec(o, m, root, name);
      a.status != Panic &&
      (a.status == Ok ==>
         GitService.RepoPath(root, "deploy") in a.m.world.fs && a.m.world.fs[GitService.RepoPath(root, "deploy")] == Dir &&
         forall q :: q in a.m.world.fs ==> !Under(q, GitService.TmpDir(root)))
  {
    var tmp := CreateTmpSpec(o, m, root);
    if tmp.status == Ok {
      assert !Under("deploy", "tmp");
      FetchSetsUpRepo(o, tmp.m, DeployRepo, "deploy", DeployBranch, root, name, "");
      FetchThenClean(o, tmp.m, DeployRepo, "deploy", DeployBranch, root, name);
    }
  }

  /** After a successful `CreateAuxilaryConfigHelmOnly`, `<root>/helm` is a
      directory and nothing is left at or below `<root>/tmp`. */
  lemma CreateAuxilaryConfigHelmOnlySucceeds(o: Oracle, m: Machine, root: string, name: string)
    requires root != ""
    ensures var a := CreateAuxilaryConfigHelmOnlySpec(o, m, root, name);
      a.status != Panic &&
      (a.status == Ok ==>
         GitService.RepoPath(root, "helm") in a.m.world.fs && a.m.world.fs[GitService.RepoPath(root, "helm")] == Dir &&
         forall q :: q in a.m.world.fs ==> !Under(q, GitService.TmpDir(root)))
  {
    var tmp := CreateTmpSpec(o, m, root);
    if tmp.status == Ok {
      assert !Under("helm", "tmp");
      FetchSetsUpRepo(o, tmp.m, HelmRepo, "helm", HelmBranch, root, name, "");
      FetchThenClean(o, tmp.m, HelmRepo, "helm", HelmBranch, root, name);
    }
  }

  /** The second half of `CreateAuxilaryConfig`: with `<root>/deploy` a
      directory, fetching `helm` and removing `tmp` ends, on success, with
      both repositories directories and nothing below `<root>/tmp`. */
  lemma HelmThenClean(o: Oracle, m: Machine, root: string, name: string)
    requires root != ""
    requires GitService.RepoPath(root, "deploy") in m.world.fs && m.world.fs[GitService.RepoPath(root, "deploy")] == Dir
    ensures var helm := GetGitRepoSpec(o, m, HelmRepo, "helm", HelmBranch, root, name);
      var a := CleanTmpSpec(o, helm.m, root);
      helm.status == Ok && a.status == Ok ==>
         GitService.RepoPath(root, "deploy") in a.m.world.fs && a.m.world.fs[GitService.RepoPath(root, "deploy")] == Dir &&
         GitService.RepoPath(root, "helm") in a.m.world.fs && a.m.world.fs[GitService.RepoPath(root, "helm")] == Dir &&
         forall q :: q in a.m.world.fs ==> !Under(q, GitService.TmpDir(root))
  {
    var deployRepo, helmRepo := GitService.RepoPath(root, "deploy"), GitService.RepoPath(root, "helm");
    assert |deployRepo| != |helmRepo|;
    UnderSibling(root, "deploy", "tmp");
    UnderSibling(root, "helm", "tmp");
    assert GitService.TmpDir(root) == root + "/" + "tmp";
    if Under(deployRepo, GitService.ClonePath(root, "helm")) {
      GitService.CloneIsInTmp(deployRepo, root, "helm");
    }
    FetchSetsUpRepo(o, m, HelmRepo, "helm", HelmBranch, root, name, deployRepo);
    var helm := GetGitRepoSpec(o, m, HelmRepo, "helm", HelmBranch, root, name);
    if helm.status == Ok {
      CleanTmpLands(o, helm.m, root);
    }
  }

  /** `cleanTmp` removes exactly `<root>/tmp` and what lies below it. */
  lemma CleanTmpLands(o: Oracle, m: Machine, root: string)
    requires root != ""
    ensures var a := CleanTmpSpec(o, m, root);
      a.status != Panic &&
      (a.status == Ok ==> a.m.world.fs == RemoveTree(m.world.fs, GitService.TmpDir(root))) &&
      (a.status == Fatal ==> a.m.world == m.world)
  {
    assert InDir(root, "tmp") == GitService.TmpDir(root);
  }

  /** Once `<root>/tmp` was created, a fatal clone or set-up step skips
      `cleanTmp` and leaves the temporary directory behind. */
  lemma CreateAuxilaryConfigFailureLeavesTmp(o: Oracle, m: Machine, root: string, name: string)
    requires o(|m.trace|, CreateTmpCmd(root)).ok
    ensures var a := CreateAuxilaryConfigSpec(o, m, root, name);
      a.status == Fatal ==> GitService.TmpDir(root) in a.m.world.fs
  {
    var t := GitService.TmpDir(root);
    var tmp := CreateTmpSpec(o, m, root);
    assert !Under(t, GitService.ClonePath(root, "deploy")) && t != GitService.RepoPath(root, "deploy");
    assert !Under(t, GitService.ClonePath(root, "helm")) && t != GitService.RepoPath(root, "helm");
    FetchSetsUpRepo(o, tmp.m, DeployRepo, "deploy", DeployBranch, root, name, t);
    var deploy := GetGitRepoSpec(o, tmp.m, DeployRepo, "deploy", DeployBranch, root, name);
    FetchSetsUpRepo(o, deploy.m, HelmRepo, "helm", HelmBranch, root, name, t);
  }

  method CreateTmp(h: Host, root: string) returns (s: Status)
    modifies h
    ensures After(h.State(), s) == CreateTmpSpec(h.oracle, old(h.State()), root)
  {
    s := h.Require(CreateTmpCmd(root));
  }

  method CleanTmp(h: Host, root: string) returns (s: Status)
    modifies h
    ensures After(h.State(), s) == CleanTmpSpec(h.oracle, old(h.State()), root)
  {
    s := h.Require(CleanTmpCmd(root));
  }

  method GetGitRepo(h: Host, url: string, folder: string, branch: string, root: string, name: string) returns (s: Status)
    modifies h
    ensures After(h.State(), s) == GetGitRepoSpec(h.oracle, old(h.State()), url, folder, branch, root, name)
  {
    s := h.Require(GitService.CloneCmd(url, folder, branch, root));
    if s != Ok {
      return;
    }
    s := GitService.SetUpLocalGitFolder(h, folder, root, name);
  }

  method CreateAuxilaryConfig(h: Host, root: string, name: string) returns (s: Status)
    modifies h
    ensures After(h.State(), s) == CreateAuxilaryConfigSpec(h.oracle, old(h.State()), root, name)
  {
    s := CreateTmp(h, root);
    if s != Ok {
      return;
    }
    s := GetGitRepo(h, DeployRepo, "deploy", DeployBranch, root, name);
    if s != Ok {
      return;
    }
    s := GetGitRepo(h, HelmRepo, "helm", HelmBranch, root, name);
    if s != Ok {
      return;
    }
    s := CleanTmp(h, root);
  }

  method CreateAuxilaryConfigDeployOnly(h: Host, root: string, name: string) returns (s: Status)
    modifies h
    ensures After(h.State(), s) == CreateAuxilaryConfigDeployOnlySpec(h.oracle, old(h.State()), root, name)
  {
    s := CreateTmp(h, root);
    if s != Ok {
      return;
    }
    s := GetGitRepo(h, DeployRepo, "deploy", DeployBranch, root, name);
    if s != Ok {
      return;
    }
    s := CleanTmp(h, root);
  }

  method CreateAuxilaryConfigHelmOnly(h: Host, root: string, name: string) returns (s: Status)
    modifies h
    ensures After(h.State(), s) == CreateAuxilaryConfigHelmOnlySpec(h.oracle, old(h.State()), root, name)
  {
    s := CreateTmp(h, root);
    if s != Ok {
      return;
    }
    s := GetGitRepo(h, HelmRepo, "helm", HelmBranch, root, name);
    if s != Ok {
      return;
    }
    s := CleanTmp(h, root);
  }
}
