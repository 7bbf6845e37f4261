/** internal/git/gitService.go: clone the two configuration repositories
    named in `config.json` into `<root>/tmp`, turn each into a fresh local
    repository at `<root>/<folder>` on a branch named after the cluster, and
    remove `<root>/tmp`. The path separator is `/`. */
module GitService {
  import opened Shell

  /** The decoded `config.json`. */
  datatype Configuration = Configuration(
    deployRepo: string, deployBranch: string,
    helmRepo: string, helmBranch: string)

  function TmpDir(root: string): string { root + "/tmp" }
  function ClonePath(root: string, folder: string): string { root + "/tmp/" + folder }
  function RepoPath(root: string, folder: string): string { root + "/" + folder }

  function CloneCmd(url: string, folder: string, branch: string, root: string): Event
  {
    Exec(TmpDir(root), ["git", "clone", "--branch", branch, url, folder])
  }

  /** `loadConfig`: a configuration that does not decode is fatal. Opening
      the file is not checked; a missing file shows up as a decode failure. */
  function LoadConfigSpec(m: Machine, config: Option<Configuration>): After
  {
    After(m, if config.Some? then Ok else Fatal)
  }

  /** `moveCloneIntoLocalRepo`: drop the clone's history, then rename the
      clone to `<root>/<folder>`; each failure is fatal. */
  function MoveCloneIntoLocalRepoSpec(o: Oracle, m: Machine, folder: string, root: string): After
  {
    var rm := Required(o, m, Exec(ClonePath(root, folder), ["rm", "-rf", ".git"]));
    if rm.status != Ok then rm
    else Required(o, rm.m, Rename(ClonePath(root, folder), RepoPath(root, folder)))
  }

  /** The four git commands that turn a directory into a fresh repository
      with one commit on branch `name`, each fatal on failure. */
  function InitLocalRepoSpec(o: Oracle, m: Machine, dir: string, name: string): After
  {
    var init := Required(o, m, Exec(dir, ["git", "init"]));
    if init.status != Ok then init
    else
      var switch := Required(o, init.m, Exec(dir, ["git", "switch", "-c", name]));
      if switch.status != Ok then switch
      else
        var add := Required(o, switch.m, Exec(dir, ["git", "add", "-A"]));
        if add.status != Ok then add
        else Required(o, add.m, Exec(dir, ["git", "commit", "-m", "\"INIT COMMIT\""]))
  }

  /** `setUpLocalGitFolder`: move the clone, then in `<root>/<folder>` run
      `git init`, `git switch -c <cluster>`, `git add -A` and `git commit`,
      each fatal on failure. */
  function SetUpLocalGitFolderSpec(o: Oracle, m: Machine, folder: string, root: string, name: string): After
  {
    var mv := MoveCloneIntoLocalRepoSpec(o, m, folder, root);
    if mv.status != Ok then mv
    else InitLocalRepoSpec(o, mv.m, RepoPath(root, folder), name)
  }

  /** `getGitRepo`: create `<root>/tmp`, clone into it, set the clone up as a
      local repository, and remove `<root>/tmp`; each failure is fatal. */
  function GetGitRepoSpec(o: Oracle, m: Machine, url: string, folder: string, branch: string, root: string, name: string): After
  {
    var mk := Required(o, m, MkdirAll(TmpDir(root), Mode0755));
    if mk.status != Ok then mk
    else CloneIntoTmpSpec(o, mk.m, url, folder, branch, root, name)
  }

  /** The steps of `getGitRepo` after `<root>/tmp` is created. */
  function CloneIntoTmpSpec(o: Oracle, m: Machine, url: string, folder: string, branch: string, root: string, name: string): After
  {
    var clone := Required(o, m, CloneCmd(url, folder, branch, root));
    if clone.status != Ok then clone
    else InstallCloneSpec(o, clone.m, folder, root, name)
  }

  /** The steps of `getGitRepo` after the clone: set it up, remove `<root>/tmp`. */
  function InstallCloneSpec(o: Oracle, m: Machine, folder: string, root: string, name: string): After
  {
    var setUp := SetUpLocalGitFolderSpec(o, m, folder, root, name);
    if setUp.status != Ok then setUp
    else Required(o, setUp.m, RemoveAll(TmpDir(root)))
  }

  function CreateAuxilaryConfigSpec(o: Oracle, m: Machine, config: Option<Configuration>, root: string, name: string): After
  {
    var load := LoadConfigSpec(m, config);
    if load.status != Ok then load
    else
      var c := config.value;
      var deploy := GetGitRepoSpec(o, m, c.deployRepo, "deploy", c.deployBranch, root, name);
      if deploy.status != Ok then deploy
      else GetGitRepoSpec(o, deploy.m, c.helmRepo, "helm", c.helmBranch, root, name)
  }

  function CreateAuxilaryConfigDeployOnlySpec(o: Oracle, m: Machine, config: Option<Configuration>, root: string, name: string): After
  {
    var load := LoadConfigSpec(m, config);
    if load.status != Ok then load
    else GetGitRepoSpec(o, m, config.value.deployRepo, "deploy", config.value.deployBranch, root, name)
  }

  function CreateAuxilaryConfigHelmOnlySpec(o: Oracle, m: Machine, config: Option<Configuration>, root: string, name: string): After
  {
    var load := LoadConfigSpec(m, config);
    if load.status != Ok then load
    else GetGitRepoSpec(o, m, config.value.helmRepo, "helm", config.value.helmBranch, root, name)
  }

  function MoveCloneEvents(root: string, folder: string): seq<Event>
  {
    [Exec(ClonePath(root, folder), ["rm", "-rf", ".git"]), Rename(ClonePath(root, folder), RepoPath(root, folder))]
  }

  function InitLocalRepoEvents(dir: string, name: string): seq<Event>
  {
    [Exec(dir, ["git", "init"]), Exec(dir, ["git", "switch", "-c", name]),
     Exec(dir, ["git", "add", "-A"]), Exec(dir, ["git", "commit", "-m", "\"INIT COMMIT\""])]
  }

  /** Every event `getGitRepo` issues when nothing fails, in order. */
  function GetGitRepoEvents(url: string, folder: string, branch: string, root: string, name: string): seq<Event>
  {
    [MkdirAll(TmpDir(root), Mode0755), CloneCmd(url, folder, branch, root)] +
    MoveCloneEvents(root, folder) + InitLocalRepoEvents(RepoPath(root, folder), name) +
    [RemoveAll(TmpDir(root))]
  }

  lemma MoveCloneIsSequence(o: Oracle, m: Machine, folder: string, root: string)
    ensures MoveCloneIntoLocalRepoSpec(o, m, folder, root) == RequiredAll(o, m, MoveCloneEvents(root, folder))
  {
    var es := MoveCloneEvents(root, folder);
    assert es == [es[0]] + ([es[1]] + []);
    RequiredAllCons(o, m, es[0], [es[1]] + []);
    RequiredAllCons(o, Required(o, m, es[0]).m, es[1], []);
  }

  lemma InitLocalRepoIsSequence(o: Oracle, m: Machine, dir: string, name: string)
    ensures InitLocalRepoSpec(o, m, dir, name) == RequiredAll(o, m, InitLocalRepoEvents(dir, name))
  {
    var es := InitLocalRepoEvents(dir, name);
    assert es == [es[0]] + ([es[1]] + ([es[2]] + ([es[3]] + [])));
    var a0 := Required(o, m, es[0]);
    var a1 := Required(o, a0.m, es[1]);
    var a2 := Required(o, a1.m, es[2]);
    RequiredAllCons(o, m, es[0], [es[1]] + ([es[2]] + ([es[3]] + [])));
    RequiredAllCons(o, a0.m, es[1], [es[2]] + ([es[3]] + []));
    RequiredAllCons(o, a1.m, es[2], [es[3]] + []);
    RequiredAllCons(o, a2.m, es[3], []);
  }

  /** `getGitRepo` is the fixed sequence `GetGitRepoEvents`, every step
      fatal on failure. */
  lemma GetGitRepoIsSequence(o: Oracle, m: Machine, url: string, folder: string, branch: string, root: string, name: string)
    ensures GetGitRepoSpec(o, m, url, folder, branch, root, name) ==
      RequiredAll(o, m, GetGitRepoEvents(url, folder, branch, root, name))
  {
    var mk, clone := MkdirAll(TmpDir(root), Mode0755), CloneCmd(url, folder, branch, root);
    var mv, init := MoveCloneEvents(root, folder), InitLocalRepoEvents(RepoPath(root, folder), name);
    var rm := [RemoveAll(TmpDir(root))];
    assert GetGitRepoEvents(url, folder, branch, root, name) == [mk] + ([clone] + ((mv + init) + rm));
    RequiredAllCons(o, m, mk, [clone] + ((mv + init) + rm));
    var a0 := Required(o, m, mk);
    RequiredAllCons(o, a0.m, clone, (mv + init) + rm);
    var a1 := Required(o, a0.m, clone);
    RequiredAllAppend(o, a1.m, mv + init, rm);
    RequiredAllAppend(o, a1.m, mv, init);
    MoveCloneIsSequence(o, a1.m, folder, root);
    var a2 := RequiredAll(o, a1.m, mv);
    InitLocalRepoIsSequence(o, a2.m, RepoPath(root, folder), name);
    var a3 := RequiredAll(o, a1.m, mv + init);
    RequiredAllCons(o, a3.m, RemoveAll(TmpDir(root)), []);
    assert rm == [RemoveAll(TmpDir(root))] + [];
  }

  /** The order of `getGitRepo`: its trace is always a prefix of
      `GetGitRepoEvents`, it stops at the first failure (every earlier
      step succeeded, and a `Fatal` run ends with the step that failed),
      and it is `Ok` exactly when all nine steps were issued and the last
      succeeded. The
      branch switched to in the new repository is the cluster name. */
  lemma GetGitRepoOrder(o: Oracle, m: Machine, url: string, folder: string, branch: string, root: string, name: string)
    ensures var a := GetGitRepoSpec(o, m, url, folder, branch, root, name);
      var es := GetGitRepoEvents(url, folder, branch, root, name);
      var n := |a.m.trace| - |m.trace|;
      |es| == 9 && es[5] == Exec(RepoPath(root, folder), ["git", "switch", "-c", name]) &&
      a.status in {Ok, Fatal} && 0 <= n <= 9 && a.m.trace == m.trace + es[..n] &&
      (forall j :: |m.trace| <= j < |a.m.trace| - 1 ==> o(j, a.m.trace[j]).ok) &&
      (a.status == Ok <==> n == 9 && o(|m.trace| + 8, es[8]).ok) &&
      (a.status == Fatal ==> n >= 1 && !o(|a.m.trace| - 1, a.m.trace[|a.m.trace| - 1]).ok)
  {
    GetGitRepoIsSequence(o, m, url, folder, branch, root, name);
    RequiredAllStopsAtFirstFailure(o, m, GetGitRepoEvents(url, folder, branch, root, name));
  }

  /** The clone lies in the temporary directory. */
  lemma CloneIsInTmp(p: string, root: string, folder: string)
    requires Under(p, ClonePath(root, folder)) || Under(p, ClonePath(root, folder) + "/.git")
    ensures Under(p, TmpDir(root))
  {
    assert ClonePath(root, folder) == TmpDir(root) + "/" + folder;
    if Under(p, ClonePath(root, folder) + "/.git") {
      UnderChild(p, ClonePath(root, folder), ".git");
    }
    UnderChild(p, TmpDir(root), folder);
  }

  /** The git commands change no path and no container, and every failure
      among them is fatal. */
  lemma InitLocalRepoKeepsWorld(o: Oracle, m: Machine, dir: string, name: string)
    ensures var a := InitLocalRepoSpec(o, m, dir, name);
      a.m.world == m.world && a.status != Panic
  {
    var w := m.world;
    assert ExecEffect(w, dir, ["git", "init"]) == w;
    assert ExecEffect(w, dir, ["git", "switch", "-c", name]) == w;
    assert ExecEffect(w, dir, ["git", "add", "-A"]) == w;
    assert ExecEffect(w, dir, ["git", "commit", "-m", "\"INIT COMMIT\""]) == w;
  }

  /** `rm -rf <name>` run in `dir` removes `<dir>/<name>` and what lies below. */
  lemma RemoveDirRemoves(w: World, dir: string, name: string)
    ensures ExecEffect(w, dir, ["rm", "-rf", name]) == w.(fs := RemoveTree(w.fs, InDir(dir, name)))
  {
  }

  /** Dropping the clone's history keeps the clone and every path outside
      it. */
  lemma DropHistoryKeeps(o: Oracle, m: Machine, folder: string, root: string, p: string)
    requires ClonePath(root, folder) in m.world.fs
    ensures var clone := ClonePath(root, folder);
      var w := Issue(o, m, Exec(clone, ["rm", "-rf", ".git"])).world;
      clone in w.fs && w.fs[clone] == m.world.fs[clone] &&
      (p in m.world.fs && !Under(p, clone) ==> p in w.fs && w.fs[p] == m.world.fs[p])
  {
    var clone := ClonePath(root, folder);
    RemoveDirRemoves(m.world, clone, ".git");
    assert !Under(clone, clone + "/.git");
    if Under(p, clone + "/.git") {
      UnderChild(p, clone, ".git");
    }
  }

  /** Moving the clone ends, when it succeeds, with `<root>/<folder>` what
      the clone was. Outside the clone it touches only the target. */
  lemma MoveCloneMoves(o: Oracle, m: Machine, folder: string, root: string, p: string)
    requires ClonePath(root, folder) in m.world.fs
    ensures var a := MoveCloneIntoLocalRepoSpec(o, m, folder, root);
      a.status != Panic &&
      (a.status == Ok ==> (RepoPath(root, folder) in a.m.world.fs &&
         a.m.world.fs[RepoPath(root, folder)] == m.world.fs[ClonePath(root, folder)])) &&
      (p in m.world.fs && !Under(p, ClonePath(root, folder)) ==>
         p in a.m.world.fs && (p != RepoPath(root, folder) ==> a.m.world.fs[p] == m.world.fs[p]))
  {
    DropHistoryKeeps(o, m, folder, root, p);
  }

  /** Setting up the clone ends, when it succeeds, with `<root>/<folder>`
      what the clone was, and touches no other path outside the clone. */
  lemma SetUpMovesClone(o: Oracle, m: Machine, folder: string, root: string, name: string, p: string)
    requires ClonePath(root, folder) in m.world.fs
    ensures var a := SetUpLocalGitFolderSpec(o, m, folder, root, name);
      a.status != Panic &&
      (a.status == Ok ==> (RepoPath(root, folder) in a.m.world.fs &&
         a.m.world.fs[RepoPath(root, folder)] == m.world.fs[ClonePath(root, folder)])) &&
      (p in m.world.fs && !Under(p, ClonePath(root, folder)) ==>
         p in a.m.world.fs && (p != RepoPath(root, folder) ==> a.m.world.fs[p] == m.world.fs[p]))
  {
    MoveCloneMoves(o, m, folder, root, p);
    var mv := MoveCloneIntoLocalRepoSpec(o, m, folder, root);
    InitLocalRepoKeepsWorld(o, mv.m, RepoPath(root, folder), name);
  }

  /** A successful clone adds the clone directory and changes nothing else. */
  lemma CloneLands(o: Oracle, m: Machine, url: string, folder: string, branch: string, root: string)
    requires o(|m.trace|, CloneCmd(url, folder, branch, root)).ok
    ensures Issue(o, m, CloneCmd(url, folder, branch, root)).world ==
      m.world.(fs := m.world.fs[ClonePath(root, folder) := Dir])
  {
    assert InDir(TmpDir(root), folder) == ClonePath(root, folder);
  }

  /** Installing a clone never panics; on success `<root>/<folder>` is what
      the clone was and nothing is left at or below `<root>/tmp`. */
  lemma InstallCloneSucceeds(o: Oracle, m: Machine, folder: string, root: string, name: string)
    requires ClonePath(root, folder) in m.world.fs && !Under(folder, "tmp")
    ensures var a := InstallCloneSpec(o, m, folder, root, name);
      a.status != Panic &&
      (a.status == Ok ==>
         RepoPath(root, folder) in a.m.world.fs && a.m.world.fs[RepoPath(root, folder)] == m.world.fs[ClonePath(root, folder)] &&
         forall q :: q in a.m.world.fs ==> !Under(q, TmpDir(root)))
  {
    SetUpMovesClone(o, m, folder, root, name, "");
    var setUp := SetUpLocalGitFolderSpec(o, m, folder, root, name);
    if setUp.status == Ok {
      RepoOutsideTmp(root, folder);
      RemoveTmpKeepsOutside(o, setUp.m, root, RepoPath(root, folder));
    }
  }

  /** A repository folder that is not `tmp` or below it lies outside
      `<root>/tmp`. */
  lemma RepoOutsideTmp(root: string, folder: string)
    requires !Under(folder, "tmp")
    ensures !Under(RepoPath(root, folder), TmpDir(root))
  {
    UnderSibling(root, folder, "tmp");
    assert TmpDir(root) == root + "/" + "tmp";
  }

  /** A successful removal of `<root>/tmp` keeps a path outside it and leaves
      nothing at or below it. */
  lemma RemoveTmpKeepsOutside(o: Oracle, m: Machine, root: string, p: string)
    requires p in m.world.fs && !Under(p, TmpDir(root))
    ensures var a := Required(o, m, RemoveAll(TmpDir(root)));
      a.status == Ok ==>
        p in a.m.world.fs && a.m.world.fs[p] == m.world.fs[p] &&
        forall q :: q in a.m.world.fs ==> !Under(q, TmpDir(root))
  {
    RemoveTmpLands(o, m, root);
  }

  /** A successful removal of `<root>/tmp` leaves exactly the paths outside it. */
  lemma RemoveTmpLands(o: Oracle, m: Machine, root: string)
    ensures var a := Required(o, m, RemoveAll(TmpDir(root)));
      a.status != Panic &&
      (a.status == Ok ==> a.m.world.fs == RemoveTree(m.world.fs, TmpDir(root))) &&
      (a.status == Fatal ==> a.m.world == m.world)
  {
  }

  /** Installing a clone keeps any path outside `<root>/tmp` other than the
      target. */
  lemma InstallCloneKeeps(o: Oracle, m: Machine, folder: string, root: string, name: string, p: string)
    requires ClonePath(root, folder) in m.world.fs
    requires p in m.world.fs && !Under(p, TmpDir(root)) && p != RepoPath(root, folder)
    ensures var a := InstallCloneSpec(o, m, folder, root, name);
      p in a.m.world.fs && a.m.world.fs[p] == m.world.fs[p]
  {
    if Under(p, ClonePath(root, folder)) {
      CloneIsInTmp(p, root, folder);
    }
    SetUpMovesClone(o, m, folder, root, name, p);
    var setUp := SetUpLocalGitFolderSpec(o, m, folder, root, name);
    if setUp.status == Ok {
      RemoveTmpLands(o, setUp.m, root);
    }
  }

  /** A fatal step while installing a clone leaves `<root>/tmp` in place. */
  lemma InstallCloneFailureLeavesTmp(o: Oracle, m: Machine, folder: string, root: string, name: string)
    requires ClonePath(root, folder) in m.world.fs && TmpDir(root) in m.world.fs
    ensures var a := InstallCloneSpec(o, m, folder, root, name);
      a.status == Fatal ==> TmpDir(root) in a.m.world.fs
  {
    assert !Under(TmpDir(root), ClonePath(root, folder));
    SetUpMovesClone(o, m, folder, root, name, TmpDir(root));
    var setUp := SetUpLocalGitFolderSpec(o, m, folder, root, name);
    if setUp.status == Ok {
      RemoveTmpLands(o, setUp.m, root);
    }
  }

  /** A successful `getGitRepo` leaves `<root>/<folder>` a directory and
      nothing at or below `<root>/tmp`, provided the folder is not itself
      the temporary directory or below it. */
  lemma GetGitRepoSucceeds(o: Oracle, m: Machine, url: string, folder: string, branch: string, root: string, name: string)
    requires !Under(folder, "tmp")
    ensures var a := GetGitRepoSpec(o, m, url, folder, branch, root, name);
      a.status != Panic &&
      (a.status == Ok ==>
         RepoPath(root, folder) in a.m.world.fs && a.m.world.fs[RepoPath(root, folder)] == Dir &&
         forall q :: q in a.m.world.fs ==> !Under(q, TmpDir(root)))
  {
    var mk := Required(o, m, MkdirAll(TmpDir(root), Mode0755));
    if mk.status == Ok && o(|mk.m.trace|, CloneCmd(url, folder, branch, root)).ok {
      CloneLands(o, mk.m, url, folder, branch, root);
      InstallCloneSucceeds(o, Issue(o, mk.m, CloneCmd(url, folder, branch, root)), folder, root, name);
    }
  }

  /** `getGitRepo` keeps every other path outside `<root>/tmp` as it was,
      whatever the replies. */
  lemma GetGitRepoKeeps(o: Oracle, m: Machine, url: string, folder: string, branch: string, root: string, name: string, p: string)
    requires p in m.world.fs && !Under(p, TmpDir(root)) && p != RepoPath(root, folder)
    ensures var a := GetGitRepoSpec(o, m, url, folder, branch, root, name);
      p in a.m.world.fs && a.m.world.fs[p] == m.world.fs[p]
  {
    assert Under(ClonePath(root, folder), TmpDir(root)) by {
      CloneIsInTmp(ClonePath(root, folder), root, folder);
    }
    var mk := Required(o, m, MkdirAll(TmpDir(root), Mode0755));
    if mk.status == Ok && o(|mk.m.trace|, CloneCmd(url, folder, branch, root)).ok {
      CloneLands(o, mk.m, url, folder, branch, root);
      InstallCloneKeeps(o, Issue(o, mk.m, CloneCmd(url, folder, branch, root)), folder, root, name, p);
    }
  }

  /** Once `<root>/tmp` was created, a fatal step leaves it behind: the
      temporary directory is removed only on the success path. */
  lemma GetGitRepoFailureLeavesTmp(o: Oracle, m: Machine, url: string, folder: string, branch: string, root: string, name: string)
    requires o(|m.trace|, MkdirAll(TmpDir(root), Mode0755)).ok
    ensures var a := GetGitRepoSpec(o, m, url, folder, branch, root, name);
      a.status == Fatal ==> TmpDir(root) in a.m.world.fs
  {
    var mk := Required(o, m, MkdirAll(TmpDir(root), Mode0755));
    if o(|mk.m.trace|, CloneCmd(url, folder, branch, root)).ok {
      CloneLands(o, mk.m, url, folder, branch, root);
      InstallCloneFailureLeavesTmp(o, Issue(o, mk.m, CloneCmd(url, folder, branch, root)), folder, root, name);
    }
  }

  /** Without a configuration nothing is issued. With one, success means both
      local repositories exist and no temporary path is left. */
  lemma CreateAuxilaryConfigOutcome(o: Oracle, m: Machine, config: Option<Configuration>, root: string, name: string)
    ensures var a := CreateAuxilaryConfigSpec(o, m, config, root, name);
      (config.None? ==> a == After(m, Fatal)) &&
      (a.status == Ok ==>
         RepoPath(root, "deploy") in a.m.world.fs && a.m.world.fs[RepoPath(root, "deploy")] == Dir &&
         RepoPath(root, "helm") in a.m.world.fs && a.m.world.fs[RepoPath(root, "helm")] == Dir &&
         forall q :: q in a.m.world.fs ==> !Under(q, TmpDir(root)))
  {
    if config.Some? {
      var c := config.value;
      assert !Under("deploy", "tmp");
      GetGitRepoSucceeds(o, m, c.deployRepo, "deploy", c.deployBranch, root, name);
      var deploy := GetGitRepoSpec(o, m, c.deployRepo, "deploy", c.deployBranch, root, name);
      if deploy.status == Ok {
        HelmAfterDeploy(o, deploy.m, c.helmRepo, c.helmBranch, root, name);
      }
    }
  }

  /** `createAuxilaryConfigDeployOnly`: a missing configuration is fatal
      before anything is issued; otherwise the step is exactly one fetch of
      the deploy repository, and when it succeeds `<root>/deploy` is a
      folder and nothing is left at or below `<root>/tmp`. */
  lemma CreateAuxilaryConfigDeployOnlyOutcome(o: Oracle, m: Machine, config: Option<Configuration>, root: string, name: string)
    ensures var a := CreateAuxilaryConfigDeployOnlySpec(o, m, config, root, name);
      (config.None? ==> a == After(m, Fatal)) &&
      (config.Some? ==>
         a == RequiredAll(o, m, GetGitRepoEvents(config.value.deployRepo, "deploy", config.value.deployBranch, root, name))) &&
      (a.status == Ok ==>
         RepoPath(root, "deploy") in a.m.world.fs && a.m.world.fs[RepoPath(root, "deploy")] == Dir &&
         forall q :: q in a.m.world.fs ==> !Under(q, TmpDir(root)))
  {
    if config.Some? {
      var c := config.value;
      assert !Under("deploy", "tmp");
      GetGitRepoIsSequence(o, m, c.deployRepo, "deploy", c.deployBranch, root, name);
      GetGitRepoSucceeds(o, m, c.deployRepo, "deploy", c.deployBranch, root, name);
    }
  }

  /** `createAuxilaryConfigHelmOnly`: the same with the Helm repository. */
  lemma CreateAuxilaryConfigHelmOnlyOutcome(o: Oracle, m: Machine, config: Option<Configuration>, root: string, name: string)
    ensures var a := CreateAuxilaryConfigHelmOnlySpec(o, m, config, root, name);
      (config.None? ==> a == After(m, Fatal)) &&
      (config.Some? ==>
         a == RequiredAll(o, m, GetGitRepoEvents(config.value.helmRepo, "helm", config.value.helmBranch, root, name))) &&
      (a.status == Ok ==>
         RepoPath(root, "helm") in a.m.world.fs && a.m.world.fs[RepoPath(root, "helm")] == Dir &&
         forall q :: q in a.m.world.fs ==> !Under(q, TmpDir(root)))
  {
    if config.Some? {
      var c := config.value;
      assert !Under("helm", "tmp");
      GetGitRepoIsSequence(o, m, c.helmRepo, "helm", c.helmBranch, root, name);
      GetGitRepoSucceeds(o, m, c.helmRepo, "helm", c.helmBranch, root, name);
    }
  }

  /** Fetching `helm` once `deploy` is in place: success leaves both and no
      temporary path. */
  lemma HelmAfterDeploy(o: Oracle, m: Machine, url: string, branch: string, root: string, name: string)
    requires RepoPath(root, "deploy") in m.world.fs && m.world.fs[RepoPath(root, "deploy")] == Dir
    ensures var a := GetGitRepoSpec(o, m, url, "helm", branch, root, name);
      a.status == Ok ==>
        RepoPath(root, "deploy") in a.m.world.fs && a.m.world.fs[RepoPath(root, "deploy")] == Dir &&
        RepoPath(root, "helm") in a.m.world.fs && a.m.world.fs[RepoPath(root, "helm")] == Dir &&
        forall q :: q in a.m.world.fs ==> !Under(q, TmpDir(root))
  {
    assert !Under("helm", "tmp");
    GetGitRepoSucceeds(o, m, url, "helm", branch, root, name);
    assert !Under(RepoPath(root, "deploy"), TmpDir(root)) by {
      UnderSibling(root, "deploy", "tmp");
      assert TmpDir(root) == root + "/" + "tmp";
    }
    assert RepoPath(root, "deploy") != RepoPath(root, "helm") by {
      assert |RepoPath(root, "deploy")| != |RepoPath(root, "helm")|;
    }
    GetGitRepoKeeps(o, m, url, "helm", branch, root, name, RepoPath(root, "deploy"));
  }


  method MoveCloneIntoLocalRepo(h: Host, folder: string, root: string) returns (s: Status)
    modifies h
    ensures After(h.State(), s) == MoveCloneIntoLocalRepoSpec(h.oracle, old(h.State()), folder, root)
  {
    s := h.Require(Exec(ClonePath(root, folder), ["rm", "-rf", ".git"]));
    if s != Ok {
      return;
    }
    s := h.Require(Rename(ClonePath(root, folder), RepoPath(root, folder)));
  }

  method InitLocalRepo(h: Host, dir: string, name: string) returns (s: Status)
    modifies h
    ensures After(h.State(), s) == InitLocalRepoSpec(h.oracle, old(h.State()), dir, name)
  {
    s := h.Require(Exec(dir, ["git", "init"]));
    if s != Ok {
      return;
    }
    s := h.Require(Exec(dir, ["git", "switch", "-c", name]));
    if s != Ok {
      return;
    }
    s := h.Require(Exec(dir, ["git", "add", "-A"]));
    if s != Ok {
      return;
    }
    s := h.Require(Exec(dir, ["git", "commit", "-m", "\"INIT COMMIT\""]));
  }

  method SetUpLocalGitFolder(h: Host, folder: string, root: string, name: string) returns (s: Status)
    modifies h
    ensures After(h.State(), s) == SetUpLocalGitFolderSpec(h.oracle, old(h.State()), folder, root, name)
  {
    s := MoveCloneIntoLocalRepo(h, folder, root);
    if s != Ok {
      return;
    }
    s := InitLocalRepo(h, RepoPath(root, folder), name);
  }

  method GetGitRepo(h: Host, url: string, folder: string, branch: string, root: string, name: string) returns (s: Status)
    modifies h
    ensures After(h.State(), s) == GetGitRepoSpec(h.oracle, old(h.State()), url, folder, branch, root, name)
  {
    s := h.Require(MkdirAll(TmpDir(root), Mode0755));
    if s != Ok {
      return;
    }
    ghost var cloning := h.State();
    s := h.Require(CloneCmd(url, folder, branch, root));
    if s != Ok {
      return;
    }
    ghost var cloned := h.State();
    s := SetUpLocalGitFolder(h, folder, root, name);
    if s != Ok {
      assert After(h.State(), s) == InstallCloneSpec(h.oracle, cloned, folder, root, name);
      return;
    }
    s := h.Require(RemoveAll(TmpDir(root)));
    assert After(h.State(), s) == InstallCloneSpec(h.oracle, cloned, folder, root, name);
    assert After(h.State(), s) == CloneIntoTmpSpec(h.oracle, cloning, url, folder, branch, root, name);
  }

  method CreateAuxilaryConfig(h: Host, config: Option<Configuration>, root: string, name: string) returns (s: Status)
    modifies h
    ensures After(h.State(), s) == CreateAuxilaryConfigSpec(h.oracle, old(h.State()), config, root, name)
  {
    if config.None? {
      return Fatal;
    }
    var c := config.value;
    s := GetGitRepo(h, c.deployRepo, "deploy", c.deployBranch, root, name);
    if s != Ok {
      return;
    }
    s := GetGitRepo(h, c.helmRepo, "helm", c.helmBranch, root, name);
  }

  method CreateAuxilaryConfigDeployOnly(h: Host, config: Option<Configuration>, root: string, name: string) returns (s: Status)
    modifies h
    ensures After(h.State(), s) == CreateAuxilaryConfigDeployOnlySpec(h.oracle, old(h.State()), config, root, name)
  {
    if config.None? {
      return Fatal;
    }
    s := GetGitRepo(h, config.value.deployRepo, "deploy", config.value.deployBranch, root, name);
  }

  method CreateAuxilaryConfigHelmOnly(h: Host, config: Option<Configuration>, root: string, name: string) returns (s: Status)
    modifies h
    ensures After(h.State(), s) == CreateAuxilaryConfigHelmOnlySpec(h.oracle, old(h.State()), config, root, name)
  {
    if config.None? {
      return Fatal;
    }
    s := GetGitRepo(h, config.value.helmRepo, "helm", config.value.helmBranch, root, name);
  }
}
