/** cmd/cluster.go: `condo create cluster`. It checks the tool dependencies,
    locates (or creates) the workspace `~/.am/clusters/<name>`, refuses a
    cluster that `kind` already lists, creates the cluster and then
    provisions it: namespaces, policies, ingress, the git server and its
    key, the in-cluster git service, sealed secrets and the GitOps
    operator. */
module Cluster {
  import opened Shell
  import Text
  import Docker
  import GitDocker
  import Flux

  /** The command-line options, with their defaults. */
  datatype ClusterOptions = ClusterOptions(name: string, image: string, version: string)

  const DefaultOptions := ClusterOptions("local", "kindest/node", "v1.16.15")

  /** The workspace of cluster `name` under the home directory `home`. */
  function RootPath(home: string, name: string): string
  {
    home + "/.am/clusters/" + name
  }

  /** The workspace lies in `<home>/.am/clusters`, and distinct cluster names
      have distinct workspaces. */
  lemma RootPathSeparatesClusters(home: string, a: string, b: string)
    ensures Under(RootPath(home, a), home + "/.am/clusters")
    ensures RootPath(home, a) == RootPath(home, b) <==> a == b
  {
    var prefix := home + "/.am/clusters/";
    assert RootPath(home, a) == (home + "/.am/clusters") + "/" + a;
    assert RootPath(home, a)[|prefix|..] == a;
    assert RootPath(home, b)[|prefix|..] == b;
  }

  // ---- Dependencies ----

  function DependencyProbes(): seq<Event>
  {
    [LookPath("kind"), LookPath("git"), LookPath("kubectl"), LookPath("helm"), LookPath("docker")]
  }

  /** `checkExecExists`: a tool that is not on the search path panics. */
  function CheckExecExistsSpec(o: Oracle, m: Machine, executable: string): After
  {
    After(Issue(o, m, LookPath(executable)), if ReplyTo(o, m, LookPath(executable)).ok then Ok else Panic)
  }

  /** `checkExecDependencies`: kind, git, kubectl, helm, docker, in order. */
  function CheckExecDependenciesSpec(o: Oracle, m: Machine): After
  {
    var kind := CheckExecExistsSpec(o, m, "kind");
    if kind.status != Ok then kind
    else
      var git := CheckExecExistsSpec(o, kind.m, "git");
      if git.status != Ok then git
      else
        var kubectl := CheckExecExistsSpec(o, git.m, "kubectl");
        if kubectl.status != Ok then kubectl
        else
          var helm := CheckExecExistsSpec(o, kubectl.m, "helm");
          if helm.status != Ok then helm
          else CheckExecExistsSpec(o, helm.m, "docker")
  }

  /** The tools are looked up in the fixed order, the first missing one
      panics, and nothing in the world changes. */
  lemma DependenciesProbedInOrder(o: Oracle, m: Machine)
    ensures var a := CheckExecDependenciesSpec(o, m);
      var k := |m.trace|;
      var n := |a.m.trace| - k;
      a.m.world == m.world && a.status in {Ok, Panic} && 1 <= n <= 5 &&
      a.m.trace == m.trace + DependencyProbes()[..n] &&
      (forall i :: 0 <= i < n - 1 ==> o(k + i, DependencyProbes()[i]).ok) &&
      (a.status == Ok <==> n == 5 && o(k + 4, LookPath("docker")).ok) &&
      (a.status == Panic ==> !o(k + n - 1, DependencyProbes()[n - 1]).ok)
  {
    var ps := DependencyProbes();
    assert ps[..1] == [ps[0]] && ps[..2] == [ps[0], ps[1]] && ps[..3] == [ps[0], ps[1], ps[2]];
    assert ps[..4] == [ps[0], ps[1], ps[2], ps[3]] && ps[..5] == ps;
  }

  // ---- Workspace ----

  /** The outcome of `clusterConfigExists`: whether the workspace existed,
      and the workspace path it assigned. */
  datatype ConfigLookup = ConfigLookup(m: Machine, status: Status, present: bool, root: string)

  /** `clusterConfigExists`: the home directory (fatal when unknown) fixes the
      workspace path; an absent workspace is created with one `Mkdir` (fatal
      on failure) and reported as new, a present one is reported as
      existing and left alone. */
  function ClusterConfigExistsSpec(o: Oracle, m: Machine, name: string, root0: string): ConfigLookup
  {
    var home := ReplyTo(o, m, HomeDir);
    var located := Required(o, m, HomeDir);
    if located.status != Ok then ConfigLookup(located.m, Fatal, false, root0)
    else
      var root := RootPath(home.out, name);
      if IsNotExist(Stat(located.m.world.fs, root)) then
        var mk := Required(o, located.m, Mkdir(root, Mode0755));
        ConfigLookup(mk.m, mk.status, false, root)
      else ConfigLookup(located.m, Ok, true, root)
  }

  /** The workspace is reported as existing exactly when it was present, in
      which case nothing changes; otherwise it is created, and only then. */
  lemma ClusterConfigExistsOutcome(o: Oracle, m: Machine, name: string, root0: string)
    ensures var c := ClusterConfigExistsSpec(o, m, name, root0);
      var k := |m.trace|;
      var root := RootPath(o(k, HomeDir).out, name);
      c.status != Panic &&
      (!o(k, HomeDir).ok ==> c.status == Fatal && c.m == Machine(m.trace + [HomeDir], m.world)) &&
      (o(k, HomeDir).ok ==>
        c.root == root &&
        (c.present <==> root in m.world.fs) &&
        (c.present ==> c.status == Ok && c.m == Machine(m.trace + [HomeDir], m.world)) &&
        (!c.present ==>
           c.m.trace == m.trace + [HomeDir, Mkdir(root, Mode0755)] &&
           (c.status == Ok <==> o(k + 1, Mkdir(root, Mode0755)).ok) &&
           (c.status == Ok ==> c.m.world == m.world.(fs := m.world.fs[root := Dir]))))
  {
  }

  // ---- Cluster listing ----

  function ListClustersCmd(): Event
  {
    Exec("", ["kind", "get", "clusters"])
  }

  /** The loop of `isClusterRunning` over the lines of `kind get clusters`. */
  method ListsCluster(out: string, name: string) returns (found: bool)
    ensures found <==> name in Text.Split(out, '\n')
  {
    var clusters := Text.Split(out, '\n');
    var i := 0;
    while i < |clusters|
      invariant 0 <= i <= |clusters|
      invariant name !in clusters[..i]
    {
      if clusters[i] == name {
        return true;
      }
      i := i + 1;
    }
    assert clusters[..i] == clusters;
    return false;
  }

  /** `isClusterRunning`: fatal when the listing fails; otherwise whether the
      name is one of its lines. */
  function IsClusterRunningSpec(o: Oracle, m: Machine, name: string): Answer
  {
    var listing := ReplyTo(o, m, ListClustersCmd());
    var a := Required(o, m, ListClustersCmd());
    Answer(a.m, a.status, listing.ok && name in Text.Split(listing.out, '\n'))
  }

  /** The cluster counts as running exactly when the listing succeeds and
      the name is one whole line of its output: no trimming, no prefix
      match. */
  lemma IsClusterRunningMeansListed(o: Oracle, m: Machine, name: string)
    ensures var a := IsClusterRunningSpec(o, m, name);
      var listing := o(|m.trace|, ListClustersCmd());
      a.m == Machine(m.trace + [ListClustersCmd()], m.world) &&
      (a.status == Fatal <==> !listing.ok) && a.status != Panic &&
      (a.yes <==> listing.ok && Text.IsLineOf(listing.out, name))
  {
    Text.LinesAreSplitPieces(o(|m.trace|, ListClustersCmd()).out, name);
  }

  // ---- Cluster creation ----

  function KindCreateCmd(opts: ClusterOptions, root: string): Event
  {
    Exec("", ["kind", "create", "cluster", "--image=" + opts.image + ":" + opts.version,
              "--name=" + opts.name, "--config=" + root + "/cluster/config.yaml"])
  }

  function ClusterInfoCmd(name: string): Event
  {
    Exec("", ["kubectl", "cluster-info", "--context", "kind-" + name])
  }

  /** `createCluster`: `kind create cluster`, whose failure is fatal only on
      Windows (elsewhere it runs on a terminal and its error is dropped),
      then the context check, fatal on failure. */
  function CreateClusterSpec(o: Oracle, m: Machine, opts: ClusterOptions, root: string, onWindows: bool): After
  {
    var create := if onWindows then Required(o, m, KindCreateCmd(opts, root))
                  else Tolerated(o, m, KindCreateCmd(opts, root));
    if create.status != Ok then create
    else Required(o, create.m, ClusterInfoCmd(opts.name))
  }

  /** Away from Windows a failed `kind create cluster` goes unnoticed and the
      context check decides; on Windows it is fatal by itself. */
  lemma CreateClusterFailureRule(o: Oracle, m: Machine, opts: ClusterOptions, root: string, onWindows: bool)
    ensures var a := CreateClusterSpec(o, m, opts, root, onWindows);
      var k := |m.trace|;
      a.status != Panic &&
      (onWindows && !o(k, KindCreateCmd(opts, root)).ok ==>
         a.status == Fatal && a.m.trace == m.trace + [KindCreateCmd(opts, root)]) &&
      (!onWindows || o(k, KindCreateCmd(opts, root)).ok ==>
         a.m.trace == m.trace + [KindCreateCmd(opts, root), ClusterInfoCmd(opts.name)] &&
         (a.status == Ok <==> o(k + 1, ClusterInfoCmd(opts.name)).ok))
  {
  }

  // ---- Provisioning ----

  const IngressManifest := "https://raw.githubusercontent.com/kubernetes/ingress-nginx/master/deploy/static/provider/kind/deploy.yaml"

  function NamespacesCmd(root: string): Event { Exec("", ["kubectl", "apply", "-f", root + "/helm/.cluster/namespaces"]) }
  function PoliciesCmd(root: string): Event { Exec("", ["kubectl", "apply", "-f", root + "/helm/.cluster"]) }
  function IngressCmd(): Event { Exec("", ["kubectl", "apply", "-f", IngressManifest]) }

  function CreateNamespacesSpec(o: Oracle, m: Machine, root: string): After { Required(o, m, NamespacesCmd(root)) }
  function CreatePoliciesSpec(o: Oracle, m: Machine, root: string): After { Required(o, m, PoliciesCmd(root)) }
  function CreateIngressSpec(o: Oracle, m: Machine): After { Required(o, m, IngressCmd()) }

  /** This copy of the git server mounts only the private key file. */
  function GitServerRunCmd(root: string): Event
  {
    Exec("", ["docker", "run", "-d", "-p2222:22", "--pull=missing", "--name=" + GitDocker.GitServerName,
              "-v" + root + ":/git-server/repos", "-v" + root + "/.ssh/identity:/git-server/keys/identity",
              "jkarlos/git-server-docker"])
  }

  /** `installGitServer`: run the git server with no probe first, then attach
      it to `kind`; either failure is fatal. */
  function InstallGitServerSpec(o: Oracle, m: Machine, root: string): After
  {
    var run := Required(o, m, GitServerRunCmd(root));
    if run.status != Ok then run
    else Required(o, run.m, Docker.ConnectCmd(GitDocker.GitServerName))
  }

  lemma GitServerRunNames(root: string)
    ensures NameFlag(GitServerRunCmd(root).argv) == GitDocker.GitServerName
  {
    var a := GitServerRunCmd(root).argv;
    assert !IsNameFlag(a[3]) by { assert a[3][1] == 'p'; }
    assert !IsNameFlag(a[4]) by { assert a[4][2] == 'p'; }
    assert IsNameFlag(a[5]) && a[5][7..] == GitDocker.GitServerName;
    assert NameFlag(a[5..]) == GitDocker.GitServerName;
    assert a[4..][1..] == a[5..];
    assert NameFlag(a[4..]) == GitDocker.GitServerName;
    assert a[3..][1..] == a[4..];
    assert NameFlag(a[3..]) == GitDocker.GitServerName;
    assert a[2..][1..] == a[3..];
    assert NameFlag(a[2..]) == GitDocker.GitServerName;
    assert a[1..][1..] == a[2..];
    assert NameFlag(a[1..]) == GitDocker.GitServerName;
  }

  /** The git server is started unconditionally: the first event is the
      run, never a probe. When both steps succeed the server is running and
      attached to `kind`. */
  lemma InstallGitServerStartsUnconditionally(o: Oracle, m: Machine, root: string)
    ensures var a := InstallGitServerSpec(o, m, root);
      var k := |m.trace|;
      |a.m.trace| > k && a.m.trace[k] == GitServerRunCmd(root) && a.status != Panic &&
      m.trace <= a.m.trace &&
      (a.status == Ok ==>
         a.m.trace == m.trace + [GitServerRunCmd(root), Docker.ConnectCmd(GitDocker.GitServerName)] &&
         GitDocker.GitServerName in a.m.world.containers &&
         a.m.world.containers[GitDocker.GitServerName] == Container(true, true))
  {
    GitServerRunNames(root);
  }

  /** `installDockerRegistry`: only a log line in this version. */
  function InstallDockerRegistrySpec(m: Machine): After
  {
    After(m, Ok)
  }

  function SealedSecretsCmd(root: string): Event
  {
    Exec("", ["helm", "upgrade", "sealed-secrets-controller", root + "/helm/sealed-secrets", "--install", "--wait",
              "--namespace=kube-system", "--values=" + root + "/helm/.values/sealed-secrets.yaml"])
  }

  function SecretsPath(root: string): string { root + "/.secrets/sealed-secrets.yaml" }

  function ReapplyCmd(secret: string): Event
  {
    Exec("", ["kubectl", "apply", "--overwrite=true", "-f", "-" + secret])
  }

  function GetSealingKeyCmd(): Event
  {
    Exec("", ["kubectl", "get", "secret", "--namespace=kube-system", "-l",
              "sealedsecrets.bitnami.com/sealed-secrets-key", "--output=yaml"])
  }

  /** The reload of a saved sealing key: read it (fatal on failure) and
      apply it, fatal on failure. */
  function ReloadSavedSecretSpec(o: Oracle, m: Machine, path: string): After
  {
    match ReadFile(m.world.fs, path)
    case None => After(m, Fatal)
    case Some(secret) => Required(o, m, ReapplyCmd(secret))
  }

  /** `installSealedSecrets`: install the controller (fatal on failure);
      reload the saved key when `os.IsExist` holds of the `Stat` error of
      its archive; fetch the current key and overwrite the archive with it
      (mode 0644 if it is created), each fatal on failure. */
  function InstallSealedSecretsSpec(o: Oracle, m: Machine, root: string): After
  {
    var helm := Required(o, m, SealedSecretsCmd(root));
    if helm.status != Ok then helm
    else
      var path := SecretsPath(root);
      var reload := if IsExist(Stat(helm.m.world.fs, path)) then ReloadSavedSecretSpec(o, helm.m, path)
                    else After(helm.m, Ok);
      if reload.status != Ok then reload
      else
        var secret := ReplyTo(o, reload.m, GetSealingKeyCmd()).out;
        var get := Required(o, reload.m, GetSealingKeyCmd());
        if get.status != Ok then get
        else Required(o, get.m, WriteFile(path, secret, Mode0644))
  }

  /** The saved key is never reapplied; after the controller is installed
      and the key fetched, the archive is overwritten with the fetched key,
      and the step succeeds exactly when that write does. */
  lemma SealedSecretsArchiveOverwritten(o: Oracle, m: Machine, root: string)
    ensures var a := InstallSealedSecretsSpec(o, m, root);
      var k := |m.trace|;
      var key := o(k + 1, GetSealingKeyCmd()).out;
      var write := WriteFile(SecretsPath(root), key, Mode0644);
      a.status != Panic &&
      (forall secret :: ReapplyCmd(secret) !in a.m.trace[k..]) &&
      (o(k, SealedSecretsCmd(root)).ok && o(k + 1, GetSealingKeyCmd()).ok ==>
         a.m.trace == m.trace + [SealedSecretsCmd(root), GetSealingKeyCmd(), write] &&
         (a.status == Ok <==> o(k + 2, write).ok) &&
         (a.status == Ok ==>
            SecretsPath(root) in a.m.world.fs &&
            a.m.world.fs[SecretsPath(root)].File? && a.m.world.fs[SecretsPath(root)].data == key))
  {
    StatNeverReportsExist(Issue(o, m, SealedSecretsCmd(root)).world.fs, SecretsPath(root));
  }

  /** The events of a successful sealed-secrets step whose first event is at
      position `k`: the controller install, the key fetch, the archive
      write with the fetched key. */
  function SealedEvents(o: Oracle, k: nat, root: string): seq<Event>
  {
    [SealedSecretsCmd(root), GetSealingKeyCmd(),
     WriteFile(SecretsPath(root), o(k + 1, GetSealingKeyCmd()).out, Mode0644)]
  }

  /** Sealed secrets only append to the trace and never panic; when they
      succeed their new events are `SealedEvents`. */
  lemma SealedSecretsOrder(o: Oracle, m: Machine, root: string)
    ensures var a := InstallSealedSecretsSpec(o, m, root);
      m.trace <= a.m.trace && a.status != Panic &&
      (a.status == Ok ==> a.m.trace == m.trace + SealedEvents(o, |m.trace|, root))
  {
    StatNeverReportsExist(Issue(o, m, SealedSecretsCmd(root)).world.fs, SecretsPath(root));
  }


  /** Everything `cluster()` does after the cluster is created, in order:
      namespaces, policies and ingress, then the add-ons. */
  function ProvisionSpec(o: Oracle, m: Machine, opts: ClusterOptions, root: string): After
  {
    var manifests := ManifestsSpec(o, m, root);
    if manifests.status != Ok then manifests
    else AddOnsSpec(o, manifests.m, opts, root)
  }

  /** The first three steps of `cluster()` after the creation: namespaces,
      policies, ingress; each fatal on failure. */
  function ManifestsSpec(o: Oracle, m: Machine, root: string): After
  {
    var ns := CreateNamespacesSpec(o, m, root);
    if ns.status != Ok then ns
    else
      var policies := CreatePoliciesSpec(o, ns.m, root);
      if policies.status != Ok then policies
      else CreateIngressSpec(o, policies.m)
  }

  /** The three manifests are applied in order, never panic, and when they
      all succeed they are exactly the new events. */
  lemma ManifestsInOrder(o: Oracle, m: Machine, root: string)
    ensures var a := ManifestsSpec(o, m, root);
      a.status != Panic &&
      (a.status == Ok ==> a.m.trace == m.trace + [NamespacesCmd(root), PoliciesCmd(root), IngressCmd()])
  {
  }

  /** The add-on steps of `cluster()`: the key pair, the git server, the
      in-cluster git service, the registry (a log line), sealed secrets, the
      deploy-key secret, the operator and the Helm operator. The last three
      issue the same commands, with the same failure rule, as
      `Flux.Install`. */
  function AddOnsSpec(o: Oracle, m: Machine, opts: ClusterOptions, root: string): After
  {
    var pre := PreFluxSpec(o, m, root);
    if pre.status != Ok then pre
    else Flux.InstallSpec(o, pre.m, opts.name, root)
  }

  /** The add-on steps before the Flux ones: git, registry, sealed secrets. */
  function PreFluxSpec(o: Oracle, m: Machine, root: string): After
  {
    var gitSetUp := GitSetUpSpec(o, m, root);
    if gitSetUp.status != Ok then gitSetUp
    else
      var registry := InstallDockerRegistrySpec(gitSetUp.m);
      InstallSealedSecretsSpec(o, registry.m, root)
  }

  /** The three git steps of `cluster()`: `createRSAKey`, `installGitServer`,
      `configGitInCluster`. The key and the in-cluster service are the same
      steps as in `GitDocker`. */
  function GitSetUpSpec(o: Oracle, m: Machine, root: string): After
  {
    var keys := GitDocker.CreateRSAKeySpec(o, m, root);
    if keys.status != Ok then keys
    else
      var server := InstallGitServerSpec(o, keys.m, root);
      if server.status != Ok then server
      else GitDocker.ConfigGitInClusterSpec(o, server.m, root)
  }

  /** Trace `t` extends `t0` by the events of a successful git set-up: the
      key step's, the run of the server and its attachment to `kind`, then
      the in-cluster configuration's. */
  ghost predicate GitSetUpExtends(o: Oracle, t0: seq<Event>, t: seq<Event>, root: string)
  {
    exists ks :: GitDocker.KeyStepEvents(o, |t0|, ks, root) &&
      var server := t0 + ks + [GitServerRunCmd(root), Docker.ConnectCmd(GitDocker.GitServerName)];
      t == server + GitDocker.ConfigEvents(o, |server|, root)
  }

  /** A key step, the server run and attachment, then a configuration, each
      from the trace the previous one left, make up the events of a git
      set-up. */
  lemma GitSetUpExtendsOfSteps(o: Oracle, root: string, t0: seq<Event>, ks: seq<Event>,
                               t1: seq<Event>, t2: seq<Event>, t: seq<Event>)
    requires t1 == t0 + ks && GitDocker.KeyStepEvents(o, |t0|, ks, root)
    requires t2 == t1 + [GitServerRunCmd(root), Docker.ConnectCmd(GitDocker.GitServerName)]
    requires t == t2 + GitDocker.ConfigEvents(o, |t2|, root)
    ensures GitSetUpExtends(o, t0, t, root)
  {
    assert GitDocker.KeyStepEvents(o, |t0|, ks, root) && t1 == t0 + ks;
  }

  /** The git steps only append to the trace and never panic; when they
      succeed their new events are the key step's, the server run and its
      attachment, then the in-cluster configuration's, in that order. */
  lemma GitSetUpOrder(o: Oracle, m: Machine, root: string)
    ensures var a := GitSetUpSpec(o, m, root);
      m.trace <= a.m.trace && a.status != Panic &&
      (a.status == Ok ==> GitSetUpExtends(o, m.trace, a.m.trace, root))
  {
    GitDocker.RSAKeyOrder(o, m, root);
    var keys := GitDocker.CreateRSAKeySpec(o, m, root);
    if keys.status == Ok {
      InstallGitServerStartsUnconditionally(o, keys.m, root);
      var server := InstallGitServerSpec(o, keys.m, root);
      if server.status == Ok {
        GitDocker.ConfigGitOrder(o, server.m, root);
        var a := GitDocker.ConfigGitInClusterSpec(o, server.m, root);
        if a.status == Ok {
          var ks :| keys.m.trace == m.trace + ks && GitDocker.KeyStepEvents(o, |m.trace|, ks, root);
          GitSetUpExtendsOfSteps(o, root, m.trace, ks, keys.m.trace, server.m.trace, a.m.trace);
        }
      }
    }
  }

  /** Trace `t` extends `t0` by the events of a successful run of the steps
      before Flux: the git set-up's, then the sealed-secrets step's (the
      registry issues none). */
  ghost predicate PreFluxExtends(o: Oracle, t0: seq<Event>, t: seq<Event>, root: string)
  {
    exists t1 :: GitSetUpExtends(o, t0, t1, root) && t == t1 + SealedEvents(o, |t1|, root)
  }

  /** The steps before the Flux ones only append and never panic; when they
      succeed their new events are the git set-up's, then the
      sealed-secrets step's. */
  lemma PreFluxOrder(o: Oracle, m: Machine, root: string)
    ensures var a := PreFluxSpec(o, m, root);
      m.trace <= a.m.trace && a.status != Panic &&
      (a.status == Ok ==> PreFluxExtends(o, m.trace, a.m.trace, root))
  {
    GitSetUpOrder(o, m, root);
    var gitSetUp := GitSetUpSpec(o, m, root);
    if gitSetUp.status == Ok {
      SealedSecretsOrder(o, gitSetUp.m, root);
    }
  }

  /** The add-ons only append to the trace and never panic; when they
      succeed their events are the steps before Flux's, then the deploy-key
      secret, the operator and the Helm operator. */
  lemma AddOnsOrder(o: Oracle, m: Machine, opts: ClusterOptions, root: string)
    ensures var a := AddOnsSpec(o, m, opts, root);
      m.trace <= a.m.trace && a.status != Panic &&
      (a.status == Ok ==>
         exists t1 :: PreFluxExtends(o, m.trace, t1, root) && a.m.trace == t1 + Flux.InstallEvents(opts.name, root))
  {
    PreFluxOrder(o, m, root);
    var pre := PreFluxSpec(o, m, root);
    if pre.status == Ok {
      Flux.InstallOrder(o, pre.m, opts.name, root);
      var flux := Flux.InstallSpec(o, pre.m, opts.name, root);
      if flux.status == Ok {
        WholeTail(pre.m.trace, flux.m.trace, Flux.InstallEvents(opts.name, root));
      }
    }
  }

  /** A trace extended by a prefix of `tail` as long as `tail` is extended
      by all of it. */
  lemma WholeTail(t1: seq<Event>, t: seq<Event>, tail: seq<Event>)
    requires |t| == |t1| + |tail| && t == t1 + tail[..|t| - |t1|]
    ensures t == t1 + tail
  {
    assert tail[..|t| - |t1|] == tail;
  }

  /** A successful provisioning issues namespaces, policies and ingress,
      then the key step's events, the run and attachment of the git server,
      the in-cluster configuration's events, the sealed-secrets events, and
      last the deploy-key secret, the operator and the Helm operator, which
      carries the cluster name as its branch. It never panics. */
  lemma ProvisionOrder(o: Oracle, m: Machine, opts: ClusterOptions, root: string)
    ensures var a := ProvisionSpec(o, m, opts, root);
      a.status != Panic &&
      (a.status == Ok ==>
         exists t1 :: PreFluxExtends(o, m.trace + [NamespacesCmd(root), PoliciesCmd(root), IngressCmd()], t1, root) &&
           a.m.trace == t1 + Flux.InstallEvents(opts.name, root))
  {
    ManifestsInOrder(o, m, root);
    var manifests := ManifestsSpec(o, m, root);
    if manifests.status == Ok {
      AddOnsOrder(o, manifests.m, opts, root);
    }
  }



  /** `cluster()` with the workspace path it leaves assigned. */
  datatype Located = Located(m: Machine, status: Status, root: string)

  /** `cluster()`: dependencies, workspace, the running check (a cluster that
      is already listed is fatal), creation, then provisioning. The default
      configuration step only logs. */
  function ClusterSpec(o: Oracle, m: Machine, opts: ClusterOptions, onWindows: bool, root0: string): Located
  {
    var deps := CheckExecDependenciesSpec(o, m);
    if deps.status != Ok then Located(deps.m, deps.status, root0)
    else
      var cfg := ClusterConfigExistsSpec(o, deps.m, opts.name, root0);
      if cfg.status != Ok then Located(cfg.m, cfg.status, cfg.root)
      else
        var listed := IsClusterRunningSpec(o, cfg.m, opts.name);
        if listed.status != Ok then Located(listed.m, listed.status, cfg.root)
        else if listed.yes then Located(listed.m, Fatal, cfg.root)
        else
          var created := CreateClusterSpec(o, listed.m, opts, cfg.root, onWindows);
          if created.status != Ok then Located(created.m, created.status, cfg.root)
          else
            var provisioned := ProvisionSpec(o, created.m, opts, cfg.root);
            Located(provisioned.m, provisioned.status, cfg.root)
  }

  /** Only a missing tool panics, and then before the workspace is touched:
      the world is unchanged and only tool lookups were issued. */
  lemma OnlyMissingToolPanics(o: Oracle, m: Machine, opts: ClusterOptions, onWindows: bool, root0: string)
    ensures var a := ClusterSpec(o, m, opts, onWindows, root0);
      a.status == Panic ==>
        a.m.world == m.world && a.root == root0 &&
        (forall i :: |m.trace| <= i < |a.m.trace| ==> a.m.trace[i].LookPath?) &&
        |a.m.trace| > |m.trace| && !o(|a.m.trace| - 1, a.m.trace[|a.m.trace| - 1]).ok
  {
    DependenciesProbedInOrder(o, m);
    var deps := CheckExecDependenciesSpec(o, m);
    if deps.status == Ok {
      ClusterConfigExistsOutcome(o, deps.m, opts.name, root0);
      var cfg := ClusterConfigExistsSpec(o, deps.m, opts.name, root0);
      if cfg.status == Ok {
        var listed := IsClusterRunningSpec(o, cfg.m, opts.name);
        if listed.status == Ok && !listed.yes {
          CreateClusterFailureRule(o, listed.m, opts, cfg.root, onWindows);
          var created := CreateClusterSpec(o, listed.m, opts, cfg.root, onWindows);
          if created.status == Ok {
            ProvisionOrder(o, created.m, opts, cfg.root);
          }
        }
      }
    } else {
      var n := |deps.m.trace| - |m.trace|;
      forall i | |m.trace| <= i < |deps.m.trace|
        ensures deps.m.trace[i].LookPath?
      {
        assert deps.m.trace[i] == DependencyProbes()[..n][i - |m.trace|];
      }
      assert deps.m.trace[|deps.m.trace| - 1] == DependencyProbes()[n - 1];
    }
  }

  /** A cluster that `kind` already lists is fatal right after the listing:
      `kind create cluster` is never issued. */
  lemma ListedClusterIsNotRecreated(o: Oracle, m: Machine, opts: ClusterOptions, onWindows: bool, root0: string)
    ensures var a := ClusterSpec(o, m, opts, onWindows, root0);
      var deps := CheckExecDependenciesSpec(o, m);
      var cfg := ClusterConfigExistsSpec(o, deps.m, opts.name, root0);
      var k := |cfg.m.trace|;
      deps.status == Ok && cfg.status == Ok &&
      o(k, ListClustersCmd()).ok && Text.IsLineOf(o(k, ListClustersCmd()).out, opts.name) ==>
        a.status == Fatal && a.m.trace == cfg.m.trace + [ListClustersCmd()]
  {
    var deps := CheckExecDependenciesSpec(o, m);
    var cfg := ClusterConfigExistsSpec(o, deps.m, opts.name, root0);
    IsClusterRunningMeansListed(o, cfg.m, opts.name);
  }

  method CheckExecExists(h: Host, executable: string) returns (s: Status)
    modifies h
    ensures After(h.State(), s) == CheckExecExistsSpec(h.oracle, old(h.State()), executable)
  {
    var r := h.Exec(LookPath(executable));
    s := if r.ok then Ok else Panic;
  }

  method CheckExecDependencies(h: Host) returns (s: Status)
    modifies h
    ensures After(h.State(), s) == CheckExecDependenciesSpec(h.oracle, old(h.State()))
  {
    s := CheckExecExists(h, "kind");
    if s != Ok {
      return;
    }
    s := CheckExecExists(h, "git");
    if s != Ok {
      return;
    }
    s := CheckExecExists(h, "kubectl");
    if s != Ok {
      return;
    }
    s := CheckExecExists(h, "helm");
    if s != Ok {
      return;
    }
    s := CheckExecExists(h, "docker");
  }

  method CreateIngress(h: Host) returns (s: Status)
    modifies h
    ensures After(h.State(), s) == CreateIngressSpec(h.oracle, old(h.State()))
  {
    s := h.Require(IngressCmd());
  }

  method InstallDockerRegistry(h: Host) returns (s: Status)
    ensures After(h.State(), s) == InstallDockerRegistrySpec(h.State())
  {
    s := Ok;
  }

  /** The command's package state: the options, the platform, and the
      workspace path that `clusterConfigExists` assigns for the later
      steps. */
  class ClusterCommand {
    const options: ClusterOptions
    const onWindows: bool
    var rootPath: string

    constructor (options: ClusterOptions, onWindows: bool)
      ensures this.options == options && this.onWindows == onWindows && rootPath == ""
    {
      this.options := options;
      this.onWindows := onWindows;
      rootPath := "";
    }

    method ClusterConfigExists(h: Host) returns (s: Status, present: bool)
      modifies this, h
      ensures ConfigLookup(h.State(), s, present, rootPath) ==
        ClusterConfigExistsSpec(h.oracle, old(h.State()), options.name, old(rootPath))
    {
      var home := h.Exec(HomeDir);
      if !home.ok {
        return Fatal, false;
      }
      rootPath := RootPath(home.out, options.name);
      if IsNotExist(Stat(h.world.fs, rootPath)) {
        s := h.Require(Mkdir(rootPath, Mode0755));
        return s, false;
      }
      return Ok, true;
    }

    method IsClusterRunning(h: Host) returns (s: Status, running: bool)
      modifies h
      ensures Answer(h.State(), s, running) == IsClusterRunningSpec(h.oracle, old(h.State()), options.name)
    {
      var listing := h.Exec(ListClustersCmd());
      if !listing.ok {
        return Fatal, false;
      }
      running := ListsCluster(listing.out, options.name);
      s := Ok;
    }

    method CreateCluster(h: Host) returns (s: Status)
      modifies h
      ensures After(h.State(), s) == CreateClusterSpec(h.oracle, old(h.State()), options, rootPath, onWindows)
    {
      if onWindows {
        s := h.Require(KindCreateCmd(options, rootPath));
        if s != Ok {
          return;
        }
      } else {
        h.Tolerate(KindCreateCmd(options, rootPath));
      }
      s := h.Require(ClusterInfoCmd(options.name));
    }

    method CreateNamespaces(h: Host) returns (s: Status)
      modifies h
      ensures After(h.State(), s) == CreateNamespacesSpec(h.oracle, old(h.State()), rootPath)
    {
      s := h.Require(NamespacesCmd(rootPath));
    }

    method CreatePolicies(h: Host) returns (s: Status)
      modifies h
      ensures After(h.State(), s) == CreatePoliciesSpec(h.oracle, old(h.State()), rootPath)
    {
      s := h.Require(PoliciesCmd(rootPath));
    }

    method InstallGitServer(h: Host) returns (s: Status)
      modifies h
      ensures After(h.State(), s) == InstallGitServerSpec(h.oracle, old(h.State()), rootPath)
    {
      s := h.Require(GitServerRunCmd(rootPath));
      if s != Ok {
        return;
      }
      s := h.Require(Docker.ConnectCmd(GitDocker.GitServerName));
    }

    method InstallSealedSecrets(h: Host) returns (s: Status)
      modifies h
      ensures After(h.State(), s) == InstallSealedSecretsSpec(h.oracle, old(h.State()), rootPath)
    {
      s := h.Require(SealedSecretsCmd(rootPath));
      if s != Ok {
        return;
      }
      var path := SecretsPath(rootPath);
      if IsExist(Stat(h.world.fs, path)) {
        s := ReloadSavedSecret(h, path);
        if s != Ok {
          return;
        }
      }
      var secret := h.Exec(GetSealingKeyCmd());
      if !secret.ok {
        return Fatal;
      }
      s := h.Require(WriteFile(path, secret.out, Mode0644));
    }

    method ReloadSavedSecret(h: Host, path: string) returns (s: Status)
      modifies h
      ensures After(h.State(), s) == ReloadSavedSecretSpec(h.oracle, old(h.State()), path)
    {
      match ReadFile(h.world.fs, path)
      case None =>
        s := Fatal;
      case Some(secret) =>
        s := h.Require(ReapplyCmd(secret));
    }

    method GitSetUp(h: Host) returns (s: Status)
      modifies h
      ensures After(h.State(), s) == GitSetUpSpec(h.oracle, old(h.State()), rootPath)
    {
      s := GitDocker.CreateRSAKey(h, rootPath);
      if s != Ok {
        return;
      }
      s := InstallGitServer(h);
      if s != Ok {
        return;
      }
      s := GitDocker.ConfigGitInCluster(h, rootPath);
    }

    method Provision(h: Host) returns (s: Status)
      modifies h
      ensures After(h.State(), s) == ProvisionSpec(h.oracle, old(h.State()), options, rootPath)
    {
      s := CreateNamespaces(h);
      if s != Ok {
        return;
      }
      s := CreatePolicies(h);
      if s != Ok {
        return;
      }
      s := CreateIngress(h);
      if s != Ok {
        return;
      }
      s := AddOns(h);
    }

    method AddOns(h: Host) returns (s: Status)
      modifies h
      ensures After(h.State(), s) == AddOnsSpec(h.oracle, old(h.State()), options, rootPath)
    {
      s := GitSetUp(h);
      if s != Ok {
        return;
      }
      s := InstallDockerRegistry(h);
      s := InstallSealedSecrets(h);
      if s != Ok {
        return;
      }
      s := Flux.Install(h, options.name, rootPath);
    }

    method Cluster(h: Host) returns (s: Status)
      modifies this, h
      ensures Located(h.State(), s, rootPath) ==
        ClusterSpec(h.oracle, old(h.State()), options, onWindows, old(rootPath))
    {
      s := CheckExecDependencies(h);
      if s != Ok {
        return;
      }
      var present;
      s, present := ClusterConfigExists(h);
      if s != Ok {
        return;
      }
      var running;
      s, running := IsClusterRunning(h);
      if s != Ok {
        return;
      }
      if running {
        return Fatal;
      }
      s := CreateCluster(h);
      if s != Ok {
        return;
      }
      s := Provision(h);
    }
  }
}
