/** internal/flux/fluxHelm.go: the deploy-key secret and the two Helm
    releases of the GitOps operator, in namespace `weave`. Paths are joined
    with `/`. */
module Flux {
  import opened Shell
  import GitDocker

  function CreateSecretCmd(root: string): Event
  {
    Exec("", ["kubectl", "create", "secret", "generic", "flux-git-deploy",
              "--from-file=" + root + "/.ssh/identity", "--namespace=weave"])
  }

  function FluxInstallCmd(name: string, root: string): Event
  {
    Exec("", ["helm", "upgrade", "flux", root + "/helm/fluxcd/flux", "--install", "--wait",
              "--namespace=weave", "--values=" + root + "/helm/.values/flux.yaml",
              "--set=git.branch=" + name, "--set=git.label=flux-" + name])
  }

  function HelmInstallCmd(root: string): Event
  {
    Exec("", ["helm", "upgrade", "flux-helm-operator", root + "/helm/fluxcd/helm-operator", "--install", "--wait",
              "--namespace=weave", "--values=" + root + "/helm/.values/helm-operator.yaml",
              "--set=helm.versions=v3"])
  }

  /** `createSecret`, `fluxInstall`, `helmInstall`: one command each, fatal
      on failure. */
  function CreateSecretSpec(o: Oracle, m: Machine, root: string): After
  {
    Required(o, m, CreateSecretCmd(root))
  }

  function FluxInstallSpec(o: Oracle, m: Machine, name: string, root: string): After
  {
    Required(o, m, FluxInstallCmd(name, root))
  }

  function HelmInstallSpec(o: Oracle, m: Machine, root: string): After
  {
    Required(o, m, HelmInstallCmd(root))
  }

  /** `Install`: the secret, then the operator, then the Helm operator. */
  function InstallSpec(o: Oracle, m: Machine, name: string, root: string): After
  {
    var secret := CreateSecretSpec(o, m, root);
    if secret.status != Ok then secret
    else
      var flux := FluxInstallSpec(o, secret.m, name, root);
      if flux.status != Ok then flux
      else HelmInstallSpec(o, flux.m, root)
  }

  function InstallEvents(name: string, root: string): seq<Event>
  {
    [CreateSecretCmd(root), FluxInstallCmd(name, root), HelmInstallCmd(root)]
  }

  /** `Install` is the fatal sequence of its three commands. */
  lemma InstallIsSequence(o: Oracle, m: Machine, name: string, root: string)
    ensures InstallSpec(o, m, name, root) == RequiredAll(o, m, InstallEvents(name, root))
  {
    var es := InstallEvents(name, root);
    assert es == [es[0]] + ([es[1]] + ([es[2]] + []));
    var a0 := Required(o, m, es[0]);
    var a1 := Required(o, a0.m, es[1]);
    RequiredAllCons(o, m, es[0], [es[1]] + ([es[2]] + []));
    RequiredAllCons(o, a0.m, es[1], [es[2]] + []);
    RequiredAllCons(o, a1.m, es[2], []);
  }

  /** `Install` is the three commands in order, stopping at the first that
      fails: its trace is a prefix of `InstallEvents` whose every event but
      the last succeeded, it is `Ok` exactly when all three were issued and
      the last succeeded, and a `Fatal` run ends with the command that
      failed. */
  lemma InstallOrder(o: Oracle, m: Machine, name: string, root: string)
    ensures var a := InstallSpec(o, m, name, root);
      var n := |a.m.trace| - |m.trace|;
      a.status in {Ok, Fatal} && 0 <= n <= 3 &&
      a.m.trace == m.trace + InstallEvents(name, root)[..n] &&
      (forall j :: |m.trace| <= j < |a.m.trace| - 1 ==> o(j, a.m.trace[j]).ok) &&
      (a.status == Ok <==> n == 3 && o(|m.trace| + 2, HelmInstallCmd(root)).ok) &&
      (a.status == Fatal ==> n >= 1 && !o(|a.m.trace| - 1, a.m.trace[|a.m.trace| - 1]).ok)
  {
    InstallIsSequence(o, m, name, root);
    RequiredAllStopsAtFirstFailure(o, m, InstallEvents(name, root));
  }

  /** The secret is made from the private key that key creation writes. */
  lemma SecretUsesDeployKey(root: string)
    ensures CreateSecretCmd(root).argv[5] == "--from-file=" + GitDocker.PrivateKeyPath(root)
  {
  }

  /** The release's branch and label carry the cluster name, and they
      determine it: distinct cluster names give distinct releases. */
  lemma FluxTracksClusterBranch(name: string, other: string, root: string)
    ensures var argv := FluxInstallCmd(name, root).argv;
      argv[8] == "--set=git.branch=" + name && argv[9] == "--set=git.label=flux-" + name &&
      argv[8][|"--set=git.branch="|..] == name
    ensures FluxInstallCmd(name, root) == FluxInstallCmd(other, root) ==> name == other
  {
    var argv := FluxInstallCmd(name, root).argv;
    assert argv[8][|"--set=git.branch="|..] == name;
    if FluxInstallCmd(name, root) == FluxInstallCmd(other, root) {
      assert FluxInstallCmd(other, root).argv[8][|"--set=git.branch="|..] == other;
    }
  }

  method CreateSecret(h: Host, root: string) returns (s: Status)
    modifies h
    ensures After(h.State(), s) == CreateSecretSpec(h.oracle, old(h.State()), root)
  {
    s := h.Require(CreateSecretCmd(root));
  }

  method FluxInstall(h: Host, name: string, root: string) returns (s: Status)
    modifies h
    ensures After(h.State(), s) == FluxInstallSpec(h.oracle, old(h.State()), name, root)
  {
    s := h.Require(FluxInstallCmd(name, root));
  }

  method HelmInstall(h: Host, root: string) returns (s: Status)
    modifies h
    ensures After(h.State(), s) == HelmInstallSpec(h.oracle, old(h.State()), root)
  {
    s := h.Require(HelmInstallCmd(root));
  }

  method Install(h: Host, name: string, root: string) returns (s: Status)
    modifies h
    ensures After(h.State(), s) == InstallSpec(h.oracle, old(h.State()), name, root)
  {
    s := CreateSecret(h, root);
    if s != Ok {
      return;
    }
    s := FluxInstall(h, name, root);
    if s != Ok {
      return;
    }
    s := HelmInstall(h, root);
  }
}
