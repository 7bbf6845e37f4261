/** internal/git/gitDocker.go: the key pair under `<root>/.ssh`, the git
    server sidecar, and the manifest that makes it reachable from the
    cluster. */
module GitDocker {
  import opened Shell
  import Text
  import Docker

  const GitServerName := "git-server"

  /** `filepath.Join(root, ".ssh")` and the two key files inside it. */
  function SshDir(root: string): string { root + "/.ssh" }
  function PrivateKeyPath(root: string): string { root + "/.ssh/identity" }
  function PublicKeyPath(root: string): string { root + "/.ssh/identity.pub" }

  /** A PEM block (RFC 7468) around an already encoded body. */
  function PemBlock(kind: string, body: string): string
  {
    "-----BEGIN " + kind + "-----\n" + body + "-----END " + kind + "-----\n"
  }

  /** `createRSAKey`: nothing when either key file exists. Otherwise create
      `.ssh` when it is absent, generate a 4096-bit key, derive its public
      key, and write the public key and then the private key in PEM form,
      both with mode 0600; every failure is fatal. */
  function CreateRSAKeySpec(o: Oracle, m: Machine, root: string): After
  {
    var priv, pub, ssh := PrivateKeyPath(root), PublicKeyPath(root), SshDir(root);
    if priv in m.world.fs || pub in m.world.fs then After(m, Ok)
    else
      var a0 := if ssh !in m.world.fs then Required(o, m, Mkdir(ssh, Mode0755)) else After(m, Ok);
      if a0.status != Ok then a0
      else WriteKeyPairSpec(o, a0.m, root)
  }

  /** The rest of `createRSAKey` once `.ssh` exists: generate the key, derive
      its authorized-key line, write the public file, then the private PEM
      file, each fatal on failure. */
  function WriteKeyPairSpec(o: Oracle, m: Machine, root: string): After
  {
    var key := ReplyTo(o, m, GenerateKey(4096)).out;
    var a1 := Required(o, m, GenerateKey(4096));
    if a1.status != Ok then a1
    else
      var authorized := ReplyTo(o, a1.m, PublicKey(key)).out;
      var a2 := Required(o, a1.m, PublicKey(key));
      if a2.status != Ok then a2
      else
        var a3 := Required(o, a2.m, WriteFile(PublicKeyPath(root), authorized, Mode0600));
        if a3.status != Ok then a3
        else Required(o, a3.m, WriteFile(PrivateKeyPath(root), PemBlock("RSA PRIVATE KEY", key), Mode0600))
  }

  /** Either key file present: nothing is issued and nothing changes. */
  lemma RSAKeyGate(o: Oracle, m: Machine, root: string)
    requires PrivateKeyPath(root) in m.world.fs || PublicKeyPath(root) in m.world.fs
    ensures CreateRSAKeySpec(o, m, root) == After(m, Ok)
  {
  }

  /** The events of a key step that made a new pair, the first of them at
      position `k` of the trace: `mkdir .ssh` when the directory was
      missing, the key, its public half, then the public file holding the
      authorized-key line and the private file holding the PEM block of
      the key. */
  predicate KeyPairEvents(o: Oracle, k: nat, es: seq<Event>, root: string)
  {
    var n := |es|;
    (n == 4 || (n == 5 && es[0] == Mkdir(SshDir(root), Mode0755))) &&
    var key := o(k + n - 4, GenerateKey(4096)).out;
    es[n - 4] == GenerateKey(4096) && es[n - 3] == PublicKey(key) &&
    es[n - 2] == WriteFile(PublicKeyPath(root), o(k + n - 3, PublicKey(key)).out, Mode0600) &&
    es[n - 1] == WriteFile(PrivateKeyPath(root), PemBlock("RSA PRIVATE KEY", key), Mode0600)
  }

  /** The events of a successful key step: none when a key file was already
      there, else those of a new pair. */
  predicate KeyStepEvents(o: Oracle, k: nat, es: seq<Event>, root: string)
  {
    es == [] || KeyPairEvents(o, k, es, root)
  }

  /** A successful creation from scratch issues the events of a new pair and
      ends with both key files present, each a file with mode 0600, the
      public one holding the authorized-key line of the generated key and
      the private one its PEM block; and it is never a panic. */
  lemma RSAKeyCreated(o: Oracle, m: Machine, root: string)
    requires PrivateKeyPath(root) !in m.world.fs && PublicKeyPath(root) !in m.world.fs
    ensures var a := CreateRSAKeySpec(o, m, root);
      a.status != Panic &&
      (a.status == Ok ==>
         var fs, n := a.m.world.fs, |a.m.trace|;
         n >= |m.trace| + 4 &&
         (exists es :: a.m.trace == m.trace + es && KeyPairEvents(o, |m.trace|, es, root)) &&
         var key := o(n - 4, GenerateKey(4096)).out;
         PrivateKeyPath(root) in fs && fs[PrivateKeyPath(root)] == File(PemBlock("RSA PRIVATE KEY", key), Mode0600) &&
         PublicKeyPath(root) in fs && fs[PublicKeyPath(root)] == File(o(n - 3, PublicKey(key)).out, Mode0600))
  {
    var a := CreateRSAKeySpec(o, m, root);
    var ssh := SshDir(root);
    var a0 := if ssh !in m.world.fs then Required(o, m, Mkdir(ssh, Mode0755)) else After(m, Ok);
    if a0.status == Ok {
      assert a == WriteKeyPairSpec(o, a0.m, root);
      assert PrivateKeyPath(root) !in a0.m.world.fs && PublicKeyPath(root) !in a0.m.world.fs;
      KeyPairWritten(o, a0.m, root);
      var es := if ssh !in m.world.fs then [Mkdir(ssh, Mode0755)] else [];
      assert a0.m.trace == m.trace + es;
      if a.status == Ok {
        KeyPairEventsOf(o, root, m.trace, es, a.m.trace);
      }
    } else {
      assert a == a0;
    }
  }

  /** Once `.ssh` exists and neither key file does, a successful pair step
      issues the key, its public half and the two writes, and leaves both
      files holding what those events produced. */
  lemma KeyPairWritten(o: Oracle, m: Machine, root: string)
    requires PrivateKeyPath(root) !in m.world.fs && PublicKeyPath(root) !in m.world.fs
    ensures var a := WriteKeyPairSpec(o, m, root);
      var k := |m.trace|;
      var key := o(k, GenerateKey(4096)).out;
      var authorized := o(k + 1, PublicKey(key)).out;
      var pem := PemBlock("RSA PRIVATE KEY", key);
      a.status != Panic &&
      (a.status == Ok ==>
         a.m.trace == m.trace + [GenerateKey(4096), PublicKey(key),
                                 WriteFile(PublicKeyPath(root), authorized, Mode0600),
                                 WriteFile(PrivateKeyPath(root), pem, Mode0600)] &&
         PublicKeyPath(root) in a.m.world.fs && a.m.world.fs[PublicKeyPath(root)] == File(authorized, Mode0600) &&
         PrivateKeyPath(root) in a.m.world.fs && a.m.world.fs[PrivateKeyPath(root)] == File(pem, Mode0600))
  {
    assert PrivateKeyPath(root) != PublicKeyPath(root) by {
      assert |PrivateKeyPath(root)| != |PublicKeyPath(root)|;
    }
  }

  /** A trace extended by an optional `mkdir .ssh`, the key, its public half
      and the two writes, each holding what the oracle answered, has the
      events of a new pair. */
  lemma KeyPairEventsOf(o: Oracle, root: string, t0: seq<Event>, es: seq<Event>, t: seq<Event>)
    requires es == [] || es == [Mkdir(SshDir(root), Mode0755)]
    requires var k := |t0| + |es|;
      var key := o(k, GenerateKey(4096)).out;
      t == t0 + es + [GenerateKey(4096), PublicKey(key),
                      WriteFile(PublicKeyPath(root), o(k + 1, PublicKey(key)).out, Mode0600),
                      WriteFile(PrivateKeyPath(root), PemBlock("RSA PRIVATE KEY", key), Mode0600)]
    ensures exists ks :: t == t0 + ks && KeyPairEvents(o, |t0|, ks, root)
  {
    var k := |t0| + |es|;
    var key := o(k, GenerateKey(4096)).out;
    var ks := es + [GenerateKey(4096), PublicKey(key),
                    WriteFile(PublicKeyPath(root), o(k + 1, PublicKey(key)).out, Mode0600),
                    WriteFile(PrivateKeyPath(root), PemBlock("RSA PRIVATE KEY", key), Mode0600)];
    assert t == t0 + ks;
    assert KeyPairEvents(o, |t0|, ks, root);
  }

  /** The key step never panics, only appends, and when it succeeds its
      events are those of `KeyStepEvents`. */
  lemma RSAKeyOrder(o: Oracle, m: Machine, root: string)
    ensures var a := CreateRSAKeySpec(o, m, root);
      m.trace <= a.m.trace && a.status != Panic &&
      (a.status == Ok ==> exists ks :: a.m.trace == m.trace + ks && KeyStepEvents(o, |m.trace|, ks, root))
  {
    RSAKeyAppends(o, m, root);
    if PrivateKeyPath(root) !in m.world.fs && PublicKeyPath(root) !in m.world.fs {
      RSAKeyCreated(o, m, root);
    } else {
      RSAKeyGate(o, m, root);
      assert m.trace == m.trace + [] && KeyStepEvents(o, |m.trace|, [], root);
    }
  }

  /** Key creation only appends to the trace and never panics. */
  lemma RSAKeyAppends(o: Oracle, m: Machine, root: string)
    ensures var a := CreateRSAKeySpec(o, m, root);
      m.trace <= a.m.trace && a.status != Panic
  {
    var priv, pub, ssh := PrivateKeyPath(root), PublicKeyPath(root), SshDir(root);
    if !(priv in m.world.fs || pub in m.world.fs) {
      var a0 := if ssh !in m.world.fs then Required(o, m, Mkdir(ssh, Mode0755)) else After(m, Ok);
      assert m.trace <= a0.m.trace;
      if a0.status == Ok {
        var key := ReplyTo(o, a0.m, GenerateKey(4096)).out;
        var a1 := Required(o, a0.m, GenerateKey(4096));
        var a2 := Required(o, a1.m, PublicKey(key));
        assert m.trace <= a2.m.trace;
        assert CreateRSAKeySpec(o, m, root) == WriteKeyPairSpec(o, a0.m, root);
      }
    }
  }

  /** Key creation is idempotent: after a successful call, a second call
      issues nothing and changes nothing. */
  lemma RSAKeyIdempotent(o: Oracle, m: Machine, root: string)
    ensures var a := CreateRSAKeySpec(o, m, root);
      a.status == Ok ==> CreateRSAKeySpec(o, a.m, root) == After(a.m, Ok)
  {
    if PrivateKeyPath(root) !in m.world.fs && PublicKeyPath(root) !in m.world.fs {
      RSAKeyCreated(o, m, root);
    }
  }

  function GitRunCmd(root: string): Event
  {
    Exec("", ["docker", "run", "-d", "-p2222:22", "--pull=missing", "--name=" + GitServerName,
              "-v" + root + ":/git-server/repos", "-v" + root + "/.ssh:/git-server/keys",
              "jkarlos/git-server-docker"])
  }

  /** `startGitServer`: nothing after the probe when `git-server` reports
      running; otherwise `docker run` then `network connect kind`, each
      fatal on failure. */
  function StartGitServerSpec(o: Oracle, m: Machine, root: string): After
  {
    var p := Docker.IsImageRunningSpec(o, m, GitServerName);
    if p.yes then After(p.m, Ok)
    else
      var run := Required(o, p.m, GitRunCmd(root));
      if run.status != Ok then run
      else Required(o, run.m, Docker.ConnectCmd(GitServerName))
  }

  /** The git server start issues no run and no connect when the probe
      reports running; otherwise run comes first, a failed run stops
      everything, and a successful run is followed by the connect. */
  lemma StartGitServerShape(o: Oracle, m: Machine, root: string)
    ensures var a := StartGitServerSpec(o, m, root);
      var k := |m.trace|;
      var probe := Docker.InspectCmd(GitServerName);
      if Docker.ReportsRunning(o(k, probe)) then
        a == After(Machine(m.trace + [probe], m.world), Ok)
      else if !o(k + 1, GitRunCmd(root)).ok then
        a.m.trace == m.trace + [probe, GitRunCmd(root)] && a.status == Fatal
      else
        a.m.trace == m.trace + [probe, GitRunCmd(root), Docker.ConnectCmd(GitServerName)] &&
        (a.status == Ok <==> o(k + 2, Docker.ConnectCmd(GitServerName)).ok) &&
        a.status != Panic
  {
  }

  /** The format that selects the git server's address on the `kind` network. */
  const AddressFormat := "{{range .Containers}}{{if eq .Name \"git-server\"}}{{.IPv4Address}}{{end}}{{- end}}"

  function NetworkInspectCmd(): Event
  {
    Exec("", ["docker", "network", "inspect", "kind", "--format", AddressFormat])
  }

  function ApplyStdinCmd(): Event
  {
    Exec("", ["kubectl", "apply", "--overwrite=true", "-f", "-"])
  }

  /** `bytes.Split(ip, "/")[0]`: the address without its prefix length. It
      is the longest prefix of the output without `/`: all of the output
      when it has no `/`, otherwise the text before the first `/`. */
  function AddressOf(out: string): (a: string)
    ensures a <= out && '/' !in a
    ensures |a| == |out| || out[|a|] == '/'
  {
    Text.FirstPiece(out, '/');
    Text.Split(out, '/')[0]
  }

  /** The three conditions of `AddressOf` pin the address down. */
  lemma AddressUnique(out: string, a: string)
    requires a <= out && '/' !in a && (|a| == |out| || out[|a|] == '/')
    ensures a == AddressOf(out)
  {
  }

  /** `configGitInCluster`: inspect the network (fatal on failure), parse the
      template `<root>/cluster/git-service.yaml` (fatal on failure), render
      it with the address (a rendering error is not checked), and pipe the
      document through `echo` into `kubectl apply -f -`, whose result is
      discarded. */
  function ConfigGitInClusterSpec(o: Oracle, m: Machine, root: string): After
  {
    var ip := ReplyTo(o, m, NetworkInspectCmd()).out;
    var a := Required(o, m, NetworkInspectCmd());
    if a.status != Ok then a
    else
      var parse := ParseTemplate(root + "/cluster/git-service.yaml");
      var tpl := ReplyTo(o, a.m, parse).out;
      var b := Required(o, a.m, parse);
      if b.status != Ok then b
      else
        var render := RenderTemplate(tpl, AddressOf(ip));
        var doc := ReplyTo(o, b.m, render).out;
        var c := Tolerated(o, b.m, render);
        var d := Tolerated(o, c.m, Exec("", ["echo", doc]));
        Tolerated(o, d.m, ApplyStdinCmd())
  }

  /** The in-cluster git service step only appends to the trace and never
      panics. */
  lemma ConfigGitAppends(o: Oracle, m: Machine, root: string)
    ensures var a := ConfigGitInClusterSpec(o, m, root);
      m.trace <= a.m.trace && a.status != Panic
  {
  }

  /** Once the inspect and the template parse succeed, the step cannot fail:
      the template is rendered with the address before the first `/` of the
      inspect output, and the apply is issued last whatever it returns. */
  lemma ConfigApplyIsDiscarded(o: Oracle, m: Machine, root: string)
    requires o(|m.trace|, NetworkInspectCmd()).ok
    requires o(|m.trace| + 1, ParseTemplate(root + "/cluster/git-service.yaml")).ok
    ensures var a := ConfigGitInClusterSpec(o, m, root);
      var ip := o(|m.trace|, NetworkInspectCmd()).out;
      var tpl := o(|m.trace| + 1, ParseTemplate(root + "/cluster/git-service.yaml")).out;
      a.status == Ok && |a.m.trace| == |m.trace| + 5 &&
      a.m.trace[|m.trace| + 2] == RenderTemplate(tpl, AddressOf(ip)) &&
      a.m.trace[|m.trace| + 4] == ApplyStdinCmd()
  {
  }

  /** The events of a successful in-cluster configuration whose first event
      is at position `k`: the address lookup, the template, its rendering
      with the address, the echo of the rendered document, the apply. */
  function ConfigEvents(o: Oracle, k: nat, root: string): seq<Event>
  {
    var parse := ParseTemplate(root + "/cluster/git-service.yaml");
    var render := RenderTemplate(o(k + 1, parse).out, AddressOf(o(k, NetworkInspectCmd()).out));
    [NetworkInspectCmd(), parse, render, Exec("", ["echo", o(k + 2, render).out]), ApplyStdinCmd()]
  }

  /** The configuration succeeds exactly when the address lookup and the
      template parse do, and then its new events are `ConfigEvents`. */
  lemma ConfigGitOrder(o: Oracle, m: Machine, root: string)
    ensures var a := ConfigGitInClusterSpec(o, m, root);
      var k := |m.trace|;
      m.trace <= a.m.trace && a.status != Panic &&
      (a.status == Ok <==>
         o(k, NetworkInspectCmd()).ok && o(k + 1, ParseTemplate(root + "/cluster/git-service.yaml")).ok) &&
      (a.status == Ok ==> a.m.trace == m.trace + ConfigEvents(o, k, root))
  {
  }

  /** The events of a successful server start whose first event is at
      position `k`: the probe alone when it reports the server running,
      else the probe, the run and the attachment to `kind`. */
  function ServerStartEvents(o: Oracle, k: nat, root: string): seq<Event>
  {
    var probe := Docker.InspectCmd(GitServerName);
    if Docker.ReportsRunning(o(k, probe)) then [probe]
    else [probe, GitRunCmd(root), Docker.ConnectCmd(GitServerName)]
  }

  /** Trace `t` extends `t0` by the events of a successful `Run`: the key
      step's, then the server start's, then the configuration's. */
  ghost predicate RunExtends(o: Oracle, t0: seq<Event>, t: seq<Event>, root: string)
  {
    exists ks :: KeyStepEvents(o, |t0|, ks, root) &&
      var keys := t0 + ks;
      var server := keys + ServerStartEvents(o, |keys|, root);
      t == server + ConfigEvents(o, |server|, root)
  }

  /** A key step, then a server start, then a configuration, each from the
      trace the previous one left, make up the events of a `Run`. */
  lemma RunExtendsOfSteps(o: Oracle, root: string, t0: seq<Event>, ks: seq<Event>,
                          t1: seq<Event>, t2: seq<Event>, t: seq<Event>)
    requires t1 == t0 + ks && KeyStepEvents(o, |t0|, ks, root)
    requires t2 == t1 + ServerStartEvents(o, |t1|, root)
    requires t == t2 + ConfigEvents(o, |t2|, root)
    ensures RunExtends(o, t0, t, root)
  {
    assert KeyStepEvents(o, |t0|, ks, root) && t1 == t0 + ks;
  }

  /** `Run` never panics and only appends; when it succeeds its new events
      are the key step's, the server start's and the configuration's, in
      that order. */
  lemma RunOrder(o: Oracle, m: Machine, root: string)
    ensures var a := RunSpec(o, m, root);
      m.trace <= a.m.trace && a.status != Panic &&
      (a.status == Ok ==> RunExtends(o, m.trace, a.m.trace, root))
  {
    RSAKeyOrder(o, m, root);
    var keys := CreateRSAKeySpec(o, m, root);
    if keys.status == Ok {
      StartGitServerShape(o, keys.m, root);
      var server := StartGitServerSpec(o, keys.m, root);
      if server.status == Ok {
        assert server.m.trace == keys.m.trace + ServerStartEvents(o, |keys.m.trace|, root);
        ConfigGitOrder(o, server.m, root);
        var a := ConfigGitInClusterSpec(o, server.m, root);
        if a.status == Ok {
          var ks :| keys.m.trace == m.trace + ks && KeyStepEvents(o, |m.trace|, ks, root);
          RunExtendsOfSteps(o, root, m.trace, ks, keys.m.trace, server.m.trace, a.m.trace);
        }
      }
    }
  }

  /** `Run`: key creation, then the server start, then the in-cluster
      configuration, each only when the previous one returned. */
  function RunSpec(o: Oracle, m: Machine, root: string): After
  {
    var keys := CreateRSAKeySpec(o, m, root);
    if keys.status != Ok then keys
    else
      var server := StartGitServerSpec(o, keys.m, root);
      if server.status != Ok then server
      else ConfigGitInClusterSpec(o, server.m, root)
  }

  function StopSpec(o: Oracle, m: Machine): After
  {
    Docker.StopSidecarSpec(o, m, GitServerName)
  }

  method CreateRSAKey(h: Host, root: string) returns (s: Status)
    modifies h
    ensures After(h.State(), s) == CreateRSAKeySpec(h.oracle, old(h.State()), root)
  {
    var priv, pub, ssh := PrivateKeyPath(root), PublicKeyPath(root), SshDir(root);
    if priv in h.world.fs || pub in h.world.fs {
      return Ok;
    }
    if ssh !in h.world.fs {
      s := h.Require(Mkdir(ssh, Mode0755));
      if s != Ok {
        return;
      }
    }
    var key := h.Exec(GenerateKey(4096));
    if !key.ok {
      return Fatal;
    }
    var authorized := h.Exec(PublicKey(key.out));
    if !authorized.ok {
      return Fatal;
    }
    s := h.Require(WriteFile(pub, authorized.out, Mode0600));
    if s != Ok {
      return;
    }
    s := h.Require(WriteFile(priv, PemBlock("RSA PRIVATE KEY", key.out), Mode0600));
  }

  method StartGitServer(h: Host, root: string) returns (s: Status)
    modifies h
    ensures After(h.State(), s) == StartGitServerSpec(h.oracle, old(h.State()), root)
  {
    var running := Docker.IsImageRunning(h, GitServerName);
    if running {
      return Ok;
    }
    s := h.Require(GitRunCmd(root));
    if s != Ok {
      return;
    }
    s := h.Require(Docker.ConnectCmd(GitServerName));
  }

  method ConfigGitInCluster(h: Host, root: string) returns (s: Status)
    modifies h
    ensures After(h.State(), s) == ConfigGitInClusterSpec(h.oracle, old(h.State()), root)
  {
    var ip := h.Exec(NetworkInspectCmd());
    if !ip.ok {
      return Fatal;
    }
    var tpl := h.Exec(ParseTemplate(root + "/cluster/git-service.yaml"));
    if !tpl.ok {
      return Fatal;
    }
    var doc := h.Exec(RenderTemplate(tpl.out, AddressOf(ip.out)));
    h.Tolerate(Exec("", ["echo", doc.out]));
    h.Tolerate(ApplyStdinCmd());
    s := Ok;
  }

  method Run(h: Host, root: string) returns (s: Status)
    modifies h
    ensures After(h.State(), s) == RunSpec(h.oracle, old(h.State()), root)
  {
    s := CreateRSAKey(h, root);
    if s != Ok {
      return;
    }
    s := StartGitServer(h, root);
    if s != Ok {
      return;
    }
    s := ConfigGitInCluster(h, root);
  }

  method Stop(h: Host) returns (s: Status)
    modifies h
    ensures After(h.State(), s) == StopSpec(h.oracle, old(h.State()))
  {
    h.Tolerate(Docker.StopCmd(GitServerName));
    h.Tolerate(Docker.RmCmd(GitServerName));
    s := Ok;
  }
}
