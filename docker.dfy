/** internal/docker: the container-runtime liveness check, the "is this
    container running" probe, and the registry sidecar (dockerEngine.go,
    dockerRegistry.go). The start and stop sequences shared by every sidecar
    are defined here once, as `StartSidecarSpec` and `StopSidecarSpec`. */
module Docker {
  import opened Shell

  const RegistryName := "docker-image-reg"

  function PsCmd(): Event
  {
    Exec("", ["docker", "ps"])
  }

  /** The probe; the format argument carries literal single quotes. */
  function InspectCmd(name: string): Event
  {
    Exec("", ["docker", "container", "inspect", "-f", "'{{.State.Running}}'", name])
  }

  /** `docker run` of a sidecar with a fixed port mapping and restart policy. */
  function RunCmd(ports: string, name: string, image: string): Event
  {
    Exec("", ["docker", "run", "-d", "-p" + ports, "--pull=missing", "--name=" + name, "--restart=always", image])
  }

  function ConnectCmd(name: string): Event
  {
    Exec("", ["docker", "network", "connect", "kind", name])
  }

  function StopCmd(name: string): Event
  {
    Exec("", ["docker", "stop", name])
  }

  function RmCmd(name: string): Event
  {
    Exec("", ["docker", "rm", name])
  }

  /** The verdict on the probe's reply: a failed inspect is "not running",
      and only output that is exactly `true` (no trimming) is "running". */
  predicate ReportsRunning(r: Reply)
  {
    r.ok && r.out == "true"
  }

  /** The container runtime prints the quoted format back with its quotes and
      a line break, so a running container does not pass the probe either:
      no output that starts with a quote or ends with a line break, whatever
      lies between, is taken for "running", nor is any failed inspect. */
  lemma QuotedOutputIsNotRunning()
    ensures forall out :: |out| > 0 && (out[0] == '\'' || out[|out| - 1] == '\n') ==> !ReportsRunning(Reply(true, out))
    ensures forall body :: !ReportsRunning(Reply(true, "'" + body + "'\n"))
    ensures forall out :: !ReportsRunning(Reply(false, out))
  {
    forall body
      ensures !ReportsRunning(Reply(true, "'" + body + "'\n"))
    {
      assert ("'" + body + "'\n")[0] == '\'';
    }
  }

  /** `IsRunning`: `docker ps`, fatal when it fails. */
  function IsRunningSpec(o: Oracle, m: Machine): After
  {
    Required(o, m, PsCmd())
  }

  /** `IsImageRunning(name)`: one inspect command, never fatal. */
  function IsImageRunningSpec(o: Oracle, m: Machine, name: string): Answer
  {
    Answer(Issue(o, m, InspectCmd(name)), Ok, ReportsRunning(ReplyTo(o, m, InspectCmd(name))))
  }

  /** The daemon check issues `docker ps` alone, changes nothing, and is
      fatal exactly when that command fails. */
  lemma IsRunningFatalIffPsFails(o: Oracle, m: Machine)
    ensures var a := IsRunningSpec(o, m);
      a.m == Machine(m.trace + [PsCmd()], m.world) &&
      (a.status == Fatal <==> !o(|m.trace|, PsCmd()).ok) &&
      a.status in {Ok, Fatal}
  {
  }

  /** The probe issues only the inspect command, changes no state, and says
      "running" exactly when the inspect succeeded with output `true`. */
  lemma IsImageRunningOnlyInspects(o: Oracle, m: Machine, name: string)
    ensures var p := IsImageRunningSpec(o, m, name);
      p.m == Machine(m.trace + [InspectCmd(name)], m.world) && p.status == Ok &&
      (p.yes <==> (o(|m.trace|, InspectCmd(name)).ok && o(|m.trace|, InspectCmd(name)).out == "true"))
  {
  }

  /** Start of a sidecar: probe `probed`; when it reports running, stop there.
      Otherwise run the container (a failure is only logged) and attach it
      to the `kind` network (a failure is fatal). */
  function StartSidecarSpec(o: Oracle, m: Machine, probed: string, name: string, ports: string, image: string): After
  {
    var p := IsImageRunningSpec(o, m, probed);
    if p.yes then After(p.m, Ok)
    else
      var run := Tolerated(o, p.m, RunCmd(ports, name, image));
      Required(o, run.m, ConnectCmd(name))
  }

  /** Stop of a sidecar: `docker stop` then `docker rm`, failures only logged. */
  function StopSidecarSpec(o: Oracle, m: Machine, name: string): After
  {
    var stopped := Tolerated(o, m, StopCmd(name));
    Tolerated(o, stopped.m, RmCmd(name))
  }

  /** When the probe reports running, start issues nothing after it and
      changes nothing. */
  lemma StartSkipsWhenProbeRuns(o: Oracle, m: Machine, probed: string, name: string, ports: string, image: string)
    requires ReportsRunning(o(|m.trace|, InspectCmd(probed)))
    ensures StartSidecarSpec(o, m, probed, name, ports, image) ==
      After(Machine(m.trace + [InspectCmd(probed)], m.world), Ok)
  {
  }

  /** Otherwise start issues run and connect, in that order; a failed run
      does not stop the connect, and the outcome is fatal exactly when the
      connect fails. When both succeed the container is running and on the
      `kind` network. */
  lemma StartRunsThenConnects(o: Oracle, m: Machine, probed: string, name: string, ports: string, image: string)
    requires !ReportsRunning(o(|m.trace|, InspectCmd(probed)))
    requires name != ""
    ensures var a := StartSidecarSpec(o, m, probed, name, ports, image);
      a.m.trace == m.trace + [InspectCmd(probed), RunCmd(ports, name, image), ConnectCmd(name)] &&
      (a.status == Ok <==> o(|m.trace| + 2, ConnectCmd(name)).ok) &&
      (a.status == Ok || a.status == Fatal) &&
      (o(|m.trace| + 1, RunCmd(ports, name, image)).ok && a.status == Ok ==>
         name in a.m.world.containers && a.m.world.containers[name] == Container(true, true))
  {
    var run := RunCmd(ports, name, image);
    RunCmdNames(ports, name, image);
  }

  /** The container a `RunCmd` starts is the one it names. */
  lemma RunCmdNames(ports: string, name: string, image: string)
    ensures NameFlag(RunCmd(ports, name, image).argv) == name
  {
    var a := RunCmd(ports, name, image).argv;
    assert !IsNameFlag(a[3]) by { assert a[3][1] == 'p'; }
    assert !IsNameFlag(a[4]) by { assert a[4][2] == 'p'; }
    assert IsNameFlag(a[5]) && a[5][7..] == name;
    assert NameFlag(a[5..]) == name;
    assert a[4..][1..] == a[5..];
    assert NameFlag(a[4..]) == name;
    assert a[3..][1..] == a[4..];
    assert NameFlag(a[3..]) == name;
    assert a[2..][1..] == a[3..];
    assert NameFlag(a[2..]) == name;
    assert a[1..][1..] == a[2..];
    assert NameFlag(a[1..]) == name;
  }

  /** Stop always issues stop then rm and never aborts; after a successful
      rm the container is gone. */
  lemma StopNeverAborts(o: Oracle, m: Machine, name: string)
    ensures var a := StopSidecarSpec(o, m, name);
      a.status == Ok &&
      a.m.trace == m.trace + [StopCmd(name), RmCmd(name)] &&
      (o(|m.trace| + 1, RmCmd(name)).ok ==> name !in a.m.world.containers)
  {
  }

  /** The registry sidecar of internal/docker/dockerRegistry.go. */
  function RunSpec(o: Oracle, m: Machine): After
  {
    StartSidecarSpec(o, m, RegistryName, RegistryName, "5000:5000", "registry:2")
  }

  function StopSpec(o: Oracle, m: Machine): After
  {
    StopSidecarSpec(o, m, RegistryName)
  }

  method IsRunning(h: Host) returns (s: Status)
    modifies h
    ensures After(h.State(), s) == IsRunningSpec(h.oracle, old(h.State()))
  {
    s := h.Require(PsCmd());
  }

  method IsImageRunning(h: Host, name: string) returns (running: bool)
    modifies h
    ensures Answer(h.State(), Ok, running) == IsImageRunningSpec(h.oracle, old(h.State()), name)
  {
    var r := h.Exec(InspectCmd(name));
    if !r.ok {
      return false;
    }
    running := r.out == "true";
  }

  /** Run the registry unless the probe says it is running. */
  method Run(h: Host) returns (s: Status)
    modifies h
    ensures After(h.State(), s) == RunSpec(h.oracle, old(h.State()))
  {
    var running := IsImageRunning(h, RegistryName);
    if running {
      return Ok;
    }
    h.Tolerate(RunCmd("5000:5000", RegistryName, "registry:2"));
    s := h.Require(ConnectCmd(RegistryName));
  }

  method Stop(h: Host) returns (s: Status)
    modifies h
    ensures After(h.State(), s) == StopSpec(h.oracle, old(h.State()))
  {
    h.Tolerate(StopCmd(RegistryName));
    h.Tolerate(RmCmd(RegistryName));
    s := Ok;
  }
}
