/** services/dockerRegistry.go and services/mongoService.go: an older copy
    of the registry and database sidecars, each with its own probe. */
module Services {
  import opened Shell
  import Docker
  import Mongo

  function CheckDockerRegistryRunningSpec(o: Oracle, m: Machine): Answer
  {
    Docker.IsImageRunningSpec(o, m, Docker.RegistryName)
  }

  function CheckMongoRunningSpec(o: Oracle, m: Machine): Answer
  {
    Docker.IsImageRunningSpec(o, m, Mongo.MongoName)
  }

  function InstallDockerRegistrySpec(o: Oracle, m: Machine): After
  {
    Docker.StartSidecarSpec(o, m, Docker.RegistryName, Docker.RegistryName, "5000:5000", "registry:2")
  }

  /** The skip guard of `InstallMongo` is the registry's probe. */
  function InstallMongoSpec(o: Oracle, m: Machine): After
  {
    Docker.StartSidecarSpec(o, m, Docker.RegistryName, Mongo.MongoName, "27017:27017", "mongo")
  }

  function RemoveDockerRegistryDockerContainerSpec(o: Oracle, m: Machine): After
  {
    Docker.StopSidecarSpec(o, m, Docker.RegistryName)
  }

  function RemoveMongoDockerContainerSpec(o: Oracle, m: Machine): After
  {
    Docker.StopSidecarSpec(o, m, Mongo.MongoName)
  }

  /** The database start is skipped exactly when the registry probe reports
      running, and the database's own probe is never issued: its first event
      inspects the registry, and it issues nothing else that inspects. */
  lemma InstallMongoFollowsRegistryProbe(o: Oracle, m: Machine)
    ensures var a := InstallMongoSpec(o, m);
      |a.m.trace| > |m.trace| &&
      a.m.trace[|m.trace|] == Docker.InspectCmd(Docker.RegistryName) &&
      Docker.InspectCmd(Mongo.MongoName) !in a.m.trace[|m.trace|..] &&
      (a.m.trace == m.trace + [Docker.InspectCmd(Docker.RegistryName)] <==>
         Docker.ReportsRunning(o(|m.trace|, Docker.InspectCmd(Docker.RegistryName))))
  {
    var a := InstallMongoSpec(o, m);
    if Docker.ReportsRunning(o(|m.trace|, Docker.InspectCmd(Docker.RegistryName))) {
      Docker.StartSkipsWhenProbeRuns(o, m, Docker.RegistryName, Mongo.MongoName, "27017:27017", "mongo");
      assert a.m.trace[|m.trace|..] == [Docker.InspectCmd(Docker.RegistryName)];
    } else {
      Docker.StartRunsThenConnects(o, m, Docker.RegistryName, Mongo.MongoName, "27017:27017", "mongo");
      assert a.m.trace[|m.trace|..] == [Docker.InspectCmd(Docker.RegistryName),
        Docker.RunCmd("27017:27017", Mongo.MongoName, "mongo"), Docker.ConnectCmd(Mongo.MongoName)];
    }
  }

  method CheckDockerRegistryRunning(h: Host) returns (running: bool)
    modifies h
    ensures Answer(h.State(), Ok, running) == CheckDockerRegistryRunningSpec(h.oracle, old(h.State()))
  {
    var r := h.Exec(Docker.InspectCmd(Docker.RegistryName));
    if !r.ok {
      return false;
    }
    running := r.out == "true";
  }

  method CheckMongoRunning(h: Host) returns (running: bool)
    modifies h
    ensures Answer(h.State(), Ok, running) == CheckMongoRunningSpec(h.oracle, old(h.State()))
  {
    var r := h.Exec(Docker.InspectCmd(Mongo.MongoName));
    if !r.ok {
      return false;
    }
    running := r.out == "true";
  }

  method InstallDockerRegistry(h: Host) returns (s: Status)
    modifies h
    ensures After(h.State(), s) == InstallDockerRegistrySpec(h.oracle, old(h.State()))
  {
    var running := CheckDockerRegistryRunning(h);
    if running {
      return Ok;
    }
    h.Tolerate(Docker.RunCmd("5000:5000", Docker.RegistryName, "registry:2"));
    s := h.Require(Docker.ConnectCmd(Docker.RegistryName));
  }

  method InstallMongo(h: Host) returns (s: Status)
    modifies h
    ensures After(h.State(), s) == InstallMongoSpec(h.oracle, old(h.State()))
  {
    var running := CheckDockerRegistryRunning(h);
    if running {
      return Ok;
    }
    h.Tolerate(Docker.RunCmd("27017:27017", Mongo.MongoName, "mongo"));
    s := h.Require(Docker.ConnectCmd(Mongo.MongoName));
  }

  method RemoveDockerRegistryDockerContainer(h: Host) returns (s: Status)
    modifies h
    ensures After(h.State(), s) == RemoveDockerRegistryDockerContainerSpec(h.oracle, old(h.State()))
  {
    h.Tolerate(Docker.StopCmd(Docker.RegistryName));
    h.Tolerate(Docker.RmCmd(Docker.RegistryName));
    s := Ok;
  }

  method RemoveMongoDockerContainer(h: Host) returns (s: Status)
    modifies h
    ensures After(h.State(), s) == RemoveMongoDockerContainerSpec(h.oracle, old(h.State()))
  {
    h.Tolerate(Docker.StopCmd(Mongo.MongoName));
    h.Tolerate(Docker.RmCmd(Mongo.MongoName));
    s := Ok;
  }
}
