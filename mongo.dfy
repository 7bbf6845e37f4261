/** internal/mongo/mongoDocker.go: the database sidecar. */
module Mongo {
  import opened Shell
  import Docker

  const MongoName := "mongo-container"

  /** Probe `mongo-container`; unless it reports running, run `mongo` on
      port 27017 (a failure is only logged) and attach it to `kind` (a
      failure is fatal). */
  function RunSpec(o: Oracle, m: Machine): After
  {
    Docker.StartSidecarSpec(o, m, MongoName, MongoName, "27017:27017", "mongo")
  }

  function StopSpec(o: Oracle, m: Machine): After
  {
    Docker.StopSidecarSpec(o, m, MongoName)
  }

  method Run(h: Host) returns (s: Status)
    modifies h
    ensures After(h.State(), s) == RunSpec(h.oracle, old(h.State()))
  {
    var running := Docker.IsImageRunning(h, MongoName);
    if running {
      return Ok;
    }
    h.Tolerate(Docker.RunCmd("27017:27017", MongoName, "mongo"));
    s := h.Require(Docker.ConnectCmd(MongoName));
  }

  method Stop(h: Host) returns (s: Status)
    modifies h
    ensures After(h.State(), s) == StopSpec(h.oracle, old(h.State()))
  {
    h.Tolerate(Docker.StopCmd(MongoName));
    h.Tolerate(Docker.RmCmd(MongoName));
    s := Ok;
  }
}
