/** cmd/cluster/stop.go: `stopCluster` checks that the container runtime
    answers, then stops the git server, the registry and the database. It
    neither checks that the cluster exists nor removes its nodes. */
module ClusterStop {
  import opened Shell
  import Docker
  import GitDocker
  import Mongo

  function StopClusterSpec(o: Oracle, m: Machine): After
  {
    var daemon := Docker.IsRunningSpec(o, m);
    if daemon.status != Ok then daemon
    else
      var git := GitDocker.StopSpec(o, daemon.m);
      var registry := Docker.StopSpec(o, git.m);
      Mongo.StopSpec(o, registry.m)
  }

  /** A failed daemon check is fatal before any container is touched.
      Otherwise the three sidecars are stopped and removed in the order git
      server, registry, database, and the command always completes; each
      container whose `rm` succeeded is gone. */
  lemma StopClusterOutcome(o: Oracle, m: Machine)
    ensures var a := StopClusterSpec(o, m);
      var k := |m.trace|;
      if !o(k, Docker.PsCmd()).ok then
        a == After(Machine(m.trace + [Docker.PsCmd()], m.world), Fatal)
      else
        a.status == Ok &&
        a.m.trace == m.trace + [Docker.PsCmd(),
          Docker.StopCmd(GitDocker.GitServerName), Docker.RmCmd(GitDocker.GitServerName),
          Docker.StopCmd(Docker.RegistryName), Docker.RmCmd(Docker.RegistryName),
          Docker.StopCmd(Mongo.MongoName), Docker.RmCmd(Mongo.MongoName)] &&
        (o(k + 6, Docker.RmCmd(Mongo.MongoName)).ok ==> Mongo.MongoName !in a.m.world.containers) &&
        (o(k + 4, Docker.RmCmd(Docker.RegistryName)).ok ==> Docker.RegistryName !in a.m.world.containers) &&
        (o(k + 2, Docker.RmCmd(GitDocker.GitServerName)).ok ==> GitDocker.GitServerName !in a.m.world.containers)
  {
    var daemon := Docker.IsRunningSpec(o, m);
    if daemon.status == Ok {
      Docker.StopNeverAborts(o, daemon.m, GitDocker.GitServerName);
      var git := GitDocker.StopSpec(o, daemon.m);
      Docker.StopNeverAborts(o, git.m, Docker.RegistryName);
      var registry := Docker.StopSpec(o, git.m);
      Docker.StopNeverAborts(o, registry.m, Mongo.MongoName);
    }
  }

  method StopCluster(h: Host) returns (s: Status)
    modifies h
    ensures After(h.State(), s) == StopClusterSpec(h.oracle, old(h.State()))
  {
    s := Docker.IsRunning(h);
    if s != Ok {
      return;
    }
    s := GitDocker.Stop(h);
    s := Docker.Stop(h);
    s := Mongo.Stop(h);
  }
}
