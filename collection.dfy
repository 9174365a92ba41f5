/** What `get_deployments` appends to the workload list: per selected
    project, in order, its Deployments followed by its DeploymentConfigs. */
module Collection {
  import opened Objects

  /** The workloads collected for `projects`; `deploymentsIn` and `configsIn`
      stand for the client's per-namespace listings. */
  function Collected(projects: seq<string>, deploymentsIn: string -> seq<Workload>,
                     configsIn: string -> seq<Workload>): seq<Workload>
    decreases |projects|
  {
    if projects == [] then []
    else
      var last := projects[|projects| - 1];
      Collected(projects[..|projects| - 1], deploymentsIn, configsIn) + deploymentsIn(last) + configsIn(last)
  }

  /** The number of workloads the listings hold for `projects`, summed
      project by project from the front. */
  function ListedCount(projects: seq<string>, deploymentsIn: string -> seq<Workload>,
                       configsIn: string -> seq<Workload>): nat
    decreases |projects|
  {
    if projects == [] then 0
    else |deploymentsIn(projects[0])| + |configsIn(projects[0])| + ListedCount(projects[1..], deploymentsIn, configsIn)
  }

  /** Collecting over a concatenated project list collects the first part,
      then the second. */
  lemma {:induction false} CollectedAppend(projects1: seq<string>, projects2: seq<string>,
                                           deploymentsIn: string -> seq<Workload>, configsIn: string -> seq<Workload>)
    ensures Collected(projects1 + projects2, deploymentsIn, configsIn)
         == Collected(projects1, deploymentsIn, configsIn) + Collected(projects2, deploymentsIn, configsIn)
    decreases |projects2|
  {
    if projects2 != [] {
      var all := projects1 + projects2;
      assert all[..|all| - 1] == projects1 + projects2[..|projects2| - 1];
      assert all[|all| - 1] == projects2[|projects2| - 1];
      CollectedAppend(projects1, projects2[..|projects2| - 1], deploymentsIn, configsIn);
    } else {
      assert projects1 + projects2 == projects1;
    }
  }

  /** Nothing is dropped or added: the collection holds exactly as many
      workloads as the listings of the projects. */
  lemma {:induction false} CollectedLength(projects: seq<string>, deploymentsIn: string -> seq<Workload>,
                                           configsIn: string -> seq<Workload>)
    ensures |Collected(projects, deploymentsIn, configsIn)| == ListedCount(projects, deploymentsIn, configsIn)
    decreases |projects|
  {
    if projects != [] {
      var rest := projects[1..];
      assert projects == [projects[0]] + rest;
      CollectedAppend([projects[0]], rest, deploymentsIn, configsIn);
      assert [projects[0]][..0] == [];
      CollectedLength(rest, deploymentsIn, configsIn);
    }
  }

  /** A workload is collected exactly when it is listed, as a Deployment or
      as a DeploymentConfig, in one of the projects. */
  lemma {:induction false} CollectedMembers(projects: seq<string>, deploymentsIn: string -> seq<Workload>,
                                            configsIn: string -> seq<Workload>, w: Workload)
    ensures w in Collected(projects, deploymentsIn, configsIn)
        <==> exists i :: 0 <= i < |projects| && (w in deploymentsIn(projects[i]) || w in configsIn(projects[i]))
    decreases |projects|
  {
    if projects != [] {
      var init, last := projects[..|projects| - 1], projects[|projects| - 1];
      CollectedMembers(init, deploymentsIn, configsIn, w);
      if exists i :: 0 <= i < |projects| && (w in deploymentsIn(projects[i]) || w in configsIn(projects[i])) {
        var i :| 0 <= i < |projects| && (w in deploymentsIn(projects[i]) || w in configsIn(projects[i]));
        if i < |init| {
          assert init[i] == projects[i];
        }
      }
      if exists i :: 0 <= i < |init| && (w in deploymentsIn(init[i]) || w in configsIn(init[i])) {
        var i :| 0 <= i < |init| && (w in deploymentsIn(init[i]) || w in configsIn(init[i]));
        assert projects[i] == init[i];
      }
    }
  }
}
