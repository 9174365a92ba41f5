/** The `ResourceEvaluator` object: the acronyms it was built with, and the
    project and workload lists its methods append to. */
module Evaluator {
  import opened Text
  import opened Objects
  import opened Selection
  import opened Collection

  class ResourceEvaluator {
    var acronyms: seq<string>
    var projects: seq<string>
    var deployments: seq<Workload>

    /** `__init__` once the acronyms are read: both lists start empty. */
    constructor (acronyms: seq<string>)
      ensures this.acronyms == acronyms && projects == [] && deployments == []
    {
      this.acronyms := acronyms;
      projects := [];
      deployments := [];
    }

    /** `get_ns`: for each acronym, append every listed project whose name
        contains it. `projectsList` stands for the names of the listed
        projects, in listing order. */
    method GetNs(projectsList: seq<string>)
      modifies this`projects
      ensures projects == old(projects) + Selected(acronyms, projectsList)
    {
      var i := 0;
      while i < |acronyms|
        invariant 0 <= i <= |acronyms|
        invariant projects == old(projects) + Selected(acronyms[..i], projectsList)
      {
        var acronym := acronyms[i];
        ghost var before := projects;
        var j := 0;
        while j < |projectsList|
          invariant 0 <= j <= |projectsList|
          invariant projects == before + MatchingProjects(acronym, projectsList[..j])
        {
          ghost var prefix := projectsList[..j + 1];
          assert prefix[..j] == projectsList[..j] && prefix[j] == projectsList[j];
          if Contains(acronym, projectsList[j]) {
            projects := projects + [projectsList[j]];
          }
          j := j + 1;
        }
        assert projectsList[..j] == projectsList;
        ghost var done := acronyms[..i + 1];
        assert done[..i] == acronyms[..i] && done[i] == acronym;
        assert Selected(done, projectsList) == Selected(acronyms[..i], projectsList) + MatchingProjects(acronym, projectsList);
        i := i + 1;
      }
      assert acronyms[..i] == acronyms;
    }

    /** `get_deployments`: for each selected project in order, append its
        Deployments and then its DeploymentConfigs. `deploymentsIn` and
        `configsIn` stand for the two per-namespace listings. */
    method GetDeployments(deploymentsIn: string -> seq<Workload>, configsIn: string -> seq<Workload>)
      modifies this`deployments
      ensures deployments == old(deployments) + Collected(projects, deploymentsIn, configsIn)
      ensures |deployments| == |old(deployments)| + ListedCount(projects, deploymentsIn, configsIn)
    {
      var i := 0;
      while i < |projects|
        invariant 0 <= i <= |projects|
        invariant deployments == old(deployments) + Collected(projects[..i], deploymentsIn, configsIn)
      {
        var project := projects[i];
        var targetDeployments := deploymentsIn(project);
        var targetConfigs := configsIn(project);
        assert projects[..i + 1][..i] == projects[..i];
        if |targetDeployments| > 0 {
          deployments := deployments + targetDeployments;
        }
        if |targetConfigs| > 0 {
          deployments := deployments + targetConfigs;
        }
        i := i + 1;
      }
      assert projects[..i] == projects;
      CollectedLength(projects, deploymentsIn, configsIn);
    }
  }
}
