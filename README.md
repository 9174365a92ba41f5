# ResourceEvaluator core, modelled in Dafny

`resources-evaluator.py` logs into an OpenShift cluster, picks the projects
whose names contain one of a list of acronyms, gathers their Deployments and
DeploymentConfigs, and appends one CSV row per workload with its replicas,
CPU/memory limits and requests, autoscaler bounds and rollout max surge.

This project models the rules inside that plumbing, with the client's
results passed in as values:

- `Evaluator.ResourceEvaluator` is the `ResourceEvaluator` object. Its
  `projects` and `deployments` lists are `seq` fields that `GetNs` and
  `GetDeployments` append to in loops, as `get_ns` and `get_deployments` do.
  Each method is proved against a specification function: `Selection.Selected`
  and `Collection.Collected`.
- `Resolution.GetResourcesInfo` is `get_resources_info`. The LimitRange lookup
  (by namespace) and the HorizontalPodAutoscaler lookup (by namespace and
  workload name) are function parameters. The method seeds the request and
  limit lists from the LimitRange defaults. It overwrites each slot from the
  first container, as the source does. It returns the record `build_csv`
  receives. Three of the exceptions the code can raise before that point
  become `Err` values: a missing `spec.rollingParams`, a missing LimitRange
  and an empty container list. The others come from the LimitRange shape,
  missing `spec` paths and the autoscaler status; they are listed under
  "## Left out".
- `Report` holds the header list of `init_csv` and the row list of `build_csv`.
  It also holds a per-column reference (`Title`, `Cell`) that the two lists are
  proved to follow position by position.
- `Text.Contains` is Python's `acronym in name` on strings.

Resource quantities are opaque strings. The source does not parse them.

Behaviour of the code worth knowing:
- `get_ns` does not deduplicate projects. A project that contains k acronyms is appended k times.
- Only `containers[0]` is consulted.
- Autoscaler fields default to `0`, not to an empty value.
- No quantity normalisation exists.

## Model

| member | source | states |
|---|---|---|
| Text.ContainsIffOccurs | resources-evaluator.py:43 | the executable substring test holds exactly when the acronym occurs at some position of the name (the empty acronym occurs in every name) |
| Selection.MatchingProjectsAppend | resources-evaluator.py:42-44 | for one acronym, matches are appended in project listing order: filtering a concatenated listing is the concatenation of the filtered parts |
| Selection.MatchingProjectsCount | resources-evaluator.py:42-44 | for one acronym, a name is appended exactly as often as it is listed when it contains the acronym, and never otherwise |
| Selection.SelectedAppend | resources-evaluator.py:40-44 | the output is acronym-major: all matches for earlier acronyms precede all matches for later ones |
| Selection.SelectedCount | resources-evaluator.py:40-44 | no deduplication: a name appears (times listed) × (number of acronyms it contains) times |
| Selection.SelectedMembers | resources-evaluator.py:40-44 | a name is appended iff it is listed and contains at least one acronym |
| Evaluator.ResourceEvaluator.constructor | resources-evaluator.py:11-18 | a new evaluator holds the given acronyms and empty project and workload lists |
| Evaluator.ResourceEvaluator.GetNs | resources-evaluator.py:37-44 | the new project list is the old one followed by the selected names (an empty acronym list appends nothing); only `projects` changes |
| Collection.CollectedAppend | resources-evaluator.py:52-60 | collecting over a concatenated project list is the concatenation of the collections, so the project order is kept |
| Collection.CollectedLength | resources-evaluator.py:52-60 | the collection has exactly the summed lengths of every project's Deployment and DeploymentConfig listings |
| Collection.CollectedMembers | resources-evaluator.py:52-60 | a workload is collected iff one of the projects lists it as a Deployment or a DeploymentConfig |
| Evaluator.ResourceEvaluator.GetDeployments | resources-evaluator.py:46-60 | the new workload list is the old one followed by, per project in order, its Deployments then its DeploymentConfigs, and grows by exactly the listed count; only `deployments` changes |
| Resolution.GetResourcesInfo | resources-evaluator.py:67-102 | raises (as `Err`) exactly when rollingParams, the LimitRange or the first container is missing, in that order. Otherwise namespace, name, replicas and max surge are copied. Each of the four slots is the first container's value when its resources, block and field are all truthy, and else that slot's LimitRange default. No other container is read. The autoscaler fields are 0 without an autoscaler of the workload's exact name, and otherwise copied from it |
| Report.ColumnsAreDistinct | resources-evaluator.py:114 | the report has 12 columns, each appearing exactly once |
| Report.InitCsvFields | resources-evaluator.py:113-114 | the header has one title per column, in column order |
| Report.BuildCsvFields | resources-evaluator.py:104-106 | the row has as many fields as the header, and field i is the value of the column whose title is header entry i |

## Left out

- Login and client construction (`oc_login`, `get_client`, lines 19-30): network I/O through foreign libraries.
- The client lookups (lines 38-39, 47-48, 53-54, 78-79, 94-95) are parameters: a list of project names, per-namespace workload listings, a LimitRange lookup and an autoscaler lookup.
- Reading the acronym file (`get_acronyms`, lines 32-35): file I/O. The constructor takes the acronyms directly. The code stores `get_acronyms`'s `None` return back into `self.acronyms` (line 16); that is not modelled.
- The shape of the LimitRange object (`spec.limits[1]` and `list.extend` over its default objects, lines 80-81). It depends on how the API objects iterate, which is not part of this model. The IndexError of `spec.limits[1]` and the TypeError of `extend(None)` for a missing default block are not modelled. The defaults are given as a (cpu, memory) pair per block.
- CSV file writing (lines 107-110, 115-118): append-mode file I/O. Only the field lists are modelled.
- The entry point (lines 120-132): environment reads and wiring. It is the only reader of a workload's `metadata.namespace`, so `Workload` has no namespace field. Its constructor arguments are in a different order from `__init__`. That ordering is not modelled.
- Workload fields are taken at the paths the code reads them (`spec.replicas`, `spec.rollingParams`, `spec.containers`). Whether the cluster API places them there is not part of this model.
- `spec.containers` being None rather than an empty list (a TypeError at line 82) is not modelled: the container list is always a sequence.
- A LimitRange default block with fewer than two entries (an IndexError at lines 85-92) is not modelled: the defaults are always a pair.
- An autoscaler without a `status` block is not modelled: `Hpa` carries the current utilisation directly.
- Quantity parsing and unit normalisation: the source has none.
