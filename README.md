# LANDERHub spawner hooks, modelled in Dafny

LANDERHub customises a JupyterHub KubeSpawner with two hooks in
`config/jupyterhub_config_custom.py`:

- **`get_workspaces`** builds the profile list a user may pick from.
  - It takes the user's workspace names from the configuration store and collapses them to a set.
  - It looks each name up in the workspace table and skips names that are not there.
  - It drops entries whose `end_date` is past. A missing `end_date` counts as `1900-01-01`.
  - It writes `slug` and the pod label `workspace: <name>` into the stored entries, in place.
  - It returns the survivors sorted by slug.
- **`modify_pod_hook`** runs on every pod before it is created. It has two phases.
  - The first phase appends the read-only shared volume `landerhub-common` and its mount.
  - The second phase appends the `volumes` / `volume_mounts` pairs listed under the `storage` key of the workspace named by the pod's `workspace` label.
  - Each phase catches its own exceptions. An error stops the rest of that phase but keeps what was already appended.

The model has five modules:

- `LexOrder` (`lexorder.dfy`): Python's ordering of strings, which `sorted` uses on slugs. It proves this is a strict total order.
- `Dates` (`dates.dfy`): dates as integer triples, and "now" as a date plus microseconds since midnight. It defines `datetime.today() > end_date` as `PastEndDate`.
- `Config` (`config.dfy`): the configuration store as a class `ConfigStore` whose `users` and `workspaces` maps hold the store's entries. It also holds workspace records, storage dictionaries and raw Kubernetes dictionaries.
- `Workspaces` (`workspaces.dfy`): `get_workspaces` as the method `GetWorkspaces`.
  - The method loops over the name set, picking names in an unspecified order, as Python's set iteration does.
  - It stamps the stored entries and then sorts with `SortBySlug`, an insertion sort.
  - Its promise is the predicate `GetWorkspacesOutcome`.
  - `OutcomeUnique` shows that this promise pins the result down whatever order the names are visited in. `SecondCallSame` shows that calling again returns the same list.
- `PodHook` (`podhook.dfy`): `modify_pod_hook` as the method `ModifyPodHook` on a `Pod` class. The pod's `volumes`, first-container `volumeMounts` and `labels` are fields.
  - Each phase is its own method, and the `zip` loop is `AttachPairs`.
  - An exception is an early return that sets the phase's error flag.
  - `CommonAttach`, `ZipAttach` and `WorkspaceAttach` state what each phase appends and whether it logs an error. The lemmas characterise these functions.

Facts of the code that the model keeps:

- The first phase always ends in its error handler, even when both appends succeed. Its success message uses `v` and `vm`, and at that point neither variable has been bound.
- The second phase's success message (line 105) reads `v['name']` and `vm['mountPath']` from the last raw pair. So the phase also ends in its handler, after appending every pair, when that volume has no `name` key or that mount has no `mountPath` key. With no pair at all, `v` is unbound and the message raises as well.
- `zip` stops at the shorter list.
- If a volume mount fails to convert, its volume has already been appended and stays without a mount.
- An expired entry still gets its `slug` written, because line 34 runs before the expiry test.
- A permitted entry without `kubespawner_override` raises `KeyError`. Nothing catches it, so the model returns it as `Failure(name)`.
- Each user has a plain list of workspace names. There are no profile groups, default profile sets or storage groups.
- Storage is chosen by the pod's `workspace` label, not by what the user is entitled to.
- A volume that fails to convert is not skipped on its own: it ends the whole phase.

## Model

| member | source | states |
|---|---|---|
| Dates.PastEndDateIff | config/jupyterhub_config_custom.py:36-41 | expiry is strict against midnight of the end date: past iff the end date is an earlier day, or it is today and any time after 00:00 has elapsed; never on an earlier day or exactly at midnight |
| Dates.DefaultEndDatePast | config/jupyterhub_config_custom.py:31-36 | the default end date 1900-01-01 is past for every instant in a later year, so an entry without `end_date` is never offered |
| LexOrder.LessIrreflexive | config/jupyterhub_config_custom.py:47-49 | no slug sorts before itself |
| LexOrder.LessTransitive | config/jupyterhub_config_custom.py:47-49 | the string order used by `sorted` is transitive |
| LexOrder.LessTotal | config/jupyterhub_config_custom.py:47-49 | any two different slugs are ordered one way or the other |
| LexOrder.LessAsymmetric | config/jupyterhub_config_custom.py:47-49 | two slugs are never each below the other |
| LexOrder.LessOrEqualTransitive | config/jupyterhub_config_custom.py:47-49 | the non-strict string order is transitive |
| Workspaces.Insert | config/jupyterhub_config_custom.py:47-49 | inserting into a sorted list gives a sorted list that is a permutation of the list plus the new entry |
| Workspaces.SortBySlug | config/jupyterhub_config_custom.py:47-49 | the result is sorted ascending by the key `slug` (default `99_Z`) and is a permutation of the input |
| Workspaces.SortKeepsDistinct | config/jupyterhub_config_custom.py:47-49 | sorting a list with no repeated slug yields a list with no repeated slug |
| Workspaces.SortedDistinctIsStrict | config/jupyterhub_config_custom.py:20-49 | a sorted list without repeated slugs (the input was a set) is strictly ascending |
| Workspaces.StrictlySortedUnique | config/jupyterhub_config_custom.py:20-49 | two strictly ascending lists with the same entries are equal, so the returned list does not depend on the order in which the set of names is visited |
| Workspaces.StampEffect | config/jupyterhub_config_custom.py:34-43 | every visited entry gets its own name as slug; a permitted entry gets exactly the label `workspace: <name>`, replacing earlier labels; an expired entry keeps its override; nothing else in the entry changes |
| Workspaces.StampAllStable | config/jupyterhub_config_custom.py:26-45 | stamping the table does not change which names are entitled, and stamping it again changes nothing |
| Workspaces.VisitWorkspace | config/jupyterhub_config_custom.py:26-45 | one visit: an unknown name changes nothing; a known one is stamped, and the visit reports expiry, the `KeyError`, or the permitted entry as stored |
| Workspaces.CollectedStep | config/jupyterhub_config_custom.py:24-45 | a visit that does not raise keeps the loop's invariant: the collected list holds exactly the entitled names visited so far, once each, as stored |
| Workspaces.FailureOutcome | config/jupyterhub_config_custom.py:43 | a visit that raises leaves the call failing with that name, which is entitled and lacks `kubespawner_override`, and with only the visited names stamped |
| Workspaces.SuccessOutcome | config/jupyterhub_config_custom.py:47-51 | after a loop that visited every name, the sorted list is strictly ascending, holds exactly one entry per entitled name, and each entry is the stamped stored one |
| Workspaces.GetWorkspaces | config/jupyterhub_config_custom.py:17-51 | fails iff some entitled entry has no `kubespawner_override`; otherwise returns, strictly ascending by slug, exactly the user's names that resolve and are not expired, each entry the stamped stored one, with the whole name set stamped in the table; names not in the table are skipped |
| Workspaces.SameStoredListsEqual | config/jupyterhub_config_custom.py:45-49 | two strictly ascending lists with the same slugs, each entry the one stored under its slug, are the same list |
| Workspaces.OutcomeUnique | config/jupyterhub_config_custom.py:20-51 | any two successful outcomes for the same table, names and instant have the same returned list and the same table afterwards, so the order in which the set of names is visited does not matter |
| Workspaces.SecondCallSame | config/jupyterhub_config_custom.py:17-51 | a call on the table a successful call left behind, at the same instant, returns the same list and leaves that table unchanged |
| PodHook.CommonAttachOutcome | config/jupyterhub_config_custom.py:68-82 | the common phase appends the `landerhub-common` volume (claim `pvc-landerhub-common`) when it converts, and its read-only mount at `/home/jovyan/shared_readonly` only after it; it always ends in its error handler |
| PodHook.MountCommonStorage | config/jupyterhub_config_custom.py:68-82 | appends exactly what `CommonAttach` says to the pod's two lists, leaves its labels alone, and always logs the error |
| PodHook.ZipAttachShape | config/jupyterhub_config_custom.py:99-103 | after `n` pairs, volume `j` and mount `j` come from pair `j` in order; every completed pair converted; at most the last volume lacks its mount; a failure is at the pair after the completed ones, and its volume is appended exactly when only its mount failed |
| PodHook.ZipAttachFailsIff | config/jupyterhub_config_custom.py:99-112 | the loop ends in the handler iff some pair among the first `n` does not convert |
| PodHook.ZipAttachStops | config/jupyterhub_config_custom.py:99-103 | once a pair fails, no later pair is attempted |
| PodHook.ZipAttachTruncates | config/jupyterhub_config_custom.py:99 | the pairs attached depend only on the first `n` elements of each list: extra elements of the longer list are ignored |
| PodHook.AttachPairs | config/jupyterhub_config_custom.py:99-103 | the `zip` loop appends exactly `ZipAttach`'s volumes and mounts to the pod, in order, and reports its failure |
| PodHook.WorkspaceAttachAccepted | config/jupyterhub_config_custom.py:90-112 | with a truthy storage whose pairs all convert, pair `i` is appended for every `i` below the shorter length, in order, and an error is logged iff the success message raises: there is no pair, or the last volume has no `name` key or the last mount has no `mountPath` key |
| PodHook.WorkspaceAttachFalsy | config/jupyterhub_config_custom.py:96-109 | with no storage or an empty one, nothing is appended and no error is logged |
| PodHook.WorkspaceAttachDangling | config/jupyterhub_config_custom.py:99-112 | the workspace phase leaves at most one volume without its mount, and only when it logs an error |
| PodHook.StampedLabelSelectsStorage | config/jupyterhub_config_custom.py:84-92 | the label `get_workspaces` gives a permitted workspace makes the hook look up that workspace's own storage |
| PodHook.MountWorkspaceStorage | config/jupyterhub_config_custom.py:86-112 | appends exactly what `WorkspaceAttach` says for the pod's own label and the configured table, leaves the labels alone, and logs an error exactly when `WorkspaceAttach` ends in the handler: a missing `volumes`/`volume_mounts` key, a pair that does not convert, or a success message that raises |
| PodHook.ModifyPodHook | config/jupyterhub_config_custom.py:54-114 | never raises and returns the same pod; its volume and mount lists keep their old contents as a prefix, followed by the common phase's and then the workspace phase's appends; the common phase's error is always logged, and the workspace phase's exactly when `WorkspaceAttach` ends in the handler, including when the line-105 success message raises |

## Left out

- The `profile_form_template` HTML/Jinja string (lines 119-146) is UI rendering. The `c.KubeSpawner.*` assignments (lines 117-118) are framework wiring.
- `z2jh.get_config` is modelled as lookups in the two maps of `ConfigStore`. Several things about dotted-key lookup are not modelled:
  - a name containing `.` reaches into nested keys;
  - a workspace entry whose value is `null` is the same as a missing one, and a non-dictionary entry fails on `.get`;
  - a `workspaces` setting that is not a list: a string is split into its characters and a mapping into its keys, and each is looked up as a workspace name; a number, a boolean or `null` makes `set(...)` raise `TypeError`.
- `Workspaces.GetWorkspaces`: in the source, a malformed `end_date` makes `strptime` raise `ValueError`, and nothing catches it. The model requires every date it will parse to be a valid calendar date instead. An `end_date` that YAML has already turned into a date object, which `strptime` rejects with `TypeError`, is not modelled either.
- `datetime.today()` is the parameter `now`. Time zones are not modelled: the source compares naive local times.
- `Workspaces.GetWorkspaces`: the source reads the clock once for each name it finds (line 36), but the model reads it once for the whole call. Its promise of exactly the entries not expired at `now` therefore assumes every visit sees the same instant. A call that runs across midnight of an end date can drop some entries with that end date and keep others; the model does not capture that.
- `Workspaces.GetWorkspaces`: Python returns the same dictionary objects the store holds. The model returns values and states that each one equals the entry stored under its slug. Later mutation through the returned list is not modelled.
- `Workspaces.SortBySlug` is stable like Python's `sorted`, but stability is not stated or proved. The list it sorts never has two entries with the same slug.
- `get_k8s_model` and the `V1Volume` / `V1VolumeMount` classes are foreign code. The model has a `Schema` parameter that says which raw dictionaries convert. A conversion that succeeds is modelled as carrying its dictionary unchanged.
- Some pod shapes would raise inside a phase and are not modelled:
  - a pod with no container, so `containers[0]` fails;
  - `labels` or `volumes` set to `None`.
- Some storage shapes are not modelled: a `storage` value that is not a dictionary of lists (a string or a list), and `volumes` entries that are not dictionaries.
- Log messages (`spawner.log.*`, `print`) are reduced to one error flag per phase. Informational messages are not modelled.
- Kubernetes scheduling and the pod lifecycle belong to the orchestrator and are outside this hook.
