/** `modify_pod_hook`: before a pod is created, attach the read-only shared
    volume every pod gets, then the volumes listed under the `storage` key of
    the workspace named by the pod's `workspace` label. Each of the two
    phases catches its own exceptions, so the hook never raises. */
module PodHook {
  import opened Config
  import opened Dates
  import Workspaces

  /** A `V1Volume` built by `get_k8s_model` from its raw dictionary. */
  datatype Volume = Volume(spec: Raw)

  /** A `V1VolumeMount` built by `get_k8s_model` from its raw dictionary. */
  datatype VolumeMount = VolumeMount(spec: Raw)

  /** The Kubernetes schema check inside `get_k8s_model`, which is not part
      of this model: which raw dictionaries convert, and which raise. */
  datatype Schema = Schema(volumeOk: Raw -> bool, mountOk: Raw -> bool)

  /** `get_k8s_model(V1Volume, raw)`; `None` stands for the exception. */
  function ToVolume(schema: Schema, raw: Raw): Option<Volume> {
    if schema.volumeOk(raw) then Some(Volume(raw)) else None
  }

  /** `get_k8s_model(V1VolumeMount, raw)`; `None` stands for the exception. */
  function ToVolumeMount(schema: Schema, raw: Raw): Option<VolumeMount> {
    if schema.mountOk(raw) then Some(VolumeMount(raw)) else None
  }

  /** The shared volume every pod gets. */
  const CommonVolume: Raw := map[
    "name" := Text("landerhub-common"),
    "persistentVolumeClaim" := Nested(map["claimName" := Text("pvc-landerhub-common")])]

  /** Its mount: read-only, under the user's home directory. */
  const CommonVolumeMount: Raw := map[
    "name" := Text("landerhub-common"),
    "mountPath" := Text("/home/jovyan/shared_readonly"),
    "readOnly" := Flag(true)]

  /** The pod, reduced to what the hook reads and writes. */
  class Pod {
    /** `pod.spec.volumes` */
    var volumes: seq<Volume>
    /** `pod.spec.containers[0].volume_mounts` */
    var volumeMounts: seq<VolumeMount>
    /** `pod.metadata.labels` */
    var labels: map<string, string>

    constructor (volumes: seq<Volume>, volumeMounts: seq<VolumeMount>, labels: map<string, string>)
      ensures this.volumes == volumes && this.volumeMounts == volumeMounts && this.labels == labels
    {
      this.volumes := volumes;
      this.volumeMounts := volumeMounts;
      this.labels := labels;
    }
  }

  /** What one phase appends to the two lists, and whether it ended in its
      `except` handler (an error was logged). */
  datatype Attach = Attach(volumes: seq<Volume>, mounts: seq<VolumeMount>, failed: bool)

  /** The common phase: the volume is appended before its mount is built,
      and the success message after them names `v` and `vm`, which nothing
      has bound yet, so the phase always ends in its handler. */
  function CommonAttach(schema: Schema): Attach {
    match ToVolume(schema, CommonVolume)
    case None => Attach([], [], true)
    case Some(v) =>
      match ToVolumeMount(schema, CommonVolumeMount)
      case None => Attach([v], [], true)
      case Some(m) => Attach([v], [m], true)
  }

  /** The common phase always logs an error, appends at most the shared
      volume and its mount, and never a mount without the volume. */
  lemma CommonAttachOutcome(schema: Schema)
    ensures CommonAttach(schema).failed
    ensures CommonAttach(schema).volumes == if schema.volumeOk(CommonVolume) then [Volume(CommonVolume)] else []
    ensures CommonAttach(schema).mounts
      == if schema.volumeOk(CommonVolume) && schema.mountOk(CommonVolumeMount) then [VolumeMount(CommonVolumeMount)] else []
  {
  }

  /** Both members of pair `j` convert. */
  predicate Accepted(schema: Schema, vs: seq<Raw>, ms: seq<Raw>, j: int)
    requires 0 <= j < |vs| && 0 <= j < |ms|
  {
    schema.volumeOk(vs[j]) && schema.mountOk(ms[j])
  }

  /** The `zip` loop after its first `n` pairs: each pair appends its volume,
      then its mount; the first conversion that raises ends the loop, keeping
      what was already appended. */
  function ZipAttach(schema: Schema, vs: seq<Raw>, ms: seq<Raw>, n: nat): Attach
    requires n <= |vs| && n <= |ms|
  {
    if n == 0 then Attach([], [], false)
    else
      var prev := ZipAttach(schema, vs, ms, n - 1);
      if prev.failed then prev
      else if !schema.volumeOk(vs[n - 1]) then prev.(failed := true)
      else if !schema.mountOk(ms[n - 1]) then prev.(volumes := prev.volumes + [Volume(vs[n - 1])], failed := true)
      else Attach(prev.volumes + [Volume(vs[n - 1])], prev.mounts + [VolumeMount(ms[n - 1])], false)
  }

  /** What the loop has appended after `n` pairs: volume `j` and mount `j`
      come from pair `j`, in order; every completed pair converted; at most
      one volume (the last) is without its mount; and when the loop ended in
      the handler, the pair just after the completed ones is the one that
      failed, its volume appended exactly when only its mount failed. */
  lemma {:induction false} ZipAttachShape(schema: Schema, vs: seq<Raw>, ms: seq<Raw>, n: nat)
    requires n <= |vs| && n <= |ms|
    ensures var a := ZipAttach(schema, vs, ms, n);
      && |a.mounts| <= |a.volumes| <= |a.mounts| + 1 && |a.volumes| <= n
      && (forall j :: 0 <= j < |a.volumes| ==> a.volumes[j] == Volume(vs[j]))
      && (forall j :: 0 <= j < |a.mounts| ==> a.mounts[j] == VolumeMount(ms[j]) && Accepted(schema, vs, ms, j))
      && (!a.failed ==> |a.volumes| == |a.mounts| == n)
      && (a.failed ==> |a.mounts| < n && !Accepted(schema, vs, ms, |a.mounts|)
                       && (|a.volumes| > |a.mounts| <==> schema.volumeOk(vs[|a.mounts|])))
  {
    if n > 0 {
      ZipAttachShape(schema, vs, ms, n - 1);
    }
  }

  /** The loop ends in the handler exactly when some pair among the first `n`
      does not convert. */
  lemma {:induction false} ZipAttachFailsIff(schema: Schema, vs: seq<Raw>, ms: seq<Raw>, n: nat)
    requires n <= |vs| && n <= |ms|
    ensures ZipAttach(schema, vs, ms, n).failed <==> exists j :: 0 <= j < n && !Accepted(schema, vs, ms, j)
  {
    if n > 0 {
      ZipAttachFailsIff(schema, vs, ms, n - 1);
      if !ZipAttach(schema, vs, ms, n - 1).failed && !Accepted(schema, vs, ms, n - 1) {
        assert ZipAttach(schema, vs, ms, n).failed;
      }
    }
  }

  /** Once a pair fails, later pairs are never attempted. */
  lemma {:induction false} ZipAttachStops(schema: Schema, vs: seq<Raw>, ms: seq<Raw>, k: nat, n: nat)
    requires k <= n <= |vs| && n <= |ms|
    requires ZipAttach(schema, vs, ms, k).failed
    ensures ZipAttach(schema, vs, ms, n) == ZipAttach(schema, vs, ms, k)
    decreases n - k
  {
    if k < n {
      ZipAttachStops(schema, vs, ms, k, n - 1);
    }
  }

  /** `zip` truncates: the pairs attached depend only on the first `n`
      elements of each list, whatever follows them. */
  lemma {:induction false} ZipAttachTruncates(schema: Schema, vs: seq<Raw>, ms: seq<Raw>, vs': seq<Raw>, ms': seq<Raw>, n: nat)
    requires n <= |vs| && n <= |ms| && n <= |vs'| && n <= |ms'|
    requires vs[..n] == vs'[..n] && ms[..n] == ms'[..n]
    ensures ZipAttach(schema, vs, ms, n) == ZipAttach(schema, vs', ms', n)
  {
    if n > 0 {
      assert vs[..n - 1] == vs[..n][..n - 1] && vs'[..n - 1] == vs'[..n][..n - 1];
      assert ms[..n - 1] == ms[..n][..n - 1] && ms'[..n - 1] == ms'[..n][..n - 1];
      assert vs[n - 1] == vs[..n][n - 1] && vs'[n - 1] == vs'[..n][n - 1];
      assert ms[n - 1] == ms[..n][n - 1] && ms'[n - 1] == ms'[..n][n - 1];
      ZipAttachTruncates(schema, vs, ms, vs', ms', n - 1);
    }
  }

  /** `metadata.labels.get("workspace", "")` */
  function WorkspaceLabel(labels: map<string, string>): string {
    if "workspace" in labels then labels["workspace"] else ""
  }

  /** `z2jh.get_config(f"custom.workspaces.{workspace}.storage")`, `None` when absent. */
  function StorageOf(table: map<string, Workspace>, workspace: string): Option<Storage> {
    if workspace in table then table[workspace].storage else None
  }

  /** Python truthiness of the looked-up storage: present and non-empty. */
  predicate Truthy(storage: Option<Storage>) {
    storage.Some? && |storage.value| > 0
  }

  function Min(a: nat, b: nat): nat {
    if a <= b then a else b
  }

  /** The success message after the loop of lines 99-103 reads `v['name']`
      and `vm['mountPath']` of the last pair the loop bound: it raises when
      there was no pair (`v` is unbound) or when either raw dictionary lacks
      that key. */
  predicate SuccessMessageRaises(vs: seq<Raw>, ms: seq<Raw>, n: nat)
    requires n <= |vs| && n <= |ms|
  {
    n == 0 || "name" !in vs[n - 1] || "mountPath" !in ms[n - 1]
  }

  /** The workspace phase. A falsy storage appends nothing and logs no error;
      a missing `volumes` or `volume_mounts` key raises before anything is
      appended; a loop that completes still ends in the handler when its
      success message raises. */
  function WorkspaceAttach(schema: Schema, labels: map<string, string>, table: map<string, Workspace>): Attach {
    var storage := StorageOf(table, WorkspaceLabel(labels));
    if !Truthy(storage) then Attach([], [], false)
    else if "volumes" !in storage.value || "volume_mounts" !in storage.value then Attach([], [], true)
    else
      var vs := storage.value["volumes"];
      var ms := storage.value["volume_mounts"];
      var n := Min(|vs|, |ms|);
      var a := ZipAttach(schema, vs, ms, n);
      a.(failed := a.failed || SuccessMessageRaises(vs, ms, n))
  }

  /** With a truthy storage whose pairs all convert, the phase appends pair
      `i` for every `i` below the shorter list's length, in order, ignores the
      rest of the longer list, and logs an error exactly when the success
      message raises: no pair, or a last pair without `name` / `mountPath`. */
  lemma {:induction false} WorkspaceAttachAccepted(schema: Schema, labels: map<string, string>, table: map<string, Workspace>)
    requires Truthy(StorageOf(table, WorkspaceLabel(labels)))
    requires var s := StorageOf(table, WorkspaceLabel(labels)).value;
      "volumes" in s && "volume_mounts" in s
      && forall j :: 0 <= j < |s["volumes"]| && j < |s["volume_mounts"]| ==> Accepted(schema, s["volumes"], s["volume_mounts"], j)
    ensures var s := StorageOf(table, WorkspaceLabel(labels)).value;
      var n := Min(|s["volumes"]|, |s["volume_mounts"]|);
      var a := WorkspaceAttach(schema, labels, table);
      && |a.volumes| == n && |a.mounts| == n
      && (forall j :: 0 <= j < n ==> a.volumes[j] == Volume(s["volumes"][j]) && a.mounts[j] == VolumeMount(s["volume_mounts"][j]))
      && (a.failed <==> SuccessMessageRaises(s["volumes"], s["volume_mounts"], n))
  {
    var s := StorageOf(table, WorkspaceLabel(labels)).value;
    ZipAttachFailsIff(schema, s["volumes"], s["volume_mounts"], Min(|s["volumes"]|, |s["volume_mounts"]|));
    ZipAttachShape(schema, s["volumes"], s["volume_mounts"], Min(|s["volumes"]|, |s["volume_mounts"]|));
  }

  /** With a falsy storage nothing is appended and no error is logged. */
  lemma WorkspaceAttachFalsy(schema: Schema, labels: map<string, string>, table: map<string, Workspace>)
    requires !Truthy(StorageOf(table, WorkspaceLabel(labels)))
    ensures WorkspaceAttach(schema, labels, table) == Attach([], [], false)
  {
  }

  /** A dangling volume (one appended without its mount) is only ever the
      last volume of the phase, and the phase then always logs an error. */
  lemma WorkspaceAttachDangling(schema: Schema, labels: map<string, string>, table: map<string, Workspace>)
    ensures var a := WorkspaceAttach(schema, labels, table);
      |a.mounts| <= |a.volumes| <= |a.mounts| + 1 && (|a.volumes| > |a.mounts| ==> a.failed)
  {
    var storage := StorageOf(table, WorkspaceLabel(labels));
    if Truthy(storage) && "volumes" in storage.value && "volume_mounts" in storage.value {
      var vs, ms := storage.value["volumes"], storage.value["volume_mounts"];
      ZipAttachShape(schema, vs, ms, Min(|vs|, |ms|));
    }
  }

  /** A pod spawned from a workspace that `get_workspaces` permitted carries
      that workspace's `workspace` label, so the workspace phase looks up that
      same workspace's storage. */
  lemma StampedLabelSelectsStorage(table: map<string, Workspace>, names: set<string>, now: Moment, name: string)
    requires name in Workspaces.Entitled(table, names, now) && table[name].kubespawnerOverride.Some?
    ensures var stamped := Workspaces.StampAll(table, names, now);
      && stamped[name].kubespawnerOverride.Some?
      && WorkspaceLabel(stamped[name].kubespawnerOverride.value.extraLabels) == name
      && StorageOf(stamped, WorkspaceLabel(stamped[name].kubespawnerOverride.value.extraLabels)) == table[name].storage
  {
  }

  /** The common phase, lines 68-82. */
  method MountCommonStorage(pod: Pod, schema: Schema) returns (errorLogged: bool)
    modifies pod
    ensures pod.volumes == old(pod.volumes) + CommonAttach(schema).volumes
    ensures pod.volumeMounts == old(pod.volumeMounts) + CommonAttach(schema).mounts
    ensures pod.labels == old(pod.labels)
    ensures errorLogged == CommonAttach(schema).failed
  {
    var volume := CommonVolume;
    var volumeMount := CommonVolumeMount;
    var v := ToVolume(schema, volume);
    if v.None? {
      return true;
    }
    pod.volumes := pod.volumes + [v.value];
    var vm := ToVolumeMount(schema, volumeMount);
    if vm.None? {
      return true;
    }
    pod.volumeMounts := pod.volumeMounts + [vm.value];
    // the success message names the unbound `v` and `vm`: the handler runs
    errorLogged := true;
  }

  /** One step of the `zip` loop, as `ZipAttach` defines it. */
  lemma ZipAttachNext(schema: Schema, vs: seq<Raw>, ms: seq<Raw>, i: nat)
    requires i < |vs| && i < |ms| && !ZipAttach(schema, vs, ms, i).failed
    ensures var prev := ZipAttach(schema, vs, ms, i);
      ZipAttach(schema, vs, ms, i + 1)
      == if !schema.volumeOk(vs[i]) then prev.(failed := true)
         else if !schema.mountOk(ms[i]) then prev.(volumes := prev.volumes + [Volume(vs[i])], failed := true)
         else Attach(prev.volumes + [Volume(vs[i])], prev.mounts + [VolumeMount(ms[i])], false)
  {
  }

  /** The `zip` loop of lines 99-103 over the first `n` pairs. */
  method AttachPairs(pod: Pod, schema: Schema, volumes: seq<Raw>, volumeMounts: seq<Raw>, n: nat) returns (failed: bool)
    requires n <= |volumes| && n <= |volumeMounts|
    modifies pod
    ensures pod.volumes == old(pod.volumes) + ZipAttach(schema, volumes, volumeMounts, n).volumes
    ensures pod.volumeMounts == old(pod.volumeMounts) + ZipAttach(schema, volumes, volumeMounts, n).mounts
    ensures pod.labels == old(pod.labels)
    ensures failed == ZipAttach(schema, volumes, volumeMounts, n).failed
  {
    var i := 0;
    while i < n
      invariant 0 <= i <= n
      invariant !ZipAttach(schema, volumes, volumeMounts, i).failed
      invariant pod.volumes == old(pod.volumes) + ZipAttach(schema, volumes, volumeMounts, i).volumes
      invariant pod.volumeMounts == old(pod.volumeMounts) + ZipAttach(schema, volumes, volumeMounts, i).mounts
      invariant pod.labels == old(pod.labels)
    {
      ZipAttachNext(schema, volumes, volumeMounts, i);
      var v := ToVolume(schema, volumes[i]);
      if v.None? {
        ZipAttachStops(schema, volumes, volumeMounts, i + 1, n);
        return true;
      }
      pod.volumes := pod.volumes + [v.value];
      var vm := ToVolumeMount(schema, volumeMounts[i]);
      if vm.None? {
        ZipAttachStops(schema, volumes, volumeMounts, i + 1, n);
        return true;
      }
      pod.volumeMounts := pod.volumeMounts + [vm.value];
      i := i + 1;
    }
    failed := false;
  }

  /** The workspace phase, lines 86-112. */
  method MountWorkspaceStorage(pod: Pod, config: ConfigStore, schema: Schema) returns (errorLogged: bool)
    modifies pod
    ensures pod.volumes == old(pod.volumes) + WorkspaceAttach(schema, old(pod.labels), config.workspaces).volumes
    ensures pod.volumeMounts == old(pod.volumeMounts) + WorkspaceAttach(schema, old(pod.labels), config.workspaces).mounts
    ensures pod.labels == old(pod.labels)
    ensures errorLogged == WorkspaceAttach(schema, old(pod.labels), config.workspaces).failed
  {
    var workspace := WorkspaceLabel(pod.labels);
    var storage := StorageOf(config.workspaces, workspace);
    if !Truthy(storage) {
      // "No additional volumes to mount for ... workspace."
      return false;
    }
    if "volumes" !in storage.value || "volume_mounts" !in storage.value {
      // `storage["volumes"]` or `storage["volume_mounts"]` raises KeyError
      return true;
    }
    var volumes := storage.value["volumes"];
    var volumeMounts := storage.value["volume_mounts"];
    var n := Min(|volumes|, |volumeMounts|);
    var failed := AttachPairs(pod, schema, volumes, volumeMounts, n);
    // the success message of line 105 may itself raise: then the handler runs
    errorLogged := failed || SuccessMessageRaises(volumes, volumeMounts, n);
  }

  /** The two error flags the hook can log. */
  datatype HookLog = HookLog(commonError: bool, workspaceError: bool)

  /** `modify_pod_hook(spawner, pod)`: never raises, returns the same pod,
      and only appends to its volume and mount lists. */
  method ModifyPodHook(config: ConfigStore, pod: Pod, schema: Schema) returns (result: Pod, log: HookLog)
    modifies pod
    ensures result == pod
    ensures pod.volumes == old(pod.volumes) + CommonAttach(schema).volumes
      + WorkspaceAttach(schema, old(pod.labels), config.workspaces).volumes
    ensures pod.volumeMounts == old(pod.volumeMounts) + CommonAttach(schema).mounts
      + WorkspaceAttach(schema, old(pod.labels), config.workspaces).mounts
    ensures pod.labels == old(pod.labels)
    ensures log == HookLog(true, WorkspaceAttach(schema, old(pod.labels), config.workspaces).failed)
  {
    var commonError := MountCommonStorage(pod, schema);
    var workspaceError := MountWorkspaceStorage(pod, config, schema);
    CommonAttachOutcome(schema);
    return pod, HookLog(commonError, workspaceError);
  }
}
