/** What a successful run leaves, field by field (pkg/engine/deployer.go), and what matching a manifest is. */
module DeployLaws {
  import opened Text
  import opened Host
  import opened Volumes
  import opened Snapshots
  import opened Forwards
  import opened Deploy
  import Env
  import Update

  // ---------------------------------------------------------------- the environment

  /** The instance reads its variables from environment.*: its image's reference says so, or it does itself. */
  lemma {:induction false} UsesOCIIs(inst: Instance, m: Manifest)
    ensures UsesOCI(inst, m) <==>
      || (|m.deploy| >= 7 && m.deploy[..7] == "docker:") || (|m.deploy| >= 5 && m.deploy[..5] == "quay:")
      || inst.oci
      || (|inst.recorded| >= 7 && inst.recorded[..7] == "docker:")
      || (|inst.recorded| >= 5 && inst.recorded[..5] == "quay:")
      || inst.environment != map[]
  {
  }

  /** Every declared variable is where the instance reads it: all of environment.*, or its file. */
  predicate Declared(inst: Instance, m: Manifest, oci: bool) {
    if oci then Holds(inst.environment, m.env)
    else m.env == map[] || (inst.envFile.Some? && Holds(Env.ParsedEnv(inst.envFile.value), m.env))
  }

  predicate Holds(vars: Vars, declared: Vars) {
    forall k :: k in declared ==> k in vars && vars[k] == declared[k]
  }

  lemma EnvInIs(inst: Instance, m: Manifest)
    ensures EnvIn(inst, m) <==> Declared(inst, m, UsesOCI(inst, m))
  {
    OverlaidKey(inst.environment, m.env);
    if inst.envFile.Some? {
      OverlaidKey(Env.ParsedEnv(inst.envFile.value), m.env);
    }
  }

  // -------------------------------------------------------------------- the image

  /** The image that runs, or the reference recorded, is another than the manifest's. */
  lemma {:induction false} ReplacedIff(st: Instance, m: Manifest)
    ensures ImageDecision(st, m) == ToReplace <==>
      if m.local then st.base != "" && st.base != m.deploy else st.recorded != "" && st.recorded != m.deploy
    ensures ImageDecision(st, m) == ToAdopt <==> !m.local && st.recorded == ""
  {
  }

  // ------------------------------------------------------------------- the volumes

  lemma {:induction false} EnsuredIs(volumes: map<VolKey, Vars>, vs: seq<Volume>)
    requires Distinct(vs)
    ensures forall v :: v in vs && v.key !in volumes ==>
      v.key in Ensured(volumes, vs)
      && Ensured(volumes, vs)[v.key] == if v.shifted then map["security.shifted" := "true"] else map[]
  {
    if vs != [] {
      var init, v := vs[..|vs| - 1], vs[|vs| - 1];
      EnsuredIs(volumes, init);
      EnsuredNew(volumes, init, v.key);
      LastApart(vs);
      assert vs == init + [v];
    }
  }

  lemma LastApart(vs: seq<Volume>)
    requires Distinct(vs) && vs != []
    ensures forall u :: u in vs[..|vs| - 1] ==> u.key != vs[|vs| - 1].key
  {
    var init := vs[..|vs| - 1];
    forall u | u in init ensures u.key != vs[|vs| - 1].key {
      var i :| 0 <= i < |init| && init[i] == u;
      assert vs[i] == u;
    }
  }

  lemma {:induction false} EnsuredNew(volumes: map<VolKey, Vars>, vs: seq<Volume>, k: VolKey)
    ensures k in Ensured(volumes, vs) <==> k in volumes || exists v :: v in vs && v.key == k
  {
    if vs != [] {
      assert vs == vs[..|vs| - 1] + [vs[|vs| - 1]];
      EnsuredNew(volumes, vs[..|vs| - 1], k);
    }
  }

  /** Setting the schedules touches no other key and no volume without a policy. */
  lemma {:induction false} ScheduledIs(volumes: map<VolKey, Vars>, vs: seq<Volume>)
    requires Scheduled(volumes, vs).Some?
    ensures Scheduled(volumes, vs).value.Keys == volumes.Keys
    ensures forall k, q :: k in volumes && q !in SNAPSHOT_KEYS ==>
      Get(Scheduled(volumes, vs).value[k], q) == Get(volumes[k], q)
    ensures forall k :: k in volumes && (forall v :: v in vs && v.policy.Some? ==> v.key != k) ==>
      Scheduled(volumes, vs).value[k] == volumes[k]
  {
    if vs != [] {
      var init, v := vs[..|vs| - 1], vs[|vs| - 1];
      assert vs == init + [v];
      ScheduledIs(volumes, init);
      if v.policy.Some? {
        SetKeysAgree(Scheduled(volumes, init).value[v.key], v.policy.value, SNAPSHOT_KEYS);
      }
    }
  }

  /** The volumes are those there and those declared, new ones shifted as declared. */
  ghost predicate VolumesThere(before: map<VolKey, Vars>, vs: seq<Volume>, after: map<VolKey, Vars>) {
    && (forall k :: k in after <==> k in before || exists v :: v in vs && v.key == k)
    && forall v :: v in vs && v.key !in before && v.key in after ==>
         Get(after[v.key], "security.shifted") == if v.shifted then "true" else ""
  }

  /** Each says what its policy says. */
  predicate PoliciesAre(vs: seq<Volume>, after: map<VolKey, Vars>) {
    forall v, q :: v in vs && v.policy.Some? && q in SNAPSHOT_KEYS ==>
      v.key in after && Get(after[v.key], q) == Get(v.policy.value, q)
  }

  /** What was there says what it said, but for its schedule if it has a policy. */
  ghost predicate RestKept(before: map<VolKey, Vars>, vs: seq<Volume>, after: map<VolKey, Vars>) {
    && (forall k, q :: k in before && q !in SNAPSHOT_KEYS ==> k in after && Get(after[k], q) == Get(before[k], q))
    && forall k :: k in before && (forall v :: v in vs && v.policy.Some? ==> v.key != k) ==>
         k in after && after[k] == before[k]
  }

  ghost predicate VolumesAre(before: map<VolKey, Vars>, vs: seq<Volume>, after: map<VolKey, Vars>) {
    VolumesThere(before, vs, after) && PoliciesAre(vs, after) && RestKept(before, vs, after)
  }

  lemma VolumesSettle(before: map<VolKey, Vars>, vs: seq<Volume>)
    requires Distinct(vs) && Scheduled(Ensured(before, vs), vs).Some?
    ensures VolumesAre(before, vs, Scheduled(Ensured(before, vs), vs).value)
  {
    ScheduledIs(Ensured(before, vs), vs);
    ThereSettles(before, vs, Ensured(before, vs), Scheduled(Ensured(before, vs), vs).value);
    PoliciesSettle(Ensured(before, vs), vs);
    RestSettles(before, vs);
  }

  lemma ThereSettles(before: map<VolKey, Vars>, vs: seq<Volume>, ensured: map<VolKey, Vars>,
                     after: map<VolKey, Vars>)
    requires Distinct(vs) && ensured == Ensured(before, vs) && after.Keys == ensured.Keys
    requires forall k, q :: k in ensured && q !in SNAPSHOT_KEYS ==> Get(after[k], q) == Get(ensured[k], q)
    ensures VolumesThere(before, vs, after)
  {
    forall k ensures k in after <==> k in before || exists v :: v in vs && v.key == k {
      EnsuredNew(before, vs, k);
      assert k in after <==> k in after.Keys;
    }
    EnsuredIs(before, vs);
    forall v | v in vs && v.key !in before && v.key in after
      ensures Get(after[v.key], "security.shifted") == if v.shifted then "true" else ""
    {
      assert v.key in ensured && "security.shifted" !in SNAPSHOT_KEYS;
      assert Get(after[v.key], "security.shifted") == Get(ensured[v.key], "security.shifted");
    }
  }

  lemma PoliciesSettle(volumes: map<VolKey, Vars>, vs: seq<Volume>)
    requires Distinct(vs) && Scheduled(volumes, vs).Some?
    ensures PoliciesAre(vs, Scheduled(volumes, vs).value)
  {
    ScheduledAgrees(volumes, vs);
    forall v, q | v in vs && v.policy.Some? && q in SNAPSHOT_KEYS
      ensures v.key in Scheduled(volumes, vs).value
      ensures Get(Scheduled(volumes, vs).value[v.key], q) == Get(v.policy.value, q)
    {
      assert OnSchedule(Scheduled(volumes, vs).value, v);
    }
  }

  lemma RestSettles(before: map<VolKey, Vars>, vs: seq<Volume>)
    requires Scheduled(Ensured(before, vs), vs).Some?
    ensures RestKept(before, vs, Scheduled(Ensured(before, vs), vs).value)
  {
    EnsuredExist(before, vs);
    ScheduledIs(Ensured(before, vs), vs);
  }

  // --------------------------------------------------------------------- the route

  /** The site is published at the address it was at if the instance still has that, else at its first; without a route
      the edge is as it was. */
  predicate RouteIs(before: Edge, m: Manifest, addresses: seq<string>, after: Edge) {
    if m.route.None? then after == before else
      && addresses != [] && m.route.value.valid
      && before.present && after.present && before.caddyfile != Foreign && after.caddyfile == Imports
      && after.site.Some? && after.site.value.route == m.route.value.text && after.site.value.upstream.Some?
      && var at := after.site.value.upstream.value;
         if before.site.Some? && before.site.value.upstream.Some? && before.site.value.upstream.value in addresses
         then at == before.site.value.upstream.value else at == addresses[0]
  }

  // ------------------------------------------------------------- an instance that stays

  /** The fields of an instance after a run that corrects it: the declared ones as declared, the others as they were. */
  ghost predicate FieldsAre(st: Instance, m: Manifest, a: Instance) {
    && a.base == st.base && a.oci == st.oci && a.profiles == st.profiles && a.addresses == st.addresses
    && a.recorded == (if !m.local && st.recorded == "" then m.deploy else st.recorded)
    && a.labels == (if m.labels.Some? then m.labels.value else st.labels)
    && (forall k :: Get(a.config, k) == if k in m.limits then m.limits[k] else Get(st.config, k))
    && VariablesAre(st, m, UsesOCI(st, m), a)
    && a.managed == RecordOf(m.forwards)
  }

  /** The variables are laid over those there, where the instance reads them; the other place is as it was. */
  ghost predicate VariablesAre(st: Instance, m: Manifest, oci: bool, a: Instance) {
    if m.env == map[] then a.environment == st.environment && a.envFile == st.envFile
    else if oci then
      && a.envFile == st.envFile && Holds(a.environment, m.env)
      && (forall k :: k in a.environment <==> k in st.environment || k in m.env)
      && forall k :: k in st.environment && k !in m.env ==> a.environment[k] == st.environment[k]
    else
      && a.environment == st.environment && a.envFile.Some?
      && if st.envFile.Some? && Holds(Env.ParsedEnv(st.envFile.value), m.env) then a.envFile == st.envFile
         else a.envFile.value == Env.Rendered(m.unit, Update.EnvOfFile(st.envFile) + m.env)
  }

  lemma VariablesSettle(x: Instance, m: Manifest, oci: bool)
    ensures VariablesAre(x, m, oci, WithEnv(x, m, oci))
  {
    OverlaidKey(x.environment, m.env);
    if x.envFile.Some? {
      OverlaidKey(Env.ParsedEnv(x.envFile.value), m.env);
    }
  }

  lemma BeforeIs(st: Instance, m: Manifest, devices: map<string, Device>)
    requires ImageDecision(st, m) != ToReplace
    ensures var x := BeforeEnv(st, m, devices);
      && x.base == st.base && x.oci == st.oci && x.profiles == st.profiles && x.addresses == st.addresses
      && x.recorded == (if !m.local && st.recorded == "" then m.deploy else st.recorded)
      && x.labels == (if m.labels.Some? then m.labels.value else st.labels)
      && x.environment == st.environment && x.envFile == st.envFile
      && forall k :: Get(x.config, k) == if k in m.limits then m.limits[k] else Get(st.config, k)
  {
    LimitsSettle(WithLabels(Adopted(st, m), m), m);
  }

  lemma InPlaceIs(st: Instance, m: Manifest, devices: map<string, Device>, a: Instance)
    requires ImageDecision(st, m) != ToReplace
    requires a == InPlace(st, m, devices).(devices := a.devices, managed := RecordOf(m.forwards))
    ensures FieldsAre(st, m, a)
  {
    var x := BeforeEnv(st, m, devices);
    BeforeIs(st, m, devices);
    VariablesSettle(x, m, UsesOCI(st, m));
    OnlyEnv(x, m, UsesOCI(st, m));
    SameVariables(st, x, m, UsesOCI(st, m), InPlace(st, m, devices), a);
  }

  lemma SameVariables(st: Instance, x: Instance, m: Manifest, oci: bool, before: Instance, after: Instance)
    requires x.environment == st.environment && x.envFile == st.envFile
    requires after.environment == before.environment && after.envFile == before.envFile
    ensures VariablesAre(x, m, oci, before) <==> VariablesAre(st, m, oci, after)
  {
  }

  lemma LimitsSettle(st: Instance, m: Manifest)
    ensures forall k :: Get(WithLimits(st, m).config, k) == if k in m.limits then m.limits[k] else Get(st.config, k)
  {
  }

  lemma FinishedIs(h: Host, m: Manifest, after: Host)
    requires m.WellFormed() && Finished(h, m, after)
    ensures after.inst == Some(ForwardsApplied(h.inst.value, m.forwards))
    ensures Scheduled(h.volumes, m.volumes) == Some(after.volumes)
    ensures RouteIs(h.edge, m, h.inst.value.addresses, after.edge)
  {
  }

  /** Whatever a run that corrects in place leaves, field by field. */
  lemma {:induction false} CorrectedIs(h: Host, m: Manifest, after: Host)
    requires m.WellFormed() && Corrected(h, m, after)
    ensures if m.local then h.inst.value.base in {"", m.deploy} else h.inst.value.recorded in {"", m.deploy}
    ensures after.inst.Some? && FieldsAre(h.inst.value, m, after.inst.value)
    ensures VolumesAre(h.volumes, m.volumes, after.volumes)
    ensures RouteIs(h.edge, m, h.inst.value.addresses, after.edge)
  {
    var st, devices := h.inst.value, AttachedDevices(h, m);
    FinishedIs(h.(volumes := Ensured(h.volumes, m.volumes), inst := Some(InPlace(st, m, devices))), m, after);
    VolumesSettle(h.volumes, m.volumes);
    InPlaceIs(st, m, devices, after.inst.value);
  }

  // ------------------------------------------------------------ an instance that is new

  /** The fields of an instance a run has launched: what the manifest declares and the image gave, and nothing else. */
  ghost predicate LaunchedAs(m: Manifest, lease: Lease, a: Instance) {
    && a.base == lease.base && a.base != "" && (m.local ==> a.base == m.deploy) && a.oci == lease.oci
    && a.profiles == (if "default" in m.profiles then m.profiles else ["default"] + m.profiles)
    && a.recorded == m.deploy && a.addresses == lease.addresses
    && a.labels == (if m.labels.Some? then m.labels.value else map[])
    && a.config == m.limits
    && VariablesAre(a.(environment := map[], envFile := lease.envFile), m, OciRef(m.deploy), a)
    && a.managed == RecordOf(m.forwards)
  }

  /** Whatever a run leaves of a service that was not there, field by field. */
  lemma {:induction false} LaunchedIs(h: Host, m: Manifest, lease: Lease, after: Host)
    requires m.WellFormed() && LaunchedFresh(h, m, lease, after)
    ensures after.inst.Some? && LaunchedAs(m, lease, after.inst.value)
    ensures VolumesAre(h.volumes, m.volumes, after.volumes)
    ensures RouteIs(h.edge, m, lease.addresses, after.edge)
  {
    var attached := Launched(FreshInstance(m), lease).(devices := AttachAll(map[], m.volumes).value);
    var x := ForwardsApplied(attached, m.forwards);
    VariablesSettle(x, m, OciRef(m.deploy));
    OnlyEnv(x, m, OciRef(m.deploy));
    var a := after.inst.value;
    SameVariables(a.(environment := map[], envFile := lease.envFile), x, m, OciRef(m.deploy), a, a);
    VolumesSettle(h.volumes, m.volumes);
  }

  /** One run leaves nothing to do on a service that was not there exactly when no forward takes the name of the only
      device that carries a declared volume, and every variable is where the instance turns out to read it. */
  lemma {:induction false} OneFreshRun(h: Host, m: Manifest, lease: Lease, after: Host)
    requires m.WellFormed() && LaunchedFresh(h, m, lease, after)
    ensures AttachAll(map[], m.volumes).Some? && after.inst.Some?
    ensures NoDrift(after, m) <==>
      AllSafe(AttachAll(map[], m.volumes).value, m.volumes, m.forwards) && EnvIn(after.inst.value, m)
  {
    var a := after.inst.value;
    var attached := Launched(FreshInstance(m), lease).(devices := AttachAll(map[], m.volumes).value);
    LaunchedIs(h, m, lease, after);
    FreshIsPublished(h, m, lease, after);
    AllAttachedAfterForwards(attached, m.forwards, m.volumes);
    EnvKeepsRest(ForwardsApplied(attached, m.forwards), m, OciRef(m.deploy));
    VolumesFresh(h, m);
    RouteFresh(h, m, after);
  }

  lemma VolumesFresh(h: Host, m: Manifest)
    requires m.WellFormed() && Scheduled(Ensured(h.volumes, m.volumes), m.volumes).Some?
    ensures AllExist(Scheduled(Ensured(h.volumes, m.volumes), m.volumes).value, m.volumes)
    ensures AllOnSchedule(Scheduled(Ensured(h.volumes, m.volumes), m.volumes).value, m.volumes)
  {
    EnsuredExist(h.volumes, m.volumes);
    ScheduledKeeps(Ensured(h.volumes, m.volumes), m.volumes);
    ScheduledAgrees(Ensured(h.volumes, m.volumes), m.volumes);
  }

  lemma RouteFresh(h: Host, m: Manifest, after: Host)
    requires after.inst.Some? && RouteIs(h.edge, m, after.inst.value.addresses, after.edge)
    ensures RouteIn(after, m)
  {
  }

  // -------------------------------------------------------- an instance that is replaced

  /** The fields of an instance a run has replaced: carried over, but for what the image gives and what the manifest
      declares of labels and variables. */
  ghost predicate ReplacedAs(st: Instance, m: Manifest, lease: Lease, a: Instance) {
    && a.recorded == m.deploy && (m.local ==> a.base == m.deploy)
    && a.config == st.config
    && a.labels == (if m.labels.Some? then m.labels.value else st.labels)
    && a.managed == RecordOf(m.forwards)
    && if Update.Current(st, m.deploy, m.deploy) then
         && a.base == st.base && a.oci == st.oci && a.profiles == st.profiles && a.addresses == st.addresses
         && VariablesAre(st, m, OciRef(m.deploy), a)
       else
         && a.base == lease.base && a.oci == lease.oci && a.addresses == lease.addresses
         && a.profiles == (if "default" in st.profiles then st.profiles else ["default"] + st.profiles)
         && VariablesAre(st.(envFile := if st.envFile.Some? then st.envFile else lease.envFile), m, OciRef(m.deploy), a)
  }

  lemma UpdatedIs(h: Host, m: Manifest, mid: Host, r: Update.Outcome, lease: Lease, a: Instance)
    requires m.WellFormed() && h.inst.Some? && ImageDecision(h.inst.value, m) == ToReplace
    requires Update.Outcomes(h, mid, m.deploy, m.deploy, Update.Options(m.healthCheck, false, false, map[]), r, lease)
    requires Update.Nil(r) && mid.inst.Some?
    requires var x := WithLabels(mid.inst.value, m);
      a == WithEnv(x, m, OciRef(m.deploy)).(devices := a.devices, managed := RecordOf(m.forwards))
    ensures ReplacedAs(h.inst.value, m, lease, a)
  {
    var x := WithLabels(mid.inst.value, m);
    var st := h.inst.value;
    var from := if Update.Current(st, m.deploy, m.deploy) then st
                else st.(envFile := if st.envFile.Some? then st.envFile else lease.envFile);
    VariablesSettle(x, m, OciRef(m.deploy));
    OnlyEnv(x, m, OciRef(m.deploy));
    SameVariables(from, x, m, OciRef(m.deploy), WithEnv(x, m, OciRef(m.deploy)), a);
  }

  /** Whatever a run that replaces the image leaves, field by field. */
  lemma {:induction false} ReplacedIs(h: Host, m: Manifest, mid: Host, r: Update.Outcome, lease: Lease, after: Host)
    requires m.WellFormed() && Replaced(h, m, mid, r, lease, after)
    ensures if m.local then h.inst.value.base !in {"", m.deploy} else h.inst.value.recorded !in {"", m.deploy}
    ensures after.inst.Some? && ReplacedAs(h.inst.value, m, lease, after.inst.value)
    ensures PoliciesAre(m.volumes, after.volumes) && RestKept(h.volumes, m.volumes, after.volumes)
    ensures after.volumes.Keys == h.volumes.Keys
  {
    var x := WithLabels(mid.inst.value, m);
    FinishedIs(mid.(inst := Some(WithEnv(x, m, OciRef(m.deploy)))), m, after);
    UpdatedIs(h, m, mid, r, lease, after.inst.value);
    PoliciesSettle(h.volumes, m.volumes);
    ScheduledIs(h.volumes, m.volumes);
  }


  // ------------------------------------------------------------- matching a manifest

  /** The device mounts the volume where the manifest says. */
  predicate Mounts(d: Device, v: Volume) {
    && Get(d, "type") == "disk" && Get(d, "pool") == v.key.pool && Get(d, "source") == v.key.name
    && Get(d, "path") == v.path
  }

  predicate Mounted(devices: map<string, Device>, v: Volume) {
    exists n :: n in devices.Keys && Mounts(devices[n], v)
  }

  /** The device forwards the declared port. */
  predicate Forwarding(devices: map<string, Device>, f: Forward) {
    && f.device in devices && Get(devices[f.device], "type") == "proxy"
    && Get(devices[f.device], "listen") == f.listen && Get(devices[f.device], "connect") == f.connect
  }

  /** No port is left that was recorded and is no longer declared. */
  predicate NoneLeft(i: Instance, fs: seq<Forward>) {
    forall n :: n in SplitList(i.managed) && n in i.devices && Get(i.devices[n], "type") == "proxy" ==>
      exists f :: f in fs && f.device == n
  }

  /** The three keys of a schedule say what its policy says. */
  predicate OnItsSchedule(volumes: map<VolKey, Vars>, v: Volume) {
    v.policy.None? ||
      (&& v.key in volumes
       && Get(volumes[v.key], "snapshots.schedule") == Get(v.policy.value, "snapshots.schedule")
       && Get(volumes[v.key], "snapshots.expiry") == Get(v.policy.value, "snapshots.expiry")
       && Get(volumes[v.key], "snapshots.pattern") == Get(v.policy.value, "snapshots.pattern"))
  }

  lemma ScheduleIs(volumes: map<VolKey, Vars>, v: Volume)
    ensures OnSchedule(volumes, v) <==> OnItsSchedule(volumes, v)
  {
    assert forall k :: k in SNAPSHOT_KEYS <==> k in {"snapshots.schedule", "snapshots.expiry", "snapshots.pattern"};
  }

  lemma MountedIs(devices: map<string, Device>, v: Volume)
    ensures Attached(devices, v) <==> Mounted(devices, v)
  {
    if Attached(devices, v) {
      var n :| n in devices.Keys && CarriedBy(devices, n, v);
      assert Mounts(devices[n], v);
    }
    if Mounted(devices, v) {
      var n :| n in devices.Keys && Mounts(devices[n], v);
      assert CarriedBy(devices, n, v);
    }
  }

  lemma InStepIs(i: Instance, fs: seq<Forward>)
    ensures InStep(i, fs) <==>
      (forall f :: f in fs ==> Forwarding(i.devices, f)) && NoneLeft(i, fs) && i.managed == RecordOf(fs)
  {
    NoPublishes(i.devices, fs);
    NoRemoves(i.devices, SplitList(i.managed), Names(fs));
    assert Changes(i, fs) == [] <==>
      Publishes(i.devices, fs) == [] && Removes(i.devices, SplitList(i.managed), Names(fs)) == [];
    forall n ensures n in Names(fs) <==> exists f :: f in fs && f.device == n {
    }
  }

  lemma RouteInIs(h: Host, m: Manifest)
    requires h.inst.Some?
    ensures RouteIn(h, m) <==> (m.route.Some? ==> RouteIs(h.edge, m, h.inst.value.addresses, h.edge))
  {
  }

  /** The instance is the manifest's, but for its devices and what is around it. */
  predicate InstanceMatches(i: Instance, m: Manifest) {
    && (if m.local then i.base == "" || i.base == m.deploy else i.recorded == m.deploy)
    && (m.labels.Some? ==> i.labels == m.labels.value)
    && (forall k :: k in m.limits ==> Get(i.config, k) == m.limits[k])
    && Declared(i, m, UsesOCI(i, m))
  }

  lemma InstanceInIs(i: Instance, m: Manifest)
    requires m.WellFormed()
    ensures InstanceIn(i, m) <==> InstanceMatches(i, m)
  {
    EnvInIs(i, m);
  }

  /** There is nothing to do exactly when: the image is the manifest's as far as is known, the labels are the declared
      ones, each declared limit and variable has its value, each declared volume is there with its policy and mounted
      where it is declared, each declared port has its device and no other managed one is left, and the site is
      published at one of the addresses. */
  lemma {:induction false} NothingToDoIff(h: Host, m: Manifest)
    requires m.WellFormed() && h.inst.Some?
    ensures var i := h.inst.value;
      NoDrift(h, m) <==>
        && InstanceMatches(i, m)
        && (forall v :: v in m.volumes ==>
              v.key in h.volumes && Mounted(i.devices, v) && OnItsSchedule(h.volumes, v))
        && (forall f :: f in m.forwards ==> Forwarding(i.devices, f))
        && NoneLeft(i, m.forwards) && i.managed == RecordOf(m.forwards)
        && (m.route.Some? ==> RouteIs(h.edge, m, i.addresses, h.edge))
  {
    var i := h.inst.value;
    InstanceInIs(i, m);
    forall v | v in m.volumes ensures OnSchedule(h.volumes, v) <==> OnItsSchedule(h.volumes, v) {
      ScheduleIs(h.volumes, v);
    }
    forall v | v in m.volumes ensures Attached(i.devices, v) <==> Mounted(i.devices, v) {
      MountedIs(i.devices, v);
    }
    InStepIs(i, m.forwards);
    RouteInIs(h, m);
  }

  // ------------------------------------------------------------------ a blocked plan

  /** The volume is not mounted, and a disk is in its way, at its path or of its name and pool, or a device of the name
      it would get. */
  predicate CannotMount(devices: map<string, Device>, v: Volume) {
    && !Mounted(devices, v)
    && ((exists n :: n in devices.Keys && DiskInTheWay(devices[n], v)) || DeviceName(v.path) in devices)
  }

  predicate DiskInTheWay(d: Device, v: Volume) {
    && Get(d, "type") == "disk" && Get(d, "source") != ""
    && (Get(d, "path") == v.path || (Get(d, "source") == v.key.name && Get(d, "pool") == v.key.pool))
  }

  lemma RefusesIs(devices: map<string, Device>, v: Volume)
    ensures Refuses(devices, v) <==> CannotMount(devices, v)
  {
    MountedIs(devices, v);
    if Clashes(devices, v) && DeviceName(v.path) !in devices {
      var n :| n in devices.Keys && InTheWay(devices[n], v);
      assert DiskInTheWay(devices[n], v);
    }
    if n :| n in devices.Keys && DiskInTheWay(devices[n], v) {
      assert InTheWay(devices[n], v);
    }
  }

  /** A plan is blocked exactly when: a secret is missing; a port is not usable, or has the device of another if there
      is an instance; the image stays and a volume cannot be mounted, or an address is needed and there is none; or a
      route is declared and there is no edge, or, unless the image is replaced, it is not valid or the Caddyfile is
      somebody else's. */
  lemma {:induction false} BlockedIff(h: Host, m: Manifest)
    ensures var replaced := h.inst.Some? && ImageDecision(h.inst.value, m) == ToReplace;
      Blocks(h, m) <==>
        || !m.secrets
        || (exists f :: f in m.forwards && !f.usable)
        || (h.inst.Some? && exists i, j :: 0 <= i < j < |m.forwards| && m.forwards[i].device == m.forwards[j].device)
        || (h.inst.Some? && !replaced && exists v :: v in m.volumes && CannotMount(h.inst.value.devices, v))
        || (h.inst.Some? && !replaced && (m.healthCheck || m.route.Some?) && h.inst.value.addresses == [])
        || (m.route.Some? && (!h.edge.present
                              || (!replaced && (!m.route.value.valid || h.edge.caddyfile == Foreign))))
  {
    UsableIff(m.forwards);
    if h.inst.Some? {
      forall v | v in m.volumes ensures Refuses(h.inst.value.devices, v) <==> CannotMount(h.inst.value.devices, v) {
        RefusesIs(h.inst.value.devices, v);
      }
    }
  }
}
