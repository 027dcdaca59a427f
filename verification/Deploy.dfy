/** Converging a service to its manifest (pkg/engine/deployer.go). */
module Deploy {
  import opened Text
  import opened Host
  import opened Volumes
  import opened Snapshots
  import opened Forwards
  import Env
  import Update

  // What one successful run makes of the host, and that runs settle. Reading the host and the manifest, hooks,
  // health checks and mount owners only succeed or fail here; the service is not the edge itself.

  /** The site file a manifest wants, but for the upstream address; valid when the edge accepts its domain and port. */
  datatype Route = Route(text: string, valid: bool)

  /** deploy is the image to run as it was resolved: a fingerprint when local. env is what is declared, with every
      secret resolved if secrets. */
  datatype Manifest = Manifest(
    deploy: string, local: bool, profiles: seq<string>, limits: Vars, labels: Option<Vars>, volumes: seq<Volume>,
    forwards: seq<Forward>, env: Vars, secrets: bool, unit: string, route: Option<Route>, healthCheck: bool)
  {
    predicate WellFormed() {
      && deploy != "" && (local ==> IsFingerprint(deploy))
      && '\n' !in unit
      && Distinct(volumes)
      && forall f :: f in forwards ==> f.Valid()
    }
  }

  // ------------------------------------------------------------------- the image

  datatype Verdict = IsCurrent | ToReplace | ToAdopt | IsUnknown

  function ImageDecision(st: Instance, m: Manifest): Verdict {
    if m.local then
      if st.base == "" then IsUnknown else if st.base != m.deploy then ToReplace else IsCurrent
    else if st.recorded == "" then ToAdopt
    else if st.recorded != m.deploy then ToReplace
    else IsCurrent
  }

  function Adopted(inst: Instance, m: Manifest): Instance {
    if ImageDecision(inst, m) == ToAdopt then inst.(recorded := m.deploy) else inst
  }

  // ------------------------------------------------------------ labels and limits

  predicate LabelsIn(inst: Instance, m: Manifest) {
    m.labels.Some? ==> inst.labels == m.labels.value
  }

  function WithLabels(inst: Instance, m: Manifest): Instance {
    if m.labels.Some? then inst.(labels := m.labels.value) else inst
  }

  predicate LimitsIn(inst: Instance, m: Manifest) {
    forall k :: k in m.limits ==> Get(inst.config, k) == m.limits[k]
  }

  function LimitsDrift(inst: Instance, m: Manifest): Vars {
    map k | k in m.limits && Get(inst.config, k) != m.limits[k] :: m.limits[k]
  }

  function WithLimits(inst: Instance, m: Manifest): Instance {
    inst.(config := inst.config + LimitsDrift(inst, m))
  }

  // -------------------------------------------------------------- the environment

  predicate OciRef(ref: string) {
    "docker:" <= ref || "quay:" <= ref
  }

  /** The instance reads environment.*, not a file. */
  predicate UsesOCI(inst: Instance, m: Manifest) {
    OciRef(m.deploy) || inst.oci || OciRef(inst.recorded) || inst.environment != map[]
  }

  predicate FileMatches(file: Option<string>, declared: Vars) {
    file.Some? && Env.ParsedEnv(file.value) + declared == Env.ParsedEnv(file.value)
  }

  /** The declared environment where an instance of that kind reads it; what is not declared is kept. */
  ghost function WithEnv(inst: Instance, m: Manifest, oci: bool): Instance {
    if m.env == map[] then inst
    else if oci then inst.(environment := inst.environment + m.env)
    else if FileMatches(inst.envFile, m.env) then inst
    else inst.(envFile := Some(Env.Rendered(m.unit, Update.EnvOfFile(inst.envFile) + m.env)))
  }

  predicate EnvIn(inst: Instance, m: Manifest) {
    m.env == map[] ||
    if UsesOCI(inst, m) then inst.environment + m.env == inst.environment else FileMatches(inst.envFile, m.env)
  }

  // -------------------------------------------------------------------- the route

  /** The published address is kept while it is one of the instance's. */
  function Choose(site: Option<Site>, addresses: seq<string>): string
    requires addresses != []
  {
    if site.Some? && site.value.upstream.Some? && site.value.upstream.value in addresses
    then site.value.upstream.value else addresses[0]
  }

  predicate Routable(h: Host, m: Manifest) {
    && h.inst.Some? && h.inst.value.addresses != []
    && m.route.Some? && m.route.value.valid && h.edge.present && h.edge.caddyfile != Foreign
  }

  function RouteOf(h: Host, m: Manifest): Site
    requires Routable(h, m)
  {
    Site(m.route.value.text, Some(Choose(h.edge.site, h.inst.value.addresses)))
  }

  function WithRoute(h: Host, m: Manifest): Host
    requires m.route.Some? ==> Routable(h, m)
  {
    if m.route.None? then h else h.(edge := h.edge.(caddyfile := Imports, site := Some(RouteOf(h, m))))
  }

  predicate RouteIn(h: Host, m: Manifest) {
    m.route.Some? ==> Routable(h, m) && h.edge.caddyfile == Imports && h.edge.site == Some(RouteOf(h, m))
  }

  // --------------------------------------------------------------- one whole run

  /** Snapshot schedules, host ports and the route: the end of every run. */
  ghost predicate Finished(h: Host, m: Manifest, after: Host) {
    && h.inst.Some? && Usable(m.forwards)
    && Scheduled(h.volumes, m.volumes).Some?
    && var published := h.(volumes := Scheduled(h.volumes, m.volumes).value,
                           inst := Some(ForwardsApplied(h.inst.value, m.forwards)));
       (m.route.Some? ==> Routable(published, m)) && after == WithRoute(published, m)
  }

  /** The instance in place before its environment. */
  function BeforeEnv(st: Instance, m: Manifest, devices: map<string, Device>): Instance {
    WithLimits(WithLabels(Adopted(st, m), m), m).(devices := devices)
  }

  /** The instance a run corrects in place, before its ports. */
  ghost function InPlace(st: Instance, m: Manifest, devices: map<string, Device>): Instance {
    WithEnv(BeforeEnv(st, m, devices), m, UsesOCI(st, m))
  }

  /** A successful run over an instance whose image stays. */
  ghost predicate Corrected(h: Host, m: Manifest, after: Host) {
    && h.inst.Some? && m.secrets && ImageDecision(h.inst.value, m) != ToReplace
    && (m.healthCheck ==> h.inst.value.addresses != [])
    && AttachAll(h.inst.value.devices, m.volumes).Some?
    && Finished(h.(volumes := Ensured(h.volumes, m.volumes),
                   inst := Some(InPlace(h.inst.value, m, AttachAll(h.inst.value.devices, m.volumes).value))), m, after)
  }

  /** A successful run over an instance whose image is replaced: limits and volumes are left to the next run, and
      the environment goes where the reference says, whatever the instance turned out to be. */
  ghost predicate Replaced(h: Host, m: Manifest, mid: Host, r: Update.Outcome, lease: Lease, after: Host) {
    && h.inst.Some? && m.secrets && ImageDecision(h.inst.value, m) == ToReplace
    && Update.Outcomes(h, mid, m.deploy, m.deploy, Update.Options(m.healthCheck, false, false, map[]), r, lease)
    && Update.Nil(r) && mid.inst.Some?
    && Finished(mid.(inst := Some(WithEnv(WithLabels(mid.inst.value, m), m, OciRef(m.deploy)))), m, after)
  }

  /** The instance a manifest launches. */
  function FreshInstance(m: Manifest): Instance {
    Instance("", false, m.profiles, m.deploy, if m.labels.Some? then m.labels.value else map[], map[], "", m.limits,
             map[], None, [])
  }

  /** A successful run with no instance there. */
  ghost predicate LaunchedFresh(h: Host, m: Manifest, lease: Lease, after: Host) {
    && h.inst.None? && m.secrets && LeaseOf(m.deploy, lease) && lease.addresses != [] && Usable(m.forwards)
    && var volumes := Scheduled(Ensured(h.volumes, m.volumes), m.volumes);
       var devices := AttachAll(map[], m.volumes);
       volumes.Some? && devices.Some? &&
       var attached := Launched(FreshInstance(m), lease).(devices := devices.value);
       var inst := WithEnv(ForwardsApplied(attached, m.forwards), m, OciRef(m.deploy));
       var published := h.(volumes := volumes.value, inst := Some(inst));
       (m.route.Some? ==> Routable(published, m)) && after == WithRoute(published, m)
  }

  /** What a successful run may leave, where lease is what the image gave if one was launched. */
  ghost predicate DeployedBy(h: Host, m: Manifest, lease: Lease, after: Host) {
    || Corrected(h, m, after)
    || (exists mid, r :: Replaced(h, m, mid, r, lease, after))
    || LaunchedFresh(h, m, lease, after)
  }

  /** What a successful run of a manifest may leave. */
  ghost predicate Deployed(h: Host, m: Manifest, after: Host) {
    || Corrected(h, m, after)
    || (exists mid, r, lease :: Replaced(h, m, mid, r, lease, after))
    || (exists lease :: LaunchedFresh(h, m, lease, after))
  }

  // ----------------------------------------------------------------- nothing to do

  /** The host matches the manifest. */
  ghost predicate NoDrift(h: Host, m: Manifest) {
    && h.inst.Some? && ImageDecision(h.inst.value, m) in {IsCurrent, IsUnknown}
    && LabelsIn(h.inst.value, m) && LimitsIn(h.inst.value, m)
    && AllExist(h.volumes, m.volumes) && AllAttached(h.inst.value.devices, m.volumes)
    && AllOnSchedule(h.volumes, m.volumes)
    && EnvIn(h.inst.value, m)
    && InStep(h.inst.value, m.forwards)
    && RouteIn(h, m)
  }

  // ------------------------------------------------------------ the environment settles

  /** A declared key is read back from a rendered file as the value it was given exactly when both are plain. */
  lemma RenderedKey(unit: string, vars: Vars, declared: Vars, k: string)
    requires '\n' !in unit && k in declared && declared.Keys <= vars.Keys
    requires forall x :: x in vars ==> Env.PlainKey(x) && '\n' !in vars[x]
    requires vars[k] == declared[k]
    ensures var parsed := Env.ParsedEnv(Env.Rendered(unit, vars));
      k in parsed && (parsed[k] == declared[k] <==> Env.PlainValue(declared[k]))
  {
    Env.RenderThenRead(unit, vars);
    Env.PlainValueReadsBack(declared[k]);
  }

  lemma ParsedIsClean(text: string)
    ensures forall k :: k in Env.ParsedEnv(text) ==> Env.PlainKey(k) && '\n' !in Env.ParsedEnv(text)[k]
  {
    Env.EnvOfClean(Split(text, '\n'));
  }

  predicate OnOneLine(declared: Vars) {
    forall k :: k in declared ==> Env.PlainKey(k) && '\n' !in declared[k]
  }

  lemma OverlaidKey(parsed: Vars, declared: Vars)
    ensures parsed + declared == parsed <==> forall k :: k in declared ==> k in parsed && parsed[k] == declared[k]
  {
    if forall k :: k in declared ==> k in parsed && parsed[k] == declared[k] {
      assert parsed + declared == parsed;
    } else {
      var k :| k in declared && !(k in parsed && parsed[k] == declared[k]);
      assert (parsed + declared)[k] == declared[k];
    }
  }

  lemma ReadBackMatches(parsed: Vars, declared: Vars)
    requires OnOneLine(declared)
    requires forall k :: k in declared ==> k in parsed && (parsed[k] == declared[k] <==> Env.PlainValue(declared[k]))
    ensures parsed + declared == parsed <==> Env.PlainVars(declared)
  {
    OverlaidKey(parsed, declared);
  }

  lemma NeverMatches(parsed: Vars, declared: Vars)
    requires forall k :: k in parsed ==> Env.PlainKey(k) && '\n' !in parsed[k]
    requires !OnOneLine(declared)
    ensures parsed + declared != parsed && !Env.PlainVars(declared)
  {
    OverlaidKey(parsed, declared);
  }

  lemma OverlaidOnOneLine(live: Vars, declared: Vars)
    requires OnOneLine(live) && OnOneLine(declared)
    ensures OnOneLine(live + declared)
  {
  }

  lemma OverlaidIsClean(file: Option<string>, declared: Vars)
    requires OnOneLine(declared)
    ensures OnOneLine(Update.EnvOfFile(file) + declared)
  {
    ParsedIsClean(Update.TextOf(file));
    OverlaidOnOneLine(Update.EnvOfFile(file), declared);
  }

  /** Writing the environment file makes it match exactly when the declared variables are plain. */
  lemma WrittenFileMatches(unit: string, file: Option<string>, declared: Vars)
    requires '\n' !in unit
    ensures FileMatches(Some(Env.Rendered(unit, Update.EnvOfFile(file) + declared)), declared)
      <==> Env.PlainVars(declared)
  {
    RenderedMatches(unit, Update.EnvOfFile(file) + declared, declared, file);
  }

  lemma RenderedMatches(unit: string, vars: Vars, declared: Vars, file: Option<string>)
    requires '\n' !in unit && vars == Update.EnvOfFile(file) + declared
    ensures FileMatches(Some(Env.Rendered(unit, vars)), declared) <==> Env.PlainVars(declared)
  {
    var text := Env.Rendered(unit, vars);
    var parsed := Env.ParsedEnv(text);
    if OnOneLine(declared) {
      OverlaidIsClean(file, declared);
      forall k | k in declared
        ensures k in parsed && (parsed[k] == declared[k] <==> Env.PlainValue(declared[k]))
      {
        RenderedKey(unit, vars, declared, k);
      }
      ReadBackMatches(parsed, declared);
    } else {
      ParsedIsClean(text);
      NeverMatches(parsed, declared);
    }
  }

  /** What a run can make of the environment: the instance reads environment.*, the file matches already, or the
      declared variables are plain. Otherwise every run rewrites the file and restarts the service. */
  predicate EnvHolds(st: Instance, m: Manifest) {
    m.env == map[] || UsesOCI(st, m) || FileMatches(st.envFile, m.env) || Env.PlainVars(m.env)
  }

  lemma AdoptedKind(st: Instance, m: Manifest)
    ensures UsesOCI(Adopted(st, m), m) <==> UsesOCI(st, m)
  {
  }

  lemma OverlaidTwice(live: Vars, declared: Vars)
    ensures live + declared + declared == live + declared
    ensures live + declared == map[] ==> live == map[] && declared == map[]
  {
    if live != map[] {
      var k :| k in live;
      assert k in live + declared;
    }
    if declared != map[] {
      var k :| k in declared;
      assert k in live + declared;
    }
  }

  lemma EnvSettles(st: Instance, m: Manifest)
    requires m.WellFormed()
    ensures UsesOCI(WithEnv(st, m, UsesOCI(st, m)), m) <==> UsesOCI(st, m)
    ensures EnvIn(WithEnv(st, m, UsesOCI(st, m)), m) <==> EnvHolds(st, m)
  {
    if m.env != map[] {
      if UsesOCI(st, m) {
        OverlaidTwice(st.environment, m.env);
      } else if !FileMatches(st.envFile, m.env) {
        WrittenFileMatches(m.unit, st.envFile, m.env);
      }
    }
  }

  // ------------------------------------------------------------- the rest settles

  /** An instance matches the manifest, but for its devices. */
  predicate InstanceIn(inst: Instance, m: Manifest) {
    && ImageDecision(inst, m) in {IsCurrent, IsUnknown}
    && LabelsIn(inst, m) && LimitsIn(inst, m) && EnvIn(inst, m)
  }

  lemma BeforeSettles(st: Instance, m: Manifest, devices: map<string, Device>)
    requires m.WellFormed() && ImageDecision(st, m) != ToReplace
    ensures var x := BeforeEnv(st, m, devices);
      && ImageDecision(x, m) in {IsCurrent, IsUnknown} && LabelsIn(x, m) && LimitsIn(x, m)
      && (UsesOCI(x, m) <==> UsesOCI(st, m)) && (EnvHolds(x, m) <==> EnvHolds(st, m)) && x.devices == devices
  {
  }

  lemma InPlaceSettles(st: Instance, m: Manifest, devices: map<string, Device>)
    requires m.WellFormed() && ImageDecision(st, m) != ToReplace
    ensures InstanceIn(InPlace(st, m, devices), m) <==> EnvHolds(st, m)
    ensures InPlace(st, m, devices).devices == devices
    ensures ImageDecision(InPlace(st, m, devices), m) != ToReplace
  {
    BeforeSettles(st, m, devices);
    EnvSettlesRest(BeforeEnv(st, m, devices), m);
  }

  /** Applying the environment touches nothing else. */
  lemma OnlyEnv(x: Instance, m: Manifest, oci: bool)
    ensures var after := WithEnv(x, m, oci); after == x.(environment := after.environment, envFile := after.envFile)
  {
  }

  lemma EnvKeepsRest(x: Instance, m: Manifest, oci: bool)
    ensures var after := WithEnv(x, m, oci);
      && ImageDecision(after, m) == ImageDecision(x, m) && (LabelsIn(after, m) <==> LabelsIn(x, m))
      && (LimitsIn(after, m) <==> LimitsIn(x, m)) && after.devices == x.devices
  {
    OnlyEnv(x, m, oci);
    SameButEnv(x, WithEnv(x, m, oci), m);
  }

  lemma SameButEnv(x: Instance, after: Instance, m: Manifest)
    requires after == x.(environment := after.environment, envFile := after.envFile)
    ensures ImageDecision(after, m) == ImageDecision(x, m) && (LabelsIn(after, m) <==> LabelsIn(x, m))
    ensures (LimitsIn(after, m) <==> LimitsIn(x, m)) && after.devices == x.devices
  {
  }

  lemma EnvSettlesRest(x: Instance, m: Manifest)
    requires m.WellFormed() && ImageDecision(x, m) in {IsCurrent, IsUnknown} && LabelsIn(x, m) && LimitsIn(x, m)
    ensures InstanceIn(WithEnv(x, m, UsesOCI(x, m)), m) <==> EnvHolds(x, m)
    ensures WithEnv(x, m, UsesOCI(x, m)).devices == x.devices
    ensures ImageDecision(WithEnv(x, m, UsesOCI(x, m)), m) != ToReplace
  {
    EnvKeepsRest(x, m, UsesOCI(x, m));
    EnvSettles(x, m);
  }

  /** A volume is carried by a device that is not named like a forward. */
  predicate Safe(devices: map<string, Device>, v: Volume, fs: seq<Forward>) {
    exists n :: n in devices.Keys && CarriedBy(devices, n, v) && n !in Names(fs)
  }

  predicate AllSafe(devices: map<string, Device>, vs: seq<Volume>, fs: seq<Forward>) {
    forall v :: v in vs ==> Safe(devices, v, fs)
  }

  /** A volume is still attached after the ports are converged exactly when a device that no forward takes the name
      of carries it. */
  lemma AttachedAfterForwards(inst: Instance, fs: seq<Forward>, v: Volume)
    requires Usable(fs)
    ensures Attached(Converged(inst, fs), v) <==> Safe(inst.devices, v, fs)
  {
    var d := Converged(inst, fs);
    if Safe(inst.devices, v, fs) {
      var n :| n in inst.devices.Keys && CarriedBy(inst.devices, n, v) && n !in Names(fs);
      OthersAt(inst, fs, n);
      assert CarriedBy(d, n, v);
    }
    if Attached(d, v) {
      var n :| n in d.Keys && CarriedBy(d, n, v);
      if n in Names(fs) {
        var f :| f in fs && f.device == n;
        DeclaredAt(inst, fs, f);
      } else {
        OthersAt(inst, fs, n);
        assert CarriedBy(inst.devices, n, v);
      }
    }
  }

  lemma AllAttachedAfterForwards(inst: Instance, fs: seq<Forward>, vs: seq<Volume>)
    requires Usable(fs)
    ensures AllAttached(Converged(inst, fs), vs) <==> AllSafe(inst.devices, vs, fs)
  {
    forall v | v in vs ensures Attached(Converged(inst, fs), v) <==> Safe(inst.devices, v, fs) {
      AttachedAfterForwards(inst, fs, v);
    }
  }

  lemma {:induction false} UsableAreValid(fs: seq<Forward>)
    requires Usable(fs) && forall f :: f in fs ==> f.Valid()
    ensures Forwards.AllValid(fs)
  {
    if fs != [] {
      var init := fs[..|fs| - 1];
      assert fs == init + [fs[|fs| - 1]];
      UsableAreValid(init);
    }
  }

  lemma RouteSettles(h: Host, m: Manifest)
    requires m.route.Some? ==> Routable(h, m)
    ensures RouteIn(WithRoute(h, m), m)
    ensures RouteIn(h, m) ==> WithRoute(h, m) == h
  {
  }

  lemma FinishedPorts(h: Host, m: Manifest, after: Host)
    requires m.WellFormed() && Finished(h, m, after)
    ensures after.inst == Some(ForwardsApplied(h.inst.value, m.forwards)) && InStep(after.inst.value, m.forwards)
  {
    UsableAreValid(m.forwards);
    RunSettles(h.inst.value, m.forwards);
  }

  /** The end of a run settles the schedules, the ports and the route, and leaves the rest. */
  lemma FinishedSettles(h: Host, m: Manifest, after: Host)
    requires m.WellFormed() && Finished(h, m, after) && AllExist(h.volumes, m.volumes)
    ensures after.inst == Some(ForwardsApplied(h.inst.value, m.forwards))
    ensures NoDrift(after, m) <==> InstanceIn(h.inst.value, m) && AllSafe(h.inst.value.devices, m.volumes, m.forwards)
    ensures InStep(after.inst.value, m.forwards)
  {
    var inst := h.inst.value;
    UsableAreValid(m.forwards);
    RunSettles(inst, m.forwards);
    ScheduledAgrees(h.volumes, m.volumes);
    ScheduledKeeps(h.volumes, m.volumes);
    AllAttachedAfterForwards(inst, m.forwards, m.volumes);
    var published := h.(volumes := Scheduled(h.volumes, m.volumes).value,
                        inst := Some(ForwardsApplied(inst, m.forwards)));
    RouteSettles(published, m);
    SameButPorts(inst, m);
  }

  lemma SameButPorts(inst: Instance, m: Manifest)
    ensures InstanceIn(ForwardsApplied(inst, m.forwards), m) <==> InstanceIn(inst, m)
  {
  }

  // ---------------------------------------------------------------- one run, two runs

  /** The devices once the declared volumes are attached. */
  function AttachedDevices(h: Host, m: Manifest): map<string, Device>
    requires h.inst.Some? && AttachAll(h.inst.value.devices, m.volumes).Some?
  {
    AttachAll(h.inst.value.devices, m.volumes).value
  }

  /** One run is enough where the image stays exactly when every declared volume is carried by a device that no
      forward takes the name of, and the environment can be made to hold. */
  lemma OneRun(h: Host, m: Manifest, after: Host)
    requires m.WellFormed() && Corrected(h, m, after)
    ensures NoDrift(after, m) <==>
      AllSafe(AttachedDevices(h, m), m.volumes, m.forwards) && EnvHolds(h.inst.value, m)
    ensures after.inst.Some? && InStep(after.inst.value, m.forwards) && ImageDecision(after.inst.value, m) != ToReplace
  {
    EnsuredExist(h.volumes, m.volumes);
    InPlaceSettles(h.inst.value, m, AttachedDevices(h, m));
    FinishedSettles(h.(volumes := Ensured(h.volumes, m.volumes),
                       inst := Some(InPlace(h.inst.value, m, AttachedDevices(h, m)))), m, after);
  }

  /** Where the ports are converged every forward's name is taken by a proxy, so attaching volumes takes none. */
  lemma PortsMakeSafe(h: Host, m: Manifest)
    requires h.inst.Some? && InStep(h.inst.value, m.forwards) && AttachAll(h.inst.value.devices, m.volumes).Some?
    ensures AllSafe(AttachedDevices(h, m), m.volumes, m.forwards)
  {
    var d := AttachedDevices(h, m);
    AttachAllAttaches(h.inst.value.devices, m.volumes);
    NoPublishes(h.inst.value.devices, m.forwards);
    PortsAreProxies(h.inst.value.devices, m.forwards);
    assert forall n :: IsProxy(h.inst.value.devices, n) ==> IsProxy(d, n);
    forall v | v in m.volumes ensures Safe(d, v, m.forwards) {
      var n :| n in d.Keys && CarriedBy(d, n, v);
      assert !IsProxy(d, n);
    }
  }

  lemma PortsAreProxies(devices: map<string, Device>, fs: seq<Forward>)
    requires forall f :: f in fs ==> Matches(devices, f)
    ensures forall n :: n in Names(fs) ==> IsProxy(devices, n)
  {
    forall n | n in Names(fs) ensures IsProxy(devices, n) {
      var f :| f in fs && f.device == n;
      assert Matches(devices, f);
    }
  }

  /** What holds after any successful run. */
  ghost predicate Published(h: Host, m: Manifest) {
    h.inst.Some? && InStep(h.inst.value, m.forwards) && ImageDecision(h.inst.value, m) != ToReplace
  }

  lemma ReplacedIsPublished(h: Host, m: Manifest, mid: Host, r: Update.Outcome, lease: Lease, after: Host)
    requires m.WellFormed() && Replaced(h, m, mid, r, lease, after)
    ensures Published(after, m)
  {
    Update.NilIsCurrent(h, mid, m.deploy, m.deploy, Update.Options(m.healthCheck, false, false, map[]), r, lease);
    EnvKeepsRest(WithLabels(mid.inst.value, m), m, OciRef(m.deploy));
    FinishedPorts(mid.(inst := Some(WithEnv(WithLabels(mid.inst.value, m), m, OciRef(m.deploy)))), m, after);
  }

  lemma FreshIsPublished(h: Host, m: Manifest, lease: Lease, after: Host)
    requires m.WellFormed() && LaunchedFresh(h, m, lease, after)
    ensures Published(after, m)
  {
    var attached := Launched(FreshInstance(m), lease).(devices := AttachAll(map[], m.volumes).value);
    UsableAreValid(m.forwards);
    RunSettles(attached, m.forwards);
    EnvKeepsPorts(ForwardsApplied(attached, m.forwards), m, OciRef(m.deploy));
    EnvKeepsRest(ForwardsApplied(attached, m.forwards), m, OciRef(m.deploy));
  }

  lemma EnvKeepsPorts(x: Instance, m: Manifest, oci: bool)
    ensures InStep(WithEnv(x, m, oci), m.forwards) <==> InStep(x, m.forwards)
  {
  }

  lemma AnyRunPublishes(h: Host, m: Manifest, after: Host)
    requires m.WellFormed() && Deployed(h, m, after)
    ensures Published(after, m)
  {
    if Corrected(h, m, after) {
      OneRun(h, m, after);
    } else if exists mid, r, lease :: Replaced(h, m, mid, r, lease, after) {
      var mid, r, lease :| Replaced(h, m, mid, r, lease, after);
      ReplacedIsPublished(h, m, mid, r, lease, after);
    } else {
      var lease :| LaunchedFresh(h, m, lease, after);
      FreshIsPublished(h, m, lease, after);
    }
  }

  /** A run after a successful one corrects the instance in place: the image is not replaced twice. */
  lemma SecondRunCorrects(h: Host, m: Manifest, after: Host)
    requires Published(h, m) && Deployed(h, m, after)
    ensures Corrected(h, m, after)
  {
  }

  /** The instance the first run leaves reads environment.*, not a file: by the reference, or by what it was before,
      or what the launched image turned out to be. */
  predicate WillUseOCI(h: Host, m: Manifest, lease: Lease) {
    || OciRef(m.deploy)
    || if h.inst.None? then lease.oci
       else if ImageDecision(h.inst.value, m) != ToReplace then UsesOCI(h.inst.value, m)
       else h.inst.value.environment != map[]
            || if Update.Current(h.inst.value, m.deploy, m.deploy) then h.inst.value.oci else lease.oci
  }

  /** The file the first run finds: the instance's, or of a new one without any the image's. */
  function FileFound(h: Host, m: Manifest, lease: Lease): Option<string> {
    if h.inst.None? then lease.envFile
    else if ImageDecision(h.inst.value, m) == ToReplace && !Update.Current(h.inst.value, m.deploy, m.deploy)
            && h.inst.value.envFile.None? then lease.envFile
    else h.inst.value.envFile
  }

  /** The environment can be made to hold: nothing is declared, or not in a file, or the file the first run finds has
      it already, or it is plain. */
  predicate EnvWillHold(h: Host, m: Manifest, lease: Lease) {
    || m.env == map[] || WillUseOCI(h, m, lease)
    || FileMatches(FileFound(h, m, lease), m.env) || Env.PlainVars(m.env)
  }

  lemma EnvHoldsAfter(x: Instance, m: Manifest, oci: bool)
    requires m.WellFormed() && (oci ==> UsesOCI(x, m))
    ensures EnvHolds(WithEnv(x, m, oci), m) <==> EnvHolds(x, m)
  {
    if m.env != map[] {
      if oci {
        OverlaidTwice(x.environment, m.env);
      } else if !FileMatches(x.envFile, m.env) {
        WrittenFileMatches(m.unit, x.envFile, m.env);
      }
    }
  }

  lemma PortsKeepEnv(x: Instance, m: Manifest)
    ensures EnvHolds(ForwardsApplied(x, m.forwards), m) <==> EnvHolds(x, m)
  {
  }

  lemma FinishedEnv(h: Host, m: Manifest, after: Host)
    requires m.WellFormed() && Finished(h, m, after)
    ensures after.inst.Some? && (EnvHolds(after.inst.value, m) <==> EnvHolds(h.inst.value, m))
  {
    FinishedPorts(h, m, after);
    PortsKeepEnv(h.inst.value, m);
  }

  lemma InPlaceEnv(st: Instance, m: Manifest, devices: map<string, Device>)
    requires m.WellFormed() && ImageDecision(st, m) != ToReplace
    ensures EnvHolds(InPlace(st, m, devices), m) <==> EnvHolds(st, m)
  {
    BeforeSettles(st, m, devices);
    EnvHoldsAfter(BeforeEnv(st, m, devices), m, UsesOCI(st, m));
  }

  lemma CorrectedEnv(h: Host, m: Manifest, lease: Lease, first: Host)
    requires m.WellFormed() && Corrected(h, m, first)
    ensures first.inst.Some? && (EnvHolds(first.inst.value, m) <==> EnvWillHold(h, m, lease))
  {
    var st, devices := h.inst.value, AttachedDevices(h, m);
    InPlaceEnv(st, m, devices);
    FinishedEnv(h.(volumes := Ensured(h.volumes, m.volumes), inst := Some(InPlace(st, m, devices))), m, first);
    StaysInPlace(h, m, lease);
  }

  lemma StaysInPlace(h: Host, m: Manifest, lease: Lease)
    requires h.inst.Some? && ImageDecision(h.inst.value, m) != ToReplace
    ensures EnvWillHold(h, m, lease) <==> EnvHolds(h.inst.value, m)
  {
  }

  /** What the replaced instance reads is decided before its environment is applied. */
  lemma UpdatedInPlace(h: Host, m: Manifest, mid: Host, r: Update.Outcome, lease: Lease)
    requires h.inst.Some? && ImageDecision(h.inst.value, m) == ToReplace && Update.Nil(r) && mid.inst.Some?
    requires Update.Outcomes(h, mid, m.deploy, m.deploy, Update.Options(m.healthCheck, false, false, map[]), r, lease)
    ensures EnvWillHold(h, m, lease) <==> EnvHolds(WithLabels(mid.inst.value, m), m)
  {
  }

  lemma ReplacedEnv(h: Host, m: Manifest, mid: Host, r: Update.Outcome, lease: Lease, first: Host)
    requires m.WellFormed() && Replaced(h, m, mid, r, lease, first)
    ensures first.inst.Some? && (EnvHolds(first.inst.value, m) <==> EnvWillHold(h, m, lease))
  {
    var x := WithLabels(mid.inst.value, m);
    EnvHoldsAfter(x, m, OciRef(m.deploy));
    FinishedEnv(mid.(inst := Some(WithEnv(x, m, OciRef(m.deploy)))), m, first);
    UpdatedInPlace(h, m, mid, r, lease);
  }

  lemma FreshEnv(h: Host, m: Manifest, lease: Lease, first: Host)
    requires m.WellFormed() && LaunchedFresh(h, m, lease, first)
    ensures first.inst.Some? && (EnvHolds(first.inst.value, m) <==> EnvWillHold(h, m, lease))
  {
    var attached := Launched(FreshInstance(m), lease).(devices := AttachAll(map[], m.volumes).value);
    EnvHoldsAfter(ForwardsApplied(attached, m.forwards), m, OciRef(m.deploy));
  }

  /** From any host, fresh, replaced or in place, two successful runs leave nothing to do: exactly when the environment
      can be made to hold. */
  lemma {:induction false} TwoRuns(h: Host, m: Manifest, lease: Lease, first: Host, second: Host)
    requires m.WellFormed() && DeployedBy(h, m, lease, first) && Deployed(first, m, second)
    ensures NoDrift(second, m) <==> EnvWillHold(h, m, lease)
  {
    ByAnyLease(h, m, lease, first);
    if Corrected(h, m, first) {
      CorrectedEnv(h, m, lease, first);
    } else if mid, r :| Replaced(h, m, mid, r, lease, first) {
      ReplacedEnv(h, m, mid, r, lease, first);
    } else {
      FreshEnv(h, m, lease, first);
    }
    AnyRunPublishes(h, m, first);
    SecondRunCorrects(first, m, second);
    PortsMakeSafe(first, m);
    OneRun(first, m, second);
  }

  lemma ByAnyLease(h: Host, m: Manifest, lease: Lease, after: Host)
    requires DeployedBy(h, m, lease, after)
    ensures Deployed(h, m, after)
  {
  }

  lemma BySomeLease(h: Host, m: Manifest, after: Host) returns (lease: Lease)
    requires Deployed(h, m, after)
    ensures DeployedBy(h, m, lease, after)
  {
    if mid, r, l :| Replaced(h, m, mid, r, l, after) {
      lease := l;
    } else if l :| LaunchedFresh(h, m, l, after) {
      lease := l;
    } else {
      lease := Lease("", false, None, []);
    }
  }

  /** A run on a host that matches its manifest changes nothing at all. */
  lemma MatchingIsLeftAlone(h: Host, m: Manifest, after: Host)
    requires m.WellFormed() && NoDrift(h, m) && Deployed(h, m, after)
    ensures after == h
  {
    var inst := h.inst.value;
    SecondRunCorrects(h, m, after);
    EnsuredExist(h.volumes, m.volumes);
    AttachAllIdle(inst.devices, m.volumes);
    ScheduledIdle(h.volumes, m.volumes);
    InPlaceIdle(inst, m);
    assert ForwardsApplied(inst, m.forwards) == inst;
    RouteSettles(h, m);
    assert h.(volumes := h.volumes, inst := Some(inst)) == h;
  }

  lemma InPlaceIdle(st: Instance, m: Manifest)
    requires InstanceIn(st, m)
    ensures InPlace(st, m, st.devices) == st
  {
    assert LimitsDrift(st, m) == map[];
    assert st.config + map[] == st.config;
    assert BeforeEnv(st, m, st.devices) == st;
  }

  /** Replacing the image leaves limits and missing volumes to the next run. */
  lemma ReplaceLeavesLimits(h: Host, m: Manifest, mid: Host, r: Update.Outcome, lease: Lease, after: Host)
    requires m.WellFormed() && Replaced(h, m, mid, r, lease, after)
    ensures !LimitsIn(h.inst.value, m) || !AllExist(h.volumes, m.volumes) ==> !NoDrift(after, m)
  {
    EnvKeepsRest(WithLabels(mid.inst.value, m), m, OciRef(m.deploy));
    FinishedPorts(mid.(inst := Some(WithEnv(WithLabels(mid.inst.value, m), m, OciRef(m.deploy)))), m, after);
    ScheduledKeeps(mid.volumes, m.volumes);
  }

  /** Forwards and volumes keep out of each other's way: no forward takes the name of a device that is something
      else, or that a declared volume is attached as. */
  predicate NamesApart(devices: map<string, Device>, m: Manifest) {
    forall f :: f in m.forwards ==>
      && (f.device in devices ==> IsProxy(devices, f.device))
      && forall v :: v in m.volumes ==> f.device != DeviceName(v.path)
  }

  lemma ApartIsSafe(devices: map<string, Device>, m: Manifest, v: Volume)
    requires AttachAll(devices, m.volumes).Some? && NamesApart(devices, m) && v in m.volumes
    ensures Safe(AttachAll(devices, m.volumes).value, v, m.forwards)
  {
    var d := AttachAll(devices, m.volumes).value;
    AttachAllAttaches(devices, m.volumes);
    var n :| n in d.Keys && CarriedBy(d, n, v);
    AttachAllNames(devices, m.volumes, n);
    forall f | f in m.forwards ensures f.device != n {
      assert f.device in devices ==> IsProxy(devices, f.device) && devices[f.device] == d[f.device];
    }
  }

  /** Then one run is enough where the image stays exactly when the environment can be made to hold. */
  lemma OneRunApart(h: Host, m: Manifest, after: Host)
    requires m.WellFormed() && Corrected(h, m, after) && NamesApart(h.inst.value.devices, m)
    ensures NoDrift(after, m) <==> EnvHolds(h.inst.value, m)
  {
    forall v | v in m.volumes ensures Safe(AttachedDevices(h, m), v, m.forwards) {
      ApartIsSafe(h.inst.value.devices, m, v);
    }
    OneRun(h, m, after);
  }

  // --------------------------------------------------------------------- the plan

  /** What a plan refuses to apply. */
  predicate PlanBlocks(h: Host, m: Manifest)
    requires h.inst.Some?
  {
    var st := h.inst.value;
    var replace := ImageDecision(st, m) == ToReplace;
    || !m.secrets
    || !Usable(m.forwards)
    || (!replace && exists v :: v in m.volumes && Refuses(st.devices, v))
    || ((m.healthCheck || m.route.Some?) && st.addresses == [] && !replace)
    || RouteBlocked(h, m, replace)
  }

  predicate RouteBlocked(h: Host, m: Manifest, replace: bool) {
    m.route.Some? && (!h.edge.present || (!replace && (!m.route.value.valid || h.edge.caddyfile == Foreign)))
  }

  /** What the plan of an instance that is not there refuses to apply: it looks at each forward by itself. */
  predicate FreshBlocks(h: Host, m: Manifest) {
    !m.secrets || (exists f :: f in m.forwards && !f.usable) || RouteBlocked(h, m, false)
  }

  predicate Blocks(h: Host, m: Manifest) {
    if h.inst.Some? then PlanBlocks(h, m) else FreshBlocks(h, m)
  }

  predicate Refuses(devices: map<string, Device>, v: Volume) {
    !Attached(devices, v) && Clashes(devices, v)
  }

  lemma {:induction false} RefusedStaysOff(devices: map<string, Device>, vs: seq<Volume>, v: Volume)
    requires Refuses(devices, v) && AttachAll(devices, vs).Some?
    ensures !Attached(AttachAll(devices, vs).value, v) && Clashes(AttachAll(devices, vs).value, v)
  {
    if vs != [] {
      var init, u := vs[..|vs| - 1], vs[|vs| - 1];
      RefusedStaysOff(devices, init, v);
      var before := AttachAll(devices, init).value;
      if !Attached(before, u) {
        StaysOffBeside(before, u, v);
        ClashStays(before, before[DeviceName(u.path) := Props(u)], v);
      }
    }
  }

  /** Attaching one volume does not attach another that is in nobody's place. */
  lemma StaysOffBeside(before: map<string, Device>, u: Volume, v: Volume)
    requires !Attached(before, v) && Clashes(before, v) && !Clashes(before, u)
    ensures !Attached(before[DeviceName(u.path) := Props(u)], v)
  {
    var after := before[DeviceName(u.path) := Props(u)];
    OtherPlace(before, u, v);
    forall n | n in after.Keys ensures !CarriedBy(after, n, v) {
      if n != DeviceName(u.path) {
        assert n in before.Keys && !CarriedBy(before, n, v);
      }
    }
  }

  lemma ClashStays(before: map<string, Device>, after: map<string, Device>, v: Volume)
    requires Clashes(before, v) && forall n :: n in before.Keys && n in after.Keys ==> after[n] == before[n]
    requires before.Keys <= after.Keys
    ensures Clashes(after, v)
  {
    if exists n :: n in before.Keys && InTheWay(before[n], v) {
      var n :| n in before.Keys && InTheWay(before[n], v);
      assert n in after.Keys && InTheWay(after[n], v);
    }
  }

  lemma OtherPlace(devices: map<string, Device>, u: Volume, v: Volume)
    requires Clashes(devices, v) && !Clashes(devices, u)
    ensures !Carries(Props(u), v)
  {
    if u.key == v.key && u.path == v.path {
      SamePlace(devices, u, v);
    }
  }

  lemma SamePlace(devices: map<string, Device>, u: Volume, v: Volume)
    requires u.key == v.key && u.path == v.path
    ensures Clashes(devices, u) <==> Clashes(devices, v)
  {
    assert forall n :: n in devices.Keys ==> (InTheWay(devices[n], u) <==> InTheWay(devices[n], v));
  }

  /** A volume a plan refuses, apply refuses: attaching others first does not help. */
  lemma {:induction false} RefusedFails(devices: map<string, Device>, vs: seq<Volume>, v: Volume)
    requires v in vs && Refuses(devices, v)
    ensures AttachAll(devices, vs) == None
  {
    var init, u := vs[..|vs| - 1], vs[|vs| - 1];
    assert vs == init + [u];
    if v in init {
      RefusedFails(devices, init, v);
    } else if AttachAll(devices, init).Some? {
      RefusedStaysOff(devices, init, v);
    }
  }

  lemma NoneRefused(devices: map<string, Device>, vs: seq<Volume>)
    requires AttachAll(devices, vs).Some?
    ensures forall v :: v in vs ==> !Refuses(devices, v)
  {
    if exists v :: v in vs && Refuses(devices, v) {
      var v :| v in vs && Refuses(devices, v);
      RefusedFails(devices, vs, v);
    }
  }

  lemma {:induction false} UsableEach(fs: seq<Forward>)
    ensures Usable(fs) ==> forall f :: f in fs ==> f.usable
  {
    if fs != [] {
      UsableEach(fs[..|fs| - 1]);
      assert fs == fs[..|fs| - 1] + [fs[|fs| - 1]];
    }
  }

  lemma CorrectedUnblocked(h: Host, m: Manifest, after: Host)
    requires Corrected(h, m, after)
    ensures !PlanBlocks(h, m)
  {
    NoneRefused(h.inst.value.devices, m.volumes);
    assert InPlace(h.inst.value, m, AttachedDevices(h, m)).addresses == h.inst.value.addresses;
  }

  lemma ReplacedUnblocked(h: Host, m: Manifest, mid: Host, r: Update.Outcome, lease: Lease, after: Host)
    requires Replaced(h, m, mid, r, lease, after)
    ensures !PlanBlocks(h, m)
  {
  }

  lemma LaunchedUnblocked(h: Host, m: Manifest, lease: Lease, after: Host)
    requires LaunchedFresh(h, m, lease, after)
    ensures !FreshBlocks(h, m)
  {
    UsableEach(m.forwards);
  }

  /** A blocked plan is never applied with success. */
  lemma BlockedFails(h: Host, m: Manifest, after: Host)
    requires Deployed(h, m, after)
    ensures !Blocks(h, m)
  {
    if Corrected(h, m, after) {
      CorrectedUnblocked(h, m, after);
    } else if exists mid, r, lease :: Replaced(h, m, mid, r, lease, after) {
      var mid, r, lease :| Replaced(h, m, mid, r, lease, after);
      ReplacedUnblocked(h, m, mid, r, lease, after);
    } else {
      var lease :| LaunchedFresh(h, m, lease, after);
      LaunchedUnblocked(h, m, lease, after);
    }
  }
}
