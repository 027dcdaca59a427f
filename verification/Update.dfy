/** Replacing an instance's container with a new image (pkg/engine/instance.go, Update). Hooks are scripts of the
    configuration's own and only succeed or fail here; health checks likewise. */
module Update {
  import opened Text
  import opened Host
  import Env
  import EnvEdit

  datatype Options = Options(healthCheck: bool, skipSnapshot: bool, force: bool, setEnv: Vars)

  /** How an update ends. routed: the edge's route could be pointed at the instance. */
  datatype Outcome =
    | NotStarted                 // nothing was changed
    | AlreadyThere(well: bool)   // it runs the image already
    | Updated(routed: bool)
    | RolledBack(routed: bool)
    | Down                       // not rolled back, or the rollback failed too

  predicate Nil(r: Outcome) {
    r in {AlreadyThere(true), Updated(true)}
  }

  /** It runs the image asked for: by fingerprint, or by the recorded reference. */
  predicate Current(st: Instance, target: string, newRef: string) {
    if IsFingerprint(target) then st.base == target else st.recorded == newRef
  }

  /** The container that takes the place of st: all that is st's but for the image it runs. */
  function Replacement(st: Instance, env: Option<string>, lease: Lease): Instance {
    Launched(st, lease).(devices := st.devices, envFile := if env.Some? then env else lease.envFile)
  }

  /** The environment file the new container is given. */
  ghost function NewEnv(st: Instance, setEnv: Vars): Option<string> {
    if setEnv == map[] then st.envFile
    else Some(EnvEdit.Edited(TextOf(st.envFile), setEnv))
  }

  /** The images a rollback may launch: the one that ran, or for an OCI container the reference it came from. */
  function RollbackImages(st: Instance): set<string> {
    (if st.base != "" then {st.base} else {}) + (if st.oci && st.recorded != "" then {st.recorded} else {})
  }

  /** A site is published and names an upstream, which an update follows. */
  predicate Followed(edge: Edge) {
    edge.site.Some? && edge.site.value.upstream.Some?
  }

  /** The edge after its route was, or was not, pointed at the instance. */
  predicate EdgeAfter(before: Edge, after: Edge, addresses: seq<string>, routed: bool) {
    && after == before.(site := after.site)
    && (after.site == Repointed(before.site, addresses) || (!routed && after.site == before.site))
    && (routed && Followed(before) ==> addresses != [])
  }

  /** An instance without an address is not found healthy. */
  predicate Probed(opts: Options, addresses: seq<string>) {
    opts.healthCheck ==> addresses != []
  }

  /** What an update from before leaves, by outcome; lease is what the last launched image gave. */
  ghost predicate Outcomes(before: Host, after: Host, newRef: string, target: string, opts: Options, r: Outcome,
                           lease: Lease) {
    && after.volumes == before.volumes
    && (r != NotStarted ==> before.inst.Some?)
    && match r
       case NotStarted => after == before
       case AlreadyThere(well) =>
         && Current(before.inst.value, target, newRef) && !opts.force
         && after.inst == Some(before.inst.value.(recorded := newRef))
         && EdgeAfter(before.edge, after.edge, before.inst.value.addresses, well)
         && (well ==> Probed(opts, before.inst.value.addresses))
       case Updated(routed) =>
         && !(Current(before.inst.value, target, newRef) && !opts.force) && LeaseOf(target, lease)
         && after.inst ==
              Some(Replacement(before.inst.value, NewEnv(before.inst.value, opts.setEnv), lease).(recorded := newRef))
         && EdgeAfter(before.edge, after.edge, lease.addresses, routed) && Probed(opts, lease.addresses)
       case RolledBack(routed) =>
         && (exists image :: image in RollbackImages(before.inst.value) && LeaseOf(image, lease))
         && after.inst == Some(Replacement(before.inst.value, before.inst.value.envFile, lease))
         && EdgeAfter(before.edge, after.edge, lease.addresses, routed) && Probed(opts, lease.addresses)
       case Down => after.edge == before.edge
  }

  /** Why an update ends as it does. Without a failure it ends where it should, unless there is nothing to update or
      no address to point the route at; it is rolled back after a failure; and it leaves the instance down only after a
      second one, or where no image is known to go back to. */
  predicate Blamed(before: Host, opts: Options, r: Outcome, lease: Lease, failed: nat, fails: nat) {
    && fails >= failed
    && match r
       case NotStarted => before.inst.None? || fails > failed
       case AlreadyThere(well) => fails == failed ==>
         (well <==> before.inst.Some? && (before.inst.value.addresses != []
                                          || (!opts.healthCheck && !Followed(before.edge))))
       case Updated(routed) => fails == failed ==> (routed <==> !Followed(before.edge) || lease.addresses != [])
       case RolledBack(routed) =>
         && fails > failed && (!routed ==> fails > failed + 1 || (Followed(before.edge) && lease.addresses == []))
       case Down =>
         && fails > failed && before.inst.Some?
         && (fails > failed + 1
             || (before.inst.value.base == "" && (!before.inst.value.oci || before.inst.value.recorded == "")))
  }

  // ------------------------------------------------------------------ the steps

  /** Points a published route at the instance, unless it points at one of its addresses already. */
  method RepointRoute(ic: Incus) returns (ok: bool)
    requires ic.host.inst.Some?
    modifies ic
    ensures ic.host == old(ic.host).(edge := ic.host.edge) && ic.writes >= old(ic.writes)
    ensures EdgeAfter(old(ic.host).edge, ic.host.edge, ic.host.inst.value.addresses, ok)
    ensures ic.failures >= old(ic.failures) && old(ic.asked) <= ic.asked
    ensures ic.failures == old(ic.failures) ==>
      (ok <==> !Followed(old(ic.host).edge) || ic.host.inst.value.addresses != [])
  {
    var site, addresses := ic.host.edge.site, ic.host.inst.value.addresses;
    ok := ic.Ask(Read);
    if !ok || !Followed(ic.host.edge) {
      return;
    }
    ok := ic.Ask(Read);
    if !ok || addresses == [] {
      return false;
    }
    if site.value.upstream.value in addresses {
      return true;
    }
    ok := ReplaceSite(ic, site.value.(upstream := Some(addresses[0])));
  }

  /** Writes a site file and has the whole configuration checked and loaded; a rejected file is put back. */
  method ReplaceSite(ic: Incus, desired: Site) returns (ok: bool)
    modifies ic
    ensures ic.host == WithSite(old(ic.host), ic.host.edge.site) && ic.writes >= old(ic.writes)
    ensures ic.host.edge.site == Some(desired) || (!ok && ic.host == old(ic.host))
    ensures ok ==> ic.writes > old(ic.writes)
    ensures ic.failures >= old(ic.failures) && old(ic.asked) <= ic.asked && (ok <==> ic.failures == old(ic.failures))
    ensures ok ==>
      Asked(old(ic.asked), ic.asked, Answer(Validate, true)) && Asked(old(ic.asked), ic.asked, Answer(Reload, true))
    ensures !ok && ic.failures == old(ic.failures) + 1 && !Asked(old(ic.asked), ic.asked, Answer(Reload, false)) ==>
      ic.host == old(ic.host)
  {
    var prev := ic.host.edge.site;
    ok := ic.Run(WithSite(ic.host, Some(desired)));
    if !ok {
      return;
    }
    ok := ic.Ask(Validate);
    assert ic.asked[|old(ic.asked)|] == Answer(Validate, ok);
    if !ok {
      var restored := ic.Run(WithSite(ic.host, prev));
      return;
    }
    ok := ic.Ask(Reload);
    assert ic.asked[|old(ic.asked)|] == Answer(Validate, true) && ic.asked[|old(ic.asked)| + 1] == Answer(Reload, ok);
  }

  /** Stops and deletes the instance, and launches image in its place with everything that was st's. */
  method Replace(ic: Incus, image: string, st: Instance, env: Option<string>, healthCheck: bool)
    returns (ok: bool, ghost lease: Lease)
    modifies ic
    ensures ic.host == old(ic.host).(inst := ic.host.inst)
    ensures ok ==> LeaseOf(image, lease) && ic.host.inst == Some(Replacement(st, env, lease))
    ensures ok ==> ic.writes > old(ic.writes)
    ensures ok && healthCheck ==> lease.addresses != []
    ensures ic.writes >= old(ic.writes)
    ensures ic.failures >= old(ic.failures) && old(ic.asked) <= ic.asked && (ic.failures == old(ic.failures) ==> ok)
    ensures ok && !st.oci ==> Asked(old(ic.asked), ic.asked, Answer(RestartUnit, true))
    ensures ok ==> FoundWell(healthCheck, old(ic.asked), ic.asked)
  {
    lease := Lease("", false, None, []);
    ok := ic.StopAndDelete();
    if !ok {
      return;
    }
    ok, lease := Relaunch(ic, image, st, env);
    if ok {
      ghost var launched := ic.asked;
      ok := Start(ic, st.oci, healthCheck);
      if ok {
        WellStays(healthCheck, old(ic.asked), launched, ic.asked, ic.asked);
        if !st.oci {
          AskedStays(old(ic.asked), launched, ic.asked, ic.asked, Answer(RestartUnit, true));
        }
      }
    }
  }

  /** A container with the devices and the environment file. */
  method Relaunch(ic: Incus, image: string, st: Instance, env: Option<string>) returns (ok: bool, ghost lease: Lease)
    modifies ic
    ensures ic.host == old(ic.host).(inst := ic.host.inst) && ic.writes >= old(ic.writes) && ic.asked == old(ic.asked)
    ensures ok ==> LeaseOf(image, lease) && ic.host.inst == Some(Replacement(st, env, lease))
    ensures ok ==> ic.writes > old(ic.writes)
    ensures ic.failures >= old(ic.failures) && (ic.failures == old(ic.failures) && old(ic.host).inst.None? ==> ok)
  {
    ok, lease := ic.Launch(image, st);
    if !ok {
      return;
    }
    ok := SetDevices(ic, st.devices);
    if ok && env.Some? {
      ok := ic.Change(ic.host.inst.value.(envFile := env));
    }
  }

  lemma DeviceAdded(h: Host, devices: map<string, Device>, name: string, props: Device)
    ensures WithDevice(WithDevices(h, devices), name, props) == WithDevices(h, devices[name := props])
  {
  }

  /** Replays the devices on an instance that has none. */
  method SetDevices(ic: Incus, devices: map<string, Device>) returns (ok: bool)
    requires ic.host.inst.Some? && ic.host.inst.value.devices == map[]
    modifies ic
    ensures ok ==> ic.host == WithDevices(old(ic.host), devices)
    ensures ic.host == old(ic.host).(inst := ic.host.inst) && ic.writes >= old(ic.writes) && ic.asked == old(ic.asked)
    ensures ic.failures >= old(ic.failures) && (ic.failures == old(ic.failures) ==> ok)
  {
    var names := SortKeys(devices.Keys);
    ghost var h := ic.host;
    assert h == WithDevices(h, map[]);
    for n := 0 to |names|
      invariant ic.host == WithDevices(h, Named(devices, names[..n]))
      invariant ic.writes >= old(ic.writes) && ic.failures == old(ic.failures) && ic.asked == old(ic.asked)
    {
      assert names[n] in names;
      NamedStep(devices, names, n);
      DeviceAdded(h, Named(devices, names[..n]), names[n], devices[names[n]]);
      ok := SetDevice(ic, names[n], devices[names[n]]);
      if !ok {
        return;
      }
    }
    NamedAll(devices, names);
    ok := true;
  }

  /** The hook before the start, the restart of a unit, and the health check if one is asked for. */
  method Start(ic: Incus, oci: bool, healthCheck: bool) returns (ok: bool)
    requires ic.host.inst.Some?
    modifies ic`failures, ic`asked
    ensures ic.failures >= old(ic.failures) && old(ic.asked) <= ic.asked && (ic.failures == old(ic.failures) ==> ok)
    ensures ok && !oci ==> Asked(old(ic.asked), ic.asked, Answer(RestartUnit, true))
    ensures ok ==> FoundWell(healthCheck, old(ic.asked), ic.asked)
    ensures ok && healthCheck ==> ic.host.inst.value.addresses != []
  {
    ok := ic.Ask(Hook);
    if ok && !oci {
      ok := ic.Ask(RestartUnit);
      assert ic.asked[|ic.asked| - 1] == Answer(RestartUnit, ok);
    }
    ghost var started := ic.asked;
    if ok && healthCheck {
      ok := CheckHealth(ic);
      if ok {
        WellStays(healthCheck, old(ic.asked), started, ic.asked, ic.asked);
      }
      if ok && !oci {
        AskedStays(old(ic.asked), old(ic.asked), started, ic.asked, Answer(RestartUnit, true));
      }
    }
  }

  method CheckHealth(ic: Incus) returns (ok: bool)
    requires ic.host.inst.Some?
    modifies ic`failures, ic`asked
    ensures ic.failures == old(ic.failures) + (if ok then 0 else 1) && old(ic.asked) <= ic.asked
    ensures ok ==> FoundWell(true, old(ic.asked), ic.asked) && ic.host.inst.value.addresses != []
  {
    ok := Reach(ic);
    if ok {
      ok := ic.Ask(Health);
      assert ic.asked[|ic.asked| - 1] == Answer(Health, ok);
    }
  }

  /** An instance without an address is waited for in vain. */
  method Reach(ic: Incus) returns (ok: bool)
    requires ic.host.inst.Some?
    modifies ic`failures
    ensures ok <==> ic.host.inst.value.addresses != []
    ensures ic.failures == old(ic.failures) + (if ok then 0 else 1) && ic.asked == old(ic.asked)
  {
    ok := ic.host.inst.value.addresses != [];
    if !ok {
      ic.failures := ic.failures + 1;
    }
  }

  /** A device without a type is refused. */
  method SetDevice(ic: Incus, name: string, props: Device) returns (ok: bool)
    modifies ic
    ensures ok ==> old(ic.host).inst.Some?
    ensures ok ==> ic.host == WithDevice(old(ic.host), name, props) && ic.writes == old(ic.writes) + 1
    ensures !ok ==> ic.host == old(ic.host) && ic.writes == old(ic.writes)
    ensures Get(props, "type") == "" ==> !ok
    ensures ic.failures == old(ic.failures) + (if ok then 0 else 1) && ic.asked == old(ic.asked)
  {
    if Get(props, "type") == "" {
      ic.failures := ic.failures + 1;
      return false;
    }
    ok := ic.SetDevice(name, props);
  }

  /** The devices of the given names. */
  function Named(devices: map<string, Device>, names: seq<string>): map<string, Device> {
    map n | n in devices && n in names :: devices[n]
  }

  lemma NamedStep(devices: map<string, Device>, names: seq<string>, n: nat)
    requires n < |names| && names[n] in devices
    ensures Named(devices, names[..n + 1]) == Named(devices, names[..n])[names[n] := devices[names[n]]]
  {
    assert names[..n + 1] == names[..n] + [names[n]];
  }

  lemma NamedAll(devices: map<string, Device>, names: seq<string>)
    requires forall n :: n in devices ==> n in names
    ensures Named(devices, names[..|names|]) == devices
  {
    assert names[..|names|] == names;
  }

  // ------------------------------------------------------------------ the update

  method Update(ic: Incus, newRef: string, target: string, opts: Options) returns (r: Outcome, ghost lease: Lease)
    modifies ic
    ensures Outcomes(old(ic.host), ic.host, newRef, target, opts, r, lease)
    ensures ic.writes >= old(ic.writes)
    ensures r.Updated? || (r.AlreadyThere? && old(ic.host).inst.value.recorded != newRef) ==> ic.writes > old(ic.writes)
    ensures Blamed(old(ic.host), opts, r, lease, old(ic.failures), ic.failures)
    ensures old(ic.asked) <= ic.asked
    ensures r.Updated? || r.RolledBack? || r == AlreadyThere(true) ==>
      FoundWell(opts.healthCheck, old(ic.asked), ic.asked)
    ensures !opts.skipSnapshot && (r.Updated? || r.RolledBack? || r == Down) ==>
      forall d :: d in old(ic.host).inst.value.devices.Values && IsVolume(d) ==>
        Asked(old(ic.asked), ic.asked, Answer(Snapshot(VolKey(d["pool"], d["source"])), true))
  {
    lease := Lease("", false, None, []);
    var ok, st := ic.Capture();
    if !ok {
      return NotStarted, lease;
    }
    ghost var captured := ic.asked;
    if !opts.force && Current(st, target, newRef) {
      r := Recorded(ic, st, newRef, opts);
      if r == AlreadyThere(true) {
        WellStays(opts.healthCheck, old(ic.asked), captured, ic.asked, ic.asked);
      }
      return;
    }
    ok := ic.Ask(Read);  // the environment file
    if ok && !opts.skipSnapshot {
      ok := SnapshotAll(ic, VolumesOf(st));
    }
    if !ok {
      return NotStarted, lease;
    }
    ghost var snapped := ic.asked;
    r, lease := Exchange(ic, st, newRef, target, opts);
    if r != Down {
      WellStays(opts.healthCheck, old(ic.asked), snapped, ic.asked, ic.asked);
    }
    if !opts.skipSnapshot {
      SnapshotsStay(VolumesOf(st), old(ic.asked), captured + [Answer(Read, true)], snapped, ic.asked);
      VolumesHave(st);
    }
  }

  /** A disk device with a pool and a source: a data volume. */
  predicate IsVolume(d: Device) {
    && "type" in d && d["type"] == "disk" && "pool" in d && d["pool"] != "" && "source" in d && d["source"] != ""
  }

  lemma VolumesHave(st: Instance)
    ensures forall d :: d in st.devices.Values && IsVolume(d) ==> VolKey(d["pool"], d["source"]) in VolumesOf(st)
  {
    forall d | d in st.devices.Values && IsVolume(d) ensures VolKey(d["pool"], d["source"]) in VolumesOf(st) {
      var n :| n in st.devices && st.devices[n] == d;
      assert IsDisk(st.devices[n]) && Get(st.devices[n], "pool") == d["pool"];
    }
  }

  lemma SnapshotsStay(volumes: set<VolKey>, before: seq<Answer>, start: seq<Answer>, end: seq<Answer>,
                      after: seq<Answer>)
    requires before <= start && end <= after
    requires forall v :: v in volumes ==> Asked(start, end, Answer(Snapshot(v), true))
    ensures forall v :: v in volumes ==> Asked(before, after, Answer(Snapshot(v), true))
  {
    forall v | v in volumes ensures Asked(before, after, Answer(Snapshot(v), true)) {
      AskedStays(before, start, end, after, Answer(Snapshot(v), true));
    }
  }

  /** Replaces the instance by one on the new image, with its environment file edited. */
  method ReplaceBy(ic: Incus, target: string, st: Instance, newRef: string, opts: Options)
    returns (ok: bool, ghost lease: Lease)
    modifies ic
    ensures ic.host == old(ic.host).(inst := ic.host.inst) && ic.writes >= old(ic.writes)
    ensures ok ==> LeaseOf(target, lease) && ic.writes > old(ic.writes) && Probed(opts, lease.addresses)
    ensures ok ==> ic.host.inst == Some(Replacement(st, NewEnv(st, opts.setEnv), lease).(recorded := newRef))
    ensures ic.failures >= old(ic.failures) && old(ic.asked) <= ic.asked && (ic.failures == old(ic.failures) ==> ok)
    ensures ok ==> FoundWell(opts.healthCheck, old(ic.asked), ic.asked)
  {
    var newEnv := st.envFile;
    if opts.setEnv != map[] {
      var text := EnvEdit.SetEnvKeys(TextOf(st.envFile), opts.setEnv);
      newEnv := Some(text);
    }
    ok, lease := Replace(ic, target, st.(recorded := newRef), newEnv, opts.healthCheck);
  }

  /** Replaces the instance, and rolls back where that fails. */
  method Exchange(ic: Incus, st: Instance, newRef: string, target: string, opts: Options)
    returns (r: Outcome, ghost lease: Lease)
    requires ic.host.inst == Some(st) && !(Current(st, target, newRef) && !opts.force)
    modifies ic
    ensures r.Updated? || r.RolledBack? || r == Down
    ensures Outcomes(old(ic.host), ic.host, newRef, target, opts, r, lease)
    ensures ic.writes >= old(ic.writes) && (r.Updated? ==> ic.writes > old(ic.writes))
    ensures Blamed(old(ic.host), opts, r, lease, old(ic.failures), ic.failures) && old(ic.asked) <= ic.asked
    ensures r != Down ==> FoundWell(opts.healthCheck, old(ic.asked), ic.asked)
  {
    var ok;
    ok, lease := ReplaceBy(ic, target, st, newRef, opts);
    ghost var tried := ic.asked;
    if ok {
      ok := RepointRoute(ic);
      WellStays(opts.healthCheck, old(ic.asked), old(ic.asked), tried, ic.asked);
      return Updated(ok), lease;
    }
    r, lease := Rollback(ic, st, opts);
    if r != Down {
      WellStays(opts.healthCheck, old(ic.asked), tried, ic.asked, ic.asked);
    }
  }

  /** A snapshot of each volume; a failed one ends it. */
  method SnapshotAll(ic: Incus, volumes: set<VolKey>) returns (ok: bool)
    modifies ic`failures, ic`asked
    ensures ic.failures == old(ic.failures) + (if ok then 0 else 1) && old(ic.asked) <= ic.asked
    ensures ok ==> forall v :: v in volumes ==> Asked(old(ic.asked), ic.asked, Answer(Snapshot(v), true))
  {
    var todo := volumes;
    while todo != {}
      invariant todo <= volumes && old(ic.asked) <= ic.asked && ic.failures == old(ic.failures)
      invariant forall v :: v in volumes - todo ==> Asked(old(ic.asked), ic.asked, Answer(Snapshot(v), true))
    {
      var v :| v in todo;
      ghost var before := ic.asked;
      ok := ic.Ask(Snapshot(v));
      if !ok {
        return;
      }
      assert ic.asked[|before|] == Answer(Snapshot(v), true);
      forall u | u in volumes - todo ensures Asked(old(ic.asked), ic.asked, Answer(Snapshot(u), true)) {
        AskedStays(old(ic.asked), old(ic.asked), before, ic.asked, Answer(Snapshot(u), true));
      }
      todo := todo - {v};
    }
    ok := true;
  }

  /** The image runs already: only its reference is recorded, and the route follows the address. */
  method Recorded(ic: Incus, st: Instance, newRef: string, opts: Options) returns (r: Outcome)
    requires ic.host.inst == Some(st)
    modifies ic
    ensures (r == NotStarted && ic.host == old(ic.host)) || r.AlreadyThere?
    ensures r.AlreadyThere? ==> ic.host == old(ic.host).(inst := Some(st.(recorded := newRef)), edge := ic.host.edge)
    ensures r.AlreadyThere? ==> EdgeAfter(old(ic.host).edge, ic.host.edge, st.addresses, r.well)
    ensures r.AlreadyThere? && r.well ==> Probed(opts, st.addresses)
    ensures r == AlreadyThere(true) ==> FoundWell(opts.healthCheck, old(ic.asked), ic.asked)
    ensures ic.writes >= old(ic.writes)
    ensures r.AlreadyThere? && st.recorded != newRef ==> ic.writes > old(ic.writes)
    ensures ic.failures >= old(ic.failures) && old(ic.asked) <= ic.asked
    ensures ic.failures == old(ic.failures) ==>
      r == AlreadyThere(st.addresses != [] || (!opts.healthCheck && !Followed(old(ic.host).edge)))
  {
    var ok := true;
    if st.recorded != newRef {
      ok := ic.Change(st.(recorded := newRef));
      if !ok {
        return NotStarted;
      }
    }
    if opts.healthCheck {
      ok := st.addresses != [];
      if ok {
        ok := ic.Ask(Health);
        assert ic.asked[|ic.asked| - 1] == Answer(Health, ok);
      }
    }
    if ok {
      ghost var healthy := ic.asked;
      ok := RepointRoute(ic);
      WellStays(opts.healthCheck, old(ic.asked), old(ic.asked), healthy, ic.asked);
    }
    r := AlreadyThere(ok);
  }

  /** Launches the previous image again with the configuration and environment file as they were. */
  method Rollback(ic: Incus, st: Instance, opts: Options) returns (r: Outcome, ghost lease: Lease)
    modifies ic
    ensures r.RolledBack? || r == Down
    ensures ic.host == old(ic.host).(inst := ic.host.inst, edge := ic.host.edge) && ic.writes >= old(ic.writes)
    ensures r == Down ==> ic.host.edge == old(ic.host).edge
    ensures r.RolledBack? ==> ic.host.inst == Some(Replacement(st, st.envFile, lease))
    ensures r.RolledBack? ==> exists image :: image in RollbackImages(st) && LeaseOf(image, lease)
    ensures r.RolledBack? ==> EdgeAfter(old(ic.host).edge, ic.host.edge, lease.addresses, r.routed)
    ensures r.RolledBack? ==> Probed(opts, lease.addresses)
    ensures ic.failures >= old(ic.failures) && old(ic.asked) <= ic.asked
    ensures r == Down ==>
      ic.failures > old(ic.failures) || (st.base == "" && (!st.oci || st.recorded == ""))
    ensures r == RolledBack(false) ==>
      ic.failures > old(ic.failures) || (Followed(ic.host.edge) && lease.addresses == [])
    ensures r.RolledBack? ==> FoundWell(opts.healthCheck, old(ic.asked), ic.asked)
  {
    lease := Lease("", false, None, []);
    var image, ref := st.base, "";
    if st.oci {
      ref := st.recorded;
      if image == "" {
        image := ref;
      }
    }
    if image == "" {
      return Down, lease;
    }
    var ok;
    ghost var start := ic.asked;
    ok, lease := Replace(ic, image, st, st.envFile, opts.healthCheck);
    if !ok && ref != "" && ref != image {
      image, start := ref, ic.asked;
      ok, lease := Replace(ic, ref, st, st.envFile, opts.healthCheck);
    }
    if !ok {
      return Down, lease;
    }
    assert image in RollbackImages(st) && LeaseOf(image, lease);
    ghost var relaunched := ic.asked;
    ok := RepointRoute(ic);
    WellStays(opts.healthCheck, old(ic.asked), start, relaunched, ic.asked);
    r := RolledBack(ok);
  }

  // ------------------------------------------------------------------- what holds

  /** The parts of an instance an update must not lose. */
  predicate Carried(st: Instance, after: Instance) {
    && after.config == st.config && after.labels == st.labels && after.environment == st.environment
    && after.managed == st.managed && after.devices == st.devices
    && after.profiles == (if "default" in st.profiles then st.profiles else ["default"] + st.profiles)
  }

  /** Whether it is updated or rolled back, the instance has its configuration, its devices and with them its data
      volumes; only the recorded reference tells the two apart, and no volume is touched by any outcome. */
  lemma ConfigCarried(before: Host, after: Host, newRef: string, target: string, opts: Options, r: Outcome,
                      lease: Lease)
    requires Outcomes(before, after, newRef, target, opts, r, lease) && (r.Updated? || r.RolledBack?)
    ensures after.inst.Some? && Carried(before.inst.value, after.inst.value) && after.volumes == before.volumes
    ensures VolumesOf(after.inst.value) == VolumesOf(before.inst.value)
    ensures after.inst.value.recorded == if r.Updated? then newRef else before.inst.value.recorded
    ensures after.inst.value.(envFile := None) == before.inst.value.(
      base := lease.base, oci := lease.oci, addresses := lease.addresses, envFile := None,
      profiles := after.inst.value.profiles, recorded := after.inst.value.recorded)
  {
  }

  /** Nothing is replaced exactly when the image asked for runs and force is not given; an image given by its
      fingerprint runs when the instance was made from it, any other when its reference is the one recorded. */
  lemma SkippedIff(before: Host, after: Host, newRef: string, target: string, opts: Options, r: Outcome, lease: Lease)
    requires Outcomes(before, after, newRef, target, opts, r, lease) && (r.AlreadyThere? || r.Updated?)
    ensures var exact := |target| == 64 && forall c :: c in target ==> '0' <= c <= '9' || 'a' <= c <= 'f';
      && (exact ==> (r.AlreadyThere? <==> !opts.force && before.inst.value.base == target))
      && (!exact ==> (r.AlreadyThere? <==> !opts.force && before.inst.value.recorded == newRef))
  {
    assert IsFingerprint(target) <==> |target| == 64 && forall c :: c in target ==> '0' <= c <= '9' || 'a' <= c <= 'f';
  }

  /** After an update that answers nil, and after a rollback that could, the published site points at an address the
      instance has: the one it pointed at if that is still one of them, else the first. Nothing else of the edge
      differs, and nothing at all without a site to follow. */
  lemma RouteFollows(before: Host, after: Host, newRef: string, target: string, opts: Options, r: Outcome,
                     lease: Lease)
    requires Outcomes(before, after, newRef, target, opts, r, lease) && (Nil(r) || r == RolledBack(true))
    ensures after.inst.Some? && after.edge.present == before.edge.present
    ensures after.edge.caddyfile == before.edge.caddyfile
    ensures before.edge.site.None? || before.edge.site.value.upstream.None? ==> after.edge.site == before.edge.site
    ensures before.edge.site.Some? && before.edge.site.value.upstream.Some? ==>
      var site, addresses := before.edge.site.value, after.inst.value.addresses;
      && addresses != []
      && after.edge.site == Some(if site.upstream.value in addresses then site
                                 else site.(upstream := Some(addresses[0])))
  {
  }

  /** An update that answers nil leaves the instance on the image asked for, so the same update again replaces
      nothing. */
  lemma NilIsCurrent(before: Host, after: Host, newRef: string, target: string, opts: Options, r: Outcome, lease: Lease)
    requires Outcomes(before, after, newRef, target, opts, r, lease) && Nil(r)
    ensures after.inst.Some? && Current(after.inst.value, target, newRef) && after.inst.value.recorded == newRef
  {
  }

  /** The environment file after an update: the old one with setEnv laid over it (exactly when setEnv is plain), or
      as it was. An instance that runs the image already keeps its file: setEnv is not applied. */
  lemma UpdatedEnv(before: Host, after: Host, newRef: string, target: string, opts: Options, r: Outcome, lease: Lease)
    requires Outcomes(before, after, newRef, target, opts, r, lease) && Nil(r)
    ensures r.AlreadyThere? ==> after.inst.value.envFile == before.inst.value.envFile
    ensures r.Updated? && opts.setEnv == map[] ==>
      after.inst.value.envFile == if before.inst.value.envFile.Some? then before.inst.value.envFile else lease.envFile
    ensures r.Updated? && opts.setEnv != map[] ==>
      (Overlaid(before.inst.value.envFile, after.inst.value.envFile, opts.setEnv) <==> Env.PlainVars(opts.setEnv))
  {
    EnvEdit.SetThenParse(TextOf(before.inst.value.envFile), opts.setEnv);
  }

  /** What a file declares; one that is not there declares nothing. */
  function EnvOfFile(file: Option<string>): Vars {
    Env.ParsedEnv(TextOf(file))
  }

  predicate Overlaid(before: Option<string>, after: Option<string>, over: Vars) {
    EnvOfFile(after) == EnvOfFile(before) + over
  }

  function TextOf(file: Option<string>): string {
    if file.Some? then file.value else ""
  }

  /** A rollback puts the environment file back byte for byte if there was one, and relaunches the image that ran,
      or what the recorded reference of an OCI container pulls. */
  lemma RollbackRestores(before: Host, after: Host, newRef: string, target: string, opts: Options, r: Outcome,
                         lease: Lease)
    requires Outcomes(before, after, newRef, target, opts, r, lease) && r.RolledBack?
    ensures before.inst.value.envFile.Some? ==> after.inst.value.envFile == before.inst.value.envFile
    ensures IsFingerprint(before.inst.value.base) && !before.inst.value.oci ==>
      after.inst.value.base == before.inst.value.base
    ensures after.inst.value.recorded == before.inst.value.recorded
    ensures var st := before.inst.value;
      (st.base != "" && LeaseOf(st.base, lease)) || (st.oci && st.recorded != "" && LeaseOf(st.recorded, lease))
  {
  }
}
