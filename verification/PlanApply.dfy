/** Whether a plan that nothing blocks can be applied (pkg/engine/plan.go, PlanService). */
module PlanApply {
  import opened Text
  import opened Host
  import opened Volumes
  import opened Snapshots
  import opened Forwards
  import opened Deploy
  import Update
  import Env

  // --------------------------------------------------------------------- schedules

  predicate PoliciesExist(volumes: map<VolKey, Vars>, vs: seq<Volume>) {
    forall v :: v in vs && v.policy.Some? ==> v.key in volumes
  }

  lemma {:induction false} ScheduledIff(volumes: map<VolKey, Vars>, vs: seq<Volume>)
    ensures Scheduled(volumes, vs).Some? <==> PoliciesExist(volumes, vs)
  {
    if vs != [] {
      var init := vs[..|vs| - 1];
      assert vs == init + [vs[|vs| - 1]];
      ScheduledIff(volumes, init);
      if Scheduled(volumes, init).Some? {
        ScheduledKeeps(volumes, init);
      }
    }
  }

  lemma EnsuredHavePolicies(volumes: map<VolKey, Vars>, vs: seq<Volume>)
    ensures Scheduled(Ensured(volumes, vs), vs).Some?
  {
    EnsuredExist(volumes, vs);
    ScheduledIff(Ensured(volumes, vs), vs);
  }

  // ----------------------------------------------------------------------- volumes

  /** No two volumes that are still to be attached would be attached as one device. */
  predicate VolumesApart(devices: map<string, Device>, vs: seq<Volume>) {
    forall i, j :: 0 <= i < j < |vs| && !Attached(devices, vs[i]) && !Attached(devices, vs[j]) ==>
      DeviceName(vs[i].path) != DeviceName(vs[j].path)
  }

  /** u is attached as n. */
  predicate AddedAs(devices: map<string, Device>, vs: seq<Volume>, u: Volume, n: string) {
    u in vs && !Attached(devices, u) && DeviceName(u.path) == n
  }

  /** A volume to be attached takes the device v would be attached as. */
  predicate Taken(devices: map<string, Device>, vs: seq<Volume>, v: Volume) {
    exists u :: u in vs && AddedAs(devices, vs, u, DeviceName(v.path))
  }

  /** Exactly the volumes not attached before got a device of their own. */
  ghost predicate Added(devices: map<string, Device>, vs: seq<Volume>, after: map<string, Device>) {
    && Extends(devices, after)
    && (forall n :: n in after && n !in devices ==> exists u :: AddedAs(devices, vs, u, n) && after[n] == Props(u))
    && (forall u :: u in vs && !Attached(devices, u) ==> DeviceName(u.path) in after)
  }

  /** Attaching volumes attaches no other. */
  lemma AddedAttaches(devices: map<string, Device>, vs: seq<Volume>, after: map<string, Device>, v: Volume)
    requires Added(devices, vs, after) && forall u :: u in vs ==> u.key != v.key
    ensures Attached(after, v) <==> Attached(devices, v)
  {
    if Attached(devices, v) {
      StaysAttached(devices, after, v);
    }
    forall n | n in after.Keys && n !in devices ensures !CarriedBy(after, n, v) {
      var u :| AddedAs(devices, vs, u, n) && after[n] == Props(u);
      assert u.key != v.key;
    }
    if Attached(after, v) {
      var n :| n in after.Keys && CarriedBy(after, n, v);
      assert n in devices.Keys && CarriedBy(devices, n, v);
    }
  }

  lemma NotLast(vs: seq<Volume>, v: Volume)
    requires vs != [] && Distinct(vs) && v == vs[|vs| - 1]
    ensures Distinct(vs[..|vs| - 1]) && forall u :: u in vs[..|vs| - 1] ==> u.key != v.key
  {
  }

  lemma {:induction false} AttachAllAdds(devices: map<string, Device>, vs: seq<Volume>)
    requires Distinct(vs) && AttachAll(devices, vs).Some?
    ensures Added(devices, vs, AttachAll(devices, vs).value)
  {
    if vs != [] {
      var init, v := vs[..|vs| - 1], vs[|vs| - 1];
      assert vs == init + [v];
      NotLast(vs, v);
      AttachAllAdds(devices, init);
      var before, after := AttachAll(devices, init).value, AttachAll(devices, vs).value;
      AddedAttaches(devices, init, before, v);
      AddOne(devices, init, v, before, after);
    }
  }

  lemma AddOne(devices: map<string, Device>, init: seq<Volume>, v: Volume, before: map<string, Device>,
               after: map<string, Device>)
    requires Attached(before, v) || DeviceName(v.path) !in before
    requires Added(devices, init, before) && (Attached(before, v) <==> Attached(devices, v))
    requires after == if Attached(before, v) then before else before[DeviceName(v.path) := Props(v)]
    ensures Added(devices, init + [v], after)
  {
    var vs := init + [v];
    forall n | n in after && n !in devices ensures exists u :: AddedAs(devices, vs, u, n) && after[n] == Props(u) {
      if n in before && after[n] == before[n] {
        var u :| AddedAs(devices, init, u, n) && before[n] == Props(u);
        assert AddedAs(devices, vs, u, n);
      } else {
        assert AddedAs(devices, vs, v, n);
      }
    }
  }

  /** A volume in nobody's way before the others were attached is in somebody's way afterwards exactly when one of
      them was attached as its device. */
  lemma ClashesAfter(devices: map<string, Device>, vs: seq<Volume>, after: map<string, Device>, v: Volume)
    requires Added(devices, vs, after) && !Clashes(devices, v) && forall u :: u in vs ==> u.key != v.key
    ensures Clashes(after, v) <==> Taken(devices, vs, v)
  {
    if Clashes(after, v) {
      var n :| n in after.Keys && (n == DeviceName(v.path) || InTheWay(after[n], v));
      InTheWayIsAdded(devices, vs, after, v, n);
    }
  }

  lemma InTheWayIsAdded(devices: map<string, Device>, vs: seq<Volume>, after: map<string, Device>, v: Volume, n: string)
    requires Added(devices, vs, after) && !Clashes(devices, v) && forall u :: u in vs ==> u.key != v.key
    requires n in after && (n == DeviceName(v.path) || InTheWay(after[n], v))
    ensures Taken(devices, vs, v)
  {
    assert forall k :: k in devices ==> k in devices.Keys && !InTheWay(devices[k], v) && k != DeviceName(v.path);
    var u :| AddedAs(devices, vs, u, n) && after[n] == Props(u);
    assert DeviceName(u.path) == DeviceName(v.path);
  }

  /** The last volume can be attached too exactly when none before it took its device. */
  lemma AttachOneMore(devices: map<string, Device>, init: seq<Volume>, v: Volume)
    requires Distinct(init) && AttachAll(devices, init).Some?
    requires !Refuses(devices, v) && forall u :: u in init ==> u.key != v.key
    ensures AttachAll(devices, init + [v]).Some? <==>
      Attached(devices, v) || !Taken(devices, init, v)
  {
    var before := AttachAll(devices, init).value;
    assert (init + [v])[..|init|] == init;
    AttachAllAdds(devices, init);
    AddedAttaches(devices, init, before, v);
    if !Attached(devices, v) {
      ClashesAfter(devices, init, before, v);
    }
  }

  /** Volumes that none of the live devices is in the way of can all be attached exactly when no two of them take
      one device: paths like /a/b and /a-b, or one path twice. */
  lemma {:induction false} AttachAllIff(devices: map<string, Device>, vs: seq<Volume>)
    requires Distinct(vs) && forall v :: v in vs ==> !Refuses(devices, v)
    ensures AttachAll(devices, vs).Some? <==> VolumesApart(devices, vs)
  {
    if vs != [] {
      var init, v := vs[..|vs| - 1], vs[|vs| - 1];
      assert vs == init + [v] && v in vs;
      NotLast(vs, v);
      AttachAllIff(devices, init);
      ApartSnoc(devices, init, v);
      if AttachAll(devices, init).Some? {
        AttachOneMore(devices, init, v);
      }
    }
  }

  lemma ApartSnoc(devices: map<string, Device>, init: seq<Volume>, v: Volume)
    ensures VolumesApart(devices, init + [v]) <==>
      VolumesApart(devices, init) && (Attached(devices, v) || !Taken(devices, init, v))
  {
    var vs := init + [v];
    assert vs[|init|] == v && forall i :: 0 <= i < |init| ==> vs[i] == init[i];
    if VolumesApart(devices, vs) {
      assert VolumesApart(devices, init);
      forall u | u in init && !Attached(devices, u) && !Attached(devices, v)
        ensures DeviceName(u.path) != DeviceName(v.path)
      {
        var i :| 0 <= i < |init| && init[i] == u;
        assert vs[i] == u;
      }
    }
    if VolumesApart(devices, init) && !Attached(devices, v) && !Taken(devices, init, v) {
      forall i | 0 <= i < |init| && !Attached(devices, vs[i]) ensures DeviceName(vs[i].path) != DeviceName(v.path) {
        assert !AddedAs(devices, init, vs[i], DeviceName(v.path));
      }
    }
  }

  // --------------------------------------------------- what a plan does not look at

  /** An update of the instance needs its address. */
  predicate NeedsAddress(h: Host, m: Manifest) {
    m.healthCheck || m.route.Some? || Update.Followed(h.edge)
  }

  /** What a plan that blocks nothing does not look at, of an instance that is replaced: its volumes, the route,
      and the address of one that turns out to run the image already. */
  predicate FitsReplace(h: Host, m: Manifest)
    requires h.inst.Some?
  {
    && PoliciesExist(h.volumes, m.volumes)
    && (m.route.Some? ==> m.route.value.valid && h.edge.caddyfile != Foreign)
    && (Update.Current(h.inst.value, m.deploy, m.deploy) && NeedsAddress(h, m) ==> h.inst.value.addresses != [])
  }

  /** What a plan does not look at: names and paths that do not go together with each other. */
  predicate Fits(h: Host, m: Manifest) {
    if h.inst.None? then ForwardsApart(m.forwards) && VolumesApart(map[], m.volumes)
    else if ImageDecision(h.inst.value, m) == ToReplace then FitsReplace(h, m)
    else VolumesApart(h.inst.value.devices, m.volumes)
  }

  /** Some run can succeed. */
  ghost predicate Deployable(h: Host, m: Manifest) {
    exists after :: Deployed(h, m, after)
  }

  lemma ByCorrecting(h: Host, m: Manifest, after: Host)
    requires Corrected(h, m, after)
    ensures Deployable(h, m)
  {
    assert Deployed(h, m, after);
  }

  lemma ByReplacing(h: Host, m: Manifest, mid: Host, r: Update.Outcome, lease: Lease, after: Host)
    requires Replaced(h, m, mid, r, lease, after)
    ensures Deployable(h, m)
  {
    assert Deployed(h, m, after);
  }

  lemma ByLaunching(h: Host, m: Manifest, lease: Lease, after: Host)
    requires LaunchedFresh(h, m, lease, after)
    ensures Deployable(h, m)
  {
    assert Deployed(h, m, after);
  }

  // -------------------------------------------------------------- the image stays

  lemma CorrectedFits(h: Host, m: Manifest, after: Host)
    requires m.WellFormed() && Corrected(h, m, after)
    ensures Fits(h, m)
  {
    NoneRefused(h.inst.value.devices, m.volumes);
    AttachAllIff(h.inst.value.devices, m.volumes);
  }

  lemma FitsCorrected(h: Host, m: Manifest)
    requires m.WellFormed() && h.inst.Some? && ImageDecision(h.inst.value, m) != ToReplace
    requires !PlanBlocks(h, m) && VolumesApart(h.inst.value.devices, m.volumes)
    ensures Deployable(h, m)
  {
    assert AttachAll(h.inst.value.devices, m.volumes).Some? by {
      AttachAllIff(h.inst.value.devices, m.volumes);
    }
    EnsuredHavePolicies(h.volumes, m.volumes);
    InPlaceAddresses(h.inst.value, m, AttachedDevices(h, m));
    CorrectsTo(h, m, InPlace(h.inst.value, m, AttachedDevices(h, m)));
  }

  lemma InPlaceAddresses(st: Instance, m: Manifest, devices: map<string, Device>)
    ensures InPlace(st, m, devices).addresses == st.addresses
  {
    EnvKeepsAddresses(BeforeEnv(st, m, devices), m, UsesOCI(st, m));
  }

  lemma CorrectsTo(h: Host, m: Manifest, inst: Instance)
    requires h.inst.Some? && ImageDecision(h.inst.value, m) != ToReplace && !PlanBlocks(h, m)
    requires AttachAll(h.inst.value.devices, m.volumes).Some?
    requires inst == InPlace(h.inst.value, m, AttachedDevices(h, m)) && inst.addresses == h.inst.value.addresses
    requires Scheduled(Ensured(h.volumes, m.volumes), m.volumes).Some?
    ensures Deployable(h, m)
  {
    var corrected := h.(volumes := Ensured(h.volumes, m.volumes), inst := Some(inst));
    ByCorrecting(h, m, Ending(corrected, m));
  }

  /** What the end of a run makes of a host it can end on. */
  ghost function Ending(h: Host, m: Manifest): (after: Host)
    requires h.inst.Some? && Usable(m.forwards) && Scheduled(h.volumes, m.volumes).Some?
    requires m.route.Some? ==> Routable(h, m)
    ensures Finished(h, m, after)
  {
    var published := h.(volumes := Scheduled(h.volumes, m.volumes).value,
                        inst := Some(ForwardsApplied(h.inst.value, m.forwards)));
    WithRoute(published, m)
  }

  // --------------------------------------------------------- the image is replaced

  lemma ReplacedFits(h: Host, m: Manifest, mid: Host, r: Update.Outcome, lease: Lease, after: Host)
    requires m.WellFormed() && Replaced(h, m, mid, r, lease, after)
    ensures Fits(h, m)
  {
    ScheduledIff(h.volumes, m.volumes);
    EnvKeepsAddresses(WithLabels(mid.inst.value, m), m, OciRef(m.deploy));
  }

  lemma EnvKeepsAddresses(x: Instance, m: Manifest, oci: bool)
    ensures WithEnv(x, m, oci).addresses == x.addresses
  {
  }

  /** An update that goes well: it finds the image running, or launches it. */
  ghost function UpdatedWell(h: Host, m: Manifest, lease: Lease): (Host, Update.Outcome)
    requires h.inst.Some?
  {
    var inst := h.inst.value;
    if Update.Current(inst, m.deploy, m.deploy) then
      (Moved(h, inst.(recorded := m.deploy), inst.addresses), Update.AlreadyThere(true))
    else
      var after := Update.Replacement(inst, inst.envFile, lease).(recorded := m.deploy);
      (Moved(h, after, lease.addresses), Update.Updated(true))
  }

  /** The instance, with the site pointed at it. */
  function Moved(h: Host, inst: Instance, addresses: seq<string>): Host {
    h.(inst := Some(inst), edge := h.edge.(site := Repointed(h.edge.site, addresses)))
  }

  lemma UpdatesWell(h: Host, m: Manifest, lease: Lease)
    requires m.WellFormed() && h.inst.Some? && FitsReplace(h, m) && LeaseOf(m.deploy, lease) && lease.addresses != []
    ensures var (mid, r) := UpdatedWell(h, m, lease);
      Update.Outcomes(h, mid, m.deploy, m.deploy, Update.Options(m.healthCheck, false, false, map[]), r, lease)
  {
  }

  lemma FitsReplaced(h: Host, m: Manifest)
    requires m.WellFormed() && h.inst.Some? && ImageDecision(h.inst.value, m) == ToReplace
    requires !PlanBlocks(h, m) && FitsReplace(h, m)
    ensures Deployable(h, m)
  {
    var lease := Lease(m.deploy, false, None, ["10.0.0.2"]);
    UpdatesWell(h, m, lease);
    ScheduledIff(h.volumes, m.volumes);
    var (mid, r) := UpdatedWell(h, m, lease);
    EnvKeepsAddresses(WithLabels(mid.inst.value, m), m, OciRef(m.deploy));
    var after := Ending(mid.(inst := Some(WithEnv(WithLabels(mid.inst.value, m), m, OciRef(m.deploy)))), m);
    ByReplacing(h, m, mid, r, lease, after);
  }

  // ------------------------------------------------------------- a fresh instance

  lemma NothingRefused(vs: seq<Volume>)
    ensures forall v :: v in vs ==> !Refuses(map[], v)
  {
  }

  lemma LaunchedFits(h: Host, m: Manifest, lease: Lease, after: Host)
    requires m.WellFormed() && LaunchedFresh(h, m, lease, after)
    ensures Fits(h, m)
  {
    UsableIff(m.forwards);
    NothingRefused(m.volumes);
    AttachAllIff(map[], m.volumes);
  }

  lemma FitsFresh(h: Host, m: Manifest)
    requires m.WellFormed() && h.inst.None? && !FreshBlocks(h, m) && Fits(h, m)
    ensures Deployable(h, m)
  {
    var lease := Lease(m.deploy, false, None, ["10.0.0.2"]);
    UsableIff(m.forwards);
    NothingRefused(m.volumes);
    AttachAllIff(map[], m.volumes);
    EnsuredHavePolicies(h.volumes, m.volumes);
    var attached := Launched(FreshInstance(m), lease).(devices := AttachAll(map[], m.volumes).value);
    EnvKeepsAddresses(ForwardsApplied(attached, m.forwards), m, OciRef(m.deploy));
    var inst := WithEnv(ForwardsApplied(attached, m.forwards), m, OciRef(m.deploy));
    var published := h.(volumes := Scheduled(Ensured(h.volumes, m.volumes), m.volumes).value, inst := Some(inst));
    ByLaunching(h, m, lease, WithRoute(published, m));
  }

  // ------------------------------------------------------------------- the theorem

  /** A successful run is possible exactly when the plan blocks nothing and what it does not look at fits. */
  lemma DeployableIff(h: Host, m: Manifest)
    requires m.WellFormed()
    ensures Deployable(h, m) <==> !Blocks(h, m) && Fits(h, m)
  {
    if Deployable(h, m) {
      var after :| Deployed(h, m, after);
      BlockedFails(h, m, after);
      DeployedFits(h, m, after);
    } else if !Blocks(h, m) && Fits(h, m) {
      if h.inst.None? {
        FitsFresh(h, m);
      } else if ImageDecision(h.inst.value, m) == ToReplace {
        FitsReplaced(h, m);
      } else {
        FitsCorrected(h, m);
      }
    }
  }

  lemma DeployedFits(h: Host, m: Manifest, after: Host)
    requires m.WellFormed() && Deployed(h, m, after)
    ensures Fits(h, m)
  {
    if Corrected(h, m, after) {
      CorrectedFits(h, m, after);
    } else if exists mid, r, lease :: Replaced(h, m, mid, r, lease, after) {
      var mid, r, lease :| Replaced(h, m, mid, r, lease, after);
      ReplacedFits(h, m, mid, r, lease, after);
    } else {
      var lease :| LaunchedFresh(h, m, lease, after);
      LaunchedFits(h, m, lease, after);
    }
  }

  // ------------------------------------------- plans that block nothing and cannot be applied

  const IMAGE := "images:debian/12"

  function Bare(volumes: seq<Volume>, forwards: seq<Forward>, route: Option<Route>): Manifest {
    Manifest(IMAGE, false, [], map[], None, volumes, forwards, map[], true, "app", route, false)
  }

  const EDGE := Edge(true, Imports, None)

  const NOTHING_THERE := Host(None, map[], EDGE)

  /** An instance without devices that was launched from the reference. */
  function Running(recorded: string): Instance {
    Instance("", false, [], recorded, map[], map[], "", map[], map[], None, ["10.0.0.2"])
  }

  function RunningHost(recorded: string, edge: Edge): Host {
    Host(Some(Running(recorded)), map[], edge)
  }

  /** Two forwards of one name, on an instance that is not there. */
  lemma TwoForwardsOneName(f: Forward, g: Forward)
    requires f.usable && g.usable && f.Valid() && g.Valid() && f.device == g.device
    ensures var m := Bare([], [f, g], None);
      m.WellFormed() && !Blocks(NOTHING_THERE, m) && !Deployable(NOTHING_THERE, m)
  {
    var m := Bare([], [f, g], None);
    assert m.forwards[0].device == m.forwards[1].device;
    DeployableIff(NOTHING_THERE, m);
  }

  lemma OneDeviceName()
    ensures DeviceName("/a/b") == DeviceName("/a-b") == "a-b"
  {
    assert "/a/b"[1..] == "a/b" && "/a-b"[1..] == "a-b";
    assert "a/b"[1..] == "/b" && "/b"[1..] == "b" && "b"[1..] == "";
    assert "a-b"[1..] == "-b" && "-b"[1..] == "b";
    assert ReplaceChar("b", '/', '-') == "b";
    assert ReplaceChar("/b", '/', '-') == "-b" && ReplaceChar("-b", '/', '-') == "-b";
  }

  /** Two volumes at paths with one device name, whether the instance is there or not. */
  lemma TwoVolumesOneDevice(a: VolKey, b: VolKey)
    requires a != b
    ensures var m := Bare([Volume(a, "/a/b", false, None), Volume(b, "/a-b", false, None)], [], None);
      && m.WellFormed() && !Blocks(NOTHING_THERE, m) && !Deployable(NOTHING_THERE, m)
      && !Blocks(RunningHost(IMAGE, EDGE), m) && !Deployable(RunningHost(IMAGE, EDGE), m)
  {
    OneDeviceName();
    var vs := [Volume(a, "/a/b", false, None), Volume(b, "/a-b", false, None)];
    var m := Bare(vs, [], None);
    assert DeviceName(vs[0].path) == DeviceName(vs[1].path);
    assert !Attached(map[], vs[0]) && !Attached(map[], vs[1]);
    NothingRefused(vs);
    DeployableIff(NOTHING_THERE, m);
    DeployableIff(RunningHost(IMAGE, EDGE), m);
  }

  /** A route on an edge whose Caddyfile is somebody else's, when the image is replaced. */
  lemma ReplacedOnForeignEdge(route: Route)
    ensures var h, m := RunningHost("images:debian/11", EDGE.(caddyfile := Foreign)), Bare([], [], Some(route));
      m.WellFormed() && !Blocks(h, m) && !Deployable(h, m)
  {
    DeployableIff(RunningHost("images:debian/11", EDGE.(caddyfile := Foreign)), Bare([], [], Some(route)));
  }

  /** A new volume with a snapshot schedule, when the image is replaced. */
  lemma ReplacedWithNewVolume(v: Volume)
    requires v.policy.Some?
    ensures var h, m := RunningHost("images:debian/11", EDGE), Bare([v], [], None);
      m.WellFormed() && !Blocks(h, m) && !Deployable(h, m)
  {
    assert v in [v];
    DeployableIff(RunningHost("images:debian/11", EDGE), Bare([v], [], None));
  }

  // ------------------------------------------------------- a value that never settles

  /** A greeting in quotes, for an instance that reads a file and has none yet. */
  function Quoted(): Manifest {
    Bare([], [], None).(env := map["GREETING" := "\"hi\""])
  }

  lemma QuotedNeverHolds(lease: Lease)
    ensures Quoted().WellFormed() && !EnvWillHold(RunningHost(IMAGE, EDGE), Quoted(), lease)
  {
    assert "GREETING" in Quoted().env && !Env.PlainValue(Quoted().env["GREETING"]);
    assert IMAGE[0] != "docker:"[0] && IMAGE[0] != "quay:"[0];
  }

  lemma QuotedDeploys(h: Host)
    requires h.inst.Some? && ImageDecision(h.inst.value, Quoted()) != ToReplace
    ensures Deployable(h, Quoted())
  {
    QuotedNeverHolds(Lease("", false, None, []));
    assert Usable(Quoted().forwards) && VolumesApart(h.inst.value.devices, Quoted().volumes);
    FitsCorrected(h, Quoted());
  }

  /** Two runs succeed there, and the host still drifts from the manifest. */
  lemma {:induction false} QuotedNeverSettles() returns (first: Host, second: Host)
    ensures Quoted().WellFormed()
    ensures Deployed(RunningHost(IMAGE, EDGE), Quoted(), first) && Deployed(first, Quoted(), second)
    ensures !NoDrift(second, Quoted())
  {
    var h := RunningHost(IMAGE, EDGE);
    QuotedDeploys(h);
    first :| Deployed(h, Quoted(), first);
    var lease := BySomeLease(h, Quoted(), first);
    QuotedNeverHolds(lease);
    AnyRunPublishes(h, Quoted(), first);
    QuotedDeploys(first);
    second :| Deployed(first, Quoted(), second);
    TwoRuns(h, Quoted(), lease, first, second);
  }
}
