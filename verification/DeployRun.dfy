/** The plan and the run of one service (pkg/engine/plan.go, deployer.go): what they read, write and report. */
module DeployRun {
  import opened Text
  import opened Host
  import opened Volumes
  import opened Snapshots
  import opened Forwards
  import opened Deploy
  import Overlay
  import Env
  import Update
  import PlanApply

  // -------------------------------------------------------------------- the pieces

  /** Labels that are new, changed or no longer wanted; none when the manifest declares no labels at all. */
  method LabelsDrift(have: Vars, want: Option<Vars>) returns (parts: seq<string>)
    ensures parts != [] <==> want.Some? && have != want.value
  {
    parts := [];
    if want.None? {
      return;
    }
    var added := Added(have, want.value);
    var removed := Removed(have, want.value);
    parts := added + removed;
    Overlay.NothingToSetOrDrop(have, want.value);
  }

  method Added(have: Vars, want: Vars) returns (parts: seq<string>)
    ensures parts == Overlay.Differing(have, want, SortedKeys(want.Keys))
  {
    var keys := SortKeys(want.Keys);
    parts := AddedOf(have, want, keys);
  }

  method AddedOf(have: Vars, want: Vars, keys: seq<string>) returns (parts: seq<string>)
    requires forall k :: k in keys ==> k in want
    ensures parts == Overlay.Differing(have, want, keys)
  {
    parts := [];
    for n := 0 to |keys|
      invariant parts == Overlay.Differing(have, want, keys[..n])
    {
      DifferingStep(have, want, keys, n);
      if keys[n] !in have || have[keys[n]] != want[keys[n]] {
        parts := parts + [keys[n]];
      }
    }
    assert keys[..|keys|] == keys;
  }

  lemma DifferingStep(have: Vars, want: Vars, keys: seq<string>, n: nat)
    requires n < |keys| && keys[n] in want
    ensures Overlay.Differing(have, want, keys[..n + 1])
         == Overlay.Differing(have, want, keys[..n]) + if Overlay.Differs(have, want, keys[n]) then [keys[n]] else []
  {
    assert keys[..n + 1][..n] == keys[..n];
  }

  method Removed(have: Vars, want: Vars) returns (parts: seq<string>)
    ensures parts == Overlay.Unwanted(want, SortedKeys(have.Keys))
  {
    parts := [];
    var keys := SortKeys(have.Keys);
    for n := 0 to |keys|
      invariant parts == Overlay.Unwanted(want, keys[..n])
    {
      assert keys[..n + 1][..n] == keys[..n];
      if keys[n] !in want {
        parts := parts + [keys[n]];
      }
    }
    assert keys[..|keys|] == keys;
  }

  function LabelsSet(h: Host, labels: Vars): Host {
    if h.inst.None? then h else h.(inst := Some(h.inst.value.(labels := labels)))
  }

  method SetLabels(ic: Incus, have: Vars, want: Vars) returns (ok: bool)
    requires ic.host.inst.Some? && ic.host.inst.value.labels == have
    modifies ic
    ensures ic.writes >= old(ic.writes)
    ensures ok ==> ic.host == LabelsSet(old(ic.host), have + want)
    ensures ok ==> (ic.writes > old(ic.writes) <==> have + want != have)
    ensures ic.failures >= old(ic.failures) && ic.asked == old(ic.asked) && (ic.failures == old(ic.failures) ==> ok)
    ensures Unharmed(old(ic.host), ic.host)
  {
    var keys := SortKeys(want.Keys);
    ok := SetEachLabel(ic, keys, have, want);
    Overlay.SetAll(have, want);
  }

  method SetEachLabel(ic: Incus, keys: seq<string>, have: Vars, want: Vars) returns (ok: bool)
    requires ic.host.inst.Some? && ic.host.inst.value.labels == have
    requires forall k :: k in keys ==> k in want
    modifies ic
    ensures ic.writes >= old(ic.writes)
    ensures ok ==> ic.host == LabelsSet(old(ic.host), Overlay.SetEach(have, want, keys))
    ensures ok ==> ic.writes == old(ic.writes) + |Overlay.Differing(have, want, keys)|
    ensures ic.failures >= old(ic.failures) && ic.asked == old(ic.asked) && (ic.failures == old(ic.failures) ==> ok)
    ensures Unharmed(old(ic.host), ic.host)
  {
    ghost var h := ic.host;
    ghost var labels, differing := have, [];
    for n := 0 to |keys|
      invariant labels == Overlay.SetEach(have, want, keys[..n])
      invariant differing == Overlay.Differing(have, want, keys[..n])
      invariant ic.host == LabelsSet(h, labels) && ic.writes == old(ic.writes) + |differing|
      invariant ic.failures == old(ic.failures) && ic.asked == old(ic.asked)
    {
      var k := keys[n];
      SetEachStep(have, want, keys, n);
      if k !in have || have[k] != want[k] {
        ok := ic.Change(ic.host.inst.value.(labels := ic.host.inst.value.labels[k := want[k]]));
        if !ok {
          return;
        }
        differing := differing + [k];
      }
      labels := Overlay.SetEach(have, want, keys[..n + 1]);
    }
    assert keys[..|keys|] == keys;
    ok := true;
  }

  lemma SetEachStep(have: Vars, want: Vars, keys: seq<string>, n: nat)
    requires n < |keys| && keys[n] in want
    ensures var k, before := keys[n], Overlay.SetEach(have, want, keys[..n]);
      && Overlay.SetEach(have, want, keys[..n + 1]) == before[k := want[k]]
      && (Overlay.Differs(have, want, k) || before[k := want[k]] == before)
      && Overlay.Differing(have, want, keys[..n + 1])
         == Overlay.Differing(have, want, keys[..n]) + if Overlay.Differs(have, want, k) then [k] else []
  {
    assert keys[..n + 1][..n] == keys[..n];
    DifferingStep(have, want, keys, n);
    Overlay.SetEachAt(have, want, keys[..n], keys[n]);
    if !Overlay.Differs(have, want, keys[n]) {
      SetSame(Overlay.SetEach(have, want, keys[..n]), keys[n], want[keys[n]]);
    }
  }

  lemma SetSame(m: Vars, k: string, v: string)
    requires k in m && m[k] == v
    ensures m[k := v] == m
  {
  }

  method UnsetLabels(ic: Incus, have: Vars, want: Vars) returns (ok: bool)
    requires ic.host.inst.Some? && ic.host.inst.value.labels == have + want
    modifies ic
    ensures ic.writes >= old(ic.writes)
    ensures ok ==> ic.host == LabelsSet(old(ic.host), want)
    ensures ok ==> ic.writes == old(ic.writes) + |Overlay.Unwanted(want, SortedKeys(have.Keys))|
    ensures ic.failures >= old(ic.failures) && ic.asked == old(ic.asked) && (ic.failures == old(ic.failures) ==> ok)
    ensures Unharmed(old(ic.host), ic.host)
  {
    var keys := SortKeys(have.Keys);
    ghost var all := ic.host.inst.value.labels;
    ok := UnsetEach(ic, keys, want);
    Overlay.DropUnwanted(all, want, keys);
  }

  method UnsetEach(ic: Incus, keys: seq<string>, want: Vars) returns (ok: bool)
    requires ic.host.inst.Some?
    modifies ic
    ensures ic.writes >= old(ic.writes)
    ensures ok ==> ic.host == LabelsSet(old(ic.host),
      Overlay.DropEach(old(ic.host.inst.value.labels), Overlay.Unwanted(want, keys)))
    ensures ok ==> ic.writes == old(ic.writes) + |Overlay.Unwanted(want, keys)|
    ensures ic.failures >= old(ic.failures) && ic.asked == old(ic.asked) && (ic.failures == old(ic.failures) ==> ok)
    ensures Unharmed(old(ic.host), ic.host)
  {
    ghost var h, all := ic.host, ic.host.inst.value.labels;
    ghost var gone: seq<string> := [];
    for n := 0 to |keys|
      invariant gone == Overlay.Unwanted(want, keys[..n])
      invariant ic.host == LabelsSet(h, Overlay.DropEach(all, gone))
      invariant ic.writes == old(ic.writes) + |gone|
      invariant ic.failures == old(ic.failures) && ic.asked == old(ic.asked)
    {
      UnwantedStep(want, keys, n);
      if keys[n] !in want {
        DropSnoc(all, gone, keys[n]);
        ok := ic.Change(ic.host.inst.value.(labels := ic.host.inst.value.labels - {keys[n]}));
        if !ok {
          return;
        }
        gone := gone + [keys[n]];
      }
    }
    assert keys[..|keys|] == keys;
    ok := true;
  }

  lemma UnwantedStep(want: Vars, keys: seq<string>, n: nat)
    requires n < |keys|
    ensures Overlay.Unwanted(want, keys[..n + 1])
         == Overlay.Unwanted(want, keys[..n]) + if keys[n] in want then [] else [keys[n]]
  {
    assert keys[..n + 1][..n] == keys[..n];
  }

  lemma DropSnoc(all: Vars, gone: seq<string>, k: string)
    ensures Overlay.DropEach(all, gone + [k]) == Overlay.DropEach(all, gone) - {k}
  {
    assert (gone + [k])[..|gone|] == gone;
  }

  /** Sets the labels that are new or changed and removes those not wanted. */
  method ReconcileLabels(ic: Incus, have: Vars, want: Vars) returns (ok: bool)
    requires ic.host.inst.Some? && ic.host.inst.value.labels == have
    modifies ic
    ensures ic.writes >= old(ic.writes)
    ensures ok ==> ic.host == LabelsSet(old(ic.host), want)
    ensures ok ==> (ic.writes > old(ic.writes) <==> have != want)
    ensures ic.failures >= old(ic.failures) && ic.asked == old(ic.asked) && (ic.failures == old(ic.failures) ==> ok)
    ensures Unharmed(old(ic.host), ic.host)
  {
    ok := SetLabels(ic, have, want);
    if ok {
      ok := UnsetLabels(ic, have, want);
      Overlay.NothingToSetOrDrop(have, want);
      Overlay.SetAll(have, want);
    }
  }

  method ConvergeLabels(ic: Incus, m: Manifest) returns (ok: bool)
    requires ic.host.inst.Some?
    modifies ic
    ensures ic.writes >= old(ic.writes)
    ensures ok ==> ic.host == old(ic.host).(inst := Some(WithLabels(old(ic.host.inst.value), m)))
    ensures ok ==> (ic.writes > old(ic.writes) <==> !LabelsIn(old(ic.host.inst.value), m))
    ensures ic.failures >= old(ic.failures) && ic.asked == old(ic.asked) && (ic.failures == old(ic.failures) ==> ok)
    ensures Unharmed(old(ic.host), ic.host)
  {
    var have := ic.host.inst.value.labels;
    var drift := LabelsDrift(have, m.labels);
    ok := true;
    if drift != [] {
      ok := ReconcileLabels(ic, have, m.labels.value);
    }
  }

  /** The declared limits whose live value differs. */
  method FindLimitsDrift(st: Instance, m: Manifest) returns (drift: Vars)
    ensures drift == LimitsDrift(st, m)
  {
    drift := map[];
    var keys := SortKeys(m.limits.Keys);
    for n := 0 to |keys|
      invariant drift == DriftOf(st, m, keys[..n])
    {
      assert keys[n] in keys;
      DriftStep(st, m, keys, n);
      if Get(st.config, keys[n]) != m.limits[keys[n]] {
        drift := drift[keys[n] := m.limits[keys[n]]];
      }
    }
    assert keys[..|keys|] == keys;
    DriftAll(st, m, keys);
  }

  lemma DriftAll(st: Instance, m: Manifest, keys: seq<string>)
    requires forall k :: k in m.limits ==> k in keys
    ensures DriftOf(st, m, keys) == LimitsDrift(st, m)
  {
  }

  lemma DriftStep(st: Instance, m: Manifest, keys: seq<string>, n: nat)
    requires n < |keys| && keys[n] in m.limits
    ensures DriftOf(st, m, keys[..n + 1]) ==
      if Get(st.config, keys[n]) == m.limits[keys[n]] then DriftOf(st, m, keys[..n])
      else DriftOf(st, m, keys[..n])[keys[n] := m.limits[keys[n]]]
  {
    assert keys[..n + 1] == keys[..n] + [keys[n]];
  }

  /** The part of the drift that is among keys. */
  function DriftOf(st: Instance, m: Manifest, keys: seq<string>): Vars {
    map k | k in m.limits && k in keys && Get(st.config, k) != m.limits[k] :: m.limits[k]
  }

  function ConfigSet(h: Host, config: Vars): Host {
    if h.inst.None? then h else h.(inst := Some(h.inst.value.(config := config)))
  }

  method ResizeLimits(ic: Incus, limits: Vars) returns (ok: bool)
    requires ic.host.inst.Some?
    modifies ic
    ensures ic.writes >= old(ic.writes)
    ensures ok ==> ic.host == ConfigSet(old(ic.host), old(ic.host.inst.value.config) + limits)
    ensures ok ==> (ic.writes > old(ic.writes) <==> limits != map[])
    ensures ic.failures >= old(ic.failures) && ic.asked == old(ic.asked) && (ic.failures == old(ic.failures) ==> ok)
    ensures Unharmed(old(ic.host), ic.host)
  {
    var keys := SortKeys(limits.Keys);
    ok := SetConfig(ic, keys, limits);
    Overlay.SetAll(old(ic.host.inst.value.config), limits);
    assert limits != map[] <==> |limits.Keys| > 0;
  }

  method SetConfig(ic: Incus, keys: seq<string>, limits: Vars) returns (ok: bool)
    requires ic.host.inst.Some? && forall k :: k in keys ==> k in limits
    modifies ic
    ensures ic.writes >= old(ic.writes)
    ensures ok ==> ic.host == ConfigSet(old(ic.host), Overlay.SetEach(old(ic.host.inst.value.config), limits, keys))
    ensures ok ==> ic.writes == old(ic.writes) + |keys|
    ensures ic.failures >= old(ic.failures) && ic.asked == old(ic.asked) && (ic.failures == old(ic.failures) ==> ok)
    ensures Unharmed(old(ic.host), ic.host)
  {
    ghost var h := ic.host;
    for n := 0 to |keys|
      invariant ic.host == ConfigSet(h, Overlay.SetEach(h.inst.value.config, limits, keys[..n]))
      invariant ic.writes == old(ic.writes) + n && ic.failures == old(ic.failures) && ic.asked == old(ic.asked)
    {
      assert keys[..n + 1][..n] == keys[..n];
      ok := ic.Change(ic.host.inst.value.(config := ic.host.inst.value.config[keys[n] := limits[keys[n]]]));
      if !ok {
        return;
      }
    }
    assert keys[..|keys|] == keys;
    ok := true;
  }

  method ConvergeLimits(ic: Incus, m: Manifest) returns (ok: bool)
    requires ic.host.inst.Some?
    modifies ic
    ensures ic.writes >= old(ic.writes)
    ensures ok ==> ic.host == old(ic.host).(inst := Some(WithLimits(old(ic.host.inst.value), m)))
    ensures ok ==> (ic.writes > old(ic.writes) <==> !LimitsIn(old(ic.host.inst.value), m))
    ensures ic.failures >= old(ic.failures) && ic.asked == old(ic.asked) && (ic.failures == old(ic.failures) ==> ok)
    ensures Unharmed(old(ic.host), ic.host)
  {
    var drift := FindLimitsDrift(ic.host.inst.value, m);
    ok := ResizeLimits(ic, drift);
    LimitsDriftEmpty(old(ic.host.inst.value), m);
  }

  lemma LimitsDriftEmpty(st: Instance, m: Manifest)
    ensures LimitsDrift(st, m) == map[] <==> LimitsIn(st, m)
  {
    if LimitsDrift(st, m) == map[] {
      forall k | k in m.limits ensures Get(st.config, k) == m.limits[k] {
        assert k !in LimitsDrift(st, m);
      }
    }
  }

  // -------------------------------------------------------------- the environment

  /** Writes the environment file unless every declared key has its value in it. */
  method EnsureEnv(ic: Incus, m: Manifest) returns (ok: bool, changed: bool)
    requires ic.host.inst.Some? && m.env != map[]
    modifies ic
    ensures ic.writes >= old(ic.writes)
    ensures ok ==> ic.host == old(ic.host).(inst := Some(WithEnv(old(ic.host.inst.value), m, false)))
    ensures ok ==> (changed <==> !FileMatches(old(ic.host.inst.value.envFile), m.env))
    ensures ok ==> (ic.writes > old(ic.writes) <==> changed)
    ensures ic.failures >= old(ic.failures) && ic.asked == old(ic.asked) && (ic.failures == old(ic.failures) ==> ok)
    ensures Unharmed(old(ic.host), ic.host)
  {
    var inst := ic.host.inst.value;
    var live := Env.ParseEnv(Update.TextOf(inst.envFile));
    var merged, differs := Env.MergeEnv(live, m.env);
    changed := false;
    if inst.envFile.Some? && !differs {
      return true, false;
    }
    var text := Env.RenderEnv(m.unit, merged);
    ok := ic.Change(inst.(envFile := Some(text)));
    changed := ok;
  }

  /** Sets the environment.* keys that are missing or different. */
  method EnsureOCIEnv(ic: Incus, m: Manifest) returns (ok: bool, changed: bool)
    requires ic.host.inst.Some? && m.env != map[]
    modifies ic
    ensures ic.writes >= old(ic.writes)
    ensures ok ==> ic.host == old(ic.host).(inst := Some(WithEnv(old(ic.host.inst.value), m, true)))
    ensures ok ==> (changed <==> old(ic.host.inst.value.environment) + m.env != old(ic.host.inst.value.environment))
    ensures ok ==> (ic.writes > old(ic.writes) <==> changed)
    ensures ic.failures >= old(ic.failures) && ic.asked == old(ic.asked) && (ic.failures == old(ic.failures) ==> ok)
    ensures Unharmed(old(ic.host), ic.host)
  {
    var inst := ic.host.inst.value;
    var merged, differs := Env.MergeEnv(inst.environment, m.env);
    if !differs {
      return true, false;
    }
    var diff := map k | k in m.env && (k !in inst.environment || inst.environment[k] != m.env[k]) :: m.env[k];
    assert inst.environment + diff == inst.environment + m.env;
    ok := ic.Change(inst.(environment := inst.environment + diff));
    changed := ok;
  }

  /** Puts the declared environment where the instance reads it, and restarts it if anything changed. launched: the
      instance was just launched or replaced, and its state is not looked at. */
  method ApplyEnv(ic: Incus, m: Manifest, oci: bool, launched: bool) returns (ok: bool)
    requires ic.host.inst.Some?
    modifies ic
    ensures ic.writes >= old(ic.writes)
    ensures ok ==> ic.host == old(ic.host).(inst := Some(WithEnv(old(ic.host.inst.value), m, oci)))
    ensures ok && (oci <==> UsesOCI(old(ic.host.inst.value), m)) ==>
      (ic.writes > old(ic.writes) <==> !EnvIn(old(ic.host.inst.value), m))
    ensures ic.failures >= old(ic.failures) && (ic.failures == old(ic.failures) ==> ok)
    ensures old(ic.asked) <= ic.asked && Unharmed(old(ic.host), ic.host)
    ensures ok && (oci <==> UsesOCI(old(ic.host.inst.value), m)) ==>
      if EnvIn(old(ic.host.inst.value), m) then ic.asked == old(ic.asked)
      else exists well :: ic.asked == old(ic.asked) + [Answer(RestartUnit, well)] && (well || (launched && !oci))
  {
    if m.env == map[] {
      return true;
    }
    var changed;
    if oci {
      ok, changed := EnsureOCIEnv(ic, m);
    } else {
      ok, changed := EnsureEnv(ic, m);
    }
    if ok && changed {
      var restarted := ic.Ask(RestartUnit);
      ok := restarted || (launched && !oci);
    }
  }

  // -------------------------------------------------------------------- the route

  /** Publishes the site, at the address already published if it is still one of the instance's. */
  method PublishRoute(ic: Incus, m: Manifest) returns (ok: bool)
    requires ic.host.inst.Some?
    modifies ic
    ensures ic.writes >= old(ic.writes)
    ensures ok ==> (m.route.Some? ==> Routable(old(ic.host), m)) && ic.host == WithRoute(old(ic.host), m)
    ensures ok ==> (ic.writes > old(ic.writes) <==> !RouteIn(old(ic.host), m))
    ensures ic.failures >= old(ic.failures) && old(ic.asked) <= ic.asked && Unharmed(old(ic.host), ic.host)
    ensures ic.failures == old(ic.failures) ==> (ok <==> m.route.None? || Routable(old(ic.host), m))
  {
    if m.route.None? {
      return true;
    }
    ok := ic.Ask(Read);
    var addresses := ic.host.inst.value.addresses;
    if !ok || addresses == [] || !m.route.value.valid || !ic.host.edge.present || ic.host.edge.caddyfile == Foreign {
      return false;
    }
    ghost var h := ic.host;
    var desired := Site(m.route.value.text, Some(Choose(ic.host.edge.site, addresses)));
    if ic.host.edge.caddyfile == Missing {
      ok := ic.Run(ic.host.(edge := ic.host.edge.(caddyfile := Imports)));
      if !ok {
        return;
      }
    }
    if ic.host.edge.site == Some(desired) {
      return true;
    }
    ok := Update.ReplaceSite(ic, desired);
  }

  // ---------------------------------------------------------------------- the plan

  datatype Change =
    | CreateInstance | AdoptImage | ReplaceImage | SetLabels | PublishPorts | SetLimits
    | CreateVolume(created: VolKey) | AttachVolume(attached: VolKey) | SetSnapshots(of: VolKey)
    | SetEnv | Restart | PublishRoute | UpdateRoute | BaseCaddyfile

  datatype Blocker = MissingSecrets | UnusablePorts | VolumeClash(volume: VolKey) | NoAddress | NoEdge | RouteRefused

  datatype Plan = Plan(changes: seq<Change>, blockers: seq<Blocker>) {
    function Add(c: Change): Plan {
      this.(changes := changes + [c])
    }
    function Block(b: Blocker): Plan {
      this.(blockers := blockers + [b])
    }
  }

  datatype Action = Blocked | Create | Change | NothingToDo

  function ActionOf(p: Plan, present: bool): Action {
    if p.blockers != [] then Blocked
    else if !present then Create
    else if p.changes != [] then Action.Change
    else NothingToDo
  }

  predicate VolumesIn(h: Host, vs: seq<Volume>)
    requires h.inst.Some?
  {
    AllExist(h.volumes, vs) && AllAttached(h.inst.value.devices, vs)
  }

  // What each change and each blocker is listed for.

  predicate CreationDue(h: Host, vs: seq<Volume>, c: Change) {
    c.CreateVolume? && exists v :: v in vs && v.key == c.created && v.key !in h.volumes
  }

  predicate AttachmentDue(devices: map<string, Device>, vs: seq<Volume>, c: Change) {
    c.AttachVolume? && exists v :: v in vs && v.key == c.attached && !Attached(devices, v) && !Clashes(devices, v)
  }

  predicate ScheduleDue(h: Host, vs: seq<Volume>, c: Change) {
    c.SetSnapshots? && exists v :: v in vs && v.key == c.of && NoSchedule(h, v)
  }

  predicate NoSchedule(h: Host, v: Volume) {
    v.policy.Some? && !InPolicy(if v.key in h.volumes then h.volumes[v.key] else map[], v.policy.value)
  }

  predicate Clashing(devices: map<string, Device>, vs: seq<Volume>, b: Blocker) {
    b.VolumeClash? && exists v :: v in vs && v.key == b.volume && Refuses(devices, v)
  }

  predicate RouteDue(h: Host, m: Manifest, replaced: bool, c: Change)
    requires h.inst.Some? && (m.route.Some? && !replaced ==> h.inst.value.addresses != [])
  {
    m.route.Some? && h.edge.present && (replaced || (m.route.value.valid && h.edge.caddyfile != Foreign)) && match c
      case UpdateRoute => replaced || (h.edge.site.Some? &&
        h.edge.site.value != Site(m.route.value.text, Some(Choose(h.edge.site, h.inst.value.addresses))))
      case PublishRoute => !replaced && h.edge.site.None?
      case BaseCaddyfile => !replaced && h.edge.caddyfile == Missing
      case _ => false
  }

  predicate RouteStands(h: Host, m: Manifest, replaced: bool, b: Blocker) {
    m.route.Some? && match b
      case NoEdge => !h.edge.present
      case RouteRefused => h.edge.present && !replaced && (!m.route.value.valid || h.edge.caddyfile == Foreign)
      case _ => false
  }

  /** The change is due on an instance that is there, as far as nothing stands in its way. */
  ghost predicate Due(h: Host, m: Manifest, c: Change)
    requires h.inst.Some?
  {
    var st, replaced := h.inst.value, ImageDecision(h.inst.value, m) == ToReplace;
    match c
    case CreateInstance => false
    case AdoptImage => ImageDecision(st, m) == ToAdopt
    case ReplaceImage => replaced
    case SetLabels => !LabelsIn(st, m)
    case PublishPorts => Usable(m.forwards) && !InStep(st, m.forwards)
    case SetLimits => !replaced && !LimitsIn(st, m)
    case CreateVolume(_) => !replaced && CreationDue(h, m.volumes, c)
    case AttachVolume(_) => !replaced && AttachmentDue(st.devices, m.volumes, c)
    case SetSnapshots(_) => ScheduleDue(h, m.volumes, c)
    case SetEnv => m.secrets && !EnvIn(st, m)
    case Restart => m.secrets && !EnvIn(st, m)
    case _ => !Unreached(h, m) && RouteDue(h, m, replaced, c)
  }

  /** An address is needed and there is none. */
  predicate Unreached(h: Host, m: Manifest)
    requires h.inst.Some?
  {
    && ImageDecision(h.inst.value, m) != ToReplace && (m.healthCheck || m.route.Some?)
    && h.inst.value.addresses == []
  }

  /** The blocker stands in the way of a run on an instance that is there. */
  predicate Stands(h: Host, m: Manifest, b: Blocker)
    requires h.inst.Some?
  {
    var st, replaced := h.inst.value, ImageDecision(h.inst.value, m) == ToReplace;
    match b
    case MissingSecrets => !m.secrets
    case UnusablePorts => !Usable(m.forwards)
    case VolumeClash(_) => !replaced && Clashing(st.devices, m.volumes, b)
    case NoAddress => Unreached(h, m)
    case _ => !Unreached(h, m) && RouteStands(h, m, replaced, b)
  }

  /** No change is due exactly when nothing drifts. */
  lemma NoneDue(h: Host, m: Manifest)
    requires h.inst.Some? && !PlanBlocks(h, m)
    ensures (forall c :: !Due(h, m, c)) <==> NoDrift(h, m)
  {
    if forall c :: !Due(h, m, c) {
      NoneDueInstance(h, m);
      NoneDueVolumes(h, m);
      NoneDueRoute(h, m);
    }
    if NoDrift(h, m) {
      forall c ensures !Due(h, m, c) {
        NotDue(h, m, c);
      }
    }
  }

  lemma NotDue(h: Host, m: Manifest, c: Change)
    requires h.inst.Some? && !PlanBlocks(h, m) && NoDrift(h, m)
    ensures !Due(h, m, c)
  {
    forall v | v in m.volumes
      ensures v.key in h.volumes && Attached(h.inst.value.devices, v) && OnSchedule(h.volumes, v)
    {
    }
  }

  lemma NoneDueInstance(h: Host, m: Manifest)
    requires h.inst.Some? && !PlanBlocks(h, m) && forall c :: !Due(h, m, c)
    ensures ImageDecision(h.inst.value, m) in {IsCurrent, IsUnknown}
    ensures LabelsIn(h.inst.value, m) && LimitsIn(h.inst.value, m) && EnvIn(h.inst.value, m)
    ensures InStep(h.inst.value, m.forwards)
  {
    assert !Due(h, m, AdoptImage) && !Due(h, m, Change.ReplaceImage) && !Due(h, m, Change.SetLabels);
    assert !Due(h, m, SetLimits) && !Due(h, m, PublishPorts) && !Due(h, m, SetEnv);
  }

  lemma NoneDueRoute(h: Host, m: Manifest)
    requires h.inst.Some? && !PlanBlocks(h, m) && forall c :: !Due(h, m, c)
    ensures RouteIn(h, m)
  {
    assert !Due(h, m, Change.ReplaceImage);
    assert !Due(h, m, Change.PublishRoute) && !Due(h, m, UpdateRoute) && !Due(h, m, BaseCaddyfile);
  }

  lemma NoneDueVolumes(h: Host, m: Manifest)
    requires h.inst.Some? && !PlanBlocks(h, m) && forall c :: !Due(h, m, c)
    ensures AllExist(h.volumes, m.volumes) && AllAttached(h.inst.value.devices, m.volumes)
    ensures AllOnSchedule(h.volumes, m.volumes)
  {
    assert !Due(h, m, Change.ReplaceImage);
    forall v | v in m.volumes
      ensures v.key in h.volumes && Attached(h.inst.value.devices, v) && OnSchedule(h.volumes, v)
    {
      assert !Due(h, m, CreateVolume(v.key)) && !Due(h, m, AttachVolume(v.key)) && !Due(h, m, SetSnapshots(v.key));
      assert !Refuses(h.inst.value.devices, v);
    }
  }

  /** Nothing stands in the way exactly when the plan is not blocked. */
  lemma NoneStands(h: Host, m: Manifest)
    requires h.inst.Some?
    ensures (forall b :: !Stands(h, m, b)) <==> !PlanBlocks(h, m)
  {
    if forall b :: !Stands(h, m, b) {
      assert !Stands(h, m, MissingSecrets) && !Stands(h, m, UnusablePorts) && !Stands(h, m, NoAddress);
      assert !Stands(h, m, NoEdge) && !Stands(h, m, RouteRefused);
      forall v | v in m.volumes && ImageDecision(h.inst.value, m) != ToReplace
        ensures !Refuses(h.inst.value.devices, v)
      {
        assert !Stands(h, m, VolumeClash(v.key));
      }
    }
  }

  lemma EmptyIff<T>(s: seq<T>)
    ensures s == [] <==> forall x :: x !in s
  {
    if s != [] {
      assert s[0] in s;
    }
  }

  method PlanVolumes(h: Host, m: Manifest, p: Plan) returns (q: Plan)
    requires h.inst.Some?
    ensures forall c :: c in q.changes <==>
      c in p.changes || CreationDue(h, m.volumes, c) || AttachmentDue(h.inst.value.devices, m.volumes, c)
    ensures forall b :: b in q.blockers <==> b in p.blockers || Clashing(h.inst.value.devices, m.volumes, b)
  {
    q := p;
    var vs, devices := m.volumes, h.inst.value.devices;
    for n := 0 to |vs|
      invariant forall c :: c in q.changes <==>
        c in p.changes || CreationDue(h, vs[..n], c) || AttachmentDue(devices, vs[..n], c)
      invariant forall b :: b in q.blockers <==> b in p.blockers || Clashing(devices, vs[..n], b)
    {
      assert vs[..n + 1] == vs[..n] + [vs[n]];
      q := PlanVolume(h, devices, vs[n], q);
    }
    assert vs[..|vs|] == vs;
  }

  method PlanVolume(h: Host, devices: map<string, Device>, v: Volume, p: Plan) returns (q: Plan)
    ensures q.changes == p.changes + (if v.key in h.volumes then [] else [CreateVolume(v.key)])
      + if Attached(devices, v) || Clashes(devices, v) then [] else [AttachVolume(v.key)]
    ensures q.blockers == p.blockers + if Refuses(devices, v) then [VolumeClash(v.key)] else []
  {
    q := p;
    if v.key !in h.volumes {
      q := q.Add(CreateVolume(v.key));
    }
    var a := VolumeAttachment(devices, v);
    match a {
      case IsAttached =>
      case IsClash => q := q.Block(VolumeClash(v.key));
      case IsFree => q := q.Add(AttachVolume(v.key));
    }
  }

  method PlanSnapshots(h: Host, m: Manifest, p: Plan) returns (q: Plan)
    ensures q.blockers == p.blockers
    ensures forall c :: c in q.changes <==> c in p.changes || ScheduleDue(h, m.volumes, c)
  {
    q := p;
    var vs := m.volumes;
    for n := 0 to |vs|
      invariant q.blockers == p.blockers
      invariant forall c :: c in q.changes <==> c in p.changes || ScheduleDue(h, vs[..n], c)
    {
      var v := vs[n];
      assert vs[..n + 1] == vs[..n] + [v];
      if v.policy.Some? {
        var live := if v.key in h.volumes then h.volumes[v.key] else map[];
        if exists k :: k in SNAPSHOT_KEYS && Get(live, k) != Get(v.policy.value, k) {
          q := q.Add(SetSnapshots(v.key));
        }
      }
    }
    assert vs[..|vs|] == vs;
  }

  /** The route of an instance that stays, or that is replaced and takes its route along. */
  method PlanRoute(h: Host, m: Manifest, replaced: bool, p: Plan) returns (q: Plan)
    requires h.inst.Some? && (m.route.Some? && !replaced ==> h.inst.value.addresses != [])
    ensures forall c :: c in q.changes <==> c in p.changes || RouteDue(h, m, replaced, c)
    ensures forall b :: b in q.blockers <==> b in p.blockers || RouteStands(h, m, replaced, b)
  {
    q := p;
    if m.route.None? {
      return;
    }
    if !h.edge.present {
      return q.Block(NoEdge);
    }
    if replaced {
      return q.Add(UpdateRoute);
    }
    if !m.route.value.valid || h.edge.caddyfile == Foreign {
      return q.Block(RouteRefused);
    }
    if h.edge.caddyfile == Missing {
      q := q.Add(BaseCaddyfile);
    }
    var desired := Site(m.route.value.text, Some(Choose(h.edge.site, h.inst.value.addresses)));
    if h.edge.site.None? {
      q := q.Add(Change.PublishRoute);
    } else if h.edge.site.value != desired {
      q := q.Add(UpdateRoute);
    }
  }

  /** The changes an instance that is there needs, and what stands in their way. Nothing is written. */
  method PlanConverge(h: Host, m: Manifest) returns (p: Plan)
    requires h.inst.Some?
    ensures p.blockers != [] <==> PlanBlocks(h, m)
    ensures p.blockers == [] ==> (p.changes == [] <==> NoDrift(h, m))
    ensures forall c :: c in p.changes <==> Due(h, m, c)
    ensures forall b :: b in p.blockers <==> Stands(h, m, b)
  {
    p := PlanAll(h, m);
    NoneStands(h, m);
    EmptyIff(p.blockers);
    if p.blockers == [] {
      NoneDue(h, m);
      EmptyIff(p.changes);
    }
  }

  method PlanAll(h: Host, m: Manifest) returns (p: Plan)
    requires h.inst.Some?
    ensures forall c :: c in p.changes <==> Due(h, m, c)
    ensures forall b :: b in p.blockers <==> Stands(h, m, b)
  {
    var st := h.inst.value;
    p := PlanImage(st, m);
    var replaced := ImageDecision(st, m) == ToReplace;
    p := PlanInstance(st, m, p);
    if !replaced {
      var limits := FindLimitsDrift(st, m);
      LimitsDriftEmpty(st, m);
      if limits != map[] {
        p := p.Add(SetLimits);
      }
      p := PlanVolumes(h, m, p);
    }
    p := PlanSnapshots(h, m, p);
    p := PlanEnv(st, m, p);
    if (m.healthCheck || m.route.Some?) && st.addresses == [] && !replaced {
      p := p.Block(NoAddress);
      return;
    }
    p := PlanRoute(h, m, replaced, p);
  }

  method PlanImage(st: Instance, m: Manifest) returns (p: Plan)
    ensures p.blockers == []
    ensures forall c :: c in p.changes <==>
      (c.AdoptImage? && ImageDecision(st, m) == ToAdopt) || (c.ReplaceImage? && ImageDecision(st, m) == ToReplace)
  {
    p := Plan([], []);
    match ImageDecision(st, m) {
      case ToAdopt => p := p.Add(AdoptImage);
      case ToReplace => p := p.Add(Change.ReplaceImage);
      case _ =>
    }
  }

  /** Labels, host ports and secrets. */
  method PlanInstance(st: Instance, m: Manifest, p: Plan) returns (q: Plan)
    requires p.blockers == []
    ensures forall c :: c in q.changes <==>
      || c in p.changes
      || (c.SetLabels? && !LabelsIn(st, m)) || (c.PublishPorts? && Usable(m.forwards) && !InStep(st, m.forwards))
    ensures forall b :: b in q.blockers <==>
      (b.MissingSecrets? && !m.secrets) || (b.UnusablePorts? && !Usable(m.forwards))
  {
    q := p;
    var labels := LabelsDrift(st.labels, m.labels);
    if labels != [] {
      q := q.Add(Change.SetLabels);
    }
    var ok, changes, record := ForwardsDrift(st, m.forwards);
    if !ok {
      q := q.Block(UnusablePorts);
    } else if changes != [] || record.Some? {
      q := q.Add(PublishPorts);
    }
    if !m.secrets {
      q := q.Block(MissingSecrets);
    }
  }

  method PlanEnv(st: Instance, m: Manifest, p: Plan) returns (q: Plan)
    ensures q.blockers == p.blockers
    ensures forall c :: c in q.changes <==>
      c in p.changes || ((c.SetEnv? || c.Restart?) && m.secrets && !EnvIn(st, m))
  {
    q := p;
    if m.env == map[] || !m.secrets {
      return;
    }
    var differs, merged;
    if UsesOCI(st, m) {
      merged, differs := Env.MergeEnv(st.environment, m.env);
    } else {
      var live := Env.ParseEnv(Update.TextOf(st.envFile));
      merged, differs := Env.MergeEnv(live, m.env);
      differs := differs || st.envFile.None?;
    }
    if differs {
      q := q.Add(SetEnv).Add(Restart);
    }
  }

  /** What a run would do, worked out from what is read; only a read that fails leaves it without an answer. */
  method PlanService(ic: Incus, m: Manifest) returns (ok: bool, p: Plan, action: Action)
    modifies ic`failures, ic`asked
    ensures ok ==> (action == Blocked <==> Blocks(ic.host, m))
    ensures ok ==> (action == NothingToDo <==> NoDrift(ic.host, m) && !Blocks(ic.host, m))
    ensures ok && ic.host.inst.None? ==> action in {Create, Blocked}
    ensures ok && ic.host.inst.Some? ==> action != Create
    ensures ok ==> forall c :: c in p.changes <==>
      if ic.host.inst.Some? then Due(ic.host, m, c) else FreshDue(ic.host, m, c)
    ensures ok ==> forall b :: b in p.blockers <==>
      if ic.host.inst.Some? then Stands(ic.host, m, b) else FreshStands(ic.host, m, b)
    ensures ok <==> ic.failures == old(ic.failures)
  {
    ok := ic.Ask(Read);
    p := Plan([], []);
    action := NothingToDo;
    if !ok {
      return;
    }
    if ic.host.inst.Some? {
      p := PlanConverge(ic.host, m);
    } else {
      p := PlanFresh(ic.host, m);
    }
    action := ActionOf(p, ic.host.inst.Some?);
  }

  lemma NothingThere(v: Volume)
    ensures !Attached(map[], v) && !Clashes(map[], v)
  {
  }

  /** The change is due where there is no instance, as far as nothing stands in its way. */
  predicate FreshDue(h: Host, m: Manifest, c: Change) {
    match c
    case CreateInstance => true
    case CreateVolume(_) => CreationDue(h, m.volumes, c)
    case AttachVolume(_) => AttachmentDue(map[], m.volumes, c)
    case SetSnapshots(_) => ScheduleDue(h, m.volumes, c)
    case SetEnv => m.env != map[]
    case PublishPorts => exists f :: f in m.forwards && f.usable
    case PublishRoute => FreshRoute(h, m) && h.edge.site.None?
    case UpdateRoute => FreshRoute(h, m) && h.edge.site.Some?
    case _ => false
  }

  predicate FreshRoute(h: Host, m: Manifest) {
    m.route.Some? && h.edge.present && m.route.value.valid && h.edge.caddyfile != Foreign
  }

  predicate FreshStands(h: Host, m: Manifest, b: Blocker) {
    match b
    case MissingSecrets => !m.secrets
    case UnusablePorts => exists f :: f in m.forwards && !f.usable
    case NoEdge => m.route.Some? && !h.edge.present
    case RouteRefused => m.route.Some? && h.edge.present && (!m.route.value.valid || h.edge.caddyfile == Foreign)
    case _ => false
  }

  lemma NoneStandsFresh(h: Host, m: Manifest)
    ensures (forall b :: !FreshStands(h, m, b)) <==> !FreshBlocks(h, m)
  {
    if forall b :: !FreshStands(h, m, b) {
      assert !FreshStands(h, m, MissingSecrets) && !FreshStands(h, m, UnusablePorts);
      assert !FreshStands(h, m, NoEdge) && !FreshStands(h, m, RouteRefused);
    }
  }

  /** The plan for an instance that is not there. */
  method PlanFresh(h: Host, m: Manifest) returns (p: Plan)
    requires h.inst.None?
    ensures p.changes != []
    ensures p.blockers != [] <==> FreshBlocks(h, m)
    ensures forall c :: c in p.changes <==> FreshDue(h, m, c)
    ensures forall b :: b in p.blockers <==> FreshStands(h, m, b)
  {
    p := PlanNewVolumes(h, m);
    p := PlanSnapshots(h, m, p);
    if !m.secrets {
      p := p.Block(MissingSecrets);
    }
    if m.env != map[] {
      p := p.Add(SetEnv);
    }
    p := PlanNewPorts(m.forwards, p);
    p := PlanNewRoute(h, m, p);
    NoneStandsFresh(h, m);
    EmptyIff(p.blockers);
    EmptyIff(p.changes);
    assert FreshDue(h, m, CreateInstance);
  }

  method PlanNewVolumes(h: Host, m: Manifest) returns (p: Plan)
    ensures p.blockers == []
    ensures forall c :: c in p.changes <==>
      c.CreateInstance? || CreationDue(h, m.volumes, c) || AttachmentDue(map[], m.volumes, c)
  {
    p := Plan([CreateInstance], []);
    var vs := m.volumes;
    for n := 0 to |vs|
      invariant p.blockers == []
      invariant forall c :: c in p.changes <==>
        c.CreateInstance? || CreationDue(h, vs[..n], c) || AttachmentDue(map[], vs[..n], c)
    {
      assert vs[..n + 1] == vs[..n] + [vs[n]];
      NothingThere(vs[n]);
      if vs[n].key !in h.volumes {
        p := p.Add(CreateVolume(vs[n].key));
      }
      p := p.Add(AttachVolume(vs[n].key));
    }
    assert vs[..|vs|] == vs;
  }

  method PlanNewPorts(fs: seq<Forward>, p: Plan) returns (q: Plan)
    ensures forall c :: c in q.changes <==> c in p.changes || (c.PublishPorts? && exists f :: f in fs && f.usable)
    ensures forall b :: b in q.blockers <==> b in p.blockers || (b.UnusablePorts? && exists f :: f in fs && !f.usable)
  {
    q := p;
    for n := 0 to |fs|
      invariant forall c :: c in q.changes <==>
        c in p.changes || (c.PublishPorts? && exists f :: f in fs[..n] && f.usable)
      invariant forall b :: b in q.blockers <==>
        b in p.blockers || (b.UnusablePorts? && exists f :: f in fs[..n] && !f.usable)
    {
      assert fs[..n + 1] == fs[..n] + [fs[n]] && fs[n] in fs[..n + 1];
      if fs[n].usable {
        q := q.Add(PublishPorts);
      } else {
        q := q.Block(UnusablePorts);
      }
    }
    assert fs[..|fs|] == fs;
  }

  method PlanNewRoute(h: Host, m: Manifest, p: Plan) returns (q: Plan)
    ensures forall c :: c in q.changes <==>
      c in p.changes || ((c.PublishRoute? || c.UpdateRoute?) && FreshDue(h, m, c))
    ensures forall b :: b in q.blockers <==> b in p.blockers || ((b.NoEdge? || b.RouteRefused?) && FreshStands(h, m, b))
  {
    q := p;
    if m.route.Some? {
      if !h.edge.present {
        q := q.Block(NoEdge);
      } else if !m.route.value.valid || h.edge.caddyfile == Foreign {
        q := q.Block(RouteRefused);
      } else {
        q := q.Add(if h.edge.site.Some? then UpdateRoute else Change.PublishRoute);
      }
    }
  }

  // ----------------------------------------------------------------------- the run

  /** The host at the end of a run, before its route. */
  ghost function PublishedHost(h: Host, m: Manifest): Host
    requires h.inst.Some? && Scheduled(h.volumes, m.volumes).Some?
  {
    h.(volumes := Scheduled(h.volumes, m.volumes).value, inst := Some(ForwardsApplied(h.inst.value, m.forwards)))
  }

  /** Schedules, ports and route match. */
  ghost predicate EndIn(h: Host, m: Manifest)
    requires h.inst.Some?
  {
    AllOnSchedule(h.volumes, m.volumes) && InStep(h.inst.value, m.forwards) && RouteIn(h, m)
  }

  /** Everything before them matches. */
  ghost predicate StartIn(h: Host, m: Manifest)
    requires h.inst.Some?
  {
    InstanceIn(h.inst.value, m) && VolumesIn(h, m.volumes)
  }

  lemma RouteInPublished(h: Host, m: Manifest)
    requires h.inst.Some? && Scheduled(h.volumes, m.volumes).Some?
    ensures RouteIn(PublishedHost(h, m), m) <==> RouteIn(h, m)
  {
  }

  /** The run can end: every volume with a policy is there, the ports are usable and the route can be published. */
  predicate CanFinish(h: Host, m: Manifest)
    requires h.inst.Some?
  {
    Scheduled(h.volumes, m.volumes).Some? && Usable(m.forwards) && (m.route.None? || Routable(h, m))
  }

  method Finish(ic: Incus, m: Manifest) returns (ok: bool)
    requires ic.host.inst.Some? && Distinct(m.volumes)
    modifies ic
    ensures ic.writes >= old(ic.writes)
    ensures ok ==> Finished(old(ic.host), m, ic.host)
    ensures ok ==> (ic.writes == old(ic.writes) <==> EndIn(old(ic.host), m))
    ensures ic.failures >= old(ic.failures) && old(ic.asked) <= ic.asked && Unharmed(old(ic.host), ic.host)
    ensures ic.failures == old(ic.failures) ==> (ok <==> CanFinish(old(ic.host), m))
  {
    ghost var h := ic.host;
    var changed;
    ok, changed := EnsureVolumeSnapshots(ic, m.volumes);
    if !ok {
      return;
    }
    ok, changed := EnsureForwards(ic, m.forwards);
    if !ok {
      return;
    }
    RouteInPublished(h, m);
    ok := PublishRoute(ic, m);
  }

  /** Records the image of an instance launched before references were recorded. */
  method Adopt(ic: Incus, m: Manifest) returns (ok: bool)
    requires ic.host.inst.Some?
    modifies ic
    ensures ic.writes >= old(ic.writes)
    ensures ok ==> ic.host == old(ic.host).(inst := Some(Adopted(old(ic.host.inst.value), m)))
    ensures ok ==> (ic.writes > old(ic.writes) <==> ImageDecision(old(ic.host.inst.value), m) == ToAdopt)
    ensures ic.failures >= old(ic.failures) && ic.asked == old(ic.asked) && (ic.failures == old(ic.failures) ==> ok)
    ensures Unharmed(old(ic.host), ic.host)
  {
    ok := true;
    if ImageDecision(ic.host.inst.value, m) == ToAdopt {
      ok := ic.Change(ic.host.inst.value.(recorded := m.deploy));
    }
  }

  function Configured(st: Instance, m: Manifest): Instance {
    WithLimits(WithLabels(Adopted(st, m), m), m)
  }

  /** The image record, labels and limits of an instance that stays. */
  method CorrectConfig(ic: Incus, m: Manifest) returns (ok: bool)
    requires ic.host.inst.Some? && ImageDecision(ic.host.inst.value, m) != ToReplace
    modifies ic
    ensures ic.writes >= old(ic.writes)
    ensures ok ==> ic.host == old(ic.host).(inst := Some(Configured(old(ic.host.inst.value), m)))
    ensures ok ==> (ic.writes == old(ic.writes) <==> ConfigIn(old(ic.host.inst.value), m))
    ensures ic.failures >= old(ic.failures) && ic.asked == old(ic.asked) && (ic.failures == old(ic.failures) ==> ok)
    ensures Unharmed(old(ic.host), ic.host)
  {
    ok := Adopt(ic, m);
    if !ok {
      return;
    }
    ok := ConvergeLabels(ic, m);
    if !ok {
      return;
    }
    ok := ConvergeLimits(ic, m);
  }

  predicate ConfigIn(st: Instance, m: Manifest) {
    ImageDecision(st, m) in {IsCurrent, IsUnknown} && LabelsIn(st, m) && LimitsIn(st, m)
  }

  /** Everything of an instance that stays before its environment. */
  method CorrectShape(ic: Incus, m: Manifest) returns (ok: bool)
    requires ic.host.inst.Some? && ImageDecision(ic.host.inst.value, m) != ToReplace
    modifies ic
    ensures ic.writes >= old(ic.writes)
    ensures ok ==> AttachAll(old(ic.host.inst.value.devices), m.volumes).Some?
    ensures ok ==> ic.host == Shaped(old(ic.host), m)
    ensures ok ==> (ic.writes == old(ic.writes) <==>
      ConfigIn(old(ic.host.inst.value), m) && VolumesIn(old(ic.host), m.volumes))
    ensures ic.failures >= old(ic.failures) && old(ic.asked) <= ic.asked && Unharmed(old(ic.host), ic.host)
    ensures ic.failures == old(ic.failures) ==> (ok <==> AttachAll(old(ic.host.inst.value.devices), m.volumes).Some?)
  {
    ok := CorrectConfig(ic, m);
    if !ok {
      return;
    }
    ghost var limited := ic.host;
    ok := EnsureAttached(ic, m.volumes);
    if ok {
      VolumesIdle(limited, m.volumes);
    }
  }

  /** The host of an instance that stays, before its environment. */
  function Shaped(h: Host, m: Manifest): Host
    requires h.inst.Some? && AttachAll(h.inst.value.devices, m.volumes).Some?
  {
    h.(volumes := Ensured(h.volumes, m.volumes), inst := Some(BeforeEnv(h.inst.value, m, AttachedDevices(h, m))))
  }

  /** Image record, labels, limits, volumes and environment of an instance that stays. */
  method CorrectInstance(ic: Incus, m: Manifest) returns (ok: bool)
    requires ic.host.inst.Some? && ImageDecision(ic.host.inst.value, m) != ToReplace
    modifies ic
    ensures ic.writes >= old(ic.writes)
    ensures ok ==> AttachAll(old(ic.host.inst.value.devices), m.volumes).Some?
    ensures ok ==> ic.host == old(ic.host).(volumes := Ensured(old(ic.host).volumes, m.volumes),
      inst := Some(InPlace(old(ic.host.inst.value), m, AttachedDevices(old(ic.host), m))))
    ensures ok ==> (ic.writes == old(ic.writes) <==> StartIn(old(ic.host), m))
    ensures ic.failures >= old(ic.failures) && old(ic.asked) <= ic.asked && Unharmed(old(ic.host), ic.host)
    ensures ic.failures == old(ic.failures) ==> (ok <==> AttachAll(old(ic.host.inst.value.devices), m.volumes).Some?)
  {
    ghost var h, st := ic.host, ic.host.inst.value;
    var oci := UsesOCI(ic.host.inst.value, m);
    ok := CorrectShape(ic, m);
    if ok {
      BeforeKeepsEnv(st, m, AttachedDevices(h, m));
      ok := ApplyEnv(ic, m, oci, false);
    }
  }

  lemma VolumesIdle(h: Host, vs: seq<Volume>)
    requires h.inst.Some? && AttachAll(h.inst.value.devices, vs).Some?
    ensures WithVolumes(h, vs) == h <==> VolumesIn(h, vs)
  {
    EnsuredExist(h.volumes, vs);
    AttachAllIdle(h.inst.value.devices, vs);
  }

  lemma BeforeKeepsEnv(st: Instance, m: Manifest, devices: map<string, Device>)
    ensures UsesOCI(BeforeEnv(st, m, devices), m) <==> UsesOCI(st, m)
    ensures EnvIn(BeforeEnv(st, m, devices), m) <==> EnvIn(st, m)
  {
    AdoptedKind(st, m);
  }

  /** The host of an instance that stays, before the end of the run. */
  ghost function CorrectedHost(h: Host, m: Manifest): Host
    requires h.inst.Some? && AttachAll(h.inst.value.devices, m.volumes).Some?
  {
    h.(volumes := Ensured(h.volumes, m.volumes), inst := Some(InPlace(h.inst.value, m, AttachedDevices(h, m))))
  }

  /** What a run that corrects in place cannot do without. */
  ghost predicate CanCorrect(h: Host, m: Manifest)
    requires h.inst.Some?
  {
    && m.secrets && (m.healthCheck ==> h.inst.value.addresses != [])
    && AttachAll(h.inst.value.devices, m.volumes).Some? && CanFinish(CorrectedHost(h, m), m)
  }

  lemma CorrectedCan(h: Host, m: Manifest, after: Host)
    requires Corrected(h, m, after)
    ensures CanCorrect(h, m)
  {
  }

  /** Where nothing fails, an instance that stays is converged exactly when it can be. */
  method ConvergeInPlace(ic: Incus, m: Manifest) returns (ok: bool)
    requires m.WellFormed() && ic.host.inst.Some? && ImageDecision(ic.host.inst.value, m) != ToReplace
    modifies ic
    ensures ic.writes >= old(ic.writes)
    ensures ok ==> Corrected(old(ic.host), m, ic.host) && (ic.writes == old(ic.writes) <==> NoDrift(old(ic.host), m))
    ensures ic.failures >= old(ic.failures) && old(ic.asked) <= ic.asked && Unharmed(old(ic.host), ic.host)
    ensures ic.failures == old(ic.failures) ==> (ok <==> CanCorrect(old(ic.host), m))
    ensures ok ==> FoundWell(m.healthCheck, old(ic.asked), ic.asked)
  {
    ghost var h := ic.host;
    ok := CorrectInstance(ic, m);
    if !ok || !m.secrets {
      return false;
    }
    InPlaceReached(h.inst.value, m, AttachedDevices(h, m));
    ghost var corrected, asked := ic.host, ic.asked;
    ok := FinishWell(ic, m, ic.host.inst.value.addresses != []);
    if ok {
      WellStays(m.healthCheck, old(ic.asked), asked, ic.asked, ic.asked);
      CorrectionCounts(h, m, corrected);
    }
  }

  /** Nothing to correct and nothing to end is nothing to do. */
  lemma CorrectionCounts(h: Host, m: Manifest, corrected: Host)
    requires h.inst.Some? && AttachAll(h.inst.value.devices, m.volumes).Some? && corrected == CorrectedHost(h, m)
    ensures StartIn(h, m) ==> corrected == h
    ensures NoDrift(h, m) <==> StartIn(h, m) && EndIn(h, m)
  {
    NothingElseDrifts(h, m);
  }

  lemma InPlaceReached(st: Instance, m: Manifest, devices: map<string, Device>)
    ensures InPlace(st, m, devices).addresses == st.addresses
  {
    OnlyEnv(BeforeEnv(st, m, devices), m, UsesOCI(st, m));
  }

  /** The health check, then the end of a run. */
  method FinishWell(ic: Incus, m: Manifest, reached: bool) returns (ok: bool)
    requires ic.host.inst.Some? && Distinct(m.volumes) && (reached <==> ic.host.inst.value.addresses != [])
    modifies ic
    ensures ic.writes >= old(ic.writes)
    ensures ok ==> Finished(old(ic.host), m, ic.host) && (m.healthCheck ==> reached)
    ensures ok ==> (ic.writes == old(ic.writes) <==> EndIn(old(ic.host), m))
    ensures ic.failures >= old(ic.failures) && old(ic.asked) <= ic.asked && Unharmed(old(ic.host), ic.host)
    ensures ic.failures == old(ic.failures) ==> (ok <==> CanFinish(old(ic.host), m) && (m.healthCheck ==> reached))
    ensures ok ==> FoundWell(m.healthCheck, old(ic.asked), ic.asked)
  {
    ok := !m.healthCheck || reached;
    if ok && m.healthCheck {
      ok := ic.Ask(Health);
      assert ic.asked[|ic.asked| - 1] == Answer(Health, ok);
    }
    if ok {
      ghost var healthy := ic.asked;
      ok := Finish(ic, m);
      WellStays(m.healthCheck, old(ic.asked), old(ic.asked), healthy, ic.asked);
    }
  }

  /** Where the instance and its volumes match, correcting them leaves the host as it is. */
  lemma NothingElseDrifts(h: Host, m: Manifest)
    requires h.inst.Some? && AttachAll(h.inst.value.devices, m.volumes).Some?
    ensures StartIn(h, m) ==>
      InPlace(h.inst.value, m, AttachedDevices(h, m)) == h.inst.value && Ensured(h.volumes, m.volumes) == h.volumes
  {
    EnsuredExist(h.volumes, m.volumes);
    AttachAllIdle(h.inst.value.devices, m.volumes);
    if InstanceIn(h.inst.value, m) {
      InPlaceIdle(h.inst.value, m);
    }
  }

  /** Replaces the image, then applies what the manifest declares of labels and environment. */
  method ReplaceImage(ic: Incus, m: Manifest) returns (ok: bool, ghost lease: Lease)
    requires m.WellFormed() && ic.host.inst.Some? && ImageDecision(ic.host.inst.value, m) == ToReplace
    modifies ic
    ensures ic.writes >= old(ic.writes)
    ensures ok ==> DeployedBy(old(ic.host), m, lease, ic.host) && ic.writes > old(ic.writes)
    ensures ic.failures >= old(ic.failures) && old(ic.asked) <= ic.asked
    ensures forall k :: k in old(ic.host).volumes ==> k in ic.host.volumes
    ensures ic.failures == old(ic.failures) && lease.addresses != [] && !ok ==>
      PlanBlocks(old(ic.host), m) || !PlanApply.FitsReplace(old(ic.host), m)
    ensures ok ==> FoundWell(m.healthCheck, old(ic.asked), ic.asked)
  {
    lease := Lease("", false, None, []);
    if !m.secrets {
      return false, lease;
    }
    ghost var h := ic.host;
    var r;
    r, lease := Update.Update(ic, m.deploy, m.deploy, Update.Options(m.healthCheck, false, false, map[]));
    ghost var mid, updated := ic.host, ic.asked;
    if !Update.Nil(r) {
      NotUpdated(h, m, r, lease, old(ic.failures), ic.failures);
      return false, lease;
    }
    ok := Redeclare(ic, m);
    if ok {
      assert Replaced(h, m, mid, r, lease, ic.host);
      WellStays(m.healthCheck, old(ic.asked), old(ic.asked), updated, ic.asked);
    } else {
      NotEnded(h, m, mid, r, lease);
    }
  }

  /** An update that fails without a failure: there is no address to reach or to point the route at. */
  lemma NotUpdated(h: Host, m: Manifest, r: Update.Outcome, lease: Lease, failed: nat, fails: nat)
    requires h.inst.Some? && !Update.Nil(r)
    requires Update.Blamed(h, Update.Options(m.healthCheck, false, false, map[]), r, lease, failed, fails)
    requires r.AlreadyThere? ==> Update.Current(h.inst.value, m.deploy, m.deploy)
    ensures fails == failed && lease.addresses != [] ==> !PlanApply.FitsReplace(h, m)
  {
  }

  /** A replacement that cannot end. */
  lemma NotEnded(h: Host, m: Manifest, mid: Host, r: Update.Outcome, lease: Lease)
    requires h.inst.Some? && m.secrets && ImageDecision(h.inst.value, m) == ToReplace && mid.inst.Some?
    requires Update.Outcomes(h, mid, m.deploy, m.deploy, Update.Options(m.healthCheck, false, false, map[]), r, lease)
    requires Update.Nil(r)
    ensures var x := WithEnv(WithLabels(mid.inst.value, m), m, OciRef(m.deploy));
      !CanFinish(mid.(inst := Some(x)), m) && lease.addresses != [] ==>
        PlanBlocks(h, m) || !PlanApply.FitsReplace(h, m)
  {
    PlanApply.EnvKeepsAddresses(WithLabels(mid.inst.value, m), m, OciRef(m.deploy));
    PlanApply.ScheduledIff(h.volumes, m.volumes);
  }

  /** What the manifest declares, on an instance that was replaced. */
  method Redeclare(ic: Incus, m: Manifest) returns (ok: bool)
    requires ic.host.inst.Some? && Distinct(m.volumes)
    modifies ic
    ensures ic.writes >= old(ic.writes)
    ensures var x := WithEnv(WithLabels(old(ic.host.inst.value), m), m, OciRef(m.deploy));
      && (ok ==> Finished(old(ic.host).(inst := Some(x)), m, ic.host))
      && (ic.failures == old(ic.failures) ==> (ok <==> CanFinish(old(ic.host).(inst := Some(x)), m)))
    ensures ic.failures >= old(ic.failures) && old(ic.asked) <= ic.asked && Unharmed(old(ic.host), ic.host)
  {
    ok := ConvergeLabels(ic, m);
    if !ok {
      return;
    }
    ok := ApplyEnv(ic, m, OciRef(m.deploy), true);
    if !ok {
      return;
    }
    ok := Finish(ic, m);
  }

  method CreateVolumes(ic: Incus, vs: seq<Volume>) returns (ok: bool)
    modifies ic
    ensures ic.writes >= old(ic.writes)
    ensures ok ==> ic.host == old(ic.host).(volumes := Ensured(old(ic.host).volumes, vs))
    ensures ic.failures >= old(ic.failures) && old(ic.asked) <= ic.asked && (ic.failures == old(ic.failures) ==> ok)
    ensures Unharmed(old(ic.host), ic.host)
  {
    ghost var h := ic.host;
    for n := 0 to |vs|
      invariant ic.host == h.(volumes := Ensured(h.volumes, vs[..n])) && ic.writes >= old(ic.writes)
      invariant ic.failures >= old(ic.failures) && old(ic.asked) <= ic.asked && Unharmed(h, ic.host)
    {
      assert vs[..n + 1][..n] == vs[..n];
      ok := EnsureVolume(ic, vs[n]);
      if !ok {
        return;
      }
    }
    assert vs[..|vs|] == vs;
    ok := true;
  }

  method AttachVolumes(ic: Incus, vs: seq<Volume>) returns (ok: bool)
    requires ic.host.inst.Some?
    modifies ic
    ensures ic.writes >= old(ic.writes)
    ensures ok ==> AttachAll(old(ic.host).inst.value.devices, vs).Some?
    ensures ok ==> ic.host == WithDevices(old(ic.host), AttachAll(old(ic.host).inst.value.devices, vs).value)
    ensures ic.failures >= old(ic.failures) && old(ic.asked) <= ic.asked && Unharmed(old(ic.host), ic.host)
    ensures ic.failures == old(ic.failures) ==> (ok <==> AttachAll(old(ic.host).inst.value.devices, vs).Some?)
  {
    ghost var h := ic.host;
    for n := 0 to |vs|
      invariant AttachAll(h.inst.value.devices, vs[..n]).Some? && ic.writes >= old(ic.writes)
      invariant ic.host == WithDevices(h, AttachAll(h.inst.value.devices, vs[..n]).value)
      invariant ic.failures >= old(ic.failures) && old(ic.asked) <= ic.asked
    {
      assert vs[..n + 1] == vs[..n] + [vs[n]];
      ok := EnsureVolumeAttached(ic, vs[n]);
      if !ok {
        RefusedStays(h.inst.value.devices, vs, n);
        return;
      }
      AttachSnoc(h.inst.value.devices, vs[..n], vs[n]);
    }
    assert vs[..|vs|] == vs;
    ok := true;
  }

  /** The volumes of an instance that is not there yet, with their schedules. */
  method PrepareVolumes(ic: Incus, m: Manifest) returns (ok: bool)
    requires Distinct(m.volumes)
    modifies ic
    ensures ic.writes >= old(ic.writes)
    ensures ok ==> Scheduled(Ensured(old(ic.host).volumes, m.volumes), m.volumes).Some?
    ensures ok ==>
      ic.host == old(ic.host).(volumes := Scheduled(Ensured(old(ic.host).volumes, m.volumes), m.volumes).value)
    ensures ic.failures >= old(ic.failures) && old(ic.asked) <= ic.asked && (ic.failures == old(ic.failures) ==> ok)
    ensures Unharmed(old(ic.host), ic.host)
  {
    ghost var h := ic.host;
    ok := CreateVolumes(ic, m.volumes);
    if ok {
      var changed;
      ok, changed := EnsureVolumeSnapshots(ic, m.volumes);
      PlanApply.EnsuredHavePolicies(h.volumes, m.volumes);
    }
  }

  /** The volumes, ports and environment of an instance just launched. */
  method Furnish(ic: Incus, m: Manifest) returns (ok: bool)
    requires ic.host.inst.Some?
    modifies ic
    ensures ic.writes >= old(ic.writes)
    ensures ok ==> m.secrets && Usable(m.forwards) && AttachAll(old(ic.host.inst.value.devices), m.volumes).Some?
    ensures ok ==> ic.host == old(ic.host).(inst := Some(Furnished(old(ic.host.inst.value), m)))
    ensures ic.failures >= old(ic.failures) && old(ic.asked) <= ic.asked && Unharmed(old(ic.host), ic.host)
    ensures ic.failures == old(ic.failures) ==>
      (ok <==> m.secrets && Usable(m.forwards) && AttachAll(old(ic.host.inst.value.devices), m.volumes).Some?)
  {
    ok := AttachVolumes(ic, m.volumes);
    if !ok {
      return;
    }
    var changed;
    ok, changed := EnsureForwards(ic, m.forwards);
    if !ok || !m.secrets {
      return false;
    }
    ok := ApplyEnv(ic, m, OciRef(m.deploy), true);
  }

  ghost function Furnished(inst: Instance, m: Manifest): Instance
    requires AttachAll(inst.devices, m.volumes).Some?
  {
    var attached := inst.(devices := AttachAll(inst.devices, m.volumes).value);
    WithEnv(ForwardsApplied(attached, m.forwards), m, OciRef(m.deploy))
  }

  /** Volumes first, then the instance, its volumes, ports and environment, and last its route. */
  method DeployFresh(ic: Incus, m: Manifest) returns (ok: bool, ghost lease: Lease)
    requires m.WellFormed() && ic.host.inst.None?
    modifies ic
    ensures ic.writes >= old(ic.writes)
    ensures ok ==> LaunchedFresh(old(ic.host), m, lease, ic.host)
    ensures ic.failures >= old(ic.failures) && old(ic.asked) <= ic.asked
    ensures forall k :: k in old(ic.host).volumes ==> k in ic.host.volumes
    ensures ic.failures == old(ic.failures) && lease.addresses != [] && !ok ==>
      FreshBlocks(old(ic.host), m) || !PlanApply.Fits(old(ic.host), m)
    ensures ok ==> FoundWell(m.healthCheck, old(ic.asked), ic.asked)
  {
    ghost var h := ic.host;
    lease := Lease("", false, None, []);
    ok := PrepareVolumes(ic, m);
    if !ok {
      return;
    }
    ok, lease := ic.Launch(m.deploy, FreshInstance(m));
    if !ok {
      return;
    }
    FreshCan(h, m);
    ok := Furnish(ic, m);
    if !ok || ic.host.inst.value.addresses == [] {
      return false, lease;
    }
    ok := PublishWell(ic, m);
    if ok {
      assert LaunchedFresh(h, m, lease, ic.host);
    }
  }

  lemma FreshCan(h: Host, m: Manifest)
    requires m.WellFormed() && h.inst.None?
    ensures !FreshBlocks(h, m) && PlanApply.Fits(h, m) ==>
      m.secrets && Usable(m.forwards) && AttachAll(map[], m.volumes).Some?
  {
    UsableIff(m.forwards);
    PlanApply.NothingRefused(m.volumes);
    PlanApply.AttachAllIff(map[], m.volumes);
  }

  /** The health check, then the route. */
  method PublishWell(ic: Incus, m: Manifest) returns (ok: bool)
    requires ic.host.inst.Some? && ic.host.inst.value.addresses != []
    modifies ic
    ensures ic.writes >= old(ic.writes)
    ensures ok ==> (m.route.Some? ==> Routable(old(ic.host), m)) && ic.host == WithRoute(old(ic.host), m)
    ensures ic.failures >= old(ic.failures) && old(ic.asked) <= ic.asked && Unharmed(old(ic.host), ic.host)
    ensures ic.failures == old(ic.failures) ==> (ok <==> m.route.None? || Routable(old(ic.host), m))
    ensures ok ==> FoundWell(m.healthCheck, old(ic.asked), ic.asked)
  {
    ok := true;
    if m.healthCheck {
      ok := ic.Ask(Health);
      assert ic.asked[|ic.asked| - 1] == Answer(Health, ok);
    }
    if ok {
      ghost var healthy := ic.asked;
      ok := PublishRoute(ic, m);
      WellStays(m.healthCheck, old(ic.asked), old(ic.asked), healthy, ic.asked);
    }
  }

  /** The run launches an image, which may give an instance without an address. */
  predicate Launches(h: Host, m: Manifest) {
    h.inst.None? || ImageDecision(h.inst.value, m) == ToReplace
  }

  /** Converges a service to its manifest. On an instance that is there it writes exactly when the plan lists a
      change. Where no command fails it succeeds exactly when the plan blocks nothing and what the plan does not look
      at fits; whatever fails, no volume is gone, and an instance that is not replaced is there as it was launched. */
  method DeployService(ic: Incus, m: Manifest) returns (ok: bool, ghost lease: Lease)
    requires m.WellFormed()
    modifies ic
    ensures ic.writes >= old(ic.writes)
    ensures ok ==> DeployedBy(old(ic.host), m, lease, ic.host)
    ensures ok && old(ic.host).inst.Some? ==> (ic.writes == old(ic.writes) <==> NoDrift(old(ic.host), m))
    ensures ok ==> !Blocks(old(ic.host), m) && PlanApply.Fits(old(ic.host), m)
    ensures ok && NoDrift(old(ic.host), m) ==> ic.host == old(ic.host)
    ensures ic.failures >= old(ic.failures)
    ensures ic.failures == old(ic.failures) && (!Launches(old(ic.host), m) || lease.addresses != []) ==>
      (ok <==> !Blocks(old(ic.host), m) && PlanApply.Fits(old(ic.host), m))
    ensures ok ==> FoundWell(m.healthCheck, old(ic.asked), ic.asked)
    ensures forall k :: k in old(ic.host).volumes ==> k in ic.host.volumes
    ensures !Launches(old(ic.host), m) ==> Unharmed(old(ic.host), ic.host)
  {
    ghost var h := ic.host;
    lease := Lease("", false, None, []);
    ok := ic.Ask(Read);
    if !ok {
      return;
    }
    ghost var read := ic.asked;
    if ic.host.inst.None? {
      ok, lease := DeployFresh(ic, m);
    } else if ImageDecision(ic.host.inst.value, m) == ToReplace {
      ok, lease := ReplaceImage(ic, m);
    } else {
      ok := ConvergeInPlace(ic, m);
      if !ok {
        NotInPlace(h, m);
      }
    }
    if ok {
      WellStays(m.healthCheck, old(ic.asked), read, ic.asked, ic.asked);
      SucceededFits(h, m, lease, ic.host);
    }
  }

  /** No outcome of a run that corrects in place: then the plan blocks or does not fit. */
  lemma NotInPlace(h: Host, m: Manifest)
    requires m.WellFormed() && h.inst.Some? && ImageDecision(h.inst.value, m) != ToReplace
    ensures !CanCorrect(h, m) ==> Blocks(h, m) || !PlanApply.Fits(h, m)
  {
    if !CanCorrect(h, m) {
      forall after ensures !Deployed(h, m, after) {
        if Corrected(h, m, after) {
          CorrectedCan(h, m, after);
        }
      }
      PlanApply.DeployableIff(h, m);
    }
  }

  lemma SucceededFits(h: Host, m: Manifest, lease: Lease, after: Host)
    requires m.WellFormed() && DeployedBy(h, m, lease, after)
    ensures !Blocks(h, m) && PlanApply.Fits(h, m) && (NoDrift(h, m) ==> after == h)
  {
    ByAnyLease(h, m, lease, after);
    assert PlanApply.Deployable(h, m);
    PlanApply.DeployableIff(h, m);
    if NoDrift(h, m) {
      MatchingIsLeftAlone(h, m, after);
    }
  }

  /** From any host, after two successful runs the plan finds nothing to do and nothing in the way, if the declared
      variables are plain or the image takes environment.*. */
  lemma TwoRunsPlanNothing(h: Host, m: Manifest, first: Host, second: Host)
    requires m.WellFormed() && Deployed(h, m, first) && Deployed(first, m, second)
    requires OciRef(m.deploy) || Env.PlainVars(m.env)
    ensures NoDrift(second, m) && !PlanBlocks(second, m)
  {
    var lease := BySomeLease(h, m, first);
    TwoRuns(h, m, lease, first, second);
    AnyRunPublishes(h, m, first);
    StillUnblocked(first, m, second);
  }

  lemma {:induction false} StillUnblocked(h: Host, m: Manifest, after: Host)
    requires m.WellFormed() && Published(h, m) && Deployed(h, m, after)
    ensures after.inst.Some? && (NoDrift(after, m) ==> !PlanBlocks(after, m))
  {
    SecondRunCorrects(h, m, after);
    OneRun(h, m, after);
    assert InPlace(h.inst.value, m, AttachedDevices(h, m)).addresses == h.inst.value.addresses;
  }
}
