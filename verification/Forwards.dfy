/** The host ports a manifest declares (pkg/engine/forwards.go): proxy devices, and the record of which ones a
    manifest published. */
module Forwards {
  import opened Text
  import opened Host

  /** A declared forward as pkg/config reads it: the device it is published as and what that device says. It is
      not usable when its protocol, ports, addresses or name are not. */
  datatype Forward = Forward(device: string, listen: string, connect: string, usable: bool) {
    function Props(): Device {
      map["type" := "proxy", "listen" := listen, "connect" := connect]
    }
    predicate Valid() {
      usable ==> device != "" && forall c :: c in device ==> !IsSpace(c) && c != ','
    }
  }

  function Names(fs: seq<Forward>): set<string> {
    set f | f in fs :: f.device
  }

  /** Every forward is usable and no two are named alike: anything else is an error. */
  predicate Usable(fs: seq<Forward>) {
    fs == [] || (Usable(fs[..|fs| - 1]) && fs[|fs| - 1].usable && fs[|fs| - 1].device !in Names(fs[..|fs| - 1]))
  }

  predicate ForwardsApart(fs: seq<Forward>) {
    forall i, j :: 0 <= i < j < |fs| ==> fs[i].device != fs[j].device
  }

  lemma {:induction false} UsableIff(fs: seq<Forward>)
    ensures Usable(fs) <==> (forall f :: f in fs ==> f.usable) && ForwardsApart(fs)
  {
    if fs != [] {
      var init, f := fs[..|fs| - 1], fs[|fs| - 1];
      assert fs == init + [f];
      UsableIff(init);
      if ForwardsApart(fs) {
        forall g | g in init ensures g.device != f.device {
          var i :| 0 <= i < |init| && init[i] == g;
          assert fs[i] == g;
        }
      } else if ForwardsApart(init) {
        var i :| 0 <= i < |init| && fs[i].device == f.device;
        assert fs[i] in init;
      }
    }
  }

  predicate IsProxy(devices: map<string, Device>, name: string) {
    name in devices && Get(devices[name], "type") == "proxy"
  }

  /** The device is there with the declared ports; what else it says does not matter. */
  predicate Matches(devices: map<string, Device>, f: Forward) {
    && IsProxy(devices, f.device)
    && Get(devices[f.device], "listen") == f.listen && Get(devices[f.device], "connect") == f.connect
  }

  datatype Change = Publish(device: string, props: Device) | Remove(device: string)

  /** The names in a comma-separated list. */
  function Listed(parts: seq<string>): seq<string> {
    if parts == [] then []
    else if Trim(parts[0]) == "" then Listed(parts[1..])
    else [Trim(parts[0])] + Listed(parts[1..])
  }

  function SplitList(s: string): seq<string> {
    Listed(Split(s, ','))
  }

  ghost function RecordOf(fs: seq<Forward>): string {
    Join(SortedKeys(Names(fs)), ',')
  }

  // ------------------------------------------------------------------ the drift

  function Publishes(devices: map<string, Device>, fs: seq<Forward>): seq<Change> {
    if fs == [] then [] else
      var before, f := Publishes(devices, fs[..|fs| - 1]), fs[|fs| - 1];
      if Matches(devices, f) then before else before + [Publish(f.device, f.Props())]
  }

  function Removes(devices: map<string, Device>, names: seq<string>, declared: set<string>): seq<Change> {
    if names == [] then [] else
      var before, n := Removes(devices, names[..|names| - 1], declared), names[|names| - 1];
      if n in declared || !IsProxy(devices, n) then before else before + [Remove(n)]
  }

  function Changes(inst: Instance, fs: seq<Forward>): seq<Change> {
    Publishes(inst.devices, fs) + Removes(inst.devices, SplitList(inst.managed), Names(fs))
  }

  /** What to do about the ports, and the record to write if it differs. */
  method ForwardsDrift(st: Instance, fs: seq<Forward>) returns (ok: bool, changes: seq<Change>, record: Option<string>)
    ensures ok <==> Usable(fs)
    ensures ok <==> (forall f :: f in fs ==> f.usable) && ForwardsApart(fs)
    ensures ok ==> changes == Changes(st, fs)
    ensures ok ==> record == if RecordOf(fs) == st.managed then None else Some(RecordOf(fs))
  {
    var declared, removed;
    record := None;
    UsableIff(fs);
    ok, changes, declared := DeclaredDrift(st.devices, fs);
    if !ok {
      return;
    }
    removed := RemovedDrift(st.devices, SplitList(st.managed), declared);
    changes := changes + removed;
    var names := SortKeys(declared);
    var want := Join(names, ',');
    if want != st.managed {
      record := Some(want);
    }
  }

  /** The devices to publish, and the names declared; an unusable forward or a second one of a name is an error. */
  method DeclaredDrift(devices: map<string, Device>, fs: seq<Forward>)
    returns (ok: bool, changes: seq<Change>, declared: set<string>)
    ensures ok <==> Usable(fs)
    ensures ok ==> changes == Publishes(devices, fs) && declared == Names(fs)
  {
    changes, declared := [], {};
    for n := 0 to |fs|
      invariant declared == Names(fs[..n]) && Usable(fs[..n])
      invariant changes == Publishes(devices, fs[..n])
    {
      var f := fs[n];
      PublishesStep(devices, fs, n);
      if !f.usable || f.device in declared {
        UsablePrefix(fs, n + 1);
        return false, changes, declared;
      }
      declared := declared + {f.device};
      if !Matches(devices, f) {
        changes := changes + [Publish(f.device, f.Props())];
      }
    }
    assert fs[..|fs|] == fs;
    ok := true;
  }

  lemma PublishesStep(devices: map<string, Device>, fs: seq<Forward>, n: nat)
    requires n < |fs|
    ensures Names(fs[..n + 1]) == Names(fs[..n]) + {fs[n].device}
    ensures Usable(fs[..n + 1]) <==> Usable(fs[..n]) && fs[n].usable && fs[n].device !in Names(fs[..n])
    ensures Publishes(devices, fs[..n + 1])
         == Publishes(devices, fs[..n]) + if Matches(devices, fs[n]) then [] else [Publish(fs[n].device, fs[n].Props())]
  {
    assert fs[..n + 1][..n] == fs[..n];
    assert fs[..n + 1] == fs[..n] + [fs[n]];
  }

  method RemovedDrift(devices: map<string, Device>, managed: seq<string>, declared: set<string>)
    returns (changes: seq<Change>)
    ensures changes == Removes(devices, managed, declared)
  {
    changes := [];
    for n := 0 to |managed|
      invariant changes == Removes(devices, managed[..n], declared)
    {
      assert managed[..n + 1][..n] == managed[..n];
      if managed[n] !in declared && IsProxy(devices, managed[n]) {
        changes := changes + [Remove(managed[n])];
      }
    }
    assert managed[..|managed|] == managed;
  }

  lemma {:induction false} UsablePrefix(fs: seq<Forward>, n: nat)
    requires n <= |fs|
    ensures Usable(fs) ==> Usable(fs[..n])
    decreases |fs| - n
  {
    if n < |fs| {
      UsablePrefix(fs, n + 1);
      assert fs[..n + 1][..n] == fs[..n];
    } else {
      assert fs[..n] == fs;
    }
  }

  // ------------------------------------------------------------------ applying it

  function ApplyOne(devices: map<string, Device>, c: Change): map<string, Device> {
    match c
    case Publish(device, props) => devices[device := props]
    case Remove(device) => devices - {device}
  }

  function ApplyAll(devices: map<string, Device>, cs: seq<Change>): map<string, Device> {
    if cs == [] then devices else ApplyOne(ApplyAll(devices, cs[..|cs| - 1]), cs[|cs| - 1])
  }

  lemma {:induction false} ApplyConcat(devices: map<string, Device>, a: seq<Change>, b: seq<Change>)
    ensures ApplyAll(devices, a + b) == ApplyAll(ApplyAll(devices, a), b)
  {
    if b == [] {
      assert a + b == a;
    } else {
      assert (a + b)[..|a + b| - 1] == a + b[..|b| - 1];
      ApplyConcat(devices, a, b[..|b| - 1]);
    }
  }

  /** The devices once the ports are converged. */
  function Converged(inst: Instance, fs: seq<Forward>): map<string, Device> {
    ApplyAll(inst.devices, Changes(inst, fs))
  }

  ghost function ForwardsApplied(inst: Instance, fs: seq<Forward>): Instance {
    inst.(devices := Converged(inst, fs), managed := RecordOf(fs))
  }

  method RemoveDevice(ic: Incus, name: string) returns (ok: bool)
    requires ic.host.inst.Some?
    modifies ic
    ensures ic.host == if ok then WithDevices(old(ic.host), old(ic.host.inst.value.devices) - {name})
                       else old(ic.host)
    ensures ic.writes >= old(ic.writes)
    ensures ok && name in old(ic.host.inst.value.devices) ==> ic.writes > old(ic.writes)
    ensures ic.failures == old(ic.failures) + (if ok then 0 else 1) && ic.asked == old(ic.asked)
  {
    var inst := ic.host.inst.value;
    if name !in inst.devices {
      assert inst.devices - {name} == inst.devices;
      return true;
    }
    ok := ic.Change(inst.(devices := inst.devices - {name}));
  }

  method ApplyChanges(ic: Incus, cs: seq<Change>) returns (ok: bool)
    requires ic.host.inst.Some?
    modifies ic
    ensures ic.writes >= old(ic.writes)
    ensures ok ==> ic.host == WithDevices(old(ic.host), ApplyAll(old(ic.host.inst.value.devices), cs))
    ensures ok && cs != [] && (cs[0].Publish? || cs[0].device in old(ic.host.inst.value.devices)) ==>
      ic.writes > old(ic.writes)
    ensures ok && cs == [] ==> ic.writes == old(ic.writes)
    ensures ic.failures >= old(ic.failures) && ic.asked == old(ic.asked) && (ic.failures == old(ic.failures) ==> ok)
    ensures Unharmed(old(ic.host), ic.host)
  {
    ghost var inst := ic.host.inst.value;
    for n := 0 to |cs|
      invariant ic.host == old(ic.host).(inst := Some(inst.(devices := ApplyAll(inst.devices, cs[..n]))))
      invariant ic.writes >= old(ic.writes) && (n == 0 ==> ic.writes == old(ic.writes))
      invariant n > 0 && (cs[0].Publish? || cs[0].device in inst.devices) ==> ic.writes > old(ic.writes)
      invariant ic.failures == old(ic.failures) && ic.asked == old(ic.asked) && Unharmed(old(ic.host), ic.host)
    {
      assert cs[..n + 1][..n] == cs[..n];
      match cs[n] {
        case Publish(device, props) => ok := ic.SetDevice(device, props);
        case Remove(device) => ok := RemoveDevice(ic, device);
      }
      if !ok {
        return;
      }
    }
    assert cs[..|cs|] == cs;
    ok := true;
  }

  /** Publishes the declared ports, removes those no longer declared, and records which are managed. */
  method EnsureForwards(ic: Incus, fs: seq<Forward>) returns (ok: bool, changed: bool)
    modifies ic
    ensures ic.writes >= old(ic.writes)
    ensures ok ==> old(ic.host).inst.Some? && Usable(fs)
    ensures ok ==> ic.host == old(ic.host).(inst := Some(ForwardsApplied(old(ic.host).inst.value, fs)))
    ensures ok ==> (changed <==> !InStep(old(ic.host).inst.value, fs)) && (ic.writes > old(ic.writes) <==> changed)
    ensures ic.failures >= old(ic.failures) && old(ic.asked) <= ic.asked
    ensures Unharmed(old(ic.host), ic.host)
    ensures ic.failures == old(ic.failures) ==> (ok <==> old(ic.host).inst.Some? && Usable(fs))
  {
    changed := false;
    var st;
    ok, st := ic.Capture();
    if !ok {
      return;
    }
    var changes, record;
    ok, changes, record := ForwardsDrift(st, fs);
    if !ok {
      return;
    }
    FirstChange(st, fs);
    changed := changes != [] || record.Some?;
    ok := ApplyChanges(ic, changes);
    if ok && record.Some? {
      ok := ic.Change(ic.host.inst.value.(managed := record.value));
    }
  }

  /** Nothing to do: no device differs and the record is right. */
  ghost predicate InStep(inst: Instance, fs: seq<Forward>) {
    Changes(inst, fs) == [] && RecordOf(fs) == inst.managed
  }

  lemma FirstChange(inst: Instance, fs: seq<Forward>)
    ensures var cs := Changes(inst, fs); cs != [] ==> cs[0].Publish? || cs[0].device in inst.devices
  {
    PublishesPublish(inst.devices, fs);
    RemovesArePresent(inst.devices, SplitList(inst.managed), Names(fs));
    var published, removed := Publishes(inst.devices, fs), Removes(inst.devices, SplitList(inst.managed), Names(fs));
    assert published != [] ==> published[0] in published;
    assert removed != [] ==> removed[0] in removed;
  }

  lemma {:induction false} PublishesPublish(devices: map<string, Device>, fs: seq<Forward>)
    ensures forall c :: c in Publishes(devices, fs) ==> c.Publish?
  {
    if fs != [] {
      PublishesPublish(devices, fs[..|fs| - 1]);
    }
  }

  lemma {:induction false} RemovesArePresent(devices: map<string, Device>, names: seq<string>, declared: set<string>)
    ensures forall c :: c in Removes(devices, names, declared) ==> c.Remove? && c.device in devices
  {
    if names != [] {
      RemovesArePresent(devices, names[..|names| - 1], declared);
    }
  }

  // ------------------------------------------------------- what it makes of a device

  /** The device of that name is the same in both, or in neither. */
  predicate Same(a: map<string, Device>, b: map<string, Device>, n: string) {
    (n in a <==> n in b) && (n in a ==> a[n] == b[n])
  }

  lemma {:induction false} OthersUnpublished(devices: map<string, Device>, fs: seq<Forward>, n: string)
    requires n !in Names(fs)
    ensures Same(devices, ApplyAll(devices, Publishes(devices, fs)), n)
  {
    if fs != [] {
      var init, f := fs[..|fs| - 1], fs[|fs| - 1];
      assert fs == init + [f];
      OthersUnpublished(devices, init, n);
    }
  }

  lemma {:induction false} PublishedAt(devices: map<string, Device>, fs: seq<Forward>, f: Forward)
    requires Usable(fs) && f in fs
    ensures var d := ApplyAll(devices, Publishes(devices, fs));
      f.device in d && d[f.device] == if Matches(devices, f) then devices[f.device] else f.Props()
  {
    var init, g := fs[..|fs| - 1], fs[|fs| - 1];
    assert fs == init + [g];
    if f in init {
      PublishedAt(devices, init, f);
    } else {
      OthersUnpublished(devices, init, f.device);
    }
  }

  lemma {:induction false} RemovedAt(devices: map<string, Device>, from: map<string, Device>, names: seq<string>,
                                     declared: set<string>, n: string)
    ensures var d := ApplyAll(from, Removes(devices, names, declared));
      if n in names && n !in declared && IsProxy(devices, n) then n !in d else Same(from, d, n)
  {
    if names != [] {
      var init, m := names[..|names| - 1], names[|names| - 1];
      assert names == init + [m];
      RemovedAt(devices, from, init, declared, n);
    }
  }

  /** A declared port has its device, which is as it was if it matched already. */
  lemma DeclaredAt(inst: Instance, fs: seq<Forward>, f: Forward)
    requires Usable(fs) && f in fs
    ensures f.device in Converged(inst, fs) && Matches(Converged(inst, fs), f)
    ensures Converged(inst, fs)[f.device] == if Matches(inst.devices, f) then inst.devices[f.device] else f.Props()
  {
    var published := ApplyAll(inst.devices, Publishes(inst.devices, fs));
    PublishedAt(inst.devices, fs, f);
    assert f.device in Names(fs);
    RemovedAt(inst.devices, published, SplitList(inst.managed), Names(fs), f.device);
    ApplyConcat(inst.devices, Publishes(inst.devices, fs), Removes(inst.devices, SplitList(inst.managed), Names(fs)));
  }

  /** A port that was recorded and is no longer declared is gone; every other device is as it was. */
  lemma OthersAt(inst: Instance, fs: seq<Forward>, n: string)
    requires n !in Names(fs)
    ensures if n in SplitList(inst.managed) && IsProxy(inst.devices, n) then n !in Converged(inst, fs)
            else Same(inst.devices, Converged(inst, fs), n)
  {
    var published := ApplyAll(inst.devices, Publishes(inst.devices, fs));
    OthersUnpublished(inst.devices, fs, n);
    RemovedAt(inst.devices, published, SplitList(inst.managed), Names(fs), n);
    ApplyConcat(inst.devices, Publishes(inst.devices, fs), Removes(inst.devices, SplitList(inst.managed), Names(fs)));
  }

  // --------------------------------------------------------------------- the record

  lemma {:induction false} ListedPlain(parts: seq<string>)
    requires forall p :: p in parts ==> p != "" && Tight(p)
    ensures Listed(parts) == parts
  {
    if parts != [] {
      TrimProperties(parts[0]);
      assert forall p :: p in parts[1..] ==> p in parts;
      ListedPlain(parts[1..]);
      assert parts == [parts[0]] + parts[1..];
    }
  }

  /** The record names exactly the declared ports, in order. */
  lemma RecordNames(fs: seq<Forward>)
    requires forall f :: f in fs ==> f.usable && f.Valid()
    ensures SplitList(RecordOf(fs)) == SortedKeys(Names(fs))
  {
    var names := SortedKeys(Names(fs));
    forall n | n in names ensures n != "" && Tight(n) && ',' !in n {
      var f :| f in fs && f.device == n;
    }
    if names == [] {
      assert Split("", ',') == [""];
      assert Trim("") == "";
      assert Listed([""]) == Listed([""][1..]);
    } else {
      SplitJoin(names, ',');
      ListedPlain(names);
    }
  }

  // ------------------------------------------------------------------- once is enough

  lemma {:induction false} NoPublishes(devices: map<string, Device>, fs: seq<Forward>)
    ensures Publishes(devices, fs) == [] <==> forall f :: f in fs ==> Matches(devices, f)
  {
    if fs != [] {
      NoPublishes(devices, fs[..|fs| - 1]);
      assert fs == fs[..|fs| - 1] + [fs[|fs| - 1]];
    }
  }

  lemma {:induction false} NoRemoves(devices: map<string, Device>, names: seq<string>, declared: set<string>)
    ensures Removes(devices, names, declared) == [] <==> forall n :: n in names && IsProxy(devices, n) ==> n in declared
  {
    if names != [] {
      NoRemoves(devices, names[..|names| - 1], declared);
      assert names == names[..|names| - 1] + [names[|names| - 1]];
    }
  }

  predicate AllValid(fs: seq<Forward>) {
    forall f :: f in fs ==> f.usable && f.Valid()
  }

  /** After a run there is nothing to do and no record to write. */
  lemma RunSettles(inst: Instance, fs: seq<Forward>)
    requires Usable(fs) && AllValid(fs)
    ensures InStep(ForwardsApplied(inst, fs), fs)
  {
    var after := ForwardsApplied(inst, fs);
    RecordNames(fs);
    NoPublishes(after.devices, fs);
    NoRemoves(after.devices, SplitList(after.managed), Names(fs));
    forall f | f in fs ensures Matches(after.devices, f) {
      DeclaredAt(inst, fs, f);
    }
  }

  // ------------------------------------------------------------------- many manifests

  /** The instance after converging each manifest in turn. */
  ghost function AfterRuns(inst: Instance, runs: seq<seq<Forward>>): Instance {
    if runs == [] then inst else ForwardsApplied(AfterRuns(inst, runs[..|runs| - 1]), runs[|runs| - 1])
  }

  /** A name some manifest declared. */
  predicate EverDeclared(runs: seq<seq<Forward>>, n: string) {
    exists i :: 0 <= i < |runs| && n in Names(runs[i])
  }

  /** What the runs make of the device called n. */
  predicate PortAfter(inst: Instance, runs: seq<seq<Forward>>, after: map<string, Device>, n: string)
    requires runs != []
  {
    if n in Names(runs[|runs| - 1]) then IsProxy(after, n)
    else if EverDeclared(runs, n) then n !in after
    else if n in SplitList(inst.managed) && IsProxy(inst.devices, n) then n !in after
    else Same(inst.devices, after, n)
  }

  /** Over any sequence of manifests: after the last nothing is left to do; of the ports ever declared, and those
      recorded as managed at the start, exactly the last manifest's are there; and every other device is as it was. */
  lemma {:induction false} ManyRuns(inst: Instance, runs: seq<seq<Forward>>, n: string)
    requires forall i :: 0 <= i < |runs| ==> Usable(runs[i]) && AllValid(runs[i])
    requires runs != []
    ensures InStep(AfterRuns(inst, runs), runs[|runs| - 1])
    ensures PortAfter(inst, runs, AfterRuns(inst, runs).devices, n)
  {
    var init, last := runs[..|runs| - 1], runs[|runs| - 1];
    var before := AfterRuns(inst, init);
    assert runs == init + [last];
    RunSettles(before, last);
    if n in Names(last) {
      var f :| f in last && f.device == n;
      DeclaredAt(before, last, f);
    } else {
      OthersAt(before, last, n);
      EverDeclaredSnoc(init, last, n);
      if init != [] {
        ManyRuns(inst, init, n);
        RecordNames(init[|init| - 1]);
      }
    }
  }

  lemma EverDeclaredSnoc(init: seq<seq<Forward>>, last: seq<Forward>, n: string)
    ensures EverDeclared(init + [last], n) <==> EverDeclared(init, n) || n in Names(last)
  {
    var runs := init + [last];
    assert runs[|init|] == last;
    if EverDeclared(init, n) {
      var i :| 0 <= i < |init| && n in Names(init[i]);
      assert runs[i] == init[i];
    }
  }
}
