/** Data volumes: creating and attaching them (pkg/incus/client.go) and their snapshot schedules
    (pkg/engine/snapshots.go). */
module Volumes {
  import opened Text
  import opened Host

  /** A volume a manifest declares, with its snapshot policy, its own or the fleet's. */
  datatype Volume = Volume(key: VolKey, path: string, shifted: bool, policy: Option<Vars>)

  function ReplaceChar(s: string, a: char, b: char): string {
    if s == "" then "" else [if s[0] == a then b else s[0]] + ReplaceChar(s[1..], a, b)
  }

  /** The device a volume mounted at path is attached as. */
  function DeviceName(path: string): string {
    var name := ReplaceChar(if path != "" && path[0] == '/' then path[1..] else path, '/', '-');
    if name == "" then "data-vol" else name
  }

  /** The path without its first slash, each other one a dash; data-vol when nothing is left. */
  lemma DeviceNameIs(path: string)
    ensures var kept := if path != "" && path[0] == '/' then path[1..] else path;
      if kept == "" then DeviceName(path) == "data-vol" else
        |DeviceName(path)| == |kept| && forall i :: 0 <= i < |kept| ==>
          DeviceName(path)[i] == if kept[i] == '/' then '-' else kept[i]
  {
    ReplacedAt(if path != "" && path[0] == '/' then path[1..] else path, '/', '-');
  }

  lemma {:induction false} ReplacedAt(s: string, a: char, b: char)
    ensures |ReplaceChar(s, a, b)| == |s|
    ensures forall i :: 0 <= i < |s| ==> ReplaceChar(s, a, b)[i] == if s[i] == a then b else s[i]
  {
    if s != "" {
      ReplacedAt(s[1..], a, b);
      assert forall i :: 1 <= i < |s| ==> ReplaceChar(s, a, b)[i] == ReplaceChar(s[1..], a, b)[i - 1];
    }
  }

  function Props(v: Volume): Device {
    map["type" := "disk", "pool" := v.key.pool, "source" := v.key.name, "path" := v.path]
  }

  predicate Carries(d: Device, v: Volume) {
    && Get(d, "type") == "disk" && Get(d, "pool") == v.key.pool
    && Get(d, "source") == v.key.name && Get(d, "path") == v.path
  }

  predicate CarriedBy(devices: map<string, Device>, n: string, v: Volume) {
    n in devices && Carries(devices[n], v)
  }

  predicate Attached(devices: map<string, Device>, v: Volume) {
    exists n :: n in devices.Keys && CarriedBy(devices, n, v)
  }

  /** Another disk at the same path, or the same volume at another path. */
  predicate InTheWay(d: Device, v: Volume) {
    IsDisk(d) && (Get(d, "path") == v.path || (Get(d, "source") == v.key.name && Get(d, "pool") == v.key.pool))
  }

  /** Attaching it would hide data, mount it twice or take a device's name. */
  predicate Clashes(devices: map<string, Device>, v: Volume) {
    (exists n :: n in devices.Keys && InTheWay(devices[n], v)) || DeviceName(v.path) in devices
  }

  datatype Attachment = IsAttached | IsClash | IsFree

  /** Whether a volume is attached, can be, or must not be. */
  method VolumeAttachment(devices: map<string, Device>, v: Volume) returns (a: Attachment)
    ensures a == if Attached(devices, v) then IsAttached else if Clashes(devices, v) then IsClash else IsFree
  {
    var todo := devices.Keys;
    while todo != {}
      invariant todo <= devices.Keys && forall n :: n in devices.Keys - todo ==> !CarriedBy(devices, n, v)
    {
      var n :| n in todo;
      if CarriedBy(devices, n, v) {
        return IsAttached;
      }
      todo := todo - {n};
    }
    var clash := FindClash(devices, v);
    return if clash || DeviceName(v.path) in devices then IsClash else IsFree;
  }

  method NamesOf(devices: map<string, Device>) returns (names: seq<string>)
    ensures forall n :: n in names <==> n in devices.Keys
  {
    names := SortKeys(devices.Keys);
  }

  method FindClash(devices: map<string, Device>, v: Volume) returns (found: bool)
    ensures found <==> exists n :: n in devices.Keys && InTheWay(devices[n], v)
  {
    var names := NamesOf(devices);
    found := false;
    for i := 0 to |names|
      invariant !found
      invariant forall k :: 0 <= k < i ==> names[k] in devices && !InTheWay(devices[names[k]], v)
    {
      assert names[i] in names;
      if InTheWay(devices[names[i]], v) {
        return true;
      }
    }
    assert forall n :: n in devices.Keys ==> n in names;
  }

  // ------------------------------------------------------------------- attaching

  function Created(v: Volume): Vars {
    if v.shifted then map["security.shifted" := "true"] else map[]
  }

  /** The volumes once those declared exist; one that does is left as it is. */
  function Ensured(volumes: map<VolKey, Vars>, vs: seq<Volume>): map<VolKey, Vars> {
    if vs == [] then volumes else
      var before, v := Ensured(volumes, vs[..|vs| - 1]), vs[|vs| - 1];
      if v.key in before then before else before[v.key := Created(v)]
  }

  /** The devices once the volumes are attached, or None where attaching one is refused. */
  function AttachAll(devices: map<string, Device>, vs: seq<Volume>): Option<map<string, Device>> {
    if vs == [] then Some(devices) else
      var before, v := AttachAll(devices, vs[..|vs| - 1]), vs[|vs| - 1];
      if before.None? || Attached(before.value, v) then before
      else if Clashes(before.value, v) then None
      else Some(before.value[DeviceName(v.path) := Props(v)])
  }

  predicate Extends(a: map<string, Device>, b: map<string, Device>) {
    forall n :: n in a ==> n in b && b[n] == a[n]
  }

  lemma StaysAttached(a: map<string, Device>, b: map<string, Device>, v: Volume)
    requires Extends(a, b) && Attached(a, v)
    ensures Attached(b, v)
  {
    var n :| n in a.Keys && CarriedBy(a, n, v);
    assert CarriedBy(b, n, v);
  }

  /** Attaching adds devices and changes none; afterwards each volume is attached. */
  lemma {:induction false} AttachAllAttaches(devices: map<string, Device>, vs: seq<Volume>)
    requires AttachAll(devices, vs).Some?
    ensures Extends(devices, AttachAll(devices, vs).value)
    ensures forall v :: v in vs ==> Attached(AttachAll(devices, vs).value, v)
  {
    if vs != [] {
      var init, v := vs[..|vs| - 1], vs[|vs| - 1];
      assert vs == init + [v];
      AttachAllAttaches(devices, init);
      var before, after := AttachAll(devices, init).value, AttachAll(devices, vs).value;
      if !Attached(before, v) {
        assert CarriedBy(after, DeviceName(v.path), v);
      }
      forall u | u in vs ensures Attached(after, u) {
        if u in init {
          StaysAttached(before, after, u);
        }
      }
    }
  }

  /** Every device there was or is named after a volume. */
  lemma {:induction false} AttachAllNames(devices: map<string, Device>, vs: seq<Volume>, n: string)
    requires AttachAll(devices, vs).Some? && n in AttachAll(devices, vs).value
    ensures n in devices || exists v :: v in vs && DeviceName(v.path) == n
  {
    if vs != [] {
      var init, v := vs[..|vs| - 1], vs[|vs| - 1];
      assert vs == init + [v];
      if n in AttachAll(devices, init).value {
        AttachAllNames(devices, init, n);
      } else {
        assert v in vs && DeviceName(v.path) == n;
      }
    }
  }

  predicate AllAttached(devices: map<string, Device>, vs: seq<Volume>) {
    forall v :: v in vs ==> Attached(devices, v)
  }

  /** Nothing is attached exactly when everything is. */
  lemma {:induction false} AttachAllIdle(devices: map<string, Device>, vs: seq<Volume>)
    ensures AttachAll(devices, vs) == Some(devices) <==> AllAttached(devices, vs)
  {
    if vs != [] {
      var init, v := vs[..|vs| - 1], vs[|vs| - 1];
      assert vs == init + [v];
      AttachAllIdle(devices, init);
      if AttachAll(devices, vs) == Some(devices) {
        AttachAllAttaches(devices, vs);
      }
    }
  }

  predicate AllExist(volumes: map<VolKey, Vars>, vs: seq<Volume>) {
    forall v :: v in vs ==> v.key in volumes
  }

  lemma {:induction false} EnsuredExist(volumes: map<VolKey, Vars>, vs: seq<Volume>)
    ensures AllExist(Ensured(volumes, vs), vs)
    ensures Ensured(volumes, vs) == volumes <==> AllExist(volumes, vs)
    ensures forall k :: k in volumes ==> k in Ensured(volumes, vs) && Ensured(volumes, vs)[k] == volumes[k]
  {
    if vs != [] {
      assert vs == vs[..|vs| - 1] + [vs[|vs| - 1]];
      EnsuredExist(volumes, vs[..|vs| - 1]);
    }
  }

  method EnsureVolume(ic: Incus, v: Volume) returns (ok: bool)
    modifies ic
    ensures ic.writes >= old(ic.writes)
    ensures ok ==> ic.host == old(ic.host).(volumes := if v.key in old(ic.host).volumes then old(ic.host).volumes
                                                       else old(ic.host).volumes[v.key := Created(v)])
    ensures ok ==> v.key in ic.host.volumes
    ensures ok && v.key !in old(ic.host).volumes ==>
      ic.host.volumes[v.key] == if v.shifted then map["security.shifted" := "true"] else map[]
    ensures ok ==> (ic.writes > old(ic.writes) <==> v.key !in old(ic.host).volumes)
    ensures ic.failures >= old(ic.failures) && old(ic.asked) <= ic.asked && (ic.failures == old(ic.failures) ==> ok)
    ensures Unharmed(old(ic.host), ic.host)
  {
    var shown := ic.Ask(Read);
    if shown && v.key in ic.host.volumes {
      return true;
    }
    ok := v.key !in ic.host.volumes;
    if ok {
      ok := ic.Run(ic.host.(volumes := ic.host.volumes[v.key := Created(v)]));
    }
  }

  method EnsureVolumeAttached(ic: Incus, v: Volume) returns (ok: bool)
    modifies ic
    ensures ic.writes >= old(ic.writes)
    ensures ok ==> old(ic.host).inst.Some? && AttachAll(old(ic.host).inst.value.devices, [v]).Some?
    ensures ok ==> ic.host == WithDevices(old(ic.host), AttachAll(old(ic.host).inst.value.devices, [v]).value)
    ensures ok ==> (ic.writes > old(ic.writes) <==> !Attached(old(ic.host).inst.value.devices, v))
    ensures ic.failures >= old(ic.failures) && old(ic.asked) <= ic.asked
    ensures Unharmed(old(ic.host), ic.host)
    ensures ic.failures == old(ic.failures) ==>
      (ok <==> old(ic.host).inst.Some? && AttachAll(old(ic.host).inst.value.devices, [v]).Some?)
  {
    var st;
    ok, st := ic.Capture();
    if !ok {
      return;
    }
    assert [v][..0] == [];
    var a := VolumeAttachment(st.devices, v);
    match a {
      case IsAttached =>
      case IsClash => ok := false;
      case IsFree => ok := ic.SetDevice(DeviceName(v.path), Props(v));
    }
  }

  lemma AttachSnoc(devices: map<string, Device>, vs: seq<Volume>, v: Volume)
    requires AttachAll(devices, vs).Some?
    ensures AttachAll(devices, vs + [v]) == AttachAll(AttachAll(devices, vs).value, [v])
  {
    assert (vs + [v])[..|vs|] == vs && [v][..0] == [];
  }

  /** Where the first n can be attached and the next cannot, not all can. */
  lemma {:induction false} RefusedStays(devices: map<string, Device>, vs: seq<Volume>, n: nat)
    requires n < |vs| && AttachAll(devices, vs[..n]).Some?
    ensures AttachAll(AttachAll(devices, vs[..n]).value, [vs[n]]).None? ==> AttachAll(devices, vs).None?
  {
    AttachSnoc(devices, vs[..n], vs[n]);
    assert vs[..n + 1] == vs[..n] + [vs[n]];
    if AttachAll(devices, vs[..n + 1]).None? {
      NoneStays(devices, vs, n + 1);
    }
  }

  lemma {:induction false} NoneStays(devices: map<string, Device>, vs: seq<Volume>, n: nat)
    requires n <= |vs| && AttachAll(devices, vs[..n]).None?
    ensures AttachAll(devices, vs).None?
    decreases |vs| - n
  {
    if n == |vs| {
      assert vs[..n] == vs;
    } else {
      assert vs[..n + 1][..n] == vs[..n];
      NoneStays(devices, vs, n + 1);
    }
  }

  /** Creates and attaches each declared volume. */
  method EnsureAttached(ic: Incus, vs: seq<Volume>) returns (ok: bool)
    requires ic.host.inst.Some?
    modifies ic
    ensures ic.writes >= old(ic.writes)
    ensures ok ==> AttachAll(old(ic.host).inst.value.devices, vs).Some?
    ensures ok ==> ic.host == WithVolumes(old(ic.host), vs)
    ensures ok ==> (ic.writes > old(ic.writes) <==> WithVolumes(old(ic.host), vs) != old(ic.host))
    ensures ic.failures >= old(ic.failures) && old(ic.asked) <= ic.asked
    ensures Unharmed(old(ic.host), ic.host)
    ensures ic.failures == old(ic.failures) ==> (ok <==> AttachAll(old(ic.host.inst.value.devices), vs).Some?)
  {
    ghost var h := ic.host;
    for n := 0 to |vs|
      invariant AttachAll(h.inst.value.devices, vs[..n]).Some? && ic.host == WithVolumes(h, vs[..n])
      invariant ic.writes >= old(ic.writes) && (ic.writes > old(ic.writes) <==> ic.host != h)
      invariant ic.failures >= old(ic.failures) && old(ic.asked) <= ic.asked && Unharmed(old(ic.host), ic.host)
    {
      assert vs[..n + 1][..n] == vs[..n] && vs[..n + 1] == vs[..n] + [vs[n]];
      ok := EnsureVolume(ic, vs[n]);
      if !ok {
        return;
      }
      ok := EnsureVolumeAttached(ic, vs[n]);
      if !ok {
        RefusedStays(h.inst.value.devices, vs, n);
        return;
      }
      AttachSnoc(h.inst.value.devices, vs[..n], vs[n]);
      VolumesStep(h, vs[..n], vs[n]);
    }
    assert vs[..|vs|] == vs;
    ok := true;
  }

  /** The host once the volumes exist and are attached. */
  function WithVolumes(h: Host, vs: seq<Volume>): Host
    requires h.inst.Some? && AttachAll(h.inst.value.devices, vs).Some?
  {
    WithDevices(h, AttachAll(h.inst.value.devices, vs).value).(volumes := Ensured(h.volumes, vs))
  }

  /** Once a volume was created or attached, the host differs for good. */
  lemma VolumesStep(h: Host, vs: seq<Volume>, v: Volume)
    requires h.inst.Some? && AttachAll(h.inst.value.devices, vs + [v]).Some?
    ensures AttachAll(h.inst.value.devices, vs).Some?
    ensures WithVolumes(h, vs + [v]) == h
      <==> WithVolumes(h, vs) == h && v.key in h.volumes && Attached(h.inst.value.devices, v)
  {
    assert (vs + [v])[..|vs|] == vs;
    EnsuredExist(h.volumes, vs);
    EnsuredExist(h.volumes, vs + [v]);
    AttachAllIdle(h.inst.value.devices, vs);
    AttachAllIdle(h.inst.value.devices, vs + [v]);
  }
}
