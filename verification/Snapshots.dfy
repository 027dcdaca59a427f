/** The snapshot schedule a volume carries as its own config (pkg/engine/snapshots.go). */
module Snapshots {
  import opened Text
  import opened Host
  import opened Volumes

  const SNAPSHOT_KEYS := ["snapshots.schedule", "snapshots.expiry", "snapshots.pattern"]

  /** Setting a key to "" unsets it. */
  function SetKey(live: Vars, k: string, v: string): Vars {
    if v == "" then live - {k} else live[k := v]
  }

  function SetKeys(live: Vars, policy: Vars, keys: seq<string>): Vars {
    if keys == [] then live else
      var before, k := SetKeys(live, policy, keys[..|keys| - 1]), keys[|keys| - 1];
      if Get(live, k) == Get(policy, k) then before else SetKey(before, k, Get(policy, k))
  }

  predicate Agrees(live: Vars, policy: Vars, keys: seq<string>) {
    forall k :: k in keys ==> Get(live, k) == Get(policy, k)
  }

  predicate InPolicy(live: Vars, policy: Vars) {
    Agrees(live, policy, SNAPSHOT_KEYS)
  }

  /** Setting the keys that differ makes all agree, and touches no other; it does nothing exactly when none does. */
  lemma {:induction false} SetKeysAgree(live: Vars, policy: Vars, keys: seq<string>)
    ensures Agrees(SetKeys(live, policy, keys), policy, keys)
    ensures forall k :: k !in keys ==> Get(SetKeys(live, policy, keys), k) == Get(live, k)
    ensures SetKeys(live, policy, keys) == live <==> Agrees(live, policy, keys)
  {
    if keys != [] {
      assert keys == keys[..|keys| - 1] + [keys[|keys| - 1]];
      SetKeysAgree(live, policy, keys[..|keys| - 1]);
    }
  }

  /** A key the policy does not give is unset, not empty. */
  lemma {:induction false} SetKeysUnset(live: Vars, policy: Vars, keys: seq<string>, k: string)
    requires k in keys && Get(policy, k) == "" && Get(live, k) != ""
    ensures k !in SetKeys(live, policy, keys)
  {
    var init := keys[..|keys| - 1];
    assert keys == init + [keys[|keys| - 1]];
    if k in init {
      SetKeysUnset(live, policy, init, k);
    }
  }

  /** The volumes once each carries its policy, or None when one with a policy does not exist. */
  function Scheduled(volumes: map<VolKey, Vars>, vs: seq<Volume>): Option<map<VolKey, Vars>> {
    if vs == [] then Some(volumes) else
      var before, v := Scheduled(volumes, vs[..|vs| - 1]), vs[|vs| - 1];
      if before.None? || v.policy.None? then before
      else if v.key !in before.value then None
      else Some(before.value[v.key := SetKeys(before.value[v.key], v.policy.value, SNAPSHOT_KEYS)])
  }

  predicate OnSchedule(volumes: map<VolKey, Vars>, v: Volume) {
    v.policy.Some? ==> v.key in volumes && InPolicy(volumes[v.key], v.policy.value)
  }

  predicate AllOnSchedule(volumes: map<VolKey, Vars>, vs: seq<Volume>) {
    forall v :: v in vs ==> OnSchedule(volumes, v)
  }

  predicate Distinct(vs: seq<Volume>) {
    forall i, j :: 0 <= i < j < |vs| ==> vs[i].key != vs[j].key
  }

  lemma {:induction false} ScheduledKeeps(volumes: map<VolKey, Vars>, vs: seq<Volume>)
    requires Scheduled(volumes, vs).Some?
    ensures Scheduled(volumes, vs).value.Keys == volumes.Keys
    ensures forall k :: k in volumes && (forall v :: v in vs ==> v.key != k) ==>
      Scheduled(volumes, vs).value[k] == volumes[k]
  {
    if vs != [] {
      assert vs == vs[..|vs| - 1] + [vs[|vs| - 1]];
      ScheduledKeeps(volumes, vs[..|vs| - 1]);
    }
  }

  /** Afterwards every volume carries its policy, if no two declarations name one volume. */
  lemma {:induction false} ScheduledAgrees(volumes: map<VolKey, Vars>, vs: seq<Volume>)
    requires Distinct(vs) && Scheduled(volumes, vs).Some?
    ensures AllOnSchedule(Scheduled(volumes, vs).value, vs)
  {
    if vs != [] {
      var init, v := vs[..|vs| - 1], vs[|vs| - 1];
      assert vs == init + [v];
      ScheduledAgrees(volumes, init);
      ScheduledKeeps(volumes, init);
      if v.policy.Some? {
        SetKeysAgree(Scheduled(volumes, init).value[v.key], v.policy.value, SNAPSHOT_KEYS);
      }
      assert forall u :: u in init ==> u.key != v.key;
    }
  }

  /** Nothing is set exactly when every volume carries its policy already. */
  lemma {:induction false} ScheduledIdle(volumes: map<VolKey, Vars>, vs: seq<Volume>)
    ensures AllOnSchedule(volumes, vs) ==> Scheduled(volumes, vs) == Some(volumes)
    ensures Distinct(vs) && Scheduled(volumes, vs) == Some(volumes) ==> AllOnSchedule(volumes, vs)
  {
    if vs != [] {
      var init, v := vs[..|vs| - 1], vs[|vs| - 1];
      assert vs == init + [v];
      ScheduledIdle(volumes, init);
      if OnSchedule(volumes, v) && v.policy.Some? {
        SetKeysAgree(volumes[v.key], v.policy.value, SNAPSHOT_KEYS);
        assert volumes[v.key := volumes[v.key]] == volumes;
      }
      if Distinct(vs) && Scheduled(volumes, vs) == Some(volumes) {
        ScheduledAgrees(volumes, vs);
      }
    }
  }

  method EnsureSnapshotPolicy(ic: Incus, v: Volume) returns (ok: bool, changed: bool)
    modifies ic
    ensures ic.writes >= old(ic.writes)
    ensures ok ==> Scheduled(old(ic.host).volumes, [v]).Some?
    ensures ok ==> ic.host == old(ic.host).(volumes := Scheduled(old(ic.host).volumes, [v]).value)
    ensures ok ==> (changed <==> !OnSchedule(old(ic.host).volumes, v)) && (ic.writes > old(ic.writes) <==> changed)
    ensures ic.failures >= old(ic.failures) && old(ic.asked) <= ic.asked
    ensures Unharmed(old(ic.host), ic.host)
    ensures ic.failures == old(ic.failures) ==> (ok <==> Scheduled(old(ic.host).volumes, [v]).Some?)
  {
    changed := false;
    assert [v][..0] == [];
    if v.policy.None? {
      return true, false;
    }
    ok := ic.Ask(Read);
    if !ok || v.key !in ic.host.volumes {
      return false, false;
    }
    ok, changed := SetDrifted(ic, v.key, v.policy.value, SNAPSHOT_KEYS);
  }

  function WithConfig(h: Host, key: VolKey, config: Vars): Host {
    h.(volumes := h.volumes[key := config])
  }

  lemma SetKeysStep(live: Vars, policy: Vars, keys: seq<string>, n: nat)
    requires n < |keys|
    ensures var before, k := SetKeys(live, policy, keys[..n]), keys[n];
      && SetKeys(live, policy, keys[..n + 1])
         == (if Get(live, k) == Get(policy, k) then before else SetKey(before, k, Get(policy, k)))
      && (Agrees(live, policy, keys[..n + 1]) <==> Agrees(live, policy, keys[..n]) && Get(live, k) == Get(policy, k))
  {
    assert keys[..n + 1][..n] == keys[..n] && keys[..n + 1] == keys[..n] + [keys[n]];
  }

  /** Sets the keys in which a volume's config differs from the policy. */
  method SetDrifted(ic: Incus, key: VolKey, policy: Vars, keys: seq<string>) returns (ok: bool, changed: bool)
    requires key in ic.host.volumes
    modifies ic
    ensures ok ==> ic.host == WithConfig(old(ic.host), key, SetKeys(old(ic.host.volumes[key]), policy, keys))
    ensures ok ==> (changed <==> !Agrees(old(ic.host.volumes[key]), policy, keys))
    ensures ok ==> (ic.writes > old(ic.writes) <==> changed)
    ensures ic.writes >= old(ic.writes) && ic.failures == old(ic.failures) + (if ok then 0 else 1)
    ensures ic.asked == old(ic.asked) && Unharmed(old(ic.host), ic.host)
  {
    ghost var h := ic.host;
    var live := ic.host.volumes[key];
    changed := false;
    for n := 0 to |keys|
      invariant ic.host == WithConfig(h, key, SetKeys(live, policy, keys[..n]))
      invariant ic.writes >= old(ic.writes) && (changed <==> ic.writes > old(ic.writes))
      invariant changed <==> !Agrees(live, policy, keys[..n])
      invariant ic.failures == old(ic.failures) && ic.asked == old(ic.asked)
    {
      SetKeysStep(live, policy, keys, n);
      var k := keys[n];
      if Get(live, k) != Get(policy, k) {
        ok := ic.Run(WithConfig(ic.host, key, SetKey(ic.host.volumes[key], k, Get(policy, k))));
        if !ok {
          return;
        }
        changed := true;
      }
    }
    assert keys[..|keys|] == keys;
    ok := true;
  }

  /** The volumes before it leave a volume as it was. */
  lemma NextIsUntouched(volumes: map<VolKey, Vars>, vs: seq<Volume>, n: nat)
    requires Distinct(vs) && n < |vs| && Scheduled(volumes, vs[..n]).Some?
    ensures OnSchedule(Scheduled(volumes, vs[..n]).value, vs[n]) <==> OnSchedule(volumes, vs[n])
  {
    ScheduledKeeps(volumes, vs[..n]);
    assert forall v :: v in vs[..n] ==> v.key != vs[n].key;
  }

  /** One more volume, given the policies of those before it. */
  lemma ScheduledStep(volumes: map<VolKey, Vars>, vs: seq<Volume>, n: nat)
    requires Distinct(vs) && n < |vs| && Scheduled(volumes, vs[..n]).Some?
    ensures Scheduled(volumes, vs[..n + 1]) == Scheduled(Scheduled(volumes, vs[..n]).value, [vs[n]])
    ensures AllOnSchedule(volumes, vs[..n + 1])
      <==> AllOnSchedule(volumes, vs[..n]) && OnSchedule(Scheduled(volumes, vs[..n]).value, vs[n])
    ensures Scheduled(volumes, vs[..n + 1]).None? ==> Scheduled(volumes, vs).None?
  {
    assert vs[..n + 1][..n] == vs[..n] && vs[..n + 1] == vs[..n] + [vs[n]] && [vs[n]][..0] == [];
    NextIsUntouched(volumes, vs, n);
    if Scheduled(volumes, vs[..n + 1]).None? {
      UnscheduledStays(volumes, vs, n + 1);
    }
  }

  lemma {:induction false} UnscheduledStays(volumes: map<VolKey, Vars>, vs: seq<Volume>, n: nat)
    requires n <= |vs| && Scheduled(volumes, vs[..n]).None?
    ensures Scheduled(volumes, vs).None?
    decreases |vs| - n
  {
    if n == |vs| {
      assert vs[..n] == vs;
    } else {
      assert vs[..n + 1][..n] == vs[..n];
      UnscheduledStays(volumes, vs, n + 1);
    }
  }

  method EnsureVolumeSnapshots(ic: Incus, vs: seq<Volume>) returns (ok: bool, changed: bool)
    requires Distinct(vs)
    modifies ic
    ensures ic.writes >= old(ic.writes)
    ensures ok ==> Scheduled(old(ic.host).volumes, vs).Some?
    ensures ok ==> ic.host == old(ic.host).(volumes := Scheduled(old(ic.host).volumes, vs).value)
    ensures ok ==> (changed <==> !AllOnSchedule(old(ic.host).volumes, vs)) && (ic.writes > old(ic.writes) <==> changed)
    ensures ic.failures >= old(ic.failures) && old(ic.asked) <= ic.asked
    ensures Unharmed(old(ic.host), ic.host)
    ensures ic.failures == old(ic.failures) ==> (ok <==> Scheduled(old(ic.host).volumes, vs).Some?)
  {
    ghost var h := ic.host;
    changed := false;
    for n := 0 to |vs|
      invariant Scheduled(h.volumes, vs[..n]).Some? && ic.host == h.(volumes := Scheduled(h.volumes, vs[..n]).value)
      invariant ic.writes >= old(ic.writes) && (changed <==> ic.writes > old(ic.writes))
      invariant changed <==> !AllOnSchedule(h.volumes, vs[..n])
      invariant ic.failures >= old(ic.failures) && old(ic.asked) <= ic.asked && Unharmed(old(ic.host), ic.host)
    {
      ScheduledStep(h.volumes, vs, n);
      var c;
      ok, c := EnsureSnapshotPolicy(ic, vs[n]);
      if !ok {
        return;
      }
      changed := changed || c;
    }
    assert vs[..|vs|] == vs;
    ok := true;
  }
}
