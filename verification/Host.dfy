/** One Incus host as one service sees it, and the commands that change it (pkg/incus). A command that fails
    changes nothing. writes counts the commands that changed the host, failures those that failed. */
module Host {
  import opened Text

  type Vars = map<string, string>

  type Device = map<string, string>

  /** What Go's map lookup gives: "" for a key that is not there. */
  function Get(m: Vars, k: string): string {
    if k in m then m[k] else ""
  }

  /** An instance. Its config is kept apart by the prefixes native-ops gives a meaning to: the recorded image,
      labels, environment.* and the record of managed forwards; config holds the other keys, limits.* among them.
      A recorded image or managed "" is a key that is not there. envFile is the service's environment file. */
  datatype Instance = Instance(
    base: string, oci: bool, profiles: seq<string>,
    recorded: string, labels: Vars, environment: Vars, managed: string, config: Vars,
    devices: map<string, Device>, envFile: Option<string>, addresses: seq<string>)

  datatype VolKey = VolKey(pool: string, name: string)

  /** A published site file: the route it was rendered for and the upstream address in it, if any is found. */
  datatype Site = Site(route: string, upstream: Option<string>)

  datatype CaddyBase = Missing | Imports | Foreign

  /** The edge: whether it is there, whether its Caddyfile imports the sites directory, and the service's site. */
  datatype Edge = Edge(present: bool, caddyfile: CaddyBase, site: Option<Site>)

  datatype Host = Host(inst: Option<Instance>, volumes: map<VolKey, Vars>, edge: Edge)

  /** What launching an image turns out to give. */
  datatype Lease = Lease(base: string, oci: bool, envFile: Option<string>, addresses: seq<string>)

  predicate IsHex(c: char) {
    '0' <= c <= '9' || 'a' <= c <= 'f'
  }

  predicate IsFingerprint(ref: string) {
    |ref| == 64 && forall c :: c in ref ==> IsHex(c)
  }

  /** A fingerprint launches the image it names. */
  predicate LeaseOf(image: string, lease: Lease) {
    lease.base != "" && (IsFingerprint(image) ==> lease.base == image)
  }

  /** The default profile carries the root disk and the network: it is put first unless it is listed. */
  function WithDefault(profiles: seq<string>): seq<string> {
    if "default" in profiles then profiles else ["default"] + profiles
  }

  /** An instance just launched with the configuration of like, which need not be there any more. */
  function Launched(like: Instance, lease: Lease): Instance {
    like.(base := lease.base, oci := lease.oci, profiles := WithDefault(like.profiles), devices := map[],
          envFile := lease.envFile, addresses := lease.addresses)
  }

  predicate IsDisk(d: Device) {
    Get(d, "type") == "disk" && Get(d, "source") != ""
  }

  /** The custom volumes an instance's disk devices carry. */
  function VolumesOf(inst: Instance): set<VolKey> {
    set n | n in inst.devices && IsDisk(inst.devices[n]) && Get(inst.devices[n], "pool") != ""
      :: VolKey(Get(inst.devices[n], "pool"), Get(inst.devices[n], "source"))
  }

  /** The site once it points at one of the addresses: an upstream that is still one of them is kept. */
  function Repointed(site: Option<Site>, addresses: seq<string>): Option<Site> {
    if site.Some? && site.value.upstream.Some? && site.value.upstream.value !in addresses && addresses != []
    then Some(site.value.(upstream := Some(addresses[0]))) else site
  }

  /** What is asked on the way, besides the commands. */
  datatype Question = Read | Hook | Snapshot(volume: VolKey) | RestartUnit | Health | Validate | Reload

  datatype Answer = Answer(q: Question, ok: bool)

  /** It was asked since, with that answer. */
  predicate Asked(before: seq<Answer>, after: seq<Answer>, a: Answer) {
    exists i :: |before| <= i < |after| && after[i] == a
  }

  /** Found well since, if that is asked for. */
  predicate FoundWell(wanted: bool, before: seq<Answer>, after: seq<Answer>) {
    wanted ==> Asked(before, after, Answer(Health, true))
  }

  lemma WellStays(wanted: bool, before: seq<Answer>, start: seq<Answer>, end: seq<Answer>, after: seq<Answer>)
    requires before <= start && end <= after && FoundWell(wanted, start, end)
    ensures FoundWell(wanted, before, after)
  {
    if wanted {
      AskedStays(before, start, end, after, Answer(Health, true));
    }
  }

  lemma AskedStays(before: seq<Answer>, start: seq<Answer>, end: seq<Answer>, after: seq<Answer>, a: Answer)
    requires before <= start && end <= after && Asked(start, end, a)
    ensures Asked(before, after, a)
  {
    var i :| |start| <= i < |end| && end[i] == a;
    assert after[i] == a;
  }

  class Incus {
    var host: Host
    var writes: nat
    ghost var failures: nat
    ghost var asked: seq<Answer>

    constructor (h: Host)
      ensures host == h && writes == 0 && failures == 0 && asked == []
    {
      host, writes, failures, asked := h, 0, 0, [];
    }

    /** Whether a command goes through is not ours to say. */
    method Try() returns (ok: bool)
      modifies this`failures
      ensures failures == old(failures) + (if ok then 0 else 1)
    {
      ok := *;
      failures := failures + if ok then 0 else 1;
    }

    /** A read, a hook or a check. */
    method Ask(ghost q: Question) returns (ok: bool)
      modifies this`failures, this`asked
      ensures failures == old(failures) + (if ok then 0 else 1) && asked == old(asked) + [Answer(q, ok)]
    {
      ok := Try();
      asked := asked + [Answer(q, ok)];
    }

    /** A command that makes the host what it should be, or fails. */
    method Run(next: Host) returns (ok: bool)
      modifies this
      ensures host == (if ok then next else old(host)) && writes == old(writes) + (if ok then 1 else 0)
      ensures failures == old(failures) + (if ok then 0 else 1) && asked == old(asked)
    {
      ok := Try();
      if ok {
        host, writes := next, writes + 1;
      }
    }

    /** A command on the instance. */
    method Change(inst: Instance) returns (ok: bool)
      modifies this
      ensures ok ==> old(host).inst.Some?
      ensures host == (if ok then old(host).(inst := Some(inst)) else old(host))
      ensures writes == old(writes) + (if ok then 1 else 0)
      ensures failures == old(failures) + (if ok then 0 else 1) && asked == old(asked)
    {
      ok := host.inst.Some?;
      if ok {
        ok := Run(host.(inst := Some(inst)));
      } else {
        failures := failures + 1;
      }
    }

    /** incus config show. */
    method Capture() returns (ok: bool, st: Instance)
      modifies this`failures, this`asked
      ensures ok ==> host.inst == Some(st)
      ensures failures >= old(failures) && old(asked) <= asked
      ensures failures == old(failures) ==> (ok <==> host.inst.Some?)
    {
      ok := Ask(Read);
      st := Instance("", false, [], "", map[], map[], "", map[], map[], None, []);
      if host.inst.Some? {
        st := host.inst.value;
      } else {
        ok := false;
      }
    }

    /** incus launch. */
    method Launch(image: string, like: Instance) returns (ok: bool, ghost lease: Lease)
      modifies this
      ensures ok ==> old(host).inst.None? && LeaseOf(image, lease)
      ensures host == (if ok then old(host).(inst := Some(Launched(like, lease))) else old(host))
      ensures writes == old(writes) + (if ok then 1 else 0)
      ensures failures == old(failures) + (if ok then 0 else 1) && asked == old(asked)
    {
      var l: Lease := *;
      lease := l;
      ok := host.inst.None? && LeaseOf(image, l);
      if ok {
        ok := Run(host.(inst := Some(Launched(like, l))));
      } else {
        failures := failures + 1;
      }
    }

    /** The instance is stopped and deleted. A check that cannot tell whether it is there counts as gone, and then
        nothing is deleted. */
    method StopAndDelete() returns (ok: bool)
      modifies this
      ensures host == old(host) || host == old(host).(inst := None)
      ensures ok && host.inst.Some? ==> host == old(host)
      ensures !ok ==> host == old(host)
      ensures writes >= old(writes)
      ensures failures >= old(failures) && old(asked) <= asked
      ensures failures == old(failures) ==> ok && host.inst.None?
    {
      if host.inst.None? {
        return true;
      }
      var seen := Ask(Read);
      if !seen {
        return true;
      }
      ok := Run(host.(inst := None));
      if !ok {
        seen := *;
        ok := !seen;
      }
    }

    /** The name of a device is taken by what is set last. (The source adds a device, and overrides the keys of one
        that is there already, so this is what it does unless the name is that of a device of another type.) */
    method SetDevice(name: string, props: Device) returns (ok: bool)
      modifies this
      ensures ok ==> old(host).inst.Some?
      ensures ok ==> host == WithDevice(old(host), name, props) && writes == old(writes) + 1
      ensures !ok ==> host == old(host) && writes == old(writes)
      ensures failures == old(failures) + (if ok then 0 else 1) && asked == old(asked)
    {
      ok := host.inst.Some?;
      if ok {
        ok := Run(WithDevice(host, name, props));
      } else {
        failures := failures + 1;
      }
    }
  }

  function WithDevice(h: Host, name: string, props: Device): Host {
    if h.inst.None? then h else
      h.(inst := Some(h.inst.value.(devices := h.inst.value.devices[name := props])))
  }

  function WithDevices(h: Host, devices: map<string, Device>): Host {
    if h.inst.None? then h else h.(inst := Some(h.inst.value.(devices := devices)))
  }

  /** Whatever failed, no volume is gone, and an instance that was there is there as it was launched. */
  predicate Unharmed(before: Host, after: Host) {
    && (forall k :: k in before.volumes ==> k in after.volumes)
    && (before.inst.Some? ==> after.inst.Some? && SameLaunch(before.inst.value, after.inst.value))
  }

  predicate SameLaunch(a: Instance, b: Instance) {
    a.base == b.base && a.oci == b.oci && a.profiles == b.profiles && a.addresses == b.addresses
  }

  function WithSite(h: Host, site: Option<Site>): Host {
    h.(edge := h.edge.(site := site))
  }
}
