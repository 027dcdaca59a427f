/** Moving an instance between two Incus remotes (pkg/engine/migration.go). */
module Migration {
  import opened Text

  // The commands are those of pkg/incus/remote_ops.go. One that fails changes nothing, except a copy, which may
  // leave anything on the target; a copy made of a running instance holds arbitrary data. The operator dying
  // part-way is the same as every later command failing. Every command is logged with how it went, so that what is
  // reported can be held against what was tried.

  datatype Side = East | West {
    function Other(): Side {
      if East? then West else East
    }
  }

  datatype Status = Running | Stopped | Frozen | Broken

  datatype VolKey = VolKey(pool: string, name: string)

  /** What was written, in order. */
  type Data = seq<nat>

  /** attached: the custom volumes of its local disk devices; hostPath: a disk device mounts a host directory. */
  datatype Instance = Instance(status: Status, root: Data, attached: seq<VolKey>, profiles: set<string>, hostPath: bool)

  /** One remote, as far as the instance that moves is concerned. */
  datatype Remote = Remote(inst: Option<Instance>, vols: map<VolKey, Data>, profiles: set<string>) {
    predicate IsRunning() {
      inst.Some? && inst.value.status == Running
    }
  }

  datatype World = World(east: Remote, west: Remote) {
    function At(side: Side): Remote {
      if side.East? then east else west
    }
    function With(side: Side, r: Remote): World {
      if side.East? then World(r, west) else World(east, r)
    }
  }

  // ------------------------------------------------------------ states compared

  predicate SameButData(i: Instance, j: Instance) {
    i.attached == j.attached && i.profiles == j.profiles && i.hostPath == j.hostPath
  }

  /** Every volume is still there with at least what it held. */
  predicate VolsGrow(v: map<VolKey, Data>, w: map<VolKey, Data>) {
    v.Keys == w.Keys && forall k :: k in v ==> v[k] <= w[k]
  }

  /** The instance and the volumes are still there with all their data; only the status may differ. */
  predicate Kept(r: Remote, s: Remote) {
    && s.profiles == r.profiles
    && VolsGrow(r.vols, s.vols)
    && (r.inst.Some? <==> s.inst.Some?)
    && (r.inst.Some? ==> SameButData(r.inst.value, s.inst.value) && r.inst.value.root <= s.inst.value.root)
  }

  function StatusOf(r: Remote): Option<Status> {
    if r.inst.Some? then Some(r.inst.value.status) else None
  }

  /** What passing time makes of a remote: a running instance writes, nothing else changes. */
  predicate Passed(r: Remote, s: Remote) {
    && Kept(r, s)
    && StatusOf(r) == StatusOf(s)
    && (!r.IsRunning() ==> s == r)
    && (r.inst.Some? ==> OthersSame(r.vols, s.vols, r.inst.value.attached))
  }

  /** The volumes of a remote but for the given ones are as they were. */
  predicate OthersSame(v: map<VolKey, Data>, w: map<VolKey, Data>, but: seq<VolKey>) {
    forall k :: k in v && k !in but ==> k in w && w[k] == v[k]
  }

  predicate BothPassed(v: World, w: World) {
    Passed(v.east, w.east) && Passed(v.west, w.west)
  }

  /** Nothing that existed is gone. */
  predicate NothingGone(r: Remote, s: Remote) {
    && s.profiles == r.profiles
    && (forall k :: k in r.vols ==> k in s.vols)
    && (r.inst.Some? ==> s.inst.Some?)
  }

  /** It has the instance and each of its volumes. */
  predicate Complete(r: Remote) {
    r.inst.Some? && forall v :: v in r.inst.value.attached ==> v in r.vols
  }

  /** s has the instance of r with everything its root and its volumes hold on r. */
  predicate Extends(r: Remote, s: Remote) {
    && r.inst.Some? && s.inst.Some?
    && SameButData(r.inst.value, s.inst.value)
    && r.inst.value.root <= s.inst.value.root
    && forall v :: v in r.inst.value.attached ==> v in r.vols && v in s.vols && r.vols[v] <= s.vols[v]
  }

  /** t is a full copy of s: the same root and the same volumes. */
  predicate FullCopy(s: Remote, t: Remote) {
    && s.inst.Some? && t.inst.Some?
    && SameButData(s.inst.value, t.inst.value)
    && s.inst.value.root == t.inst.value.root
    && forall v :: v in s.inst.value.attached ==> v in s.vols && v in t.vols && s.vols[v] == t.vols[v]
  }

  lemma KeptTransitive(r: Remote, s: Remote, t: Remote)
    requires Kept(r, s) && Kept(s, t)
    ensures Kept(r, t)
  {
  }

  // ------------------------------------------------------------------- outcomes

  datatype Stage = FinalSync | StartTarget | HealthCheck

  /** What a rollback says of the source. */
  datatype Fate = WasStopped | Restarted | RestartFailed

  datatype Outcome =
    | Refused                                 // preflight or snapshot
    | WarmCopyFailed
    | NotStopped(stopOk: bool, checkOk: bool) // whether the stop and the check after it went through
    | RolledBack(stage: Stage, targetLeft: bool, fate: Fate)  // targetLeft: the target could not be stopped
    | Moved

  /** The only state from which the target is started: a full copy of a source that does not run, which was
      verified as stopped if it ran before. */
  predicate CutOver(before: World, cut: World, src: Side) {
    var dst := src.Other();
    && Kept(before.At(src), cut.At(src)) && before.At(src).inst.Some?
    && StatusOf(cut.At(src)) == (if before.At(src).IsRunning() then Some(Stopped) else StatusOf(before.At(src)))
    && StatusOf(cut.At(dst)) == Some(Stopped)
    && FullCopy(cut.At(src), cut.At(dst))
  }

  /** What a migration from src leaves, by outcome. cut is the state the target was started in, if it was. */
  predicate Migrated(before: World, cut: World, after: World, src: Side, r: Outcome) {
    var dst := src.Other();
    && Kept(before.At(src), after.At(src))
    && NothingGone(before.At(dst), after.At(dst))
    && match r
       case Refused => BothPassed(before, after)
       case WarmCopyFailed => Passed(before.At(src), after.At(src)) && !after.At(dst).IsRunning()
       case NotStopped(stopOk, checkOk) =>
         && before.At(src).IsRunning() && !after.At(dst).IsRunning()
         && !(stopOk && checkOk)
         && StatusOf(after.At(src)) == Some(if stopOk then Stopped else Running)
       case RolledBack(stage, targetLeft, fate) =>
         && SourceAfter(before.At(src), after.At(src), fate)
         && (after.At(dst).IsRunning() <==> targetLeft)
         && (targetLeft ==> stage == HealthCheck)
         && (stage == HealthCheck ==> CutOver(before, cut, src) && Kept(cut.At(dst), after.At(dst))
                                      && (fate != Restarted ==> after.At(src) == cut.At(src)))
       case Moved =>
         && CutOver(before, cut, src)
         && after.At(src) == cut.At(src)
         && Kept(cut.At(dst), after.At(dst)) && after.At(dst).IsRunning()
  }

  predicate SourceAfter(before: Remote, after: Remote, fate: Fate) {
    match fate
    case WasStopped => !before.IsRunning() && StatusOf(after) == StatusOf(before)
    case Restarted => before.IsRunning() && after.IsRunning()
    case RestartFailed => before.IsRunning() && StatusOf(after) == Some(Stopped)
  }

  datatype Params = Params(src: Side, volume: string, resume: bool, skipSnapshot: bool, healthCheck: bool)

  /** What preflight found: the instance to move and what the target has of it already. */
  datatype Plan = Plan(inst: Instance, volsThere: set<VolKey>, instThere: bool)

  /** Preflight lets an instance by whose profiles the target has, that mounts no host path, and of which the
      target has nothing, or a stopped copy to resume from. */
  predicate Cleared(p: Params, w: World, plan: Plan) {
    var s, t := w.At(p.src), w.At(p.src.Other());
    && s.inst.Some? && SameButData(s.inst.value, plan.inst) && s.inst.value.status == plan.inst.status
    && !plan.inst.hostPath && plan.inst.profiles <= t.profiles
    && (p.volume != "" ==> exists v :: v in plan.inst.attached && v.name == p.volume)
    && (plan.instThere <==> t.inst.Some?)
    && (t.inst.Some? ==> p.resume && StatusOf(t) == Some(Stopped))
    && plan.volsThere == (set v | v in plan.inst.attached && v in t.vols)
    && (!p.resume ==> forall v :: v in plan.inst.attached ==> v !in t.vols)
  }

  /** The instance can be moved: it is there, mounts no host path, the target has its profiles, and has nothing of it
      or, with resume, at most a stopped copy and its volumes. */
  predicate Movable(p: Params, w: World) {
    var s, t := w.At(p.src), w.At(p.src.Other());
    && s.inst.Some? && !s.inst.value.hostPath && s.inst.value.profiles <= t.profiles
    && (p.volume != "" ==> exists v :: v in s.inst.value.attached && v.name == p.volume)
    && (t.inst.Some? ==> p.resume && t.inst.value.status == Stopped)
    && (p.resume || forall v :: v in s.inst.value.attached ==> v !in t.vols)
  }

  // ----------------------------------------------------------------- the remotes

  /** What is asked of a remote; a copy is asked of the side it is made from. */
  datatype Command =
    | List(side: Side)
    | Snapshot(vol: VolKey)
    | CopyVol(side: Side, vol: VolKey, refresh: bool)
    | CopyInst(side: Side, refresh: bool)
    | Set(side: Side, status: Status)
    | Probe(side: Side)
    | DeleteInst(side: Side)
    | DeleteVol(side: Side, vol: VolKey)

  /** A command and whether it went through. */
  datatype Call = Call(cmd: Command, ok: bool)

  function If<T>(c: bool, x: T): seq<T> {
    if c then [x] else []
  }

  /** The commands, each of which went through. */
  function Done(cs: seq<Command>): seq<Call> {
    seq(|cs|, i requires 0 <= i < |cs| => Call(cs[i], true))
  }

  /** The commands one after the other, up to the first that fails. */
  ghost predicate Runs(cs: seq<Command>, before: seq<Call>, after: seq<Call>, ok: bool) {
    if ok then after == before + Done(cs)
    else exists k: nat :: k < |cs| && after == before + Done(cs[..k]) + [Call(cs[k], false)]
  }

  predicate AllOk(calls: seq<Call>) {
    forall i :: 0 <= i < |calls| ==> calls[i].ok
  }

  predicate Lists(calls: seq<Call>) {
    forall i :: 0 <= i < |calls| ==> calls[i].cmd.List?
  }

  lemma OkMore(calls: seq<Call>, more: seq<Call>)
    ensures AllOk(calls + more) <==> AllOk(calls) && AllOk(more)
    ensures Lists(calls + more) <==> Lists(calls) && Lists(more)
  {
    assert forall i :: 0 <= i < |calls| ==> (calls + more)[i] == calls[i];
    assert forall i :: 0 <= i < |more| ==> (calls + more)[|calls| + i] == more[i];
  }

  lemma OkOne(c: Call)
    ensures AllOk([c]) <==> c.ok
    ensures Lists([c]) <==> c.cmd.List?
  {
    assert [c][0] == c;
  }

  /** Drives the two remotes; w is what they hold, and log what was asked of them. */
  class MigrationManager {
    var w: World
    ghost var log: seq<Call>

    constructor (world: World)
      ensures w == world && log == []
    {
      w, log := world, [];
    }

    /** Whether a command goes through is not ours to say. */
    method Try(ghost c: Command) returns (ok: bool)
      modifies this`log
      ensures log == old(log) + [Call(c, ok)]
    {
      ok := *;
      log := log + [Call(c, ok)];
    }

    /** Running instances write. */
    method Pass()
      modifies this`w
      ensures BothPassed(old(w), w)
    {
      assert BothPassed(w, w);
      var v :| BothPassed(w, v);
      w := v;
    }

    /** incus list, incus config show, incus profile list: what is there, if the remote answers. */
    method Read(side: Side) returns (ok: bool, r: Remote)
      modifies this`log
      ensures log == old(log) + [Call(List(side), ok)]
      ensures ok ==> r == w.At(side)
    {
      ok := Try(List(side));
      r := w.At(side);
    }

    method CopyVolume(src: Side, v: VolKey, refresh: bool) returns (ok: bool)
      modifies this
      ensures log == old(log) + [Call(CopyVol(src, v, refresh), ok)]
      ensures w == old(w) || OnlyVolume(old(w), w, src.Other(), v)
      ensures v in old(w).At(src.Other()).vols && !refresh ==> w == old(w)
      ensures ok ==> var s, t := w.At(src), w.At(src.Other());
        v in s.vols && v in t.vols && (!s.IsRunning() ==> t.vols[v] == s.vols[v])
    {
      var s, t := w.At(src), w.At(src.Other());
      var able, data: Data, partly := v in s.vols && (v in t.vols ==> refresh), *, *;
      ok := *;
      ok := ok && able;
      log := log + [Call(CopyVol(src, v, refresh), ok)];
      if ok && !s.IsRunning() {
        data := s.vols[v];
      }
      if able && (ok || partly) {
        w := w.With(src.Other(), WithVolume(t, v, data));
      }
    }

    /** The copy is created stopped; one that is there already is written to only with refresh. */
    method CopyInstance(src: Side, refresh: bool) returns (ok: bool)
      modifies this
      ensures log == old(log) + [Call(CopyInst(src, refresh), ok)]
      ensures w == old(w) || OnlyInstance(old(w), w, src.Other())
      ensures old(w).At(src.Other()).inst.Some? && !refresh ==> w == old(w)
      ensures ok ==> var s, t := w.At(src), w.At(src.Other());
        && s.inst.Some? && StatusOf(t) == Some(Stopped) && SameButData(s.inst.value, t.inst.value)
        && (!s.IsRunning() ==> t.inst.value.root == s.inst.value.root)
    {
      var s, t := w.At(src), w.At(src.Other());
      var able, data: Data, partly := s.inst.Some? && !t.IsRunning() && (t.inst.Some? ==> refresh), *, *;
      ok := *;
      ok := ok && able;
      log := log + [Call(CopyInst(src, refresh), ok)];
      if ok && !s.IsRunning() {
        data := s.inst.value.root;
      }
      if able && (ok || partly) {
        w := w.With(src.Other(), t.(inst := Some(s.inst.value.(status := Stopped, root := data))));
      }
    }

    method SetStatus(side: Side, status: Status) returns (ok: bool)
      modifies this
      ensures log == old(log) + [Call(Set(side, status), ok)]
      ensures w == if ok then old(w).With(side, WithStatus(old(w).At(side), status)) else old(w)
      ensures ok ==> old(w).At(side).inst.Some?
    {
      ok := *;
      ok := ok && w.At(side).inst.Some?;
      log := log + [Call(Set(side, status), ok)];
      if ok {
        w := w.With(side, WithStatus(w.At(side), status));
      }
    }

    /** Refuses an instance that mounts a host path. */
    method MigratableVolumes(inst: Instance) returns (vols: Option<seq<VolKey>>)
      ensures vols == if inst.hostPath then None else Some(inst.attached)
    {
      vols := if inst.hostPath then None else Some(inst.attached);
    }

    /** The names in the volume's pool on a remote, asked for once per pool. */
    method PoolNames(side: Side, pools: map<string, set<string>>, pool: string)
      returns (ok: bool, seen: map<string, set<string>>)
      requires Cached(w.At(side), pools)
      modifies this`log
      ensures log == old(log) + If(pool !in pools, Call(List(side), ok)) && (pool in pools ==> ok)
      ensures ok ==> Cached(w.At(side), seen) && pool in seen
    {
      seen := pools;
      if pool in pools {
        return true, seen;
      }
      var r;
      ok, r := Read(side);
      seen := seen[pool := NamesIn(r, pool)];
    }

    /** Step 1. Nothing is changed, and only what cannot move or a list that does not come is refused. */
    method Preflight(p: Params) returns (plan: Option<Plan>, ghost lists: seq<Call>)
      modifies this
      ensures BothPassed(old(w), w)
      ensures log == old(log) + lists && Lists(lists)
      ensures plan.Some? <==> AllOk(lists) && Movable(p, w)
      ensures plan.Some? ==> Cleared(p, w, plan.value)
    {
      Pass();
      plan := None;
      var ok, s := Read(p.src);
      lists := [Call(List(p.src), ok)];
      OkOne(Call(List(p.src), ok));
      if !ok || s.inst.None? {
        return;
      }
      var inst := s.inst.value;
      var vols := MigratableVolumes(inst);
      if vols.None? {
        return;
      }
      var t;
      ok, t := Read(p.src.Other());
      OkOne(Call(List(p.src.Other()), ok));
      OkMore(lists, [Call(List(p.src.Other()), ok)]);
      lists := lists + [Call(List(p.src.Other()), ok)];
      if !ok || (p.volume != "" && !exists i :: 0 <= i < |inst.attached| && inst.attached[i].name == p.volume) {
        return;
      }
      if !(inst.profiles <= t.profiles) || (t.inst.Some? && (!p.resume || t.inst.value.status != Stopped)) {
        return;
      }
      var there;
      ghost var more;
      ok, there, more := VolumesThere(p, inst.attached);
      OkMore(lists, more);
      lists := lists + more;
      if ok {
        plan := Some(Plan(inst, there, t.inst.Some?));
      }
    }

    /** Which of the volumes the target has; none may be there unless the migration resumes. */
    method VolumesThere(p: Params, vols: seq<VolKey>) returns (ok: bool, there: set<VolKey>, ghost lists: seq<Call>)
      modifies this`log
      ensures ok ==> there == set v | v in vols && v in w.At(p.src.Other()).vols
      ensures ok && !p.resume ==> there == {}
      ensures log == old(log) + lists && Lists(lists)
      ensures ok <==> AllOk(lists) && (p.resume || forall v :: v in vols ==> v !in w.At(p.src.Other()).vols)
    {
      var pools: map<string, set<string>>;
      there, pools, ok, lists := {}, map[], true, [];
      for n := 0 to |vols|
        invariant Cached(w.At(p.src.Other()), pools)
        invariant there == set v | v in vols[..n] && v in w.At(p.src.Other()).vols
        invariant !p.resume ==> there == {}
        invariant ok && log == old(log) + lists && Lists(lists) && AllOk(lists)
      {
        var v := vols[n];
        ghost var before := log;
        ok, pools := PoolNames(p.src.Other(), pools, v.pool);
        OkMore(lists, log[|before|..]);
        OkOne(Call(List(p.src.Other()), ok));
        lists := lists + log[|before|..];
        if !ok {
          return;
        }
        if v.name in pools[v.pool] {
          assert v in w.At(p.src.Other()).vols;
          if !p.resume {
            return false, there, lists;
          }
          there := there + {v};
        }
      }
      assert vols[..|vols|] == vols;
      assert forall v :: v in vols && v in w.At(p.src.Other()).vols ==> v in there;
    }

    /** Copies one volume, and time passes. */
    method CopyNext(src: Side, vols: seq<VolKey>, n: nat, refresh: bool, ghost start: World) returns (ok: bool)
      requires n < |vols| && CopiedSoFar(start, w, src, vols, n)
      modifies this
      ensures log == old(log) + [Call(CopyVol(src, vols[n], refresh), ok)]
      ensures CopiedSoFar(start, w, src, vols, if ok then n + 1 else 0)
    {
      ok := CopyVolume(src, vols[n], refresh);
      VolumeWritten(old(w), w, src, vols, n);
      ghost var copied := w;
      Pass();
      assert w.At(src.Other()) == copied.At(src.Other());
      CopiedToTransitive(start.At(src.Other()), old(w).At(src.Other()), w.At(src.Other()), vols);
    }

    /** Copies the instance's volumes one by one. */
    method CopyVolumes(src: Side, plan: Plan) returns (ok: bool, now: Plan)
      requires !w.At(src.Other()).IsRunning()
      modifies this
      ensures Runs(VolCopies(src, plan.inst.attached, plan.volsThere), old(log), log, ok)
      ensures ok ==> now == plan.(volsThere := plan.volsThere + Members(plan.inst.attached))
      ensures now.inst == plan.inst
      ensures CopiedSoFar(old(w), w, src, plan.inst.attached, if ok then |plan.inst.attached| else 0)
    {
      now, ok := plan, true;
      var vols := plan.inst.attached;
      ghost var cs := VolCopies(src, vols, plan.volsThere);
      NoneRan(cs, log);
      for n := 0 to |vols|
        invariant RanUpTo(cs, n, old(log), log)
        invariant now == plan.(volsThere := plan.volsThere + Members(vols[..n]))
        invariant CopiedSoFar(old(w), w, src, vols, n)
      {
        ghost var before := log;
        ok := CopyNext(src, vols, n, vols[n] in now.volsThere, old(w));
        OneMoreRan(cs, n, old(log), before, log, ok);
        if !ok {
          return;
        }
        assert Members(vols[..n + 1]) == Members(vols[..n]) + {vols[n]};
        now := now.(volsThere := now.volsThere + {vols[n]});
      }
      AllRan(cs, old(log), log);
      assert vols[..|vols|] == vols;
    }

    /** Copies the volumes, then the instance. What the target has of them is refreshed. */
    method CopyAll(src: Side, plan: Plan) returns (ok: bool, now: Plan)
      requires !w.At(src.Other()).IsRunning()
      modifies this
      ensures Runs(Copies(src, plan), old(log), log, ok) && (ok ==> now == Copied(plan))
      ensures Passed(old(w).At(src), w.At(src))
      ensures CopiedTo(old(w).At(src.Other()), w.At(src.Other()), plan.inst.attached)
      ensures now.inst == plan.inst
      ensures ok && !w.At(src).IsRunning() && w.At(src).inst.Some? && SameButData(w.At(src).inst.value, plan.inst)
        ==> FullCopy(w.At(src), w.At(src.Other()))
      ensures ok ==> StatusOf(w.At(src.Other())) == Some(Stopped)
    {
      ok, now := CopyVolumes(src, plan);
      ghost var vols := VolCopies(src, plan.inst.attached, plan.volsThere);
      if !ok {
        FailsEarly(vols, [CopyInst(src, plan.instThere)], old(log), log);
        return;
      }
      ok := CopyInstance(src, now.instThere);
      RunsOneMore(vols, CopyInst(src, plan.instThere), old(log), log, ok);
      if ok {
        now := now.(instThere := true);
      }
    }

    /** Undoes a started cut-over: the target is stopped, and the source started if it ran. */
    method Rollback(src: Side, wasRunning: bool, targetStarted: bool) returns (targetLeft: bool, fate: Fate)
      requires w.At(src).inst.Some? && !w.At(src).IsRunning()
      requires targetStarted <==> w.At(src.Other()).IsRunning()
      modifies this
      ensures log == old(log) + Undo(src, targetStarted, targetLeft, fate)
      ensures forall stage :: RolledBackTo(old(w), w, src, wasRunning, RolledBack(stage, targetLeft, fate))
    {
      var ok;
      targetLeft := false;
      if targetStarted {
        ok := SetStatus(src.Other(), Stopped);
        targetLeft := !ok;
        ghost var stopped := w;
        Pass();
        KeptTransitive(old(w).At(src.Other()), stopped.At(src.Other()), w.At(src.Other()));
      }
      if !wasRunning {
        return targetLeft, WasStopped;
      }
      ok := SetStatus(src, Running);
      fate := if ok then Restarted else RestartFailed;
    }

    /** Rolls back from a stage of step 5 that failed. */
    method FallBack(src: Side, stage: Stage, wasRunning: bool) returns (r: Outcome)
      requires w.At(src).inst.Some? && !w.At(src).IsRunning()
      requires stage == HealthCheck <==> w.At(src.Other()).IsRunning()
      modifies this
      ensures r.RolledBack? && r.stage == stage
      ensures log == old(log) + Undo(src, stage == HealthCheck, r.targetLeft, r.fate)
      ensures RolledBackTo(old(w), w, src, wasRunning, r)
    {
      var left, fate := Rollback(src, wasRunning, stage == HealthCheck);
      r := RolledBack(stage, left, fate);
    }

    /** A snapshot of each volume; the data stays as it is. */
    method Snapshots(vols: seq<VolKey>) returns (ok: bool)
      modifies this`log
      ensures Runs(Snaps(vols), old(log), log, ok)
    {
      ok := true;
      NoneRan(Snaps(vols), log);
      for n := 0 to |vols|
        invariant RanUpTo(Snaps(vols), n, old(log), log)
      {
        ghost var before := log;
        ok := Try(Snapshot(vols[n]));
        OneMoreRan(Snaps(vols), n, old(log), before, log, ok);
        if !ok {
          return;
        }
      }
      AllRan(Snaps(vols), old(log), log);
    }

    /** Steps 1 and 2. */
    method Examine(p: Params) returns (plan: Option<Plan>, ghost lists: seq<Call>)
      modifies this
      ensures BothPassed(old(w), w)
      ensures Lists(lists) && (plan.Some? ==> Cleared(p, w, plan.value) && Movable(p, w) && AllOk(lists))
      ensures plan.Some? ==> log == old(log) + lists + Done(Snapped(p, plan.value))
      ensures plan.None? ==> Turned(p, w, lists, old(log), log)
    {
      plan, lists := Preflight(p);
      if plan.Some? && !p.skipSnapshot {
        var ok := Snapshots(plan.value.inst.attached);
        if !ok {
          plan := None;
        }
      }
    }

    /** Steps 1 to 3: after them the target may hold a warm copy. */
    method Prepare(p: Params) returns (plan: Option<Plan>, end: Outcome, ghost first: Plan, ghost lists: seq<Call>)
      modifies this
      ensures Passed(old(w).At(p.src), w.At(p.src))
      ensures plan.None? ==> end in {Refused, WarmCopyFailed}
      ensures plan.None? && end == Refused ==> BothPassed(old(w), w) && Turned(p, w, lists, old(log), log)
      ensures plan.Some? || end == WarmCopyFailed ==>
        && Movable(p, old(w)) && PlanOf(p, old(w), first) && Lists(lists) && AllOk(lists)
        && Runs(Warm(p.src, first), old(log) + lists + Done(Snapped(p, first)), log, plan.Some?)
        && Target(p, old(w).At(p.src.Other()), w.At(p.src.Other()), w.At(p.src).inst)
      ensures plan.Some? ==> Matches(w.At(p.src), plan.value.inst) && plan.value == Warmed(first)
    {
      end := Refused;
      plan, lists := Examine(p);
      if plan.None? {
        first := Plan(Instance(Stopped, [], [], {}, false), {}, false);
        return;
      }
      first := plan.value;
      FoundBefore(p, old(w), w, first);
      var ok, now := WarmCopy(p, plan.value);
      if !ok {
        return None, WarmCopyFailed, first, lists;
      }
      plan := Some(now);
    }

    /** Step 3: a running source is copied once before it is stopped. */
    method WarmCopy(p: Params, plan: Plan) returns (ok: bool, now: Plan)
      requires Cleared(p, w, plan)
      modifies this
      ensures Runs(Warm(p.src, plan), old(log), log, ok) && (ok ==> now == Warmed(plan))
      ensures Passed(old(w).At(p.src), w.At(p.src)) && Matches(w.At(p.src), now.inst)
      ensures Target(p, old(w).At(p.src.Other()), w.At(p.src.Other()), w.At(p.src).inst)
    {
      ok, now := true, plan;
      if plan.inst.status == Running {
        ok, now := CopyAll(p.src, plan);
      }
    }

    /** Step 4: None when the source is verified as stopped, or did not run. */
    method StopSource(src: Side, wasRunning: bool) returns (end: Option<Outcome>)
      requires w.At(src).inst.Some? && !w.At(src.Other()).IsRunning()
      requires wasRunning <==> w.At(src).IsRunning()
      modifies this
      ensures w.At(src.Other()) == old(w).At(src.Other())
      ensures Kept(old(w).At(src), w.At(src))
      ensures StopFailed(wasRunning, end, w.At(src))
      ensures end.None? && !wasRunning ==> w == old(w)
      ensures match end
        case None => log == old(log) + Done(Stopping(src, wasRunning))
        case Some(r) => log == old(log) + [Call(Set(src, Stopped), r.stopOk), Call(List(src), r.checkOk)]
    {
      if !wasRunning {
        return None;
      }
      var stopOk := SetStatus(src, Stopped);
      ghost var stopped := w;
      Pass();
      KeptTransitive(old(w).At(src), stopped.At(src), w.At(src));
      var checkOk, s := Read(src);
      end := if !checkOk || StatusOf(s) != Some(Stopped) then Some(NotStopped(stopOk, checkOk)) else None;
    }

    /** Step 5: the final copy, the start and the health check of the target. */
    method Switch(p: Params, plan: Plan, wasRunning: bool) returns (r: Outcome, ghost cut: World)
      requires w.At(p.src).inst.Some? && SameButData(w.At(p.src).inst.value, plan.inst)
      requires !w.At(p.src).IsRunning() && !w.At(p.src.Other()).IsRunning()
      modifies this
      ensures Switched(old(w), cut, w, p.src, wasRunning, r)
      ensures SwitchTold(p, plan, r, old(log), log)
    {
      var src, dst := p.src, p.src.Other();
      var ok, now := CopyAll(src, plan);
      cut := w;
      if !ok {
        ghost var end := log;
        r := FallBack(src, FinalSync, wasRunning);
        assert StageFailed(p, plan, FinalSync, old(log), end);
        return;
      }
      ok := SetStatus(dst, Running);
      if !ok {
        ghost var end := log;
        r := FallBack(src, StartTarget, wasRunning);
        assert StageFailed(p, plan, StartTarget, old(log), end);
        return;
      }
      r := Verify(p, plan, wasRunning, cut, old(log));
    }

    /** The target was started from cut: it stays if it is well. */
    method Verify(p: Params, plan: Plan, wasRunning: bool, ghost cut: World, ghost before: seq<Call>)
      returns (r: Outcome)
      requires StatusOf(cut.At(p.src.Other())) == Some(Stopped)
      requires w == cut.With(p.src.Other(), WithStatus(cut.At(p.src.Other()), Running))
      requires w.At(p.src).inst.Some? && !w.At(p.src).IsRunning()
      requires log == before + Done(Copies(p.src, plan)) + [Call(Set(p.src.Other(), Running), true)]
      modifies this
      ensures r.Moved? || (r.RolledBack? && r.stage == HealthCheck)
      ensures StartedFrom(cut.At(p.src.Other()), w.At(p.src.Other()))
      ensures w.At(p.src.Other()).IsRunning() <==> r.Moved? || r.targetLeft
      ensures r.Moved? ==> w.At(p.src) == cut.At(p.src)
      ensures r.RolledBack? ==> SourceBack(cut.At(p.src), w.At(p.src), wasRunning, r)
      ensures SwitchTold(p, plan, r, before, log)
    {
      var dst := p.src.Other();
      Pass();
      assert StartedFrom(cut.At(dst), w.At(dst));
      if p.healthCheck {
        var ok := Try(Probe(dst));
        if !ok {
          ghost var unhealthy, end := w, log;
          r := FallBack(p.src, HealthCheck, wasRunning);
          KeptTransitive(cut.At(dst), unhealthy.At(dst), w.At(dst));
          assert StageFailed(p, plan, HealthCheck, before, end);
          return;
        }
      }
      return Moved;
    }

    /** Steps 4 and 5. */
    method Move(p: Params, plan: Plan) returns (r: Outcome, ghost cut: World)
      requires Matches(w.At(p.src), plan.inst) && !w.At(p.src.Other()).IsRunning()
      modifies this
      ensures Migrated(old(w), cut, w, p.src, r) && (r.NotStopped? || r.RolledBack? || r.Moved?)
      ensures MoveTold(p, plan, r, old(log), log)
      ensures CopiedTo(old(w).At(p.src.Other()), WithoutRun(w.At(p.src.Other())), plan.inst.attached)
    {
      cut := w;
      var wasRunning := plan.inst.status == Running;
      var refused := StopSource(p.src, wasRunning);
      if refused.Some? {
        return refused.value, cut;
      }
      ghost var stopped := w;
      r, cut := Switch(p, plan, wasRunning);
      SwitchedIsMigrated(old(w), stopped, cut, w, p.src, wasRunning, r);
    }

    /** Moves the instance, or says where it stopped; the log tells every command on the way. */
    method Migrate(p: Params) returns (r: Outcome, ghost cut: World, ghost lists: seq<Call>)
      modifies this
      ensures Migrated(old(w), cut, w, p.src, r)
      ensures r != Refused ==> Target(p, old(w).At(p.src.Other()), WithoutRun(w.At(p.src.Other())), w.At(p.src).inst)
      ensures Told(p, old(w), lists, r, old(log), log)
    {
      var plan, end;
      ghost var first;
      cut := w;
      plan, end, first, lists := Prepare(p);
      if plan.None? {
        return end, cut, lists;
      }
      ghost var prepared := w;
      r, cut := Move(p, plan.value);
      PreparedIsMigrated(p, old(w), prepared, cut, w, r);
    }

    method DeleteInstance(side: Side) returns (ok: bool)
      modifies this
      ensures log == old(log) + [Call(DeleteInst(side), ok)]
      ensures w == if ok then old(w).With(side, old(w).At(side).(inst := None)) else old(w)
    {
      ok := Try(DeleteInst(side));
      if ok {
        w := w.With(side, w.At(side).(inst := None));
      }
    }

    method DeleteVolume(side: Side, v: VolKey) returns (ok: bool)
      modifies this
      ensures log == old(log) + [Call(DeleteVol(side, v), ok)]
      ensures w == if ok then old(w).With(side, WithoutVolumes(old(w).At(side), {v})) else old(w)
    {
      ok := Try(DeleteVol(side, v));
      if ok {
        w := w.With(side, WithoutVolumes(w.At(side), {v}));
      }
    }

    /** Every volume is on the target, by name. */
    method AllThere(dst: Side, vols: seq<VolKey>) returns (ok: bool, ghost lists: seq<Call>)
      modifies this`log
      ensures log == old(log) + lists && Lists(lists)
      ensures ok <==> AllOk(lists) && forall v :: v in vols ==> v in w.At(dst).vols
    {
      var pools: map<string, set<string>> := map[];
      lists := [];
      for n := 0 to |vols|
        invariant Cached(w.At(dst), pools)
        invariant log == old(log) + lists && Lists(lists) && AllOk(lists)
        invariant forall k :: 0 <= k < n ==> vols[k] in w.At(dst).vols
      {
        ghost var before := log;
        ok, pools := PoolNames(dst, pools, vols[n].pool);
        OkMore(lists, log[|before|..]);
        OkOne(Call(List(dst), ok));
        lists := lists + log[|before|..];
        if !ok || vols[n].name !in pools[vols[n].pool] {
          return false, lists;
        }
      }
      return true, lists;
    }

    /** Whether the source may go: it is stopped, and the target runs with each of its volumes. None: refused, or it
        is gone already. */
    method Verified(src: Side) returns (ok: bool, vols: Option<seq<VolKey>>, ghost lists: seq<Call>)
      modifies this`log
      ensures log == old(log) + lists && Lists(lists)
      ensures ok <==> AllOk(lists) && Finalizable(w, src)
      ensures ok ==> vols == if w.At(src).inst.Some? then Some(w.At(src).inst.value.attached) else None
    {
      var s, t;
      vols := None;
      ok, s := Read(src);
      lists := [Call(List(src), ok)];
      OkOne(Call(List(src), ok));
      if !ok {
        return;
      }
      ok, t := Read(src.Other());
      OkOne(Call(List(src.Other()), ok));
      OkMore(lists, [Call(List(src.Other()), ok)]);
      lists := lists + [Call(List(src.Other()), ok)];
      if !ok {
        return;
      }
      if s.inst.None? {
        ok := t.IsRunning();
        return;
      }
      ok := s.inst.value.status == Stopped && t.IsRunning() && !s.inst.value.hostPath;
      if !ok {
        return;
      }
      ghost var more;
      ok, more := AllThere(src.Other(), s.inst.value.attached);
      OkMore(lists, more);
      lists := lists + more;
      vols := Some(s.inst.value.attached);
    }

    /** Deletes the source's stopped copy once the target is verified, and found well if that is asked for. */
    method Finalize(src: Side, purge: bool, healthCheck: bool) returns (ok: bool, ghost lists: seq<Call>)
      modifies this
      ensures Finalized(old(w), w, src, purge, ok)
      ensures FinalizeTold(old(w), src, purge, healthCheck, lists, ok, old(log), log)
    {
      Pass();
      var vols;
      ok, vols, lists := Verified(src);
      if !ok || vols.None? {
        return;
      }
      ok := RemoveIfWell(src, vols.value, purge, healthCheck);
    }

    method RemoveIfWell(src: Side, vols: seq<VolKey>, purge: bool, healthCheck: bool) returns (ok: bool)
      modifies this
      ensures Runs(If(healthCheck, Probe(src.Other())) + Removing(src, vols, purge), old(log), log, ok)
      ensures w == old(w) || Removed(old(w), w, src, vols, purge)
      ensures ok ==> w.At(src).inst.None? && (purge ==> w.At(src).vols.Keys !! Members(vols))
    {
      ghost var probe, rest := If(healthCheck, Probe(src.Other())), Removing(src, vols, purge);
      ok := true;
      if healthCheck {
        ok := Try(Probe(src.Other()));
      }
      ProbeRuns(healthCheck, Probe(src.Other()), old(log), log, ok);
      if !ok {
        FailsEarly(probe, rest, old(log), log);
        return;
      }
      ok := Remove(src, vols, purge);
      RunsAfter(probe, rest, old(log), log, ok);
    }

    method Remove(src: Side, vols: seq<VolKey>, purge: bool) returns (ok: bool)
      modifies this
      ensures Runs(Removing(src, vols, purge), old(log), log, ok)
      ensures w == old(w) || Removed(old(w), w, src, vols, purge)
      ensures ok ==> w.At(src).inst.None? && (purge ==> w.At(src).vols.Keys !! Members(vols))
    {
      ghost var before := log;
      ok := DeleteInstance(src);
      if !ok {
        FailsFirst(DeleteInst(src), if purge then Purging(src, vols) else [], before, log);
        return;
      }
      if purge {
        ok := Purge(src, vols);
      }
      RunsAfter([DeleteInst(src)], if purge then Purging(src, vols) else [], before, log, ok);
    }

    method Purge(side: Side, vols: seq<VolKey>) returns (ok: bool)
      modifies this
      ensures Runs(Purging(side, vols), old(log), log, ok)
      ensures w.At(side.Other()) == old(w).At(side.Other())
      ensures w.At(side).inst == old(w).At(side).inst && w.At(side).profiles == old(w).At(side).profiles
      ensures var before, after := old(w).At(side).vols, w.At(side).vols; after == before - (before.Keys - after.Keys)
      ensures old(w).At(side).vols.Keys - w.At(side).vols.Keys <= Members(vols)
      ensures ok ==> w.At(side).vols.Keys !! Members(vols)
    {
      NoneRan(Purging(side, vols), log);
      for n := 0 to |vols|
        invariant RanUpTo(Purging(side, vols), n, old(log), log)
        invariant w == old(w).With(side, WithoutVolumes(old(w).At(side), Members(vols[..n])))
      {
        ghost var before := log;
        ok := DeleteVolume(side, vols[n]);
        OneMoreRan(Purging(side, vols), n, old(log), before, log, ok);
        if !ok {
          return;
        }
        assert Members(vols[..n + 1]) == Members(vols[..n]) + {vols[n]};
        ghost var was := old(w).At(side).vols;
        assert was - Members(vols[..n]) - {vols[n]} == was - Members(vols[..n + 1]);
      }
      assert vols[..|vols|] == vols;
      AllRan(Purging(side, vols), old(log), log);
      return true;
    }
  }

  /** The instance is gone, and some of its volumes if that is asked for. */
  predicate Removed(before: World, after: World, src: Side, vols: seq<VolKey>, purge: bool) {
    var s, t := before.At(src), after.At(src);
    && after.At(src.Other()) == before.At(src.Other()) && t.inst.None? && t.profiles == s.profiles
    && t.vols == s.vols - (s.vols.Keys - t.vols.Keys)
    && s.vols.Keys - t.vols.Keys <= (if purge then Members(vols) else {})
  }

  function Members(vols: seq<VolKey>): set<VolKey> {
    set v | v in vols
  }

  function WithoutVolumes(r: Remote, vols: set<VolKey>): Remote {
    r.(vols := r.vols - vols)
  }

  /** The source is stopped and the target runs with each of its volumes; or the source is gone already. */
  predicate Finalizable(w: World, src: Side) {
    var s, t := w.At(src), w.At(src.Other());
    && t.IsRunning()
    && (s.inst.Some? ==> s.inst.value.status == Stopped && !s.inst.value.hostPath
                         && forall v :: v in s.inst.value.attached ==> v in t.vols)
  }

  /** What finalizing leaves. The source is deleted only when it is stopped, the target runs and has each of its
      volumes; its volumes go only when that is asked for, and nothing goes from the target. */
  predicate Finalized(before: World, after: World, src: Side, purge: bool, ok: bool) {
    var s, t, dst := before.At(src), after.At(src), src.Other();
    && Passed(before.At(dst), after.At(dst))
    && (ok ==> t.inst.None? && after.At(dst).IsRunning())
    && (if s.inst.Some? && t.inst.None? then
          && StatusOf(s) == Some(Stopped) && before.At(dst).IsRunning()
          && (forall v :: v in s.inst.value.attached ==> v in before.At(dst).vols)
          && t.profiles == s.profiles
          && t.vols == s.vols - (s.vols.Keys - t.vols.Keys)
          && s.vols.Keys - t.vols.Keys <= (if purge then Members(s.inst.value.attached) else {})
          && (ok && purge ==> t.vols.Keys !! Members(s.inst.value.attached))
        else Passed(s, t))
  }

  /** What a rollback makes of the source. */
  predicate SourceBack(before: Remote, after: Remote, wasRunning: bool, r: Outcome)
    requires r.RolledBack?
  {
    && Kept(before, after)
    && (r.fate == WasStopped <==> !wasRunning)
    && (r.fate == Restarted ==> after.IsRunning())
    && (r.fate != Restarted ==> after == before)
  }

  /** What a rollback makes of both, where the target runs exactly when it is to be stopped. */
  predicate RolledBackTo(before: World, after: World, src: Side, wasRunning: bool, r: Outcome)
    requires r.RolledBack?
  {
    var s, t := before.At(src.Other()), after.At(src.Other());
    && SourceBack(before.At(src), after.At(src), wasRunning, r)
    && (t.IsRunning() <==> r.targetLeft) && (r.targetLeft ==> s.IsRunning())
    && (!s.IsRunning() ==> t == s) && (s.IsRunning() ==> StartedFrom(s, t))
  }

  // ------------------------------------------------------------------- what is tried

  /** The first n of the commands went through. */
  ghost predicate RanUpTo(cs: seq<Command>, n: nat, before: seq<Call>, after: seq<Call>) {
    n <= |cs| && after == before + Done(cs[..n])
  }

  lemma NoneRan(cs: seq<Command>, before: seq<Call>)
    ensures RanUpTo(cs, 0, before, before)
  {
    assert Done(cs[..0]) == [];
  }

  lemma OneMoreRan(cs: seq<Command>, n: nat, before: seq<Call>, mid: seq<Call>, after: seq<Call>, ok: bool)
    requires RanUpTo(cs, n, before, mid) && n < |cs| && after == mid + [Call(cs[n], ok)]
    ensures if ok then RanUpTo(cs, n + 1, before, after) else Runs(cs, before, after, false)
  {
    DoneNext(cs, n);
  }

  lemma AllRan(cs: seq<Command>, before: seq<Call>, after: seq<Call>)
    requires RanUpTo(cs, |cs|, before, after)
    ensures Runs(cs, before, after, true)
  {
    assert cs[..|cs|] == cs;
  }

  lemma DoneNext(cs: seq<Command>, n: nat)
    requires n < |cs|
    ensures Done(cs[..n + 1]) == Done(cs[..n]) + [Call(cs[n], true)]
  {
  }

  lemma DoneConcat(a: seq<Command>, b: seq<Command>)
    ensures Done(a + b) == Done(a) + Done(b)
  {
  }

  lemma FailsEarly(a: seq<Command>, b: seq<Command>, before: seq<Call>, after: seq<Call>)
    requires Runs(a, before, after, false)
    ensures Runs(a + b, before, after, false)
  {
    var k: nat :| k < |a| && after == before + Done(a[..k]) + [Call(a[k], false)];
    assert (a + b)[..k] == a[..k] && (a + b)[k] == a[k];
  }

  lemma FailsFirst(c: Command, b: seq<Command>, before: seq<Call>, after: seq<Call>)
    requires after == before + [Call(c, false)]
    ensures Runs([c] + b, before, after, false)
  {
    assert ([c] + b)[..0] == [] && Done([]) == [] && before + [] == before;
  }

  lemma RunsAfter(a: seq<Command>, b: seq<Command>, before: seq<Call>, after: seq<Call>, ok: bool)
    requires Runs(b, before + Done(a), after, ok)
    ensures Runs(a + b, before, after, ok)
  {
    if ok {
      DoneConcat(a, b);
    } else {
      var k: nat :| k < |b| && after == before + Done(a) + Done(b[..k]) + [Call(b[k], false)];
      assert (a + b)[..|a| + k] == a + b[..k] && (a + b)[|a| + k] == b[k];
      DoneConcat(a, b[..k]);
    }
  }

  lemma ProbeRuns(asked: bool, c: Command, before: seq<Call>, after: seq<Call>, ok: bool)
    requires after == before + If(asked, Call(c, ok)) && (asked || ok)
    ensures Runs(If(asked, c), before, after, ok)
  {
    if asked {
      assert [c][..0] == [] && before + Done([]) == before && [] + [c] == [c];
    }
  }

  lemma RunsOneMore(a: seq<Command>, c: Command, before: seq<Call>, after: seq<Call>, ok: bool)
    requires after == before + Done(a) + [Call(c, ok)]
    ensures Runs(a + [c], before, after, ok)
  {
    assert (a + [c])[..|a|] == a;
    DoneNext(a + [c], |a|);
    assert (a + [c])[..|a| + 1] == a + [c];
  }

  /** A volume the target has, by now or from before, is refreshed. */
  function VolCopies(src: Side, vols: seq<VolKey>, there: set<VolKey>): (cs: seq<Command>)
    ensures |cs| == |vols|
  {
    seq(|vols|, i requires 0 <= i < |vols| => CopyVol(src, vols[i], vols[i] in there + Members(vols[..i])))
  }

  function Copies(src: Side, plan: Plan): seq<Command> {
    VolCopies(src, plan.inst.attached, plan.volsThere) + [CopyInst(src, plan.instThere)]
  }

  /** The plan once everything was copied. */
  function Copied(plan: Plan): Plan {
    plan.(volsThere := plan.volsThere + Members(plan.inst.attached), instThere := true)
  }

  function Snaps(vols: seq<VolKey>): (cs: seq<Command>)
    ensures |cs| == |vols|
  {
    seq(|vols|, i requires 0 <= i < |vols| => Snapshot(vols[i]))
  }

  function Snapped(p: Params, plan: Plan): seq<Command> {
    if p.skipSnapshot then [] else Snaps(plan.inst.attached)
  }

  function Warm(src: Side, plan: Plan): seq<Command> {
    if plan.inst.status == Running then Copies(src, plan) else []
  }

  function Warmed(plan: Plan): Plan {
    if plan.inst.status == Running then Copied(plan) else plan
  }

  function Stopping(src: Side, wasRunning: bool): seq<Command> {
    if wasRunning then [Set(src, Stopped), List(src)] else []
  }

  /** A rollback tries to stop a started target, and to start a source that ran. */
  function Undo(src: Side, started: bool, left: bool, fate: Fate): seq<Call> {
    If(started, Call(Set(src.Other(), Stopped), !left))
    + If(fate != WasStopped, Call(Set(src, Running), fate == Restarted))
  }

  function Purging(src: Side, vols: seq<VolKey>): (cs: seq<Command>)
    ensures |cs| == |vols|
  {
    seq(|vols|, i requires 0 <= i < |vols| => DeleteVol(src, vols[i]))
  }

  function Removing(src: Side, vols: seq<VolKey>, purge: bool): seq<Command> {
    [DeleteInst(src)] + if purge then Purging(src, vols) else []
  }

  /** What preflight finds. */
  predicate PlanOf(p: Params, w: World, plan: Plan) {
    var s, t := w.At(p.src), w.At(p.src.Other());
    && s.inst.Some? && plan.inst.attached == s.inst.value.attached && plan.inst.status == s.inst.value.status
    && plan.volsThere == (set v | v in s.inst.value.attached && v in t.vols) && plan.instThere == t.inst.Some?
  }

  /** Time passing makes no difference to what can be moved and what is found. */
  lemma FoundBefore(p: Params, before: World, w: World, plan: Plan)
    requires BothPassed(before, w) && Cleared(p, w, plan) && Movable(p, w)
    ensures Movable(p, before) && PlanOf(p, before, plan)
  {
    var s, t := before.At(p.src), w.At(p.src);
    assert s.inst.value.attached == t.inst.value.attached;
  }

  /** Refused: it cannot be moved, a list did not come, or a snapshot failed. */
  ghost predicate Turned(p: Params, w: World, lists: seq<Call>, before: seq<Call>, after: seq<Call>) {
    && Lists(lists)
    && ((after == before + lists && !(Movable(p, w) && AllOk(lists)))
        || (!p.skipSnapshot && Movable(p, w) && AllOk(lists)
            && Runs(Snaps(w.At(p.src).inst.value.attached), before + lists, after, false)))
  }

  /** The commands of step 5 up to the one that fails at that stage. */
  ghost predicate StageFailed(p: Params, plan: Plan, stage: Stage, before: seq<Call>, end: seq<Call>) {
    match stage
    case FinalSync => Runs(Copies(p.src, plan), before, end, false)
    case StartTarget => end == before + Done(Copies(p.src, plan)) + [Call(Set(p.src.Other(), Running), false)]
    case HealthCheck =>
      && p.healthCheck
      && end == before + Done(Copies(p.src, plan)) + [Call(Set(p.src.Other(), Running), true)]
                + [Call(Probe(p.src.Other()), false)]
  }

  ghost predicate SwitchTold(p: Params, plan: Plan, r: Outcome, before: seq<Call>, after: seq<Call>) {
    match r
    case RolledBack(stage, left, fate) =>
      exists end :: StageFailed(p, plan, stage, before, end)
                    && after == end + Undo(p.src, stage == HealthCheck, left, fate)
    case _ =>
      after == before + Done(Copies(p.src, plan)) + [Call(Set(p.src.Other(), Running), true)]
               + If(p.healthCheck, Call(Probe(p.src.Other()), true))
  }

  ghost predicate MoveTold(p: Params, plan: Plan, r: Outcome, before: seq<Call>, after: seq<Call>) {
    match r
    case NotStopped(stopOk, checkOk) =>
      after == before + [Call(Set(p.src, Stopped), stopOk), Call(List(p.src), checkOk)]
    case _ => SwitchTold(p, plan, r, before + Done(Stopping(p.src, plan.inst.status == Running)), after)
  }

  /** Every command of a migration, in order, and how it went. */
  ghost predicate Told(p: Params, w: World, lists: seq<Call>, r: Outcome, before: seq<Call>, after: seq<Call>) {
    if r == Refused then Turned(p, w, lists, before, after) else
      && Movable(p, w) && Lists(lists) && AllOk(lists)
      && exists plan :: PlanOf(p, w, plan) &&
           var ready := before + lists + Done(Snapped(p, plan));
           if r == WarmCopyFailed then Runs(Warm(p.src, plan), ready, after, false)
           else MoveTold(p, Warmed(plan), r, ready + Done(Warm(p.src, plan)), after)
  }

  /** Every command of a finalize. */
  ghost predicate FinalizeTold(w: World, src: Side, purge: bool, healthCheck: bool, lists: seq<Call>, ok: bool,
                               before: seq<Call>, after: seq<Call>) {
    && Lists(lists)
    && if !AllOk(lists) || !Finalizable(w, src) || w.At(src).inst.None? then
         after == before + lists && (ok <==> AllOk(lists) && Finalizable(w, src))
       else
         Runs(If(healthCheck, Probe(src.Other())) + Removing(src, w.At(src).inst.value.attached, purge),
              before + lists, after, ok)
  }

  // ------------------------------------------------------------- what the log tells

  /** The call was made since. */
  predicate Tried(before: seq<Call>, after: seq<Call>, c: Call) {
    exists i :: |before| <= i < |after| && after[i] == c
  }

  predicate NoneFailed(before: seq<Call>, after: seq<Call>) {
    forall i :: |before| <= i < |after| ==> after[i].ok
  }

  lemma TriedIn(before: seq<Call>, a: seq<Call>, b: seq<Call>, c: seq<Call>, i: nat)
    requires i < |b|
    ensures Tried(before, before + a + b + c, b[i])
  {
    assert (before + a + b + c)[|before| + |a| + i] == b[i];
  }

  /** A failed run has a failed call. */
  lemma FailedRun(cs: seq<Command>, before: seq<Call>, start: seq<Call>, end: seq<Call>, rest: seq<Call>)
      returns (k: nat)
    requires Runs(cs, before + start, end, false)
    ensures k < |cs| && Tried(before, end + rest, Call(cs[k], false)) && !NoneFailed(before, end + rest)
  {
    k :| k < |cs| && end == before + start + Done(cs[..k]) + [Call(cs[k], false)];
    assert end + rest == before + (start + Done(cs[..k])) + [Call(cs[k], false)] + rest;
    TriedIn(before, start + Done(cs[..k]), [Call(cs[k], false)], rest, 0);
  }

  predicate IsCopy(c: Command, src: Side) {
    (c.CopyVol? || c.CopyInst?) && c.side == src
  }

  /** What a rollback says, it tried: of the stage, of the target and of the source. */
  lemma {:induction false} RollbackTold(p: Params, w: World, lists: seq<Call>, r: Outcome, before: seq<Call>,
                                        after: seq<Call>)
    requires Told(p, w, lists, r, before, after) && r.RolledBack?
    ensures match r.stage
      case FinalSync => exists c :: IsCopy(c, p.src) && Tried(before, after, Call(c, false))
      case StartTarget => Tried(before, after, Call(Set(p.src.Other(), Running), false))
      case HealthCheck => p.healthCheck && Tried(before, after, Call(Probe(p.src.Other()), false))
    ensures r.stage == HealthCheck ==> Tried(before, after, Call(Set(p.src.Other(), Stopped), !r.targetLeft))
    ensures r.fate != WasStopped ==> Tried(before, after, Call(Set(p.src, Running), r.fate == Restarted))
    ensures !NoneFailed(before, after)
  {
    var plan, start, end := RollbackParts(p, w, lists, r, before, after);
    StageTold(p, plan, r.stage, before, start, end, Undo(p.src, r.stage == HealthCheck, r.targetLeft, r.fate));
    UndoTold(p.src, r, before, end, after);
  }

  lemma Regroup(a: seq<Call>, b: seq<Call>, c: seq<Call>, d: seq<Call>)
    ensures a + b + c + d == a + (b + c + d)
  {
  }

  /** What comes before the stop of the source: all of it went through. */
  function Ready(p: Params, lists: seq<Call>, plan: Plan): seq<Call> {
    lists + Done(Snapped(p, plan)) + Done(Warm(p.src, plan))
  }

  lemma MovePart(p: Params, w: World, lists: seq<Call>, r: Outcome, before: seq<Call>, after: seq<Call>)
      returns (plan: Plan)
    requires Told(p, w, lists, r, before, after) && (r.NotStopped? || r.RolledBack? || r.Moved?)
    ensures PlanOf(p, w, plan) && MoveTold(p, Warmed(plan), r, before + Ready(p, lists, plan), after)
  {
    plan :| PlanOf(p, w, plan) && MoveTold(p, Warmed(plan), r,
      before + lists + Done(Snapped(p, plan)) + Done(Warm(p.src, plan)), after);
    Regroup(before, lists, Done(Snapped(p, plan)), Done(Warm(p.src, plan)));
  }

  lemma RollbackParts(p: Params, w: World, lists: seq<Call>, r: Outcome, before: seq<Call>, after: seq<Call>)
      returns (plan: Plan, start: seq<Call>, end: seq<Call>)
    requires Told(p, w, lists, r, before, after) && r.RolledBack?
    ensures StageFailed(p, plan, r.stage, before + start, end)
    ensures after == end + Undo(p.src, r.stage == HealthCheck, r.targetLeft, r.fate)
  {
    var first := MovePart(p, w, lists, r, before, after);
    plan := Warmed(first);
    var ready, stop := Ready(p, lists, first), Done(Stopping(p.src, plan.inst.status == Running));
    start := ready + stop;
    assert before + start == before + ready + stop;
    end := SwitchEnd(p, plan, r, before + start, after);
  }

  lemma SwitchEnd(p: Params, plan: Plan, r: Outcome, before: seq<Call>, after: seq<Call>) returns (end: seq<Call>)
    requires SwitchTold(p, plan, r, before, after) && r.RolledBack?
    ensures StageFailed(p, plan, r.stage, before, end)
    ensures after == end + Undo(p.src, r.stage == HealthCheck, r.targetLeft, r.fate)
  {
    end :| StageFailed(p, plan, r.stage, before, end)
           && after == end + Undo(p.src, r.stage == HealthCheck, r.targetLeft, r.fate);
  }

  lemma StageTold(p: Params, plan: Plan, stage: Stage, before: seq<Call>, start: seq<Call>, end: seq<Call>,
                  undo: seq<Call>)
    requires StageFailed(p, plan, stage, before + start, end)
    ensures match stage
      case FinalSync => exists c :: IsCopy(c, p.src) && Tried(before, end + undo, Call(c, false))
      case StartTarget => Tried(before, end + undo, Call(Set(p.src.Other(), Running), false))
      case HealthCheck => p.healthCheck && Tried(before, end + undo, Call(Probe(p.src.Other()), false))
    ensures !NoneFailed(before, end + undo) && |end| >= |before|
  {
    var done := Done(Copies(p.src, plan));
    match stage
    case FinalSync =>
      var k := FailedRun(Copies(p.src, plan), before, start, end, undo);
      assert IsCopy(Copies(p.src, plan)[k], p.src);
    case StartTarget =>
      var c := Call(Set(p.src.Other(), Running), false);
      assert end + undo == before + (start + done) + [c] + undo;
      TriedIn(before, start + done, [c], undo, 0);
    case HealthCheck =>
      var ran, c := start + done + [Call(Set(p.src.Other(), Running), true)], Call(Probe(p.src.Other()), false);
      assert end + undo == before + ran + [c] + undo;
      TriedIn(before, ran, [c], undo, 0);
  }

  lemma UndoTold(src: Side, r: Outcome, before: seq<Call>, end: seq<Call>, after: seq<Call>)
    requires r.RolledBack? && |before| <= |end|
    requires after == end + Undo(src, r.stage == HealthCheck, r.targetLeft, r.fate)
    ensures r.stage == HealthCheck ==> Tried(before, after, Call(Set(src.Other(), Stopped), !r.targetLeft))
    ensures r.fate != WasStopped ==> Tried(before, after, Call(Set(src, Running), r.fate == Restarted))
  {
    if r.stage == HealthCheck {
      assert after[|end|] == Call(Set(src.Other(), Stopped), !r.targetLeft);
    }
    if r.fate != WasStopped {
      assert after[|after| - 1] == Call(Set(src, Running), r.fate == Restarted);
    }
  }

  lemma NotMovedFails(p: Params, w: World, lists: seq<Call>, r: Outcome, before: seq<Call>, after: seq<Call>)
    requires Told(p, w, lists, r, before, after) && r != Moved && Movable(p, w)
    requires r.NotStopped? ==> !(r.stopOk && r.checkOk)
    ensures !NoneFailed(before, after)
  {
    match r
    case Refused => RefusedFails(p, w, lists, before, after);
    case WarmCopyFailed =>
      var plan :| PlanOf(p, w, plan)
                  && Runs(Warm(p.src, plan), before + lists + Done(Snapped(p, plan)), after, false);
      assert before + lists + Done(Snapped(p, plan)) == before + (lists + Done(Snapped(p, plan)));
      var k := FailedRun(Warm(p.src, plan), before, lists + Done(Snapped(p, plan)), after, []);
      assert after + [] == after;
    case NotStopped(stopOk, checkOk) =>
      var plan := MovePart(p, w, lists, r, before, after);
      assert after[|after| - 2] == Call(Set(p.src, Stopped), stopOk);
      assert after[|after| - 1] == Call(List(p.src), checkOk);
    case RolledBack(_, _, _) => RollbackTold(p, w, lists, r, before, after);
  }

  lemma RefusedFails(p: Params, w: World, lists: seq<Call>, before: seq<Call>, after: seq<Call>)
    requires Turned(p, w, lists, before, after) && Movable(p, w)
    ensures !NoneFailed(before, after)
  {
    if after == before + lists && !AllOk(lists) {
      var i :| 0 <= i < |lists| && !lists[i].ok;
      assert after[|before| + i] == lists[i];
    } else {
      var k := FailedRun(Snaps(w.At(p.src).inst.value.attached), before, lists, after, []);
      assert after + [] == after;
    }
  }

  /** What a migration that moved the instance did last: the copies of a source that was stopped and found so, the
      start, and the health check if one is asked for. */
  lemma MovedEnd(p: Params, plan: Plan, before: seq<Call>, after: seq<Call>)
    requires MoveTold(p, plan, Moved, before, after)
    ensures after ==
      before + Done(Stopping(p.src, plan.inst.status == Running)) + (Done(Copies(p.src, plan)) + Starting(p))
  {
    var stop, done := Done(Stopping(p.src, plan.inst.status == Running)), Done(Copies(p.src, plan));
    var start, probe := [Call(Set(p.src.Other(), Running), true)], If(p.healthCheck, Call(Probe(p.src.Other()), true));
    assert before + stop + done + start + probe == before + stop + (done + (start + probe));
  }

  /** An instance is moved exactly when it is there, mounts no host path, and the target has its profiles and nothing
      of it, or with resume at most a stopped copy and its volumes, and no command on the way fails. */
  lemma {:induction false} MovedExactly(p: Params, v: World, cut: World, w: World, lists: seq<Call>, r: Outcome,
                                        before: seq<Call>, after: seq<Call>)
    requires Told(p, v, lists, r, before, after) && Migrated(v, cut, w, p.src, r)
    ensures var s, t := v.At(p.src), v.At(p.src.Other());
      r == Moved <==>
        && s.inst.Some? && !s.inst.value.hostPath && s.inst.value.profiles <= t.profiles
        && (p.volume != "" ==> exists k :: k in s.inst.value.attached && k.name == p.volume)
        && (t.inst.Some? ==> p.resume && t.inst.value.status == Stopped)
        && (p.resume || forall k :: k in s.inst.value.attached ==> k !in t.vols)
        && forall i :: |before| <= i < |after| ==> after[i].ok
  {
    if r == Moved {
      var plan := MovePart(p, v, lists, r, before, after);
      MovedEnd(p, Warmed(plan), before + Ready(p, lists, plan), after);
      MovedOk(p, lists, plan, before, after);
    } else if Movable(p, v) {
      NotMovedFails(p, v, lists, r, before, after);
    }
  }

  lemma MovedOk(p: Params, lists: seq<Call>, plan: Plan, before: seq<Call>, after: seq<Call>)
    requires AllOk(lists) && MoveTold(p, Warmed(plan), Moved, before + Ready(p, lists, plan), after)
    ensures NoneFailed(before, after)
  {
  }

  /** The call at i, or later, is c. */
  predicate TriedFrom(after: seq<Call>, i: nat, c: Call) {
    exists j :: i <= j < |after| && after[j] == c
  }

  /** What was moved was snapshotted if that is not skipped, stopped and listed if it ran, copied after that with every
      volume, started on the target, and last of all found well if that is asked for. */
  lemma {:induction false} MovedTold(p: Params, w: World, lists: seq<Call>, before: seq<Call>, after: seq<Call>)
      returns (i: nat)
    requires Told(p, w, lists, Moved, before, after)
    ensures |before| <= i < |after| && w.At(p.src).inst.Some?
    ensures !p.skipSnapshot ==> forall v :: v in w.At(p.src).inst.value.attached ==>
      Tried(before, after[..i], Call(Snapshot(v), true))
    ensures w.At(p.src).IsRunning() ==>
      i >= |before| + 2 && after[i - 2] == Call(Set(p.src, Stopped), true) && after[i - 1] == Call(List(p.src), true)
    ensures forall v :: v in w.At(p.src).inst.value.attached ==>
      exists refresh :: TriedFrom(after, i, Call(CopyVol(p.src, v, refresh), true))
    ensures exists refresh :: TriedFrom(after, i, Call(CopyInst(p.src, refresh), true))
    ensures var n := |after| - if p.healthCheck then 2 else 1;
      i < n && after[n] == Call(Set(p.src.Other(), Running), true)
      && (p.healthCheck ==> after[n + 1] == Call(Probe(p.src.Other()), true))
  {
    var first := MovePart(p, w, lists, Moved, before, after);
    MovedEnd(p, Warmed(first), before + Ready(p, lists, first), after);
    i := MovedParts(p, first, lists, before, after);
  }

  lemma MovedParts(p: Params, first: Plan, lists: seq<Call>, before: seq<Call>, after: seq<Call>) returns (i: nat)
    requires var ran := first.inst.status == Running;
      after == before + Ready(p, lists, first) + Done(Stopping(p.src, ran))
             + (Done(Copies(p.src, Warmed(first))) + Starting(p))
    ensures |before| <= i < |after|
    ensures !p.skipSnapshot ==> forall v :: v in first.inst.attached ==>
      Tried(before, after[..i], Call(Snapshot(v), true))
    ensures first.inst.status == Running ==>
      i >= |before| + 2 && after[i - 2] == Call(Set(p.src, Stopped), true) && after[i - 1] == Call(List(p.src), true)
    ensures forall v :: v in Warmed(first).inst.attached ==>
      exists refresh :: TriedFrom(after, i, Call(CopyVol(p.src, v, refresh), true))
    ensures exists refresh :: TriedFrom(after, i, Call(CopyInst(p.src, refresh), true))
    ensures var n := |after| - if p.healthCheck then 2 else 1;
      i < n && after[n] == Call(Set(p.src.Other(), Running), true)
      && (p.healthCheck ==> after[n + 1] == Call(Probe(p.src.Other()), true))
  {
    var ready, stop := Ready(p, lists, first), Done(Stopping(p.src, first.inst.status == Running));
    var copies, end := Done(Copies(p.src, Warmed(first))), Starting(p);
    i := |before| + |ready| + |stop|;
    if !p.skipSnapshot {
      SnappedTold(p, first, lists, before, ready, stop, copies + end);
    }
    CopiedTold(p.src, Warmed(first), before + ready + stop, end);
    assert before + ready + stop + (copies + end) == before + ready + stop + copies + end;
    StartedTold(p, before + ready + stop + copies, end, after);
    if first.inst.status == Running {
      StoppedTold(p.src, true, before + ready, copies + end, after);
    }
  }

  /** The last calls of a migration that moved the instance. */
  function Starting(p: Params): seq<Call> {
    [Call(Set(p.src.Other(), Running), true)] + If(p.healthCheck, Call(Probe(p.src.Other()), true))
  }

  lemma StartedTold(p: Params, start: seq<Call>, end: seq<Call>, after: seq<Call>)
    requires end == Starting(p) && after == start + end
    ensures var n := |after| - if p.healthCheck then 2 else 1;
      n == |start| && after[n] == Call(Set(p.src.Other(), Running), true)
      && (p.healthCheck ==> after[n + 1] == Call(Probe(p.src.Other()), true))
  {
  }

  lemma StoppedTold(src: Side, ran: bool, start: seq<Call>, rest: seq<Call>, after: seq<Call>)
    requires ran && after == start + Done(Stopping(src, ran)) + rest
    ensures after[|start|] == Call(Set(src, Stopped), true) && after[|start| + 1] == Call(List(src), true)
  {
  }

  lemma SnappedTold(p: Params, plan: Plan, lists: seq<Call>, before: seq<Call>, ready: seq<Call>, stop: seq<Call>,
                    rest: seq<Call>)
    requires ready == Ready(p, lists, plan) && !p.skipSnapshot
    ensures forall v :: v in plan.inst.attached ==>
      Tried(before, (before + ready + stop + rest)[..|before| + |ready| + |stop|], Call(Snapshot(v), true))
  {
    assert (before + ready + stop + rest)[..|before| + |ready| + |stop|] == before + ready + stop;
    forall v | v in plan.inst.attached ensures Tried(before, before + ready + stop, Call(Snapshot(v), true)) {
      var k :| 0 <= k < |plan.inst.attached| && plan.inst.attached[k] == v;
      assert (before + ready + stop)[|before| + |lists| + k] == Call(Snapshot(v), true);
    }
  }

  lemma CopiedTold(src: Side, plan: Plan, start: seq<Call>, end: seq<Call>)
    ensures forall v :: v in plan.inst.attached ==> exists refresh ::
      TriedFrom(start + (Done(Copies(src, plan)) + end), |start|, Call(CopyVol(src, v, refresh), true))
    ensures exists refresh ::
      TriedFrom(start + (Done(Copies(src, plan)) + end), |start|, Call(CopyInst(src, refresh), true))
  {
    var cs := Copies(src, plan);
    var after := start + (Done(cs) + end);
    forall v | v in plan.inst.attached
      ensures exists refresh :: TriedFrom(after, |start|, Call(CopyVol(src, v, refresh), true))
    {
      var k :| 0 <= k < |plan.inst.attached| && plan.inst.attached[k] == v;
      assert after[|start| + k] == Call(cs[k], true);
      assert TriedFrom(after, |start|, Call(CopyVol(src, v, cs[k].refresh), true));
    }
    assert after[|start| + |cs| - 1] == Call(CopyInst(src, plan.instThere), true);
    assert TriedFrom(after, |start|, Call(CopyInst(src, plan.instThere), true));
  }

  /** One failed call and no other. */
  predicate OnlyFailed(before: seq<Call>, after: seq<Call>, c: Command) {
    Tried(before, after, Call(c, false)) && forall i :: |before| <= i < |after| && !after[i].ok ==> after[i].cmd == c
  }

  /** If nothing but the health check fails, the target is stopped and the source is as it was. */
  lemma {:induction false} OnlyUnwell(p: Params, v: World, cut: World, w: World, lists: seq<Call>, r: Outcome,
                                      before: seq<Call>, after: seq<Call>)
    requires Told(p, v, lists, r, before, after) && Migrated(v, cut, w, p.src, r)
    requires r.RolledBack? && OnlyFailed(before, after, Probe(p.src.Other()))
    ensures !w.At(p.src.Other()).IsRunning() && (w.At(p.src).IsRunning() <==> v.At(p.src).IsRunning())
  {
    RollbackTold(p, v, lists, r, before, after);
  }

  lemma NotStoppedServes(p: Params, v: World, cut: World, w: World, lists: seq<Call>, r: Outcome,
                         before: seq<Call>, after: seq<Call>, c: Command)
    requires Told(p, v, lists, r, before, after) && Migrated(v, cut, w, p.src, r) && r.NotStopped?
    requires OnlyFailed(before, after, c) && v.At(p.src).IsRunning() && !v.At(p.src.Other()).IsRunning()
    ensures c != List(p.src) <==> Alone(w, p.src) || Alone(w, p.src.Other())
  {
    var plan := MovePart(p, v, lists, r, before, after);
    assert after[|after| - 2] == Call(Set(p.src, Stopped), r.stopOk);
    assert after[|after| - 1] == Call(List(p.src), r.checkOk);
  }

  lemma WarmFailed(p: Params, v: World, lists: seq<Call>, before: seq<Call>, after: seq<Call>)
      returns (c: Command)
    requires Told(p, v, lists, WarmCopyFailed, before, after)
    ensures Tried(before, after, Call(c, false)) && !c.List?
  {
    var plan :| PlanOf(p, v, plan) && Runs(Warm(p.src, plan), before + lists + Done(Snapped(p, plan)), after, false);
    c := RunFailed(Warm(p.src, plan), before, lists, Done(Snapped(p, plan)), after);
  }

  lemma RunFailed(cs: seq<Command>, before: seq<Call>, lists: seq<Call>, done: seq<Call>, after: seq<Call>)
      returns (c: Command)
    requires Runs(cs, before + lists + done, after, false)
    ensures c in cs && Tried(before, after, Call(c, false))
  {
    assert before + lists + done == before + (lists + done);
    var k := FailedRun(cs, before, lists + done, after, []);
    assert after + [] == after;
    c := cs[k];
  }

  /** Whatever single command fails once the instance can be moved, exactly one copy serves afterwards if the source
      did before: unless it is the check that the source has stopped. */
  lemma {:induction false} OneFailureServes(p: Params, v: World, cut: World, w: World, lists: seq<Call>, r: Outcome,
                                            before: seq<Call>, after: seq<Call>, c: Command)
    requires Told(p, v, lists, r, before, after) && Migrated(v, cut, w, p.src, r) && r != Refused
    requires OnlyFailed(before, after, c) && v.At(p.src).IsRunning() && !v.At(p.src.Other()).IsRunning()
    ensures c != List(p.src) <==> Alone(w, p.src) || Alone(w, p.src.Other())
  {
    match r
    case Moved => MovedExactly(p, v, cut, w, lists, r, before, after);
    case NotStopped(_, _) => NotStoppedServes(p, v, cut, w, lists, r, before, after, c);
    case RolledBack(_, _, _) => RollbackTold(p, v, lists, r, before, after);
    case WarmCopyFailed => var d := WarmFailed(p, v, lists, before, after);
  }

  lemma ListsThenRuns(lists: seq<Call>, cs: seq<Command>, before: seq<Call>, after: seq<Call>, ok: bool)
    requires Runs(cs, before + lists, after, ok)
    ensures ok ==> (NoneFailed(before, after) <==> AllOk(lists))
    ensures !ok ==> !NoneFailed(before, after)
    ensures |after| > |before| + |lists| || cs == []
    ensures forall i :: |before| + |lists| <= i < |after| ==>
      i < |before| + |lists| + |cs| && after[i].cmd == cs[i - |before| - |lists|] && (i + 1 < |after| ==> after[i].ok)
    ensures forall i :: |before| <= i < |before| + |lists| ==> after[i] == lists[i - |before|]
  {
    if ok {
      assert forall i :: 0 <= i < |lists| ==> after[|before| + i] == lists[i];
    } else {
      var k: nat :| k < |cs| && after == before + lists + Done(cs[..k]) + [Call(cs[k], false)];
      assert after[|after| - 1] == Call(cs[k], false);
    }
  }

  /** A finalize goes through exactly when the target runs, a source that is still there is stopped, mounts no host
      path and has each volume on the target, and no command fails; it deletes nothing before the target was found
      well, if that is asked for. */
  lemma {:induction false} FinalizedExactly(w: World, src: Side, purge: bool, healthCheck: bool, lists: seq<Call>,
                                            ok: bool, before: seq<Call>, after: seq<Call>)
    requires FinalizeTold(w, src, purge, healthCheck, lists, ok, before, after)
    ensures var s, t := w.At(src), w.At(src.Other());
      ok <==>
        && t.inst.Some? && t.inst.value.status == Running
        && (s.inst.Some? ==> s.inst.value.status == Stopped && !s.inst.value.hostPath
                             && forall v :: v in s.inst.value.attached ==> v in t.vols)
        && forall i :: |before| <= i < |after| ==> after[i].ok
    ensures healthCheck ==>
      forall i :: |before| <= i < |after| && (after[i].cmd.DeleteInst? || after[i].cmd.DeleteVol?) ==>
        Tried(before, after[..i], Call(Probe(src.Other()), true))
  {
    if AllOk(lists) && Finalizable(w, src) && w.At(src).inst.Some? {
      var cs := If(healthCheck, Probe(src.Other())) + Removing(src, w.At(src).inst.value.attached, purge);
      ListsThenRuns(lists, cs, before, after, ok);
      if healthCheck {
        var at := |before| + |lists|;
        assert cs[0] == Probe(src.Other()) && after[at].cmd == Probe(src.Other());
        forall i | |before| <= i < |after| && (after[i].cmd.DeleteInst? || after[i].cmd.DeleteVol?)
          ensures Tried(before, after[..i], Call(Probe(src.Other()), true))
        {
          assert i > at && after[..i][at] == Call(Probe(src.Other()), true);
        }
      }
    } else {
      assert forall i :: |before| <= i < |after| ==> after[i] == lists[i - |before|];
      if !AllOk(lists) {
        var i :| 0 <= i < |lists| && !lists[i].ok;
        assert after[|before| + i] == lists[i];
      }
    }
  }

  predicate StopFailed(wasRunning: bool, end: Option<Outcome>, source: Remote) {
    match end
    case None => !source.IsRunning() && (wasRunning ==> StatusOf(source) == Some(Stopped))
    case Some(r) =>
      && wasRunning && r.NotStopped? && !(r.stopOk && r.checkOk)
      && StatusOf(source) == Some(if r.stopOk then Stopped else Running)
  }

  /** A migration whose source was verified as stopped, or did not run, ends as its switch does. */
  lemma SwitchedIsMigrated(before: World, stopped: World, cut: World, after: World, src: Side, wasRunning: bool,
                           r: Outcome)
    requires Kept(before.At(src), stopped.At(src)) && (wasRunning <==> before.At(src).IsRunning())
    requires !stopped.At(src).IsRunning()
    requires StatusOf(stopped.At(src)) == if wasRunning then Some(Stopped) else StatusOf(before.At(src))
    requires NothingGone(before.At(src.Other()), stopped.At(src.Other()))
    requires Switched(stopped, cut, after, src, wasRunning, r)
    ensures Migrated(before, cut, after, src, r)
    ensures CopiedTo(stopped.At(src.Other()), WithoutRun(after.At(src.Other())), stopped.At(src).inst.value.attached)
  {
    SwitchedTarget(stopped, cut, after, src, wasRunning, r);
    SwitchedKeeps(stopped, cut, after, src, wasRunning, r);
    KeptTransitive(before.At(src), stopped.At(src), cut.At(src));
    KeptTransitive(before.At(src), stopped.At(src), after.At(src));
  }

  lemma SwitchedKeeps(before: World, cut: World, after: World, src: Side, wasRunning: bool, r: Outcome)
    requires Switched(before, cut, after, src, wasRunning, r)
    ensures Kept(before.At(src), after.At(src)) && Kept(before.At(src), cut.At(src))
  {
  }

  lemma SwitchedTarget(before: World, cut: World, after: World, src: Side, wasRunning: bool, r: Outcome)
    requires Switched(before, cut, after, src, wasRunning, r)
    ensures CopiedTo(before.At(src.Other()), WithoutRun(after.At(src.Other())), before.At(src).inst.value.attached)
  {
  }

  /** What is true of the steps after the preparation is true of the whole. */
  lemma PreparedIsMigrated(p: Params, before: World, prepared: World, cut: World, after: World, r: Outcome)
    requires Passed(before.At(p.src), prepared.At(p.src))
    requires Target(p, before.At(p.src.Other()), prepared.At(p.src.Other()), prepared.At(p.src).inst)
    requires Migrated(prepared, cut, after, p.src, r) && (r.NotStopped? || r.RolledBack? || r.Moved?)
    requires CopiedTo(prepared.At(p.src.Other()), WithoutRun(after.At(p.src.Other())),
                      prepared.At(p.src).inst.value.attached)
    ensures Migrated(before, cut, after, p.src, r)
    ensures Target(p, before.At(p.src.Other()), WithoutRun(after.At(p.src.Other())), after.At(p.src).inst)
  {
    KeptTransitive(before.At(p.src), prepared.At(p.src), after.At(p.src));
    if r.Moved? || (r.RolledBack? && r.stage == HealthCheck) {
      KeptTransitive(before.At(p.src), prepared.At(p.src), cut.At(p.src));
    }
  }

  /** An instance that was started where it had been copied to, and wrote since. */
  predicate StartedFrom(cut: Remote, r: Remote) {
    Kept(cut, r) && cut.inst.Some? && OthersSame(cut.vols, r.vols, cut.inst.value.attached)
  }

  /** What step 5 leaves, by outcome. */
  predicate Switched(before: World, cut: World, after: World, src: Side, wasRunning: bool, r: Outcome) {
    var dst := src.Other();
    && (r.RolledBack? || r.Moved?) && before.At(src).inst.Some?
    && cut.At(src) == before.At(src) && CopiedTo(before.At(dst), cut.At(dst), before.At(src).inst.value.attached)
    && (r.Moved? || r.stage == HealthCheck ==>
          FullCopy(cut.At(src), cut.At(dst)) && StatusOf(cut.At(dst)) == Some(Stopped)
          && StartedFrom(cut.At(dst), after.At(dst)))
    && (r.RolledBack? && r.stage != HealthCheck ==> after.At(dst) == cut.At(dst))
    && (after.At(dst).IsRunning() <==> r.Moved? || r.targetLeft)
    && (r.RolledBack? && r.targetLeft ==> r.stage == HealthCheck)
    && (r.Moved? || r.fate != Restarted ==> after.At(src) == before.At(src))
    && (r.RolledBack? ==> (r.fate == WasStopped <==> !wasRunning))
    && (r.RolledBack? && r.fate == Restarted ==> Kept(before.At(src), after.At(src)) && after.At(src).IsRunning())
  }

  function WithoutRun(r: Remote): Remote {
    if r.IsRunning() then WithStatus(r, Stopped) else r
  }

  /** The instance is as it was read, but for its data. */
  predicate Matches(r: Remote, inst: Instance) {
    r.inst.Some? && SameButData(r.inst.value, inst) && r.inst.value.status == inst.status
  }

  /** What copying leaves of the target: a volume the instance does not have is untouched, and without resume
      there was nothing of the instance to overwrite. */
  predicate Target(p: Params, before: Remote, after: Remote, inst: Option<Instance>) {
    && inst.Some?
    && !before.IsRunning()
    && CopiedTo(before, after, inst.value.attached)
    && (!p.resume ==> before.inst.None? && forall v :: v in inst.value.attached ==> v !in before.vols)
  }

  /** A target that is copied to: nothing goes, only the given volumes and the instance may differ, and it does
      not run. */
  predicate CopiedTo(r: Remote, s: Remote, attached: seq<VolKey>) {
    NothingGone(r, s) && OthersSame(r.vols, s.vols, attached) && !s.IsRunning()
  }

  /** The first n volumes are the same on both. */
  predicate VolsCopied(s: Remote, t: Remote, attached: seq<VolKey>, n: nat)
    requires n <= |attached|
  {
    forall k :: 0 <= k < n ==> CopyOf(s, t, attached[k])
  }

  /** Time passed on the source, and the first n volumes are copied as they are if it does not run. */
  predicate CopiedSoFar(start: World, w: World, src: Side, vols: seq<VolKey>, n: nat)
    requires n <= |vols|
  {
    && Passed(start.At(src), w.At(src)) && CopiedTo(start.At(src.Other()), w.At(src.Other()), vols)
    && (!w.At(src).IsRunning() ==> VolsCopied(w.At(src), w.At(src.Other()), vols, n))
  }

  predicate CopyOf(s: Remote, t: Remote, v: VolKey) {
    v in s.vols && v in t.vols && s.vols[v] == t.vols[v]
  }

  lemma CopiedToTransitive(r: Remote, s: Remote, t: Remote, attached: seq<VolKey>)
    requires CopiedTo(r, s, attached) && CopiedTo(s, t, attached)
    ensures CopiedTo(r, t, attached)
  {
  }

  /** One more volume written on the target. */
  lemma VolumeWritten(before: World, after: World, src: Side, attached: seq<VolKey>, n: nat)
    requires n < |attached| && !before.At(src.Other()).IsRunning()
    requires after == before || OnlyVolume(before, after, src.Other(), attached[n])
    ensures after.At(src) == before.At(src)
    ensures CopiedTo(before.At(src.Other()), after.At(src.Other()), attached)
    ensures after.At(src.Other()).inst == before.At(src.Other()).inst
    ensures VolsCopied(after.At(src), before.At(src.Other()), attached, n)
      && CopyOf(after.At(src), after.At(src.Other()), attached[n])
      ==> VolsCopied(after.At(src), after.At(src.Other()), attached, n + 1)
  {
  }

  function NamesIn(r: Remote, pool: string): set<string> {
    set k | k in r.vols && k.pool == pool :: k.name
  }

  /** The pools asked for so far, as they are. */
  predicate Cached(r: Remote, pools: map<string, set<string>>) {
    forall pool :: pool in pools ==> pools[pool] == NamesIn(r, pool)
  }

  /** Only that volume was written. */
  predicate OnlyVolume(before: World, after: World, side: Side, v: VolKey) {
    && v in after.At(side).vols
    && after == before.With(side, WithVolume(before.At(side), v, after.At(side).vols[v]))
  }

  /** Only the instance was written, and it is stopped. */
  predicate OnlyInstance(before: World, after: World, side: Side) {
    && after == before.With(side, before.At(side).(inst := after.At(side).inst))
    && StatusOf(after.At(side)) == Some(Stopped)
  }

  function WithVolume(r: Remote, v: VolKey, data: Data): Remote {
    r.(vols := r.vols[v := data])
  }

  function WithStatus(r: Remote, status: Status): Remote {
    if r.inst.Some? then r.(inst := Some(r.inst.value.(status := status))) else r
  }

  // ------------------------------------------------------------------- every run

  /** What happens to the instance: time passes, an operator starts or stops a copy, or a migration or a
      finalize is run, with whatever outcome. */
  datatype Op =
    | Serve
    | Start(side: Side)
    | Stop(side: Side)
    | Migrate(p: Params, r: Outcome, cut: World)
    | Finalize(src: Side, purge: bool, ok: bool)

  predicate Alone(w: World, side: Side) {
    w.At(side).IsRunning() && !w.At(side.Other()).IsRunning()
  }

  /** The last-served copy: the one that runs, and while none or both do, the one it was before. */
  function Served(w: World, owner: Side): Side {
    if Alone(w, East) then East else if Alone(w, West) then West else owner
  }

  /** Each operation does what is proved of it. The operator only starts the last-served copy, stops it only when
      the other does not run, and migrates from it; a finalize may name any source. */
  predicate Happens(v: World, owner: Side, op: Op, w: World) {
    match op
    case Serve => BothPassed(v, w)
    case Start(side) => side == owner && w == v.With(side, WithStatus(v.At(side), Running))
    case Stop(side) =>
      (side != owner || !v.At(side.Other()).IsRunning()) && w == v.With(side, WithStatus(v.At(side), Stopped))
    case Migrate(p, r, cut) => p.src == owner && Migrated(v, cut, w, owner, r)
    case Finalize(src, purge, ok) => Finalized(v, w, src, purge, ok)
  }

  /** The last-served copy is whole, and is the one that runs if only one does. */
  predicate OwnerInv(w: World, owner: Side) {
    Complete(w.At(owner)) && Served(w, owner) == owner
  }

  lemma KeptExtends(r: Remote, s: Remote)
    requires Complete(r) && Kept(r, s)
    ensures Extends(r, s) && Complete(s)
  {
  }

  lemma FullCopyExtends(r: Remote, s: Remote, t: Remote, u: Remote)
    requires Complete(r) && Kept(r, s) && FullCopy(s, t) && Kept(t, u)
    ensures Extends(r, u) && Complete(u)
  {
  }

  lemma ExtendsTransitive(r: Remote, s: Remote, t: Remote)
    requires Extends(r, s) && Extends(s, t)
    ensures Extends(r, t)
  {
  }

  lemma MigrateKeepsData(v: World, cut: World, w: World, owner: Side, r: Outcome)
    requires OwnerInv(v, owner) && Migrated(v, cut, w, owner, r)
    ensures OwnerInv(w, Served(w, owner)) && Extends(v.At(owner), w.At(Served(w, owner)))
  {
    var dst := owner.Other();
    KeptExtends(v.At(owner), w.At(owner));
    if Served(w, owner) == dst {
      assert w.At(dst).IsRunning() && !w.At(owner).IsRunning();
      assert r != Refused;
      FullCopyExtends(v.At(owner), cut.At(owner), cut.At(dst), w.At(dst));
    }
  }

  lemma FinalizeKeepsData(v: World, w: World, owner: Side, src: Side, purge: bool, ok: bool)
    requires OwnerInv(v, owner) && Finalized(v, w, src, purge, ok)
    ensures Passed(v.At(owner), w.At(owner))
    ensures OwnerInv(w, Served(w, owner)) && Extends(v.At(owner), w.At(Served(w, owner)))
  {
    KeptExtends(v.At(owner), w.At(owner));
  }

  lemma StepKeepsData(v: World, owner: Side, op: Op, w: World)
    requires OwnerInv(v, owner) && Happens(v, owner, op, w)
    ensures OwnerInv(w, Served(w, owner)) && Extends(v.At(owner), w.At(Served(w, owner)))
  {
    match op
    case Migrate(p, r, cut) => MigrateKeepsData(v, cut, w, owner, r);
    case Finalize(src, purge, ok) => FinalizeKeepsData(v, w, owner, src, purge, ok);
    case _ => KeptExtends(v.At(owner), w.At(owner));
  }

  /** Any number of operations; owners says which copy was last served after each. */
  ghost predicate IsHistory(worlds: seq<World>, owners: seq<Side>, ops: seq<Op>) {
    && |worlds| == |owners| == |ops| + 1
    && OwnerInv(worlds[0], owners[0])
    && forall k :: 0 <= k < |ops| ==>
      Happens(worlds[k], owners[k], ops[k], worlds[k + 1]) && owners[k + 1] == Served(worlds[k + 1], owners[k])
  }

  lemma {:induction false} OwnerThroughout(worlds: seq<World>, owners: seq<Side>, ops: seq<Op>, k: nat)
    requires IsHistory(worlds, owners, ops) && k < |worlds|
    ensures OwnerInv(worlds[k], owners[k])
  {
    if k > 0 {
      OwnerThroughout(worlds, owners, ops, k - 1);
      StepKeepsData(worlds[k - 1], owners[k - 1], ops[k - 1], worlds[k]);
    }
  }

  /** At any time the last-served copy is whole, with every write the last-served copy held at any time before:
      no migration, rollback or finalize, whatever fails in it, loses what was served. */
  lemma {:induction false} NothingServedIsLost(worlds: seq<World>, owners: seq<Side>, ops: seq<Op>, j: nat, k: nat)
    requires IsHistory(worlds, owners, ops) && j <= k < |worlds|
    ensures Complete(worlds[k].At(owners[k])) && Extends(worlds[j].At(owners[j]), worlds[k].At(owners[k]))
    decreases k
  {
    OwnerThroughout(worlds, owners, ops, k);
    if j < k {
      NothingServedIsLost(worlds, owners, ops, j, k - 1);
      OwnerThroughout(worlds, owners, ops, k - 1);
      StepExtends(worlds[j].At(owners[j]), worlds[k - 1], owners[k - 1], ops[k - 1], worlds[k]);
    } else {
      ExtendsItself(worlds[k].At(owners[k]));
    }
  }

  lemma ExtendsItself(r: Remote)
    requires Complete(r)
    ensures Extends(r, r)
  {
  }

  lemma StepExtends(r: Remote, v: World, owner: Side, op: Op, w: World)
    requires OwnerInv(v, owner) && Happens(v, owner, op, w) && Extends(r, v.At(owner))
    ensures Extends(r, w.At(Served(w, owner)))
  {
    StepKeepsData(v, owner, op, w);
    ExtendsTransitive(r, v.At(owner), w.At(Served(w, owner)));
  }

  /** A finalize, whichever source it is given, leaves the last-served copy as it was. */
  lemma FinalizeSparesOwner(worlds: seq<World>, owners: seq<Side>, ops: seq<Op>, k: nat)
    requires IsHistory(worlds, owners, ops) && k < |ops| && ops[k].Finalize?
    ensures Passed(worlds[k].At(owners[k]), worlds[k + 1].At(owners[k])) && owners[k + 1] == owners[k]
  {
    OwnerThroughout(worlds, owners, ops, k);
    FinalizeKeepsData(worlds[k], worlds[k + 1], owners[k], ops[k].src, ops[k].purge, ops[k].ok);
  }

  /** Both copies run after a migration only if the target could not be stopped again. This and the next two are read
      off Migrate's outcomes, which is where the work is. */
  lemma BothRunOnlyIfTargetLeft(before: World, cut: World, after: World, src: Side, r: Outcome)
    requires Migrated(before, cut, after, src, r) && r != Refused
    ensures after.At(src).IsRunning() && after.At(src.Other()).IsRunning()
      <==> r.RolledBack? && r.targetLeft && r.fate == Restarted
  {
  }

  /** Once a running source is verified as stopped, it runs again, or the outcome says that its restart failed. */
  lemma SourceRestored(before: World, cut: World, after: World, src: Side, r: Outcome)
    requires Migrated(before, cut, after, src, r) && before.At(src).IsRunning() && r != Moved
    ensures after.At(src).IsRunning() <==> !(r.RolledBack? && r.fate == RestartFailed) && !(r.NotStopped? && r.stopOk)
  {
  }

  /** The source ends up stopped by a completed migration exactly when it was listed as running or as stopped: one
      in another state, such as a frozen one, is neither stopped nor verified before the target starts. */
  lemma StoppedIfListed(before: World, cut: World, after: World, src: Side)
    requires Migrated(before, cut, after, src, Moved)
    ensures StatusOf(after.At(src)) == Some(Stopped) <==> StatusOf(before.At(src)) in {Some(Running), Some(Stopped)}
    ensures StatusOf(cut.At(src)) == StatusOf(after.At(src))
  {
  }

  function One(status: Status): Remote {
    Remote(Some(Instance(status, [1], [], {}, false)), map[], {})
  }

  const NONE := Remote(None, map[], {})

  /** A stop that went through and a check that did not: the source is down, and nothing starts it again. */
  lemma LeftStopped(before: World, after: World)
    requires before == World(One(Running), NONE) && after == World(One(Stopped), NONE)
    ensures Migrated(before, before, after, East, NotStopped(true, false))
    ensures before.At(East).IsRunning() && !after.At(East).IsRunning()
  {
  }

  /** A frozen source: the migration completes, and the source is as frozen as it was. */
  lemma FrozenMoves(before: World, cut: World, after: World)
    requires before == World(One(Frozen), NONE) && cut == World(One(Frozen), One(Stopped))
    requires after == World(One(Frozen), One(Running))
    ensures Migrated(before, cut, after, East, Moved) && StatusOf(after.At(East)) == Some(Frozen)
  {
  }
}
