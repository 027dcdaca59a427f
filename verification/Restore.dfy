/** Restoring a volume in place (pkg/backup/manager.go, Restore). */
module Restore {
  import opened Text

  // The commands are those of pkg/incus/volumes.go; one that fails changes nothing. The object was downloaded and its
  // checksum is right; Incus is asked about one pool.

  /** What was written, in order. */
  type Data = seq<nat>

  datatype World = World(vols: map<string, Data>, running: set<string>)

  datatype Command = ListDependents | StopInstance(name: string) | StartInstance(name: string) | Copy | Delete | Import

  /** Where a restore ended; restarted: every instance it stopped was started again. */
  datatype Outcome =
    | Refused
    | Restarted(stage: Stage, restarted: bool)

  datatype Stage = StopFailed | NoCopy | NotDeleted | ImportFailed | Restored

  function Members(names: seq<string>): set<string> {
    set n | n in names
  }

  /** No volume but the given ones differs. */
  ghost predicate OthersSame(v: World, w: World, names: set<string>) {
    forall k :: k !in names ==> (k in v.vols <==> k in w.vols) && (k in v.vols ==> w.vols[k] == v.vols[k])
  }

  /** The volume is there with at least that data. */
  predicate Has(w: World, name: string, data: Data) {
    name in w.vols && data <= w.vols[name]
  }

  /** Only that volume was written to. */
  predicate Wrote(v: World, w: World, volume: string) {
    && volume in v.vols && volume in w.vols
    && w == v.(vols := v.vols[volume := w.vols[volume]]) && v.vols[volume] <= w.vols[volume]
  }

  /** What a while of running leaves: an instance that runs and mounts the volume writes to it. */
  predicate Passed(v: World, w: World, volume: string, deps: seq<string>) {
    w == v || (v.running * Members(deps) != {} && Wrote(v, w, volume))
  }

  /** What the instances started again leave. */
  predicate Started(v: World, w: World, names: seq<string>, ok: bool) {
    && w.vols == v.vols && v.running <= w.running <= v.running + Members(names)
    && (ok ==> w.running == v.running + Members(names))
  }

  /** What the swap leaves, by the stage it ended in. */
  ghost predicate Swapped(v: World, w: World, volume: string, pre: string, artifact: Data, stage: Stage) {
    && OthersSame(v, w, {volume, pre}) && w.running == v.running
    && stage in {NoCopy, NotDeleted, ImportFailed, Restored}
    && (stage == NoCopy ==> w == v)
    && (stage != NoCopy ==> volume in v.vols && pre !in v.vols && Has(w, pre, v.vols[volume]))
    && (stage == NotDeleted ==> volume in w.vols && w.vols[volume] == v.vols[volume])
    && (stage == ImportFailed ==> volume !in w.vols)
    && (stage == Restored ==> volume in w.vols && w.vols[volume] == artifact)
  }

  /** What a restore of a volume with the given data leaves, by outcome; pre is the recovery volume. */
  ghost predicate Outcomes(v: World, w: World, volume: string, pre: string, artifact: Data, deps: seq<string>,
                           r: Outcome) {
    && OthersSame(v, w, {volume, pre})
    && match r
       case Refused => w.running == v.running && (pre in v.vols <==> pre in w.vols)
         && (volume in v.vols ==> Has(w, volume, v.vols[volume]))
       case Restarted(stage, restarted) =>
         && v.running - Members(deps) <= w.running <= v.running + Members(deps)
         && (restarted && stage != StopFailed ==> w.running == v.running + Members(deps))
         && (restarted ==> v.running <= w.running)
         && (volume in v.vols ==>
              match stage
              case StopFailed => Has(w, volume, v.vols[volume])
              case NoCopy => Has(w, volume, v.vols[volume])
              case NotDeleted => Has(w, volume, v.vols[volume]) && Has(w, pre, v.vols[volume])
              case ImportFailed => volume !in w.vols && Has(w, pre, v.vols[volume])
              case Restored => Has(w, volume, artifact) && Has(w, pre, v.vols[volume]))
  }

  /** Each stage but the last is ended by a command that failed, or by what stands in the pool; and the other way. */
  ghost predicate StageTold(stage: Stage, failed: set<Command>, v: World, volume: string, pre: string,
                            deps: seq<string>) {
    match stage
    case StopFailed => exists n :: n in deps && StopInstance(n) in failed
    case NoCopy => volume !in v.vols || pre in v.vols || Copy in failed
    case NotDeleted => Delete in failed
    case ImportFailed => Import in failed
    case Restored => volume in v.vols && pre !in v.vols && Copy !in failed && Delete !in failed && Import !in failed
                     && forall n :: n in deps ==> StopInstance(n) !in failed
  }

  /** What the failed commands say of an outcome. */
  ghost predicate Told(r: Outcome, failed: set<Command>, v: World, w: World, volume: string, pre: string,
                       deps: seq<string>, force: bool) {
    && (r == Refused <==> ListDependents in failed || (|deps| > 0 && !force))
    && (r.Restarted? ==>
         && StageTold(r.stage, failed, v, volume, pre, deps)
         && (r.restarted <==> forall n :: StartInstance(n) !in failed)
         && (forall n :: n in v.running && n !in w.running ==> StartInstance(n) in failed)
         && (forall n :: StartInstance(n) in failed || StopInstance(n) in failed ==> n in deps))
  }

  /** What a start of each of the instances tells: every one is tried. */
  ghost predicate StartsTold(ok: bool, before: set<Command>, failed: set<Command>, v: World, w: World,
                             names: seq<string>) {
    && before <= failed && (ok <==> failed == before)
    && (forall c :: c in failed && c !in before ==> c.StartInstance? && c.name in names)
    && forall n :: n in names && n !in w.running ==> StartInstance(n) in failed
  }

  /** The command that failed when a swap stopped short. */
  function SwapFailed(stage: Stage, v: World, volume: string, pre: string): set<Command> {
    if stage == NoCopy && volume in v.vols && pre !in v.vols then {Copy}
    else if stage == NotDeleted then {Delete}
    else if stage == ImportFailed then {Import}
    else {}
  }

  /** What a restore that swapped leaves, from what its parts do: it stops the instances of first, swaps, starts them
      again, and time passes before and after. */
  lemma SwapEnds(v: World, first: World, swapped: World, started: World, w: World, volume: string, pre: string,
                 artifact: Data, deps: seq<string>, stage: Stage, restarted: bool)
    requires volume != pre && Passed(v, first, volume, deps)
    requires Swapped(first.(running := first.running - Members(deps)), swapped, volume, pre, artifact, stage)
    requires Started(swapped, started, deps, restarted) && Passed(started, w, volume, deps)
    ensures Outcomes(v, w, volume, pre, artifact, deps, Restarted(stage, restarted))
  {
  }

  /** What a restore leaves that could not stop every instance. */
  lemma StopEnds(v: World, first: World, later: World, w: World, volume: string, pre: string, artifact: Data,
                 deps: seq<string>, stopped: seq<string>, restarted: bool)
    requires volume != pre && Passed(v, first, volume, deps) && Members(stopped) <= Members(deps)
    requires Passed(first.(running := first.running - Members(stopped)), later, volume, deps)
    requires Started(later, w, stopped, restarted)
    ensures Outcomes(v, w, volume, pre, artifact, deps, Restarted(StopFailed, restarted))
  {
  }

  lemma SwapTold(stage: Stage, failed: set<Command>, v: World, quiet: World, volume: string, pre: string,
                 deps: seq<string>)
    requires forall c :: c in failed <==> c in SwapFailed(stage, quiet, volume, pre)
    requires stage != StopFailed && v.vols.Keys == quiet.vols.Keys
    requires stage != NoCopy ==> volume in quiet.vols && pre !in quiet.vols
    ensures StageTold(stage, failed, v, volume, pre, deps)
  {
  }

  lemma ToldIf(r: Outcome, tried: set<Command>, failed: set<Command>, v: World, before: World, w: World,
               volume: string, pre: string, deps: seq<string>, stopped: seq<string>, force: bool)
    requires r.Restarted? && (|deps| > 0 ==> force)
    requires ListDependents !in tried && (forall c :: c in tried ==> !c.StartInstance?)
    requires StageTold(r.stage, tried, v, volume, pre, deps)
    requires forall n :: StopInstance(n) in tried ==> n in deps
    requires StartsTold(r.restarted, tried, failed, before, w, stopped) && Members(stopped) <= Members(deps)
    requires before.running == v.running - Members(stopped) && before.running <= w.running
    ensures Told(r, failed, v, w, volume, pre, deps, force)
  {
    forall c | c in failed && c !in tried ensures c.StartInstance? && c.name in deps {
      assert c.name in Members(stopped);
    }
    forall n | n in v.running && n !in w.running ensures StartInstance(n) in failed {
      assert n in Members(stopped);
    }
    assert forall n :: StopInstance(n) in failed <==> StopInstance(n) in tried;
  }

  class Manager {
    var w: World
    ghost var failed: set<Command>  // the commands of a restore that failed

    constructor (world: World)
      ensures w == world
    {
      w, failed := world, {};
    }

    /** An instance that runs and mounts the volume writes to it. */
    method Pass(volume: string, deps: seq<string>)
      modifies this
      ensures failed == old(failed)
      ensures Passed(old(w), w, volume, deps)
    {
      var more: Data := *;
      if volume in w.vols && w.running * Members(deps) != {} {
        w := w.(vols := w.vols[volume := w.vols[volume] + more]);
      }
    }

    method Try(command: Command) returns (ok: bool)
      modifies this
      ensures w == old(w) && failed == if ok then old(failed) else old(failed) + {command}
    {
      ok := *;
      if !ok {
        failed := failed + {command};
      }
    }

    /** An instance that is stopped already is no error. */
    method Stop(name: string) returns (ok: bool)
      modifies this
      ensures w == if ok then old(w).(running := old(w).running - {name}) else old(w)
      ensures failed == if ok then old(failed) else old(failed) + {StopInstance(name)}
    {
      ok := Try(StopInstance(name));
      if ok {
        w := w.(running := w.running - {name});
      }
    }

    method Start(name: string) returns (ok: bool)
      modifies this
      ensures w == if ok then old(w).(running := old(w).running + {name}) else old(w)
      ensures failed == if ok then old(failed) else old(failed) + {StartInstance(name)}
    {
      ok := Try(StartInstance(name));
      if ok {
        w := w.(running := w.running + {name});
      }
    }

    method SetVolume(command: Command, name: string, data: Option<Data>) returns (ok: bool)
      modifies this
      ensures w == if ok then WithVolume(old(w), name, data) else old(w)
      ensures failed == if ok then old(failed) else old(failed) + {command}
    {
      ok := Try(command);
      if ok {
        w := WithVolume(w, name, data);
      }
    }

    /** Starts what was stopped; every one is tried. */
    method StartAll(stopped: seq<string>) returns (ok: bool)
      requires forall c :: c in failed ==> !c.StartInstance?
      modifies this
      ensures Started(old(w), w, stopped, ok)
      ensures StartsTold(ok, old(failed), failed, old(w), w, stopped)
    {
      ok := true;
      for n := 0 to |stopped|
        invariant Started(old(w), w, stopped[..n], ok)
        invariant forall c :: c in old(failed) ==> !c.StartInstance?
        invariant StartsTold(ok, old(failed), failed, old(w), w, stopped[..n])
      {
        assert stopped[..n + 1] == stopped[..n] + [stopped[n]];
        assert Members(stopped[..n + 1]) == Members(stopped[..n]) + {stopped[n]};
        var started := Start(stopped[n]);
        ok := ok && started;
      }
      assert stopped[..|stopped|] == stopped;
    }

    /** Stops the instances in turn, up to the first that cannot be. */
    method StopAll(deps: seq<string>) returns (ok: bool, stopped: seq<string>)
      modifies this
      ensures w.vols == old(w).vols && w.running == old(w).running - Members(stopped)
      ensures Members(stopped) <= Members(deps) && (ok ==> stopped == deps)
      ensures ok ==> failed == old(failed)
      ensures !ok ==> exists n :: n in deps && failed == old(failed) + {StopInstance(n)}
    {
      stopped := [];
      for n := 0 to |deps|
        invariant failed == old(failed)
        invariant stopped == deps[..n] && w.vols == old(w).vols && w.running == old(w).running - Members(stopped)
      {
        assert deps[..n + 1] == deps[..n] + [deps[n]];
        ok := Stop(deps[n]);
        if !ok {
          assert deps[n] in deps;
          return;
        }
        stopped := stopped + [deps[n]];
      }
      ok := true;
      assert deps[..|deps|] == deps;
    }

    method Restore(volume: string, pre: string, artifact: Data, deps: seq<string>, force: bool) returns (r: Outcome)
      requires volume != pre
      modifies this
      ensures Outcomes(old(w), w, volume, pre, artifact, deps, r)
      ensures Told(r, failed, old(w), w, volume, pre, deps, force)
    {
      ghost var v := w;
      failed := {};
      var listed := Try(ListDependents);
      Pass(volume, deps);
      ghost var first := w;
      if !listed || (|deps| > 0 && !force) {
        return Refused;
      }
      var ok, stopped := StopAll(deps);
      if !ok {
        Pass(volume, deps);
        ghost var later, tried := w, failed;
        var restarted := StartAll(stopped);
        ToldIf(Restarted(StopFailed, restarted), tried, failed, v, later, w, volume, pre, deps, stopped, force);
        StopEnds(v, first, later, w, volume, pre, artifact, deps, stopped, restarted);
        return Restarted(StopFailed, restarted);
      }
      ghost var quiet := w;
      Pass(volume, deps);
      assert w == quiet;
      var stage := Swap(volume, pre, artifact);
      ghost var swapped, tried := w, failed;
      SwapTold(stage, tried, v, quiet, volume, pre, deps);
      var restarted := StartAll(deps);
      ToldIf(Restarted(stage, restarted), tried, failed, v, swapped, w, volume, pre, deps, deps, force);
      ghost var started := w;
      Pass(volume, deps);
      SwapEnds(v, first, swapped, started, w, volume, pre, artifact, deps, stage, restarted);
      r := Restarted(stage, restarted);
    }

    /** Copies the volume aside, deletes it and imports the artifact in its place. */
    method Swap(volume: string, pre: string, artifact: Data) returns (stage: Stage)
      requires volume != pre
      modifies this
      ensures Swapped(old(w), w, volume, pre, artifact, stage)
      ensures forall c :: c in failed <==> c in old(failed) || c in SwapFailed(stage, old(w), volume, pre)
    {
      if volume !in w.vols || pre in w.vols {
        return NoCopy;
      }
      var ok := SetVolume(Copy, pre, Some(w.vols[volume]));
      if !ok {
        return NoCopy;
      }
      ok := SetVolume(Delete, volume, None);
      if !ok {
        return NotDeleted;
      }
      ok := SetVolume(Import, volume, Some(artifact));
      stage := if ok then Restored else ImportFailed;
    }
  }

  function WithVolume(w: World, name: string, data: Option<Data>): World {
    match data
    case Some(d) => w.(vols := w.vols[name := d])
    case None => w.(vols := w.vols - {name})
  }

  /** However a restore ends, what the volume held is still there: in the volume or in the recovery volume. This is
      read off Restore's outcomes, which is where the work is. */
  lemma NothingLost(v: World, w: World, volume: string, pre: string, artifact: Data, deps: seq<string>, r: Outcome)
    requires Outcomes(v, w, volume, pre, artifact, deps, r) && volume in v.vols
    ensures Has(w, volume, v.vols[volume]) || Has(w, pre, v.vols[volume])
  {
  }

  /** A restore that went through leaves exactly the instances running that ran before when every instance that
      mounts the volume ran; one that was stopped is started with the others. */
  lemma RunningAsBefore(v: World, w: World, volume: string, pre: string, artifact: Data, deps: seq<string>,
                        stage: Stage)
    requires Outcomes(v, w, volume, pre, artifact, deps, Restarted(stage, true)) && stage != StopFailed
    ensures w.running == v.running <==> Members(deps) <= v.running
  {
  }

  /** One instance mounts the volume and is stopped; after the restore it runs. */
  lemma StoppedIsStarted(held: Data, artifact: Data)
    ensures var v := World(map["data" := held], {});
      var w := World(map["data" := artifact, "pre" := held], {"db"});
      Outcomes(v, w, "data", "pre", artifact, ["db"], Restarted(Restored, true)) && w.running != v.running
  {
    assert "db" in Members(["db"]);
    assert Members(["db"]) == {"db"};
  }

  /** A restore goes through exactly when none of its commands fails, there is a volume to restore and nothing has the
      recovery volume's name, and nothing mounts the volume or force is given. */
  lemma RestoredIff(v: World, w: World, volume: string, pre: string, artifact: Data, deps: seq<string>, force: bool,
                    failed: set<Command>, r: Outcome)
    requires Outcomes(v, w, volume, pre, artifact, deps, r)
    requires Told(r, failed, v, w, volume, pre, deps, force)
    ensures r == Restarted(Restored, true) <==>
      failed == {} && volume in v.vols && pre !in v.vols && (deps == [] || force)
    ensures r == Restarted(Restored, true) ==>
      w.running == v.running + Members(deps) && Has(w, volume, artifact) && Has(w, pre, v.vols[volume])
  {
    if r == Restarted(Restored, true) {
      forall c ensures c !in failed {
        assert c.StopInstance? ==> c == StopInstance(c.name);
        assert c.StartInstance? ==> c == StartInstance(c.name);
      }
      assert failed == {};
    }
  }
}
