/** Every run of daemons over one state directory (pkg/serveflags, cmd/native-ops/serve.go). */
module ServeRuns {
  import opened Text
  import opened ServeFlags

  // ------------------------------------------------------------------- attempts

  /** Starts one after the other, with nothing staged or committed in between. */
  ghost predicate AreStarts(dirs: seq<Dir>, oks: seq<bool>, ls: seq<Loaded>) {
    && |dirs| == |ls| + 1 && |oks| == |ls|
    && forall k :: 0 <= k < |ls| ==> Loads(dirs[k], dirs[k + 1], oks[k], ls[k])
  }

  /** How many of the first k starts took the pending set. */
  function Taken(oks: seq<bool>, ls: seq<Loaded>, k: nat): nat
    requires k <= |ls| == |oks|
  {
    if k == 0 then 0 else Taken(oks, ls, k - 1) + if oks[k - 1] && ls[k - 1].pending then 1 else 0
  }

  /** The first k starts find a pending set that was not started too often. */
  predicate Trying(dirs: seq<Dir>, k: nat)
    requires k <= |dirs|
  {
    forall i :: 0 <= i < k ==> dirs[i].pending.Some? && dirs[i].attempts < MAX_ATTEMPTS
  }

  /** However many starts there are and however many fail: until the pending set is given up it is started at most
      MAX_ATTEMPTS times, less the starts already counted, and once it was, the next start takes the committed set. */
  lemma {:induction false} StartsAreBounded(dirs: seq<Dir>, oks: seq<bool>, ls: seq<Loaded>, k: nat)
    requires AreStarts(dirs, oks, ls) && k <= |ls| && dirs[0].attempts <= MAX_ATTEMPTS && Trying(dirs, k)
    ensures Taken(oks, ls, k) == dirs[k].attempts - dirs[0].attempts <= MAX_ATTEMPTS - dirs[0].attempts
    ensures dirs[k].pending == dirs[0].pending && dirs[k].committed == dirs[0].committed
    ensures k < |ls| && dirs[0].pending.Some? && dirs[0].attempts + Taken(oks, ls, k) == MAX_ATTEMPTS && oks[k] ==>
      ls[k] == CommittedSet(dirs[0]) && !ls[k].pending
  {
    if k > 0 {
      StartsAreBounded(dirs, oks, ls, k - 1);
      assert Loads(dirs[k - 1], dirs[k], oks[k - 1], ls[k - 1]);
    }
    assert k < |ls| ==> Loads(dirs[k], dirs[k + 1], oks[k], ls[k]);
  }

  // ------------------------------------------------------------------------ runs

  /** A start: the words it serves with, [] for the unit's own; whether it waits to commit; whether it has served
      for as long as a commit asks. */
  datatype Run = Run(serves: seq<string>, waits: bool, lasted: bool)

  /** lasted: the sets that some start served for as long as a commit asks. */
  datatype World = World(dir: Dir, run: Option<Run>, lasted: set<seq<string>>)

  const START := World(Dir(None, None, 0), None, {})

  datatype Event =
    | Boot(ok: bool, l: Loaded)             // a daemon starts with what Load gives it
    | Staging(words: seq<string>, ok: bool) // a deploy stages a set
    | Lasting                               // the daemon has served for CommitAfter
    | Committing(ok: bool)
    | Death                                 // it stops or crashes

  /** A start whose load fails runs with the unit's flags. */
  function Serves(e: Event): seq<string>
    requires e.Boot?
  {
    if e.ok then e.l.args else []
  }

  /** The start took the pending set and counted it. */
  predicate Counted(e: Event)
    requires e.Boot?
  {
    e.ok && e.l.pending
  }

  predicate Steps(w: World, e: Event, after: World) {
    match e
    case Boot(ok, l) =>
      && w.run.None? && Loads(w.dir, after.dir, ok, l) && after.lasted == w.lasted
      && after.run.Some? && after.run == Some(Run(Serves(e), after.run.value.waits, false))
      && (after.run.value.waits ==> after.dir.pending.Some?)
    case Staging(words, ok) => w.run.Some? && Stages(w.dir, after.dir, words, ok) && after == w.(dir := after.dir)
    case Lasting =>
      w.run.Some? && after == w.(run := Some(w.run.value.(lasted := true)), lasted := w.lasted + {w.run.value.serves})
    case Committing(ok) =>
      && w.run.Some? && w.run.value.waits && w.run.value.lasted && Commits(w.dir, after.dir, ok)
      && after == w.(dir := after.dir, run := Some(w.run.value.(waits := false)))
    case Death => after == w.(run := None)
  }

  ghost predicate IsRun(events: seq<Event>, worlds: seq<World>) {
    && |worlds| == |events| + 1
    && forall k :: 0 <= k < |events| ==> Steps(worlds[k], events[k], worlds[k + 1])
  }

  /** The start of the daemon that is there after the events. */
  function LastBoot(events: seq<Event>): (b: Option<nat>)
    ensures b.Some? ==> b.value < |events| && events[b.value].Boot?
  {
    if events == [] || events[|events| - 1].Death? then None
    else if events[|events| - 1].Boot? then Some(|events| - 1)
    else LastBoot(events[..|events| - 1])
  }

  /** What was staged last after event b, if anything was. */
  function StagedSince(events: seq<Event>, b: nat): Option<seq<string>> {
    if |events| <= b + 1 then None else
      var e := events[|events| - 1];
      if e.Staging? && e.ok then Some(e.words) else StagedSince(events[..|events| - 1], b)
  }

  /** What is pending while the daemon started at b waits to commit. */
  function PendingThen(events: seq<Event>, worlds: seq<World>, b: nat): Option<seq<string>>
    requires b < |worlds|
  {
    if StagedSince(events, b).Some? then StagedSince(events, b) else worlds[b].dir.pending
  }

  /** The last world's daemon is the one started last, and waits over what was pending when it started or staged
      since. */
  ghost predicate Tracked(events: seq<Event>, worlds: seq<World>)
    requires |worlds| == |events| + 1
  {
    var run, b := worlds[|events|].run, LastBoot(events);
    && (run.Some? <==> b.Some?)
    && (run.Some? ==>
        && run.value.serves == Serves(events[b.value])
        && (run.value.lasted ==> run.value.serves in worlds[|events|].lasted)
        && (run.value.waits ==> worlds[|events|].dir.pending == PendingThen(events, worlds, b.value)))
  }

  lemma {:induction false} AlwaysTracked(events: seq<Event>, worlds: seq<World>)
    requires IsRun(events, worlds) && worlds[0].run.None?
    ensures Tracked(events, worlds)
  {
    if events != [] {
      var n := |events| - 1;
      var before := events[..n];
      AlwaysTracked(before, worlds[..n + 1]);
      TrackedStep(before, events[n], worlds[..n + 1], worlds[n + 1]);
      assert before + [events[n]] == events && worlds[..n + 1] + [worlds[n + 1]] == worlds;
    }
  }

  lemma TrackedStep(events: seq<Event>, e: Event, worlds: seq<World>, after: World)
    requires |worlds| == |events| + 1 && Tracked(events, worlds) && Steps(worlds[|events|], e, after)
    ensures Tracked(events + [e], worlds + [after])
  {
    var all, now := events + [e], worlds + [after];
    assert all[..|events|] == events && all[|events|] == e && now[|all|] == after;
    assert forall i :: 0 <= i < |worlds| ==> now[i] == worlds[i];
    assert forall i :: 0 <= i < |events| ==> all[i] == events[i];
  }

  /** A commit makes the set this start serves the committed one exactly when the start took and counted the pending
      set and nothing was staged since; or the two sets are the same all the same: what was staged last, or what was
      pending when a start that did not take it began, is what it serves. */
  lemma CommitIsServedIff(events: seq<Event>, worlds: seq<World>, k: nat)
    requires IsRun(events, worlds) && worlds[0].run.None? && k < |events| && events[k] == Committing(true)
    requires worlds[k + 1].dir.committed != worlds[k].dir.committed
    ensures LastBoot(events[..k]).Some?
    ensures var b := LastBoot(events[..k]).value;
      var staged := StagedSince(events[..k], b);
      worlds[k + 1].dir.committed == Chosen(Serves(events[b])) <==>
        (if staged.Some? then staged.value == Serves(events[b])
         else Counted(events[b]) || worlds[b].dir.pending == Some(Serves(events[b])))
  {
    assert IsRun(events[..k], worlds[..k + 1]);
    AlwaysTracked(events[..k], worlds[..k + 1]);
    assert Steps(worlds[k], events[k], worlds[k + 1]);
    var b := LastBoot(events[..k]).value;
    assert events[..k][b] == events[b] && worlds[..k + 1][b] == worlds[b];
    assert Steps(worlds[b], events[b], worlds[b + 1]);
  }

  /** Every commit is by a start that took and counted the pending set, with nothing else staged since. */
  ghost predicate Orderly(events: seq<Event>) {
    forall k :: 0 <= k < |events| && events[k] == Committing(true) && LastBoot(events[..k]).Some? ==>
      var b := LastBoot(events[..k]).value;
      Counted(events[b]) && StagedSince(events[..k], b) in {None, Some(Serves(events[b]))}
  }

  /** The committed set served for as long as a commit asks, or is the one there was at first. */
  predicate Proven(w: World, first: Option<seq<string>>) {
    w.dir.committed == first || exists words :: words in w.lasted && w.dir.committed == Chosen(words)
  }

  /** Then the committed set only ever becomes one that served. */
  lemma {:induction false} OnlyServedIsCommitted(events: seq<Event>, worlds: seq<World>, k: nat)
    requires IsRun(events, worlds) && worlds[0].run.None? && k < |worlds| && Orderly(events)
    ensures Proven(worlds[k], worlds[0].dir.committed)
  {
    if k > 0 {
      var n := k - 1;
      OnlyServedIsCommitted(events, worlds, n);
      assert Steps(worlds[n], events[n], worlds[k]);
      if worlds[k].dir.committed != worlds[n].dir.committed {
        CommitIsServedIff(events, worlds, n);
        assert IsRun(events[..n], worlds[..k]);
        AlwaysTracked(events[..n], worlds[..k]);
      } else if worlds[n].dir.committed != worlds[0].dir.committed {
        var words :| words in worlds[n].lasted && worlds[n].dir.committed == Chosen(words);
        assert words in worlds[k].lasted;
      }
    }
  }

  // --------------------------------------------- sets committed that never served

  /** The set is committed, and no start ever served it for as long as a commit asks. */
  ghost predicate CommittedUnproven(events: seq<Event>, worlds: seq<World>, words: seq<string>) {
    && IsRun(events, worlds) && worlds[0] == START
    && worlds[|events|].dir.committed == Some(words) && words !in worlds[|events|].lasted
  }

  function Served(dir: Dir, serves: seq<string>, waits: bool): World {
    World(dir, Some(Run(serves, waits, false)), {})
  }

  /** A start that cannot count its attempt serves the unit's flags, and commits the pending set. */
  lemma UncountedIsCommitted(words: seq<string>) returns (events: seq<Event>, worlds: seq<World>)
    requires words != []
    ensures CommittedUnproven(events, worlds, words)
  {
    var none, staged := START.dir, Dir(None, Some(words), 0);
    var waiting := Served(staged, [], true);
    var lasted := World(staged, Some(Run([], true, true)), {[]});
    events := [Boot(true, UNIT), Staging(words, true), Death, Boot(false, UNIT), Lasting, Committing(true)];
    worlds := [START, Served(none, [], false), Served(staged, [], false), World(staged, None, {}), waiting, lasted,
               World(Dir(Some(words), None, 0), Some(Run([], false, true)), {[]})];
  }

  /** A start that gives the pending set up, but cannot remove it, serves the committed one, and then commits the set
      that did not start three times. */
  lemma GivenUpIsCommitted(words: seq<string>) returns (events: seq<Event>, worlds: seq<World>)
    requires words != []
    ensures CommittedUnproven(events, worlds, words)
  {
    var none, tried := START.dir, Loaded(true, words, true);
    var d0, d1 := Dir(None, Some(words), 0), Dir(None, Some(words), 1);
    var d2, d3 := d1.(attempts := 2), d1.(attempts := 3);
    events := [Boot(true, UNIT), Staging(words, true), Death, Boot(true, tried), Death, Boot(true, tried), Death,
               Boot(true, tried), Death, Boot(true, UNIT), Lasting, Committing(true)];
    worlds := [START, Served(none, [], false), Served(d0, [], false), World(d0, None, {}),
               Served(d1, words, true), World(d1, None, {}), Served(d2, words, true), World(d2, None, {}),
               Served(d3, words, true), World(d3, None, {}), Served(d0, [], true),
               World(d0, Some(Run([], true, true)), {[]}),
               World(Dir(Some(words), None, 0), Some(Run([], false, true)), {[]})];
  }

  /** A set staged while an earlier one waits to be committed is committed in its place. */
  lemma StagedMeanwhileIsCommitted(words: seq<string>, later: seq<string>)
    returns (events: seq<Event>, worlds: seq<World>)
    requires words != [] && later != [] && words != later
    ensures CommittedUnproven(events, worlds, later)
  {
    var none, d0, d1, d2 := START.dir, Dir(None, Some(words), 0), Dir(None, Some(words), 1), Dir(None, Some(later), 0);
    events := [Boot(true, UNIT), Staging(words, true), Death, Boot(true, Loaded(true, words, true)),
               Staging(later, true), Lasting, Committing(true)];
    worlds := [START, Served(none, [], false), Served(d0, [], false), World(d0, None, {}), Served(d1, words, true),
               Served(d2, words, true), World(d2, Some(Run(words, true, true)), {words}),
               World(Dir(Some(later), None, 0), Some(Run(words, false, true)), {words})];
  }
}
