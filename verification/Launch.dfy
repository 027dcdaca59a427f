/** Jobs run through the host queue (pkg/server/apply.go, jobs.go). */
module Launch {
  import opened Text
  import opened HostQueue
  import opened QueueProtocol

  // Every interleaving of any number of launches, with every recording, preparation and piece of work free to
  // fail, and the daemon free to stop queueing at any time. Launch i owns ticket i.

  datatype Status = Queued | Running | Succeeded | Failed | Interrupted

  /** A job's record; times are ticks of one clock. */
  datatype Record = Record(status: Status, started: Option<nat>, finished: Option<nat>)

  /** Where a launch is. Over is the end; release says whether the job still has the host to give up. */
  datatype Phase =
    | Planning                             // an apply's request holds the host and compares the plan
    | Entered                              // launch is called; the job is not recorded yet
    | LosingPlace | LosingHost | Unrecorded  // it could not be recorded: abandon, then cleanup
    | Recorded                             // marked running next, if it has the host
    | Preparing
    | LeavingLine | LeavingHost            // prepare failed and the ticket was not granted: abandon
    | Handed                               // the background part waits for the ticket's message
    | Working
    | Cleaning(ok: bool, release: bool) | Finishing(ok: bool, release: bool) | Releasing
    | TurnedAway | Interrupting            // the daemon is stopping
    | Over

  /** prepares: whether the launch has something to prepare, which may fail. */
  datatype Job = Job(phase: Phase, entered: bool, prepares: bool, record: Option<Record>, cleanups: nat)

  datatype World = World(sys: System, jobs: seq<Job>, clock: nat)

  const START := World(INIT, [], 0)

  // -------------------------------------------------------------------- records

  function Created(): Record {
    Record(Queued, None, None)
  }

  /** Start marks a job running. */
  function StartedAt(r: Option<Record>, now: nat): Option<Record> {
    if r.Some? then Some(r.value.(status := Running, started := Some(now))) else r
  }

  function FinishedAt(r: Option<Record>, status: Status, now: nat): Option<Record> {
    if r.Some? then Some(r.value.(status := status, finished := Some(now))) else r
  }

  // ----------------------------------------------------------------------- steps

  datatype Event =
    | Arrive(now: bool, planning: bool, prepares: bool)  // now: only if the host is free; planning: an apply's request
    | Stop
    | Go(i: nat, ok: bool)               // the next step of launch i; ok: whether it succeeds, where it may fail

  function Act(s: System, step: Step): System {
    if Enabled(s, step) then Next(s, step) else s
  }

  function LifeOf(s: System, i: nat): Life {
    if i < |s.life| then s.life[i] else Gone
  }

  function Granted(s: System, i: nat): bool {
    i < |s.q.tickets| && s.q.tickets[i].granted
  }

  /** The message in ticket i's channel, if any. */
  function Message(s: System, i: nat): Option<bool> {
    if i < |s.q.tickets| && s.q.tickets[i].sent != [] then Some(s.q.tickets[i].sent[0]) else None
  }

  predicate CanGo(w: World, i: nat) {
    && i < |w.jobs|
    && w.jobs[i].phase != Over
    && (w.jobs[i].phase == Handed ==> Message(w.sys, i).Some?)
  }

  predicate Possible(w: World, e: Event) {
    e.Go? ==> CanGo(w, e.i)
  }

  /** What the next step of launch i does to the queue. */
  function QueueStep(w: World, i: nat, ok: bool): Option<Step>
    requires CanGo(w, i)
  {
    match w.jobs[i].phase
    case Planning => if ok then None else Some(Step.Release(i))
    case LosingPlace => Some(Step.Withdraw(i))
    case LosingHost => Some(Step.Vacate(i))
    case LeavingLine => Some(Step.Withdraw(i))
    case LeavingHost => Some(Step.Vacate(i))
    case Releasing => Some(Step.Release(i))
    case _ => None
  }

  /** What it does to the launch itself, whose ticket is now as given. */
  function JobStep(job: Job, life: Life, granted: bool, message: Option<bool>, ok: bool, now: nat): Job {
    match job.phase
    case Planning => if ok then job.(phase := Entered, entered := true) else job.(phase := Over)
    case Entered => if ok then job.(phase := Recorded, record := Some(Created())) else job.(phase := LosingPlace)
    case LosingPlace => job.(phase := if life == Withdrew then Unrecorded else LosingHost)
    case LosingHost => job.(phase := Unrecorded)
    case Unrecorded => job.(phase := Over, cleanups := job.cleanups + 1)
    case Recorded => job.(phase := Preparing, record := if granted then StartedAt(job.record, now) else job.record)
    case Preparing =>
      job.(phase := if ok || !job.prepares then Handed else if granted then Cleaning(false, true) else LeavingLine)
    case LeavingLine => job.(phase := if life == Withdrew then Cleaning(false, false) else Phase.LeavingHost)
    case LeavingHost => job.(phase := Cleaning(false, false))
    case Handed =>
      if message != Some(true) then job.(phase := TurnedAway)
      else job.(phase := Working, record := if granted then job.record else StartedAt(job.record, now))
    case Working => job.(phase := Cleaning(ok, true))
    case Cleaning(ok, release) => job.(phase := Finishing(ok, release), cleanups := job.cleanups + 1)
    case Finishing(ok, release) =>
      job.(phase := if release then Releasing else Over,
           record := FinishedAt(job.record, if ok then Succeeded else Failed, now))
    case Releasing => job.(phase := Over)
    case TurnedAway => job.(phase := Interrupting, cleanups := job.cleanups + 1)
    case Interrupting => job.(phase := Over, record := FinishedAt(job.record, Interrupted, now))
    case Over => job
  }

  /** Launch i after its step, with the queue at s. */
  function JobNow(w: World, s: System, i: nat, ok: bool): Job
    requires i < |w.jobs|
  {
    JobStep(w.jobs[i], LifeOf(s, i), Granted(s, i), Message(s, i), ok, w.clock)
  }

  function Arrived(planning: bool, prepares: bool): Job {
    Job(if planning then Planning else Entered, !planning, prepares, None, 0)
  }

  function After(w: World, e: Event): World
    requires Possible(w, e)
  {
    match e
    case Arrive(now, planning, prepares) =>
      var s := Next(w.sys, if now then Step.Try else Step.Enqueue);
      if |s.life| == |w.sys.life| then w
      else World(s, w.jobs + [Arrived(now && planning, prepares)], w.clock + 1)
    case Stop => w.(sys := Next(w.sys, Step.Close), clock := w.clock + 1)
    case Go(i, ok) =>
      var s := match QueueStep(w, i, ok) case None => w.sys case Some(step) => Act(w.sys, step);
      World(s, w.jobs[i := JobNow(w, s, i, ok)], w.clock + 1)
  }

  // ------------------------------------------------------------------- invariant

  /** A ticket that has not been used up. */
  predicate Live(life: Life) {
    life in {Life.Waiting, Life.Holding, Life.Turned}
  }

  predicate LetGo(life: Life) {
    life in {Life.Withdrew, Life.Gone}
  }

  predicate Leaving(life: Life) {
    life in {Life.LeavingHost, Life.LeavingNone}
  }

  predicate IsQueued(r: Option<Record>) {
    r == Some(Created())
  }

  predicate IsRunning(r: Option<Record>) {
    r.Some? && r.value.status == Running
  }

  /** Running exactly when the job had the host on arrival; queued otherwise. */
  predicate RunsIfGranted(r: Option<Record>, granted: bool) {
    if granted then IsRunning(r) else IsQueued(r)
  }

  predicate Ended(r: Option<Record>) {
    r.Some? && r.value.status in {Succeeded, Failed, Interrupted}
  }

  /** What a launch's phase says about its ticket, its record and its cleanup. */
  predicate JobInv(job: Job, life: Life, granted: bool) {
    && (job.entered <==> job.phase != Planning && (job.phase == Over ==> job.cleanups == 1))
    && match job.phase
       case Planning => life == Holding && granted && job.record == None && job.cleanups == 0
       case Entered => Live(life) && job.record == None && job.cleanups == 0
       case LosingPlace => Live(life) && job.record == None && job.cleanups == 0
       case LosingHost => Leaving(life) && job.record == None && job.cleanups == 0
       case Unrecorded => LetGo(life) && job.record == None && job.cleanups == 0
       case Recorded => Live(life) && IsQueued(job.record) && job.cleanups == 0
       case Preparing => Live(life) && RunsIfGranted(job.record, granted) && job.cleanups == 0
       case LeavingLine => Live(life) && !granted && IsQueued(job.record) && job.cleanups == 0
       case LeavingHost => Leaving(life) && !granted && IsQueued(job.record) && job.cleanups == 0
       case Handed => Live(life) && RunsIfGranted(job.record, granted) && job.cleanups == 0
       case Working => life == Holding && IsRunning(job.record) && job.cleanups == 0
       case Cleaning(_, release) => EndingInv(job.record, release, life) && job.cleanups == 0
       case Finishing(_, release) => EndingInv(job.record, release, life) && job.cleanups == 1
       case Releasing => life == Holding && Ended(job.record) && job.cleanups == 1
       case TurnedAway => life == Turned && IsQueued(job.record) && job.cleanups == 0
       case Interrupting => life == Turned && IsQueued(job.record) && job.cleanups == 1
       case Over => (LetGo(life) || life == Turned) && (job.record == None || Ended(job.record)) && job.cleanups <= 1
  }

  predicate EndingInv(r: Option<Record>, release: bool, life: Life) {
    if release then life == Holding && IsRunning(r) else LetGo(life) && IsQueued(r)
  }

  /** The times of a record agree with its status and lie before now. */
  predicate Timed(r: Option<Record>, now: nat) {
    r.Some? ==>
      && (r.value.status == Queued ==> r.value == Created())
      && (r.value.status == Running ==> r.value.started.Some? && r.value.finished == None)
      && (Ended(r) ==> r.value.finished.Some?)
      && (r.value.started.Some? ==> r.value.started.value < now)
      && (r.value.finished.Some? ==> r.value.finished.value < now)
      && (r.value.started.Some? && r.value.finished.Some? ==> r.value.started.value < r.value.finished.value)
  }

  predicate HasStarted(job: Job) {
    job.record.Some? && job.record.value.started.Some?
  }

  /** a, whose ticket is older, had finished by the time b started, if both started. */
  predicate Ordered(a: Job, b: Job) {
    HasStarted(a) && HasStarted(b) ==>
      a.record.value.finished.Some? && a.record.value.finished.value < b.record.value.started.value
  }

  predicate Good(w: World, i: nat)
    requires i < |w.jobs|
  {
    && JobInv(w.jobs[i], LifeOf(w.sys, i), Granted(w.sys, i))
    && Timed(w.jobs[i].record, w.clock)
    && (HasStarted(w.jobs[i]) ==> Message(w.sys, i) == Some(true))
  }

  predicate StillGood(job: Job, s: System, i: nat, clock: nat) {
    && JobInv(job, LifeOf(s, i), Granted(s, i))
    && Timed(job.record, clock + 1)
    && (HasStarted(job) ==> Message(s, i) == Some(true))
  }

  ghost predicate WorldInv(w: World) {
    && Inv(w.sys)
    && |w.jobs| == |w.sys.life|
    && (forall i :: 0 <= i < |w.jobs| ==> Good(w, i))
    && (forall i, j :: 0 <= i < j < |w.jobs| ==> Ordered(w.jobs[i], w.jobs[j]))
  }

  // --------------------------------------------------- what a queue step may touch

  /** A step by one client changes another's ticket only from waiting to told. */
  predicate Undisturbed(before: Life, after: Life) {
    after == before || (before == Life.Waiting && after in {Life.Holding, Life.Turned})
  }

  lemma UndisturbedKeeps(job: Job, before: Life, after: Life, granted: bool)
    requires JobInv(job, before, granted) && Undisturbed(before, after)
    ensures JobInv(job, after, granted)
  {
  }

  lemma OthersUndisturbed(s: System, step: Step, i: nat)
    requires Inv(s) && Enabled(s, step) && i < |s.life|
    requires (step.Withdraw? || step.Vacate? || step.Release?) ==> step.t != i
    ensures |s.life| <= |Next(s, step).life| && Undisturbed(s.life[i], Next(s, step).life[i])
    ensures Granted(Next(s, step), i) == Granted(s, i)
    ensures Message(s, i).Some? ==> Message(Next(s, step), i) == Message(s, i)
  {
    assert TicketInv(s, i);
    InvStep(s, step);
    if step.Close? {
      InvValid(s);
      SentAllEach(s.q.tickets, s.q.waiting, false);
    } else if (step.Vacate? || step.Release?) && !s.q.closed && s.q.waiting != [] {
      assert TicketInv(s, s.q.waiting[0]);
    }
  }

  /** What a client's own step makes of its ticket. */
  function OwnLife(life: Life, step: Step): Life {
    if !step.Withdraw? then Gone else match life
      case Waiting => Withdrew
      case Holding => Life.LeavingHost
      case _ => LeavingNone
  }

  lemma OwnTicket(s: System, step: Step, i: nat)
    requires Inv(s) && Enabled(s, step)
    requires (step.Withdraw? || step.Vacate? || step.Release?) && step.t == i
    ensures |Next(s, step).life| == |s.life| && Granted(Next(s, step), i) == Granted(s, i)
    ensures Next(s, step).life[i] == OwnLife(s.life[i], step) && Message(Next(s, step), i) == Message(s, i)
  {
    assert TicketInv(s, i);
    InvStep(s, step);
    if !step.Withdraw? && !s.q.closed && s.q.waiting != [] {
      assert TicketInv(s, s.q.waiting[0]);
    }
  }

  // ------------------------------------------------------------------ every step

  /** Each launch uses its ticket as the queue asks: it withdraws a ticket it still has, and lets go of the host
      only when it has it. */
  lemma QueueStepEnabled(w: World, i: nat, ok: bool)
    requires WorldInv(w) && CanGo(w, i) && QueueStep(w, i, ok).Some?
    ensures Enabled(w.sys, QueueStep(w, i, ok).value)
  {
    assert Good(w, i);
  }

  /** The queue after the next step of launch i. */
  function QueueAfter(w: World, i: nat, ok: bool): System
    requires CanGo(w, i)
  {
    match QueueStep(w, i, ok) case None => w.sys case Some(step) => Act(w.sys, step)
  }

  lemma QueueAfterGo(w: World, i: nat, ok: bool)
    requires WorldInv(w) && CanGo(w, i)
    ensures Inv(QueueAfter(w, i, ok)) && |QueueAfter(w, i, ok).life| == |w.jobs|
    ensures forall k :: 0 <= k < |w.jobs| ==> Granted(QueueAfter(w, i, ok), k) == Granted(w.sys, k)
    ensures forall k :: 0 <= k < |w.jobs| && k != i ==> Undisturbed(LifeOf(w.sys, k), LifeOf(QueueAfter(w, i, ok), k))
    ensures forall k :: 0 <= k < |w.jobs| && Message(w.sys, k).Some? ==>
      Message(QueueAfter(w, i, ok), k) == Message(w.sys, k)
    ensures LifeOf(QueueAfter(w, i, ok), i) ==
      match QueueStep(w, i, ok) case None => w.sys.life[i] case Some(step) => OwnLife(w.sys.life[i], step)
  {
    if QueueStep(w, i, ok).Some? {
      var step := QueueStep(w, i, ok).value;
      QueueStepEnabled(w, i, ok);
      InvStep(w.sys, step);
      OwnTicket(w.sys, step, i);
      forall k | 0 <= k < |w.jobs| && k != i
        ensures Granted(Next(w.sys, step), k) == Granted(w.sys, k)
        ensures Undisturbed(w.sys.life[k], Next(w.sys, step).life[k])
        ensures Message(w.sys, k).Some? ==> Message(Next(w.sys, step), k) == Message(w.sys, k)
      {
        OthersUndisturbed(w.sys, step, k);
      }
    }
  }

  /** A message says whether the ticket has the host. */
  lemma MessageTells(s: System, i: nat)
    requires Inv(s) && i < |s.life| && Live(s.life[i])
    ensures Message(s, i) == if s.life[i] == Life.Waiting then None else Some(s.life[i] == Holding)
    ensures Granted(s, i) ==> s.life[i] == Holding
  {
    assert TicketInv(s, i);
  }

  /** The life of a launch's ticket after its own step. */
  function LifeAfter(phase: Phase, life: Life, ok: bool): Life {
    match phase
    case Planning => if ok then life else Gone
    case LosingPlace => OwnLife(life, Step.Withdraw(0))
    case LeavingLine => OwnLife(life, Step.Withdraw(0))
    case LosingHost => Gone
    case LeavingHost => Gone
    case Releasing => Gone
    case _ => life
  }

  lemma JobStepKeeps(job: Job, life: Life, granted: bool, message: Option<bool>, ok: bool, now: nat)
    requires JobInv(job, life, granted) && job.phase != Over
    requires granted && Live(life) ==> life == Holding
    requires job.phase == Handed ==> message == Some(life == Holding) && life in {Life.Holding, Life.Turned}
    ensures var after := LifeAfter(job.phase, life, ok);
      JobInv(JobStep(job, after, granted, message, ok, now), after, granted)
  {
  }

  lemma TimesStartKeeps(r: Option<Record>, now: nat)
    requires IsQueued(r)
    ensures Timed(StartedAt(r, now), now + 1)
  {
  }

  lemma TimesFinishKeeps(r: Option<Record>, status: Status, now: nat)
    requires Timed(r, now) && (IsQueued(r) || IsRunning(r)) && status in {Succeeded, Failed, Interrupted}
    ensures Timed(FinishedAt(r, status, now), now + 1)
  {
  }

  lemma TimesStepKeeps(job: Job, life: Life, after: Life, granted: bool, message: Option<bool>, ok: bool, now: nat)
    requires JobInv(job, life, granted) && Timed(job.record, now)
    ensures Timed(JobStep(job, after, granted, message, ok, now).record, now + 1)
  {
    var r := job.record;
    if job.phase.Recorded? || (job.phase.Handed? && !granted) {
      TimesStartKeeps(r, now);
    } else if job.phase.Finishing? {
      TimesFinishKeeps(r, if job.phase.ok then Succeeded else Failed, now);
    } else if job.phase.Interrupting? {
      TimesFinishKeeps(r, Interrupted, now);
    } else {
      assert JobStep(job, after, granted, message, ok, now).record in {r, Some(Created())};
    }
  }

  /** Only a job that was told to run is started. */
  lemma StartStepTold(job: Job, life: Life, after: Life, granted: bool, message: Option<bool>, ok: bool, now: nat)
    requires JobInv(job, life, granted) && job.phase != Over
    requires granted && Live(life) ==> life == Holding
    requires life == Holding ==> message == Some(true)
    requires HasStarted(job) ==> message == Some(true)
    ensures HasStarted(JobStep(job, after, granted, message, ok, now)) ==> message == Some(true)
  {
  }

  lemma TicketAfterGo(w: World, i: nat, ok: bool)
    requires WorldInv(w) && CanGo(w, i)
    ensures var s, job, life := QueueAfter(w, i, ok), w.jobs[i], w.sys.life[i];
      && JobInv(job, life, Granted(s, i))
      && (Granted(s, i) && Live(life) ==> life == Holding)
      && LifeOf(s, i) == LifeAfter(job.phase, life, ok)
      && (job.phase == Handed ==> Message(s, i) == Some(life == Holding) && life in {Life.Holding, Life.Turned})
      && (life == Holding || HasStarted(job) ==> Message(s, i) == Some(true))
  {
    assert Good(w, i);
    QueueAfterGo(w, i, ok);
    if Live(w.sys.life[i]) {
      MessageTells(w.sys, i);
    }
  }

  lemma JobAfterGo(w: World, i: nat, ok: bool)
    requires WorldInv(w) && CanGo(w, i)
    ensures StillGood(JobNow(w, QueueAfter(w, i, ok), i, ok), QueueAfter(w, i, ok), i, w.clock)
  {
    assert Good(w, i);
    TicketAfterGo(w, i, ok);
    var s, life := QueueAfter(w, i, ok), w.sys.life[i];
    JobStepKeeps(w.jobs[i], life, Granted(s, i), Message(s, i), ok, w.clock);
    TimesStepKeeps(w.jobs[i], life, LifeOf(s, i), Granted(s, i), Message(s, i), ok, w.clock);
    StartStepTold(w.jobs[i], life, LifeOf(s, i), Granted(s, i), Message(s, i), ok, w.clock);
  }

  /** Only a job that has the host is recorded as running. */
  lemma RunningHolds(w: World, i: nat)
    requires WorldInv(w) && i < |w.jobs| && IsRunning(w.jobs[i].record)
    ensures w.sys.life[i] == Holding && w.sys.holder == Some(i)
  {
    assert Good(w, i) && TicketInv(w.sys, i);
  }

  /** A launch's step keeps it in order with an older one, if that one does not run when it starts. */
  lemma OlderStepKeeps(job: Job, life: Life, other: Job, after: Life, granted: bool, message: Option<bool>, ok: bool,
                       now: nat)
    requires JobInv(job, life, granted) && Timed(job.record, now) && Timed(other.record, now) && Ordered(other, job)
    requires IsRunning(JobStep(job, after, granted, message, ok, now).record) ==> !IsRunning(other.record)
    ensures Ordered(other, JobStep(job, after, granted, message, ok, now))
  {
  }

  /** And with a younger one, if that one did not start before it. */
  lemma YoungerStepKeeps(job: Job, life: Life, other: Job, after: Life, granted: bool, message: Option<bool>, ok: bool,
                         now: nat)
    requires JobInv(job, life, granted) && Timed(job.record, now) && Ordered(job, other)
    requires HasStarted(JobStep(job, after, granted, message, ok, now)) && HasStarted(other) ==> HasStarted(job)
    ensures Ordered(JobStep(job, after, granted, message, ok, now), other)
  {
  }

  lemma NotRunningBeside(w: World, i: nat, ok: bool)
    requires WorldInv(w) && CanGo(w, i)
    ensures IsRunning(JobNow(w, QueueAfter(w, i, ok), i, ok).record) ==> w.sys.holder == Some(i)
    ensures HasStarted(JobNow(w, QueueAfter(w, i, ok), i, ok)) && !HasStarted(w.jobs[i]) ==> w.sys.holder == Some(i)
  {
    assert Good(w, i) && TicketInv(w.sys, i);
    QueueAfterGo(w, i, ok);
    if Live(w.sys.life[i]) {
      MessageTells(w.sys, i);
    }
    if IsRunning(w.jobs[i].record) {
      RunningHolds(w, i);
    }
  }

  /** Nobody younger than the holder has started. */
  lemma NoneAhead(w: World, i: nat, k: nat)
    requires WorldInv(w) && i < k < |w.jobs| && w.sys.holder == Some(i)
    ensures !HasStarted(w.jobs[k])
  {
    assert Good(w, k) && TicketInv(w.sys, k);
  }

  lemma OrderAfterGo(w: World, i: nat, ok: bool, k: nat)
    requires WorldInv(w) && CanGo(w, i) && k < |w.jobs| && k != i
    ensures k < i ==> Ordered(w.jobs[k], JobNow(w, QueueAfter(w, i, ok), i, ok))
    ensures i < k ==> Ordered(JobNow(w, QueueAfter(w, i, ok), i, ok), w.jobs[k])
  {
    assert Good(w, i) && Good(w, k);
    assert k < i ==> Ordered(w.jobs[k], w.jobs[i]);
    assert i < k ==> Ordered(w.jobs[i], w.jobs[k]);
    var s := QueueAfter(w, i, ok);
    if IsRunning(w.jobs[k].record) {
      RunningHolds(w, k);
    }
    NotRunningBeside(w, i, ok);
    if w.sys.holder == Some(i) && i < k {
      NoneAhead(w, i, k);
    }
    if k < i {
      OlderStepKeeps(w.jobs[i], w.sys.life[i], w.jobs[k], LifeOf(s, i), Granted(s, i), Message(s, i), ok, w.clock);
    } else {
      YoungerStepKeeps(w.jobs[i], w.sys.life[i], w.jobs[k], LifeOf(s, i), Granted(s, i), Message(s, i), ok, w.clock);
    }
  }

  lemma InvGo(w: World, i: nat, ok: bool)
    requires WorldInv(w) && CanGo(w, i)
    ensures WorldInv(After(w, Go(i, ok)))
  {
    var r := After(w, Go(i, ok));
    var s := QueueAfter(w, i, ok);
    assert r.sys == s && r.jobs == w.jobs[i := JobNow(w, s, i, ok)];
    QueueAfterGo(w, i, ok);
    JobAfterGo(w, i, ok);
    forall k | 0 <= k < |r.jobs| ensures Good(r, k) {
      if k != i {
        assert Good(w, k);
        UndisturbedKeeps(w.jobs[k], LifeOf(w.sys, k), LifeOf(s, k), Granted(s, k));
      }
    }
    forall a, b | 0 <= a < b < |r.jobs| ensures Ordered(r.jobs[a], r.jobs[b]) {
      if a == i {
        OrderAfterGo(w, i, ok, b);
      } else if b == i {
        OrderAfterGo(w, i, ok, a);
      } else {
        assert Ordered(w.jobs[a], w.jobs[b]);
      }
    }
  }

  lemma InvQueueOnly(w: World, step: Step)
    requires WorldInv(w) && (step.Try? || step.Enqueue? || step.Close?)
    ensures Inv(Next(w.sys, step)) && |w.jobs| <= |Next(w.sys, step).life|
    ensures |Next(w.sys, step).life| <= if step.Close? then |w.jobs| else |w.jobs| + 1
    ensures forall i :: 0 <= i < |w.jobs| ==> StillGood(w.jobs[i], Next(w.sys, step), i, w.clock)
  {
    var s := Next(w.sys, step);
    InvStep(w.sys, step);
    forall i | 0 <= i < |w.jobs| ensures StillGood(w.jobs[i], s, i, w.clock) {
      assert Good(w, i);
      OthersUndisturbed(w.sys, step, i);
      UndisturbedKeeps(w.jobs[i], w.sys.life[i], s.life[i], Granted(s, i));
    }
  }

  lemma InvArrive(w: World, now: bool, planning: bool, prepares: bool)
    requires WorldInv(w)
    ensures WorldInv(After(w, Arrive(now, planning, prepares)))
  {
    var step := if now then Step.Try else Step.Enqueue;
    var s, r := Next(w.sys, step), After(w, Arrive(now, planning, prepares));
    InvQueueOnly(w, step);
    if |s.life| != |w.sys.life| {
      var n := |w.jobs|;
      assert r.sys == s && r.jobs[..n] == w.jobs && r.jobs[n].record == None;
      forall i | 0 <= i <= n ensures Good(r, i) {
        if i < n {
          assert StillGood(w.jobs[i], s, i, w.clock);
        }
      }
      forall a, b | 0 <= a < b <= n ensures Ordered(r.jobs[a], r.jobs[b]) {
        if b < n {
          assert Ordered(w.jobs[a], w.jobs[b]);
        }
      }
    }
  }

  lemma InvAfter(w: World, e: Event)
    requires WorldInv(w) && Possible(w, e)
    ensures WorldInv(After(w, e))
  {
    match e
    case Arrive(now, planning, prepares) => InvArrive(w, now, planning, prepares);
    case Go(i, ok) => InvGo(w, i, ok);
    case Stop =>
      InvQueueOnly(w, Step.Close);
      var r := After(w, Stop);
      assert forall i :: 0 <= i < |w.jobs| && StillGood(w.jobs[i], r.sys, i, w.clock) ==> Good(r, i);
  }

  // ------------------------------------------------------------------- every run

  ghost predicate IsWorldRun(events: seq<Event>, worlds: seq<World>) {
    && |worlds| == |events| + 1
    && forall k :: 0 <= k < |events| ==> Possible(worlds[k], events[k]) && worlds[k + 1] == After(worlds[k], events[k])
  }

  lemma StartInv()
    ensures WorldInv(START)
  {
  }

  lemma {:induction false} InvWorldRun(events: seq<Event>, worlds: seq<World>, k: nat)
    requires IsWorldRun(events, worlds) && WorldInv(worlds[0]) && k < |worlds|
    ensures WorldInv(worlds[k])
  {
    if k > 0 {
      InvWorldRun(events, worlds, k - 1);
      InvAfter(worlds[k - 1], events[k - 1]);
    }
  }

  /** At most one job is recorded as running, and the host is its. */
  lemma OneRunning(events: seq<Event>, worlds: seq<World>, k: nat, i: nat, j: nat)
    requires IsWorldRun(events, worlds) && worlds[0] == START && k < |worlds|
    requires i < |worlds[k].jobs| && j < |worlds[k].jobs|
    requires IsRunning(worlds[k].jobs[i].record) && IsRunning(worlds[k].jobs[j].record)
    ensures i == j && Holds(worlds[k].sys, i)
  {
    StartInv();
    InvWorldRun(events, worlds, k);
    RunningHolds(worlds[k], i);
    RunningHolds(worlds[k], j);
  }

  /** Jobs run one after the other in the order they came: of two that started, the one that came first had
      finished before the other started. */
  lemma StartsAfterFinishes(events: seq<Event>, worlds: seq<World>, k: nat, i: nat, j: nat)
    requires IsWorldRun(events, worlds) && worlds[0] == START && k < |worlds| && i < j < |worlds[k].jobs|
    requires HasStarted(worlds[k].jobs[i]) && HasStarted(worlds[k].jobs[j])
    ensures Ended(worlds[k].jobs[i].record)
    ensures worlds[k].jobs[i].record.value.finished.Some?
    ensures worlds[k].jobs[i].record.value.started.value < worlds[k].jobs[i].record.value.finished.value
      < worlds[k].jobs[j].record.value.started.value
  {
    StartInv();
    InvWorldRun(events, worlds, k);
    assert Good(worlds[k], i) && Good(worlds[k], j) && Ordered(worlds[k].jobs[i], worlds[k].jobs[j]);
  }

  /** Cleanup runs at most once, and exactly once by the end of each launch that was entered. */
  lemma CleanedUpOnce(events: seq<Event>, worlds: seq<World>, k: nat, i: nat)
    requires IsWorldRun(events, worlds) && worlds[0] == START && k < |worlds| && i < |worlds[k].jobs|
    ensures worlds[k].jobs[i].cleanups <= 1
    ensures worlds[k].jobs[i].phase == Over ==>
      worlds[k].jobs[i].cleanups == (if worlds[k].jobs[i].entered then 1 else 0)
    ensures worlds[k].jobs[i].phase == Over && worlds[k].jobs[i].record.Some? ==> Ended(worlds[k].jobs[i].record)
  {
    StartInv();
    InvWorldRun(events, worlds, k);
    assert Good(worlds[k], i);
  }

  function Rank(status: Status): nat {
    match status case Queued => 0 case Running => 1 case _ => 2
  }

  /** A record is never lost, its status only moves forward, and an ended one is final. */
  predicate Forward(before: Option<Record>, after: Option<Record>) {
    before.Some? ==>
      && after.Some?
      && Rank(before.value.status) <= Rank(after.value.status)
      && (Ended(before) ==> after == before)
      && (before.value.started.Some? ==> after.value.started == before.value.started)
  }

  lemma JobStepForward(job: Job, life: Life, after: Life, granted: bool, message: Option<bool>, ok: bool, now: nat)
    requires JobInv(job, life, granted) && Timed(job.record, now)
    ensures Forward(job.record, JobStep(job, after, granted, message, ok, now).record)
  {
  }

  lemma ForwardAfter(w: World, e: Event, i: nat)
    requires WorldInv(w) && Possible(w, e) && i < |w.jobs|
    ensures i < |After(w, e).jobs| && Forward(w.jobs[i].record, After(w, e).jobs[i].record)
  {
    assert Good(w, i);
    if e.Go? && e.i == i {
      var s := QueueAfter(w, i, e.ok);
      JobStepForward(w.jobs[i], w.sys.life[i], LifeOf(s, i), Granted(s, i), Message(s, i), e.ok, w.clock);
    }
  }

  lemma {:induction false} StatusForward(events: seq<Event>, worlds: seq<World>, k: nat, l: nat, i: nat)
    requires IsWorldRun(events, worlds) && worlds[0] == START && k <= l < |worlds| && i < |worlds[k].jobs|
    ensures i < |worlds[l].jobs| && Forward(worlds[k].jobs[i].record, worlds[l].jobs[i].record)
    decreases l
  {
    if k < l {
      StatusForward(events, worlds, k, l - 1, i);
      StartInv();
      InvWorldRun(events, worlds, l - 1);
      ForwardAfter(worlds[l - 1], events[l - 1], i);
    }
  }

  // ---------------------------------------------------------- what a record says

  predicate HasStatus(r: Option<Record>, status: Status) {
    r.Some? && r.value.status == status
  }

  /** Some step before the kth was the work of launch i, and it went through. */
  ghost predicate WorkDone(events: seq<Event>, worlds: seq<World>, k: nat, i: nat)
    requires k < |worlds| == |events| + 1
  {
    exists l: nat :: l < k && WorksAt(events, worlds, l, i)
  }

  /** The launch is past its work, which went through. */
  predicate IsDone(job: Job) {
    match job.phase
    case Cleaning(ok, _) => ok
    case Finishing(ok, _) => ok
    case _ => HasStatus(job.record, Succeeded)
  }

  predicate TellsTurned(job: Job, life: Life) {
    HasStatus(job.record, Interrupted) <==> job.phase == Over && life == Life.Turned
  }

  lemma DoneStep(job: Job, life: Life, after: Life, granted: bool, message: Option<bool>, ok: bool, now: nat)
    requires JobInv(job, life, granted) && job.phase != Over
    ensures var next := JobStep(job, after, granted, message, ok, now);
      IsDone(next) <==> IsDone(job) || (job.phase == Working && ok)
  {
  }

  lemma TurnedStep(w: World, i: nat, ok: bool)
    requires WorldInv(w) && CanGo(w, i) && TellsTurned(w.jobs[i], LifeOf(w.sys, i))
    ensures var s := QueueAfter(w, i, ok); TellsTurned(JobNow(w, s, i, ok), LifeOf(s, i))
  {
    assert Good(w, i);
    QueueAfterGo(w, i, ok);
    var job, life := w.jobs[i], w.sys.life[i];
    assert job.phase == Working || job.phase.Cleaning? || job.phase.Finishing? ==> life != Life.Turned;
  }

  lemma DoneGo(w: World, i: nat, ok: bool)
    requires WorldInv(w) && CanGo(w, i) && TellsTurned(w.jobs[i], LifeOf(w.sys, i))
    ensures IsDone(After(w, Go(i, ok)).jobs[i]) <==> IsDone(w.jobs[i]) || (w.jobs[i].phase == Working && ok)
    ensures TellsTurned(After(w, Go(i, ok)).jobs[i], LifeOf(After(w, Go(i, ok)).sys, i))
  {
    var s := QueueAfter(w, i, ok);
    assert Good(w, i);
    DoneStep(w.jobs[i], w.sys.life[i], LifeOf(s, i), Granted(s, i), Message(s, i), ok, w.clock);
    TurnedStep(w, i, ok);
  }

  lemma DoneAfter(w: World, e: Event, i: nat)
    requires WorldInv(w) && Possible(w, e) && i < |After(w, e).jobs|
    requires i < |w.jobs| ==> TellsTurned(w.jobs[i], LifeOf(w.sys, i))
    ensures if i >= |w.jobs| then !IsDone(After(w, e).jobs[i])
            else IsDone(After(w, e).jobs[i]) <==> IsDone(w.jobs[i]) || (w.jobs[i].phase == Working && e == Go(i, true))
    ensures TellsTurned(After(w, e).jobs[i], LifeOf(After(w, e).sys, i))
  {
    InvAfter(w, e);
    assert Good(After(w, e), i);
    if i < |w.jobs| && e.Go? && e.i == i {
      DoneGo(w, i, e.ok);
    } else if i < |w.jobs| {
      assert Good(w, i);
      LifeElsewhere(w, e, i);
    }
  }

  lemma LifeElsewhere(w: World, e: Event, i: nat)
    requires WorldInv(w) && Possible(w, e) && i < |w.jobs| && !(e.Go? && e.i == i)
    ensures i < |After(w, e).jobs| && After(w, e).jobs[i] == w.jobs[i]
    ensures Undisturbed(LifeOf(w.sys, i), LifeOf(After(w, e).sys, i))
  {
    match e
    case Arrive(now, _, _) => OthersUndisturbed(w.sys, if now then Step.Try else Step.Enqueue, i);
    case Stop => OthersUndisturbed(w.sys, Step.Close, i);
    case Go(j, ok) => QueueAfterGo(w, j, ok);
  }

  /** The kth step is the work of launch i, and it goes through. */
  predicate WorksAt(events: seq<Event>, worlds: seq<World>, k: nat, i: nat)
    requires k < |events| < |worlds|
  {
    i < |worlds[k].jobs| && worlds[k].jobs[i].phase == Working && events[k] == Go(i, true)
  }

  lemma DoneAt(events: seq<Event>, worlds: seq<World>, k: nat, i: nat)
    requires IsWorldRun(events, worlds) && worlds[0] == START && k < |events| && i < |worlds[k + 1].jobs|
    requires i < |worlds[k].jobs| ==> TellsTurned(worlds[k].jobs[i], LifeOf(worlds[k].sys, i))
    ensures IsDone(worlds[k + 1].jobs[i])
      <==> (i < |worlds[k].jobs| && IsDone(worlds[k].jobs[i])) || WorksAt(events, worlds, k, i)
    ensures TellsTurned(worlds[k + 1].jobs[i], LifeOf(worlds[k + 1].sys, i))
  {
    StartInv();
    InvWorldRun(events, worlds, k);
    DoneAfter(worlds[k], events[k], i);
  }

  lemma {:induction false} DoneRun(events: seq<Event>, worlds: seq<World>, k: nat, i: nat)
    requires IsWorldRun(events, worlds) && worlds[0] == START && k < |worlds| && i < |worlds[k].jobs|
    ensures IsDone(worlds[k].jobs[i]) <==> WorkDone(events, worlds, k, i)
    ensures TellsTurned(worlds[k].jobs[i], LifeOf(worlds[k].sys, i))
  {
    assert k > 0;
    if i < |worlds[k - 1].jobs| {
      DoneRun(events, worlds, k - 1, i);
    } else {
      NotYet(events, worlds, k - 1, i);
    }
    DoneAt(events, worlds, k - 1, i);
  }

  /** A launch that has not come has done no work. */
  lemma {:induction false} NotYet(events: seq<Event>, worlds: seq<World>, k: nat, i: nat)
    requires IsWorldRun(events, worlds) && worlds[0] == START && k < |worlds| && i >= |worlds[k].jobs|
    ensures forall l :: 0 <= l <= k ==> i >= |worlds[l].jobs|
  {
    if k > 0 {
      StartInv();
      InvWorldRun(events, worlds, k - 1);
      if i < |worlds[k - 1].jobs| {
        ForwardAfter(worlds[k - 1], events[k - 1], i);
        assert false;
      }
      NotYet(events, worlds, k - 1, i);
    }
  }

  /** What the record of a launch that is over says is what came of it: succeeded when its work was done and went
      through, interrupted when the daemon stopped before it got the host, failed otherwise. */
  lemma StatusTells(events: seq<Event>, worlds: seq<World>, k: nat, i: nat)
    requires IsWorldRun(events, worlds) && worlds[0] == START && k < |worlds| && i < |worlds[k].jobs|
    requires worlds[k].jobs[i].phase == Over && worlds[k].jobs[i].record.Some?
    ensures worlds[k].jobs[i].record.value.status ==
      if WorkDone(events, worlds, k, i) then Succeeded
      else if LifeOf(worlds[k].sys, i) == Life.Turned then Interrupted else Failed
  {
    StartInv();
    InvWorldRun(events, worlds, k);
    assert Good(worlds[k], i);
    DoneRun(events, worlds, k, i);
  }

  // ------------------------------------------------------------------ no deadlock

  /** While a launch is not over, some launch can take a step: a job waits only for one that has the host. */
  lemma NoDeadlock(w: World)
    requires WorldInv(w) && exists i :: 0 <= i < |w.jobs| && w.jobs[i].phase != Over
    ensures exists i :: CanGo(w, i)
  {
    var i :| 0 <= i < |w.jobs| && w.jobs[i].phase != Over;
    assert Good(w, i) && TicketInv(w.sys, i);
    if !CanGo(w, i) {
      MessageTells(w.sys, i);
      assert w.sys.life[i] == Life.Waiting && w.sys.holder.Some?;
      var h := w.sys.holder.value;
      assert Good(w, h) && TicketInv(w.sys, h);
      assert CanGo(w, h);
    }
  }

  /** How many steps a launch has left, at most. */
  function StepsLeft(phase: Phase): nat {
    match phase
    case Planning => 10 case Entered => 9 case LosingPlace => 3 case LosingHost => 2 case Unrecorded => 1
    case Recorded => 8 case Preparing => 7 case LeavingLine => 6 case LeavingHost => 5 case Handed => 5
    case Working => 4 case Cleaning(_, _) => 3 case Finishing(_, _) => 2 case Releasing => 1
    case TurnedAway => 2 case Interrupting => 1 case Over => 0
  }

  function TotalLeft(jobs: seq<Job>): nat {
    if jobs == [] then 0 else StepsLeft(jobs[0].phase) + TotalLeft(jobs[1..])
  }

  lemma {:induction false} TotalLeftUpdate(jobs: seq<Job>, i: nat, job: Job)
    requires i < |jobs|
    ensures TotalLeft(jobs[i := job]) == TotalLeft(jobs) - StepsLeft(jobs[i].phase) + StepsLeft(job.phase)
  {
    if i > 0 {
      assert jobs[i := job][1..] == jobs[1..][i - 1 := job];
      TotalLeftUpdate(jobs[1..], i - 1, job);
    } else {
      assert jobs[i := job][1..] == jobs[1..];
    }
  }

  lemma {:induction false} AllOver(jobs: seq<Job>)
    requires forall i :: 0 <= i < |jobs| ==> jobs[i].phase == Over
    ensures TotalLeft(jobs) == 0
  {
    if jobs != [] {
      AllOver(jobs[1..]);
    }
  }

  lemma JobStepDecreases(job: Job, life: Life, granted: bool, message: Option<bool>, ok: bool, now: nat)
    requires job.phase != Over
    ensures StepsLeft(JobStep(job, life, granted, message, ok, now).phase) < StepsLeft(job.phase)
  {
  }

  lemma GoDecreases(w: World, i: nat, ok: bool)
    requires CanGo(w, i)
    ensures TotalLeft(After(w, Go(i, ok)).jobs) < TotalLeft(w.jobs)
  {
    var s := QueueAfter(w, i, ok);
    JobStepDecreases(w.jobs[i], LifeOf(s, i), Granted(s, i), Message(s, i), ok, w.clock);
    TotalLeftUpdate(w.jobs, i, JobNow(w, s, i, ok));
  }

  lemma {:induction false} StepsBounded(events: seq<Event>, worlds: seq<World>, k: nat)
    requires IsWorldRun(events, worlds) && k < |worlds| && forall e :: e in events ==> e.Go?
    ensures TotalLeft(worlds[k].jobs) + k <= TotalLeft(worlds[0].jobs)
  {
    if k > 0 {
      StepsBounded(events, worlds, k - 1);
      GoDecreases(worlds[k - 1], events[k - 1].i, events[k - 1].ok);
    }
  }

  /** Once nothing new arrives, the launches take a bounded number of steps, whatever their order and however
      they fail; when none can go on, every launch is over, nobody waits and the host is free. */
  lemma EveryLaunchEnds(events: seq<Event>, worlds: seq<World>)
    requires IsWorldRun(events, worlds) && WorldInv(worlds[0]) && forall e :: e in events ==> e.Go?
    ensures |events| <= TotalLeft(worlds[0].jobs)
    ensures (forall i :: !CanGo(worlds[|events|], i)) ==>
      var w := worlds[|events|];
      && (forall i :: 0 <= i < |w.jobs| ==> w.jobs[i].phase == Over)
      && w.sys.holder == None && w.sys.q.waiting == [] && (w.sys.q.busy ==> w.sys.q.closed)
  {
    StepsBounded(events, worlds, |events|);
    var w := worlds[|events|];
    InvWorldRun(events, worlds, |events|);
    HolderNotOver(w);
    if exists i :: 0 <= i < |w.jobs| && w.jobs[i].phase != Over {
      NoDeadlock(w);
    }
  }

  lemma HolderNotOver(w: World)
    requires WorldInv(w)
    ensures w.sys.holder.Some? ==> w.sys.holder.value < |w.jobs| && w.jobs[w.sys.holder.value].phase != Over
  {
    if w.sys.holder.Some? {
      assert Good(w, w.sys.holder.value);
    }
  }

  // --------------------------------------------------------------------- restart

  /** What a daemon makes of a stored record when it starts (pkg/server/jobs.go, OpenJobs). */
  function Reopened(r: Record, now: nat): Record {
    if r.status in {Queued, Running} then r.(status := Interrupted, finished := Some(now)) else r
  }

  /** After a restart every job has ended, an ended one is as it was, and none finished later than now: the jobs
      the new daemon starts come after all of them. */
  lemma RestartEnds(events: seq<Event>, worlds: seq<World>, k: nat, i: nat)
    requires IsWorldRun(events, worlds) && worlds[0] == START && k < |worlds| && i < |worlds[k].jobs|
    requires worlds[k].jobs[i].record.Some?
    ensures var before, after := worlds[k].jobs[i].record, Reopened(worlds[k].jobs[i].record.value, worlds[k].clock);
      Ended(Some(after)) && Forward(before, Some(after)) && Timed(Some(after), worlds[k].clock + 1)
  {
    StartInv();
    InvWorldRun(events, worlds, k);
    assert Good(worlds[k], i);
  }

  // ------------------------------------------------- no start before the last finish

  /** b, whose ticket is younger, started after a, which was given the host, was recorded as finished. */
  predicate InTurn(a: Job, b: Job) {
    a.record.Some? && HasStarted(b) ==>
      a.record.value.finished.Some? && a.record.value.finished.value < b.record.value.started.value
  }

  /** No job's start comes before the finish of one that had the host before it. */
  predicate AllInTurn(w: World) {
    forall i, j :: 0 <= i < j < |w.jobs| && Message(w.sys, i) == Some(true) ==> InTurn(w.jobs[i], w.jobs[j])
  }

  /** What a launch may be: if queued is false, one that may have to wait in line has nothing to prepare. That is
      so of every launch in the repository: only apply prepares (pkg/server/apply.go:117), and it takes the host
      or nothing (pkg/server/apply.go:45). */
  predicate Allowed(e: Event, queued: bool) {
    e.Arrive? && e.prepares ==> e.now || queued
  }

  /** The launch never gives up a host it was handed before its record has ended. */
  predicate Holdfast(job: Job, granted: bool) {
    && (job.prepares ==> granted)
    && job.phase != LeavingLine && job.phase != Phase.LeavingHost
    && (job.phase.Cleaning? || job.phase.Finishing? ==> job.phase.release)
  }

  ghost predicate TurnInv(w: World) {
    && WorldInv(w)
    && (forall i :: 0 <= i < |w.jobs| ==> Holdfast(w.jobs[i], Granted(w.sys, i)))
    && AllInTurn(w)
  }

  /** A launch that was given the host and recorded has it, or has ended. */
  lemma HoldsOrEnded(w: World, i: nat)
    requires TurnInv(w) && i < |w.jobs| && Message(w.sys, i) == Some(true) && w.jobs[i].record.Some?
    ensures w.sys.holder == Some(i) || (w.jobs[i].phase == Over && Ended(w.jobs[i].record))
  {
    assert Good(w, i) && Holdfast(w.jobs[i], Granted(w.sys, i)) && TicketInv(w.sys, i);
  }

  /** Nobody younger than a launch that still waits, or that has the host, has started. */
  lemma NoneStartedAfter(w: World, i: nat, j: nat)
    requires WorldInv(w) && i < j < |w.jobs| && (w.sys.life[i] == Life.Waiting || w.sys.holder == Some(i))
    ensures !HasStarted(w.jobs[j])
  {
    assert Good(w, j) && TicketInv(w.sys, j) && TicketInv(w.sys, i) && InOrder(w.sys, i);
  }

  lemma JobStepHoldsFast(job: Job, life: Life, granted: bool, message: Option<bool>, ok: bool, now: nat)
    requires Holdfast(job, granted)
    ensures Holdfast(JobStep(job, life, granted, message, ok, now), granted)
  {
  }

  lemma HoldfastAfter(w: World, e: Event, i: nat)
    requires TurnInv(w) && Possible(w, e) && Allowed(e, false) && i < |After(w, e).jobs|
    ensures Holdfast(After(w, e).jobs[i], Granted(After(w, e).sys, i))
  {
    if i < |w.jobs| {
      assert Holdfast(w.jobs[i], Granted(w.sys, i));
      StepKeepsTicket(w, e, i);
      if e.Go? && e.i == i {
        var s := QueueAfter(w, i, e.ok);
        JobStepHoldsFast(w.jobs[i], LifeOf(s, i), Granted(s, i), Message(s, i), e.ok, w.clock);
      }
    }
  }

  lemma GoKeepsTicket(w: World, k: nat, ok: bool, i: nat)
    requires WorldInv(w) && CanGo(w, k) && i < |w.jobs|
    ensures var s := QueueAfter(w, k, ok);
      Granted(s, i) == Granted(w.sys, i) && (Message(s, i) == Message(w.sys, i) || w.sys.life[i] == Life.Waiting)
  {
    QueueAfterGo(w, k, ok);
    assert Good(w, i) && TicketInv(w.sys, i) && TicketInv(QueueAfter(w, k, ok), i);
  }

  lemma QueueOnlyKeepsTicket(s: System, step: Step, i: nat)
    requires Inv(s) && i < |s.life| && (step.Try? || step.Enqueue? || step.Close?)
    ensures i < |Next(s, step).life| && Granted(Next(s, step), i) == Granted(s, i)
    ensures Message(Next(s, step), i) == Message(s, i) || s.life[i] == Life.Waiting
  {
    OthersUndisturbed(s, step, i);
    InvStep(s, step);
    assert TicketInv(s, i) && TicketInv(Next(s, step), i);
  }

  /** A step changes no ticket's grant, and tells nobody to run but one that waited. */
  lemma StepKeepsTicket(w: World, e: Event, i: nat)
    requires WorldInv(w) && Possible(w, e) && i < |w.jobs|
    ensures i < |After(w, e).jobs| && Granted(After(w, e).sys, i) == Granted(w.sys, i)
    ensures Message(After(w, e).sys, i) == Message(w.sys, i) || w.sys.life[i] == Life.Waiting
    ensures !(e.Go? && e.i == i) ==> After(w, e).jobs[i] == w.jobs[i]
  {
    match e
    case Arrive(now, _, _) => QueueOnlyKeepsTicket(w.sys, if now then Step.Try else Step.Enqueue, i);
    case Stop => QueueOnlyKeepsTicket(w.sys, Step.Close, i);
    case Go(k, ok) => GoKeepsTicket(w, k, ok, i);
  }

  lemma TurnAfter(w: World, e: Event, i: nat, j: nat)
    requires TurnInv(w) && Possible(w, e) && i < j < |After(w, e).jobs|
    requires Message(After(w, e).sys, i) == Some(true)
    ensures InTurn(After(w, e).jobs[i], After(w, e).jobs[j])
  {
    if j < |w.jobs| {
      StepKeepsTicket(w, e, i);
      StepKeepsTicket(w, e, j);
      if Message(w.sys, i) != Some(true) {
        TurnWhenTold(w, e, i, j);
      } else if e.Go? && e.i == j {
        TurnWhenYoungerSteps(w, e.ok, i, j);
      } else if e.Go? && e.i == i {
        TurnWhenOlderSteps(w, e.ok, i, j);
      } else {
        assert InTurn(w.jobs[i], w.jobs[j]);
      }
    }
  }

  lemma TurnWhenTold(w: World, e: Event, i: nat, j: nat)
    requires TurnInv(w) && Possible(w, e) && i < j < |w.jobs| && w.sys.life[i] == Life.Waiting
    requires Message(w.sys, i) != Some(true)
    requires j < |After(w, e).jobs| && (!(e.Go? && e.i == j) ==> After(w, e).jobs[j] == w.jobs[j])
    ensures InTurn(After(w, e).jobs[i], After(w, e).jobs[j])
  {
    NoneStartedAfter(w, i, j);
    if e.Go? && e.i == j {
      NotRunningBeside(w, j, e.ok);
      assert TicketInv(w.sys, i) && InOrder(w.sys, i) && TicketInv(w.sys, j);
    }
  }

  lemma TurnWhenYoungerSteps(w: World, ok: bool, i: nat, j: nat)
    requires TurnInv(w) && i < j < |w.jobs| && CanGo(w, j) && Message(w.sys, i) == Some(true)
    ensures InTurn(w.jobs[i], JobNow(w, QueueAfter(w, j, ok), j, ok))
  {
    assert Good(w, i) && Good(w, j) && InTurn(w.jobs[i], w.jobs[j]);
    NotRunningBeside(w, j, ok);
    if w.jobs[i].record.Some? {
      HoldsOrEnded(w, i);
    }
  }

  lemma TurnWhenOlderSteps(w: World, ok: bool, i: nat, j: nat)
    requires TurnInv(w) && i < j < |w.jobs| && CanGo(w, i) && Message(w.sys, i) == Some(true)
    ensures InTurn(JobNow(w, QueueAfter(w, i, ok), i, ok), w.jobs[j])
  {
    assert Good(w, i) && Holdfast(w.jobs[i], Granted(w.sys, i)) && TicketInv(w.sys, i);
    if w.sys.holder == Some(i) {
      NoneStartedAfter(w, i, j);
    }
  }

  lemma TurnInvAfter(w: World, e: Event)
    requires TurnInv(w) && Possible(w, e) && Allowed(e, false)
    ensures TurnInv(After(w, e))
  {
    var r := After(w, e);
    InvAfter(w, e);
    forall i | 0 <= i < |r.jobs| ensures Holdfast(r.jobs[i], Granted(r.sys, i)) {
      HoldfastAfter(w, e, i);
    }
    forall i, j | 0 <= i < j < |r.jobs| && Message(r.sys, i) == Some(true) ensures InTurn(r.jobs[i], r.jobs[j]) {
      TurnAfter(w, e, i, j);
    }
  }

  lemma {:induction false} TurnInvRun(events: seq<Event>, worlds: seq<World>, k: nat)
    requires IsWorldRun(events, worlds) && worlds[0] == START && k < |worlds|
    requires forall e :: e in events ==> Allowed(e, false)
    ensures TurnInv(worlds[k])
  {
    if k == 0 {
      StartInv();
    } else {
      TurnInvRun(events, worlds, k - 1);
      TurnInvAfter(worlds[k - 1], events[k - 1]);
    }
  }

  /** In every run of the launches the repository makes, no job starts before each recorded job that had the host
      before it is recorded as finished, whether that one ran or not. */
  lemma StartsInTurn(events: seq<Event>, worlds: seq<World>, k: nat, i: nat, j: nat)
    requires IsWorldRun(events, worlds) && worlds[0] == START && k < |worlds| && i < j < |worlds[k].jobs|
    requires forall e :: e in events ==> Allowed(e, false)
    requires i in worlds[k].sys.grants && worlds[k].jobs[i].record.Some? && HasStarted(worlds[k].jobs[j])
    ensures Ended(worlds[k].jobs[i].record)
    ensures worlds[k].jobs[i].record.value.finished.Some?
    ensures worlds[k].jobs[i].record.value.finished.value < worlds[k].jobs[j].record.value.started.value
  {
    TurnInvRun(events, worlds, k);
    assert Good(worlds[k], i) && TicketInv(worlds[k].sys, i) && InTurn(worlds[k].jobs[i], worlds[k].jobs[j]);
  }

  /** Every run of launches as allowed starts its jobs in turn. */
  ghost predicate TurnsKept(queued: bool) {
    forall events, worlds ::
      (IsWorldRun(events, worlds) && worlds[0] == START && forall e :: e in events ==> Allowed(e, queued)) ==>
        AllInTurn(worlds[|events|])
  }

  /** The order is kept exactly as long as nothing that may wait in line has something to prepare: launch gives a
      host it was handed meanwhile up before it records the end of such a job. */
  lemma TurnsKeptIff(queued: bool)
    ensures TurnsKept(queued) <==> !queued
  {
    if queued {
      var worlds := LateHappens(LateEvents());
      assert !AllInTurn(worlds[|LateEvents()|]) && forall e :: e in LateEvents() ==> Allowed(e, true);
    } else {
      forall events, worlds |
        IsWorldRun(events, worlds) && worlds[0] == START && forall e :: e in events ==> Allowed(e, false)
        ensures AllInTurn(worlds[|events|])
      {
        TurnInvRun(events, worlds, |events|);
      }
    }
  }

  /** Events that no caller in the repository makes: an apply holds the host while two changes queue, the first with
      something to prepare; the apply gives the host up unapplied; the first change, whose preparation fails,
      abandons it, and the second starts before the first is finished. */
  function LateEvents(): seq<Event> {
    [Arrive(true, true, true), Arrive(false, false, true), Arrive(false, false, false), Go(1, true), Go(1, true),
     Go(0, false), Go(1, false), Go(1, true), Go(1, true), Go(2, true), Go(2, true), Go(2, true), Go(2, true),
     Go(1, true), Go(1, true)]
  }

  /** The apply's launch once it gave the host up. */
  function Declined(): Job {
    Arrived(true, true).(phase := Over)
  }

  /** A change that is recorded. */
  function Change(phase: Phase, prepares: bool): Job {
    Job(phase, true, prepares, Some(Created()), 0)
  }

  function LateLine(): System {
    System(Queue(true, false, [1, 2], [Ticket(true, [true]), Ticket(false, []), Ticket(false, [])]),
           [Holding, Waiting, Waiting], Some(0), [0])
  }

  function LateHanded(): System {
    System(Queue(true, false, [2], [Ticket(true, [true]), Ticket(false, [true]), Ticket(false, [])]),
           [Gone, Holding, Waiting], Some(1), [0, 1])
  }

  function LateGivenUp(): System {
    System(Queue(true, false, [], [Ticket(true, [true]), Ticket(false, [true]), Ticket(false, [true])]),
           [Gone, Gone, Holding], Some(2), [0, 1, 2])
  }

  lemma LateArrivals(s: System)
    requires s == INIT
    ensures Next(Next(Next(s, Step.Try), Step.Enqueue), Step.Enqueue) == LateLine()
    ensures |Next(s, Step.Try).life| == 1 && |Next(Next(s, Step.Try), Step.Enqueue).life| == 2
  {
    var s1 := Next(s, Step.Try);
    assert s1 == System(Queue(true, false, [], [Ticket(true, [true])]), [Holding], Some(0), [0]);
    var s2 := Next(s1, Step.Enqueue);
    assert s2 ==
      System(Queue(true, false, [1], [Ticket(true, [true]), Ticket(false, [])]), [Holding, Waiting], Some(0), [0]);
  }

  lemma LateFirst(s: System)
    requires s == LateLine()
    ensures Act(s, Step.Release(0)) == LateHanded()
  {
    var r := HandOver(s, 0);
    assert r.q.waiting == [2] && r.grants == [0] + [1] == [0, 1];
    assert r.life == [Gone, Holding, Waiting];
    assert Ticket(false, []).sent + [true] == [true];
    assert Sent(s.q.tickets, 1, true) == [Ticket(true, [true]), Ticket(false, [true]), Ticket(false, [])];
  }

  lemma LateSecond(s: System)
    requires s == LateHanded()
    ensures LifeOf(Act(s, Step.Withdraw(1)), 1) == Life.LeavingHost
    ensures Act(Act(s, Step.Withdraw(1)), Step.Vacate(1)) == LateGivenUp()
  {
    WithoutAbsent([2], 1);
    var s1 := s.(life := [Gone, Life.LeavingHost, Waiting]);
    assert Next(s, Step.Withdraw(1)) == s1;
    var r := HandOver(s1, 1);
    assert r.q.waiting == [] && r.grants == [0, 1] + [2] == [0, 1, 2];
    assert r.life == [Gone, Gone, Holding];
    assert Ticket(false, []).sent + [true] == [true];
    assert Sent(s.q.tickets, 2, true) == [Ticket(true, [true]), Ticket(false, [true]), Ticket(false, [true])];
  }

  /** The worlds that the events from the given one on go through. */
  ghost predicate Segment(events: seq<Event>, first: nat, worlds: seq<World>) {
    && first <= |events| && |worlds| == |events| - first + 1
    && forall k :: 0 <= k < |worlds| - 1 ==>
      Possible(worlds[k], events[first + k]) && worlds[k + 1] == After(worlds[k], events[first + k])
  }

  ghost function Prepend(events: seq<Event>, first: nat, w: World, rest: seq<World>): (worlds: seq<World>)
    requires first < |events| && Segment(events, first + 1, rest)
    requires Possible(w, events[first]) && rest[0] == After(w, events[first])
    ensures Segment(events, first, worlds) && worlds[0] == w && worlds[|worlds| - 1] == rest[|rest| - 1]
  {
    assert forall k :: 0 < k < |rest| ==> ([w] + rest)[k] == rest[k - 1];
    [w] + rest
  }

  lemma LateHappens(events: seq<Event>) returns (worlds: seq<World>)
    requires events == LateEvents()
    ensures IsWorldRun(events, worlds) && worlds[0] == START && !AllInTurn(worlds[|events|])
  {
    LateArrivals(INIT);
    var w1 := After(START, events[0]);
    var w2 := After(w1, events[1]);
    var w3 := After(w2, events[2]);
    assert w3 == World(LateLine(), [Arrived(true, true), Arrived(false, true), Arrived(false, false)], 3);
    var rest := LateMiddle(events, w3);
    worlds := Prepend(events, 0, START, Prepend(events, 1, w1, Prepend(events, 2, w2, rest)));
  }

  lemma LateMiddle(events: seq<Event>, w: World) returns (worlds: seq<World>)
    requires events == LateEvents()
    requires w == World(LateLine(), [Arrived(true, true), Arrived(false, true), Arrived(false, false)], 3)
    ensures Segment(events, 3, worlds) && worlds[0] == w && !AllInTurn(worlds[12])
  {
    LateFirst(w.sys);
    var w1 := After(w, events[3]);
    var w2 := After(w1, events[4]);
    var w3 := After(w2, events[5]);
    assert w3 == World(LateHanded(), [Declined(), Change(Preparing, true), Arrived(false, false)], 6);
    var rest := LateEnd(events, w3);
    worlds := Prepend(events, 3, w, Prepend(events, 4, w1, Prepend(events, 5, w2, rest)));
  }

  lemma LateEnd(events: seq<Event>, w: World) returns (worlds: seq<World>)
    requires events == LateEvents()
    requires w == World(LateHanded(), [Declined(), Change(Preparing, true), Arrived(false, false)], 6)
    ensures Segment(events, 6, worlds) && worlds[0] == w && !AllInTurn(worlds[9])
  {
    LateSecond(w.sys);
    var w1 := After(w, events[6]);
    assert w1.sys == w.sys && w1.jobs[1].phase == LeavingLine;
    var w2 := After(w1, events[7]);
    assert w2 == World(Next(w.sys, Step.Withdraw(1)), w.jobs[1 := Change(Phase.LeavingHost, true)], 8);
    var rest := LateVacate(events, w.sys, w2);
    worlds := Prepend(events, 6, w, Prepend(events, 7, w1, rest));
  }

  lemma LateVacate(events: seq<Event>, s: System, w: World) returns (worlds: seq<World>)
    requires events == LateEvents() && s == LateHanded()
    requires w.jobs == [Declined(), Change(Phase.LeavingHost, true), Arrived(false, false)]
    requires w.sys == Next(s, Step.Withdraw(1)) && w.clock == 8
    ensures Segment(events, 8, worlds) && worlds[0] == w && !AllInTurn(worlds[7])
  {
    LateSecond(s);
    var w1 := After(w, events[8]);
    assert w1 == World(LateGivenUp(), [Declined(), Change(Cleaning(false, false), true), Arrived(false, false)], 9);
    var rest := LateStart(events, w1);
    worlds := Prepend(events, 8, w, rest);
  }

  lemma LateStart(events: seq<Event>, w: World) returns (worlds: seq<World>)
    requires events == LateEvents()
    requires w == World(LateGivenUp(), [Declined(), Change(Cleaning(false, false), true), Arrived(false, false)], 9)
    ensures Segment(events, 9, worlds) && worlds[0] == w && !AllInTurn(worlds[6])
  {
    var w1 := After(w, events[9]);
    var w2 := After(w1, events[10]);
    var w3 := After(w2, events[11]);
    assert w3 == World(LateGivenUp(), [Declined(), Change(Cleaning(false, false), true), Change(Handed, false)], 12);
    var rest := LateFinish(events, w3);
    worlds := Prepend(events, 9, w, Prepend(events, 10, w1, Prepend(events, 11, w2, rest)));
  }

  lemma LateFinish(events: seq<Event>, w: World) returns (worlds: seq<World>)
    requires events == LateEvents()
    requires w == World(LateGivenUp(), [Declined(), Change(Cleaning(false, false), true), Change(Handed, false)], 12)
    ensures Segment(events, 12, worlds) && worlds[0] == w && !AllInTurn(worlds[3])
  {
    var w1 := After(w, events[12]);
    assert w1.jobs[2].record == Some(Record(Running, Some(12), None));
    var w2 := After(w1, events[13]);
    var w3 := After(w2, events[14]);
    assert w3.jobs[1].record == Some(Record(Failed, None, Some(14)));
    assert w3.jobs[2].record == Some(Record(Running, Some(12), None));
    assert !InTurn(w3.jobs[1], w3.jobs[2]) && Message(w3.sys, 1) == Some(true);
    worlds := [w, w1, w2, w3];
  }
}
