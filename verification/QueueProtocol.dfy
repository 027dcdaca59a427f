/** Every interleaving of the host queue's locked sections. */
module QueueProtocol {
  import opened Text
  import opened HostQueue

  // Clients use each ticket up once: the holder releases it, or its owner abandons it, which takes the lock twice
  // when the ticket is not in line.

  /** Where a ticket is in its life. Leaving: between the two locks of abandon. */
  datatype Life =
    | Waiting      // in line
    | Holding      // told it may run
    | Turned       // told it never will
    | LeavingHost  // abandoning the host it was given
    | LeavingNone  // abandoning, after it was told it never will
    | Withdrew     // abandoned while in line
    | Gone

  /** The queue, the life of each ticket, who has the host, and who was given it, in order. */
  datatype System = System(q: Queue, life: seq<Life>, holder: Option<nat>, grants: seq<nat>)

  const INIT := System(EMPTY, [], None, [])

  datatype Step = Try | Enqueue | Withdraw(t: nat) | Vacate(t: nat) | Release(t: nat) | Close

  predicate Enabled(s: System, step: Step) {
    match step
    case Withdraw(t) => t < |s.life| && s.life[t] in {Waiting, Holding, Turned}
    case Vacate(t) => t < |s.life| && s.life[t] in {LeavingHost, LeavingNone}
    case Release(t) => t < |s.life| && s.life[t] == Holding
    case _ => true
  }

  /** The system after the queue went from s.q to q with one more ticket, if it issued one. */
  function Issue(s: System, q: Queue): System {
    if |q.tickets| <= |s.q.tickets| then s.(q := q)
    else if q.tickets[|q.tickets| - 1].granted then
      System(q, s.life + [Holding], Some(|s.life|), s.grants + [|s.life|])
    else System(q, s.life + [Waiting], s.holder, s.grants)
  }

  /** The system after t let go of the queue with Released: the first in line has the host now. */
  function HandOver(s: System, t: nat): System
    requires t < |s.life|
  {
    var holder := if s.holder == Some(t) then None else s.holder;
    if s.q.closed || s.q.waiting == [] || s.q.waiting[0] >= |s.life| then
      System(Released(s.q), s.life[t := Gone], holder, s.grants)
    else
      var next := s.q.waiting[0];
      System(Released(s.q), s.life[t := Gone][next := Holding], Some(next), s.grants + [next])
  }

  function TurnAway(life: seq<Life>): (after: seq<Life>)
    ensures |after| == |life|
    ensures forall t :: 0 <= t < |life| ==> after[t] == if life[t] == Waiting then Turned else life[t]
  {
    if life == [] then [] else [if life[0] == Waiting then Turned else life[0]] + TurnAway(life[1..])
  }

  function Next(s: System, step: Step): System
    requires Enabled(s, step)
  {
    match step
    case Try => Issue(s, Tried(s.q).0)
    case Enqueue => Issue(s, Enqueued(s.q).0)
    case Withdraw(t) =>
      var after := match s.life[t] case Waiting => Withdrew case Holding => LeavingHost case _ => LeavingNone;
      s.(q := Withdrawn(s.q, t), life := s.life[t := after])
    case Vacate(t) => HandOver(s, t)
    case Release(t) => HandOver(s, t)
    case Close => s.(q := Closed(s.q), life := TurnAway(s.life))
  }

  // ------------------------------------------------------------- the invariant

  /** t has the host: it was told to run and has not let go. */
  predicate Holds(s: System, t: nat) {
    t < |s.life| && s.life[t] in {Holding, LeavingHost}
  }

  /** What a ticket's life says about its channel, the line and the host. */
  predicate TicketInv(s: System, t: nat)
    requires t < |s.life| == |s.q.tickets|
  {
    var ticket := s.q.tickets[t];
    && (match s.life[t]
        case Waiting => ticket.sent == [] && !s.q.closed
        case Holding => ticket.sent == [true] && s.holder == Some(t)
        case LeavingHost => ticket.sent == [true] && s.holder == Some(t)
        case Turned => ticket.sent == [false]
        case LeavingNone => ticket.sent == [false]
        case Withdrew => ticket.sent == []
        case Gone => ticket.sent == [true] || ticket.sent == [false])
    && (ticket.granted ==> ticket.sent == [true])
    && (ticket.sent == [false] ==> s.q.closed)
    && (t in s.q.waiting <==> s.life[t] == Waiting)
    && (t in s.grants <==> ticket.sent == [true])
  }

  /** Nobody with a smaller number is given the host later: whoever waits or was turned away came after. */
  predicate InOrder(s: System, t: nat)
    requires t < |s.life| == |s.q.tickets|
  {
    s.life[t] == Waiting || s.q.tickets[t].sent == [false] ==> forall g :: g in s.grants ==> g < t
  }

  predicate Ascending(xs: seq<nat>, bound: nat) {
    && (forall i :: 0 <= i < |xs| ==> xs[i] < bound)
    && (forall i, j :: 0 <= i < j < |xs| ==> xs[i] < xs[j])
  }

  ghost predicate Inv(s: System) {
    && |s.life| == |s.q.tickets|
    && (forall t :: 0 <= t < |s.life| ==> TicketInv(s, t))
    && (forall t :: 0 <= t < |s.life| ==> InOrder(s, t))
    && Ascending(s.q.waiting, |s.life|)
    && Ascending(s.grants, |s.life|)
    && (s.holder.Some? ==> Holds(s, s.holder.value) && forall g :: g in s.grants ==> g <= s.holder.value)
    && (!s.q.closed ==> (s.q.busy <==> s.holder.Some?))
    && (s.q.closed ==> s.q.waiting == [])
    && (s.q.waiting != [] ==> s.holder.Some?)
    && |s.q.waiting| <= MAX_QUEUED_JOBS
  }

  lemma InvValid(s: System)
    requires Inv(s)
    ensures s.q.Valid()
  {
    forall i | 0 <= i < |s.q.waiting|
      ensures s.q.waiting[i] < |s.life| && s.q.tickets[s.q.waiting[i]].sent == []
    {
      assert s.q.waiting[i] in s.q.waiting && TicketInv(s, s.q.waiting[i]);
    }
  }

  lemma InvIssue(s: System, q: Queue)
    requires Inv(s)
    requires q == Tried(s.q).0 || q == Enqueued(s.q).0
    ensures Inv(Issue(s, q))
  {
    if q == s.q {
      assert Issue(s, q) == s;
    } else if q == Grant(s.q) {
      InvGrant(s);
    } else {
      InvWait(s, q);
    }
  }

  lemma InvGrant(s: System)
    requires Inv(s) && !s.q.busy && !s.q.closed
    ensures Inv(Issue(s, Grant(s.q)))
  {
    var r := Issue(s, Grant(s.q));
    forall t | 0 <= t < |r.life| ensures TicketInv(r, t) && InOrder(r, t) {
      if t < |s.life| {
        assert TicketInv(s, t) && InOrder(s, t);
        assert s.life[t] != Waiting;
      }
    }
  }

  lemma InvWait(s: System, q: Queue)
    requires Inv(s) && s.q.busy && !s.q.closed && |s.q.waiting| < MAX_QUEUED_JOBS && q == Enqueued(s.q).0
    ensures Inv(Issue(s, q))
  {
    var r := Issue(s, q);
    forall t | 0 <= t < |r.life| ensures TicketInv(r, t) && InOrder(r, t) {
      if t < |s.life| {
        assert TicketInv(s, t) && InOrder(s, t);
      }
    }
  }

  lemma InvWithdraw(s: System, t: nat)
    requires Inv(s) && Enabled(s, Withdraw(t))
    ensures Inv(Next(s, Withdraw(t)))
  {
    var r := Next(s, Withdraw(t));
    WithoutKeeps(s.q.waiting, t);
    WithoutAscending(s.q.waiting, t, |s.life|);
    assert TicketInv(s, t);
    forall u | 0 <= u < |r.life| ensures TicketInv(r, u) && InOrder(r, u) {
      assert TicketInv(s, u) && InOrder(s, u);
    }
  }

  lemma AscendingCons(x: nat, xs: seq<nat>, bound: nat)
    requires Ascending(xs, bound) && x < bound && forall y :: y in xs ==> x < y
    ensures Ascending([x] + xs, bound)
  {
    assert forall i :: 0 <= i < |xs| ==> xs[i] in xs;
  }

  lemma {:induction false} WithoutAscending(waiting: seq<nat>, t: nat, bound: nat)
    requires Ascending(waiting, bound)
    ensures Ascending(Without(waiting, t), bound)
    ensures forall x :: x in Without(waiting, t) ==> x in waiting
  {
    if waiting != [] {
      assert waiting == [waiting[0]] + waiting[1..];
      if waiting[0] != t {
        WithoutAscending(waiting[1..], t, bound);
        AscendingCons(waiting[0], Without(waiting[1..], t), bound);
      }
    }
  }

  lemma InvHandOver(s: System, t: nat)
    requires Inv(s) && (Enabled(s, Vacate(t)) || Enabled(s, Release(t)))
    ensures Inv(HandOver(s, t))
  {
    assert TicketInv(s, t);
    if s.q.closed || s.q.waiting == [] {
      InvFree(s, t);
    } else {
      InvPass(s, t);
    }
  }

  lemma InvFree(s: System, t: nat)
    requires Inv(s) && (Enabled(s, Vacate(t)) || Enabled(s, Release(t)))
    requires s.q.closed || s.q.waiting == []
    ensures Inv(HandOver(s, t))
  {
    var r := HandOver(s, t);
    assert TicketInv(s, t);
    forall u | 0 <= u < |r.life| ensures TicketInv(r, u) && InOrder(r, u) {
      assert TicketInv(s, u) && InOrder(s, u);
    }
  }

  lemma InvPass(s: System, t: nat)
    requires Inv(s) && (Enabled(s, Vacate(t)) || Enabled(s, Release(t)))
    requires !s.q.closed && s.q.waiting != []
    ensures Inv(HandOver(s, t))
  {
    var r, next := HandOver(s, t), s.q.waiting[0];
    assert TicketInv(s, t) && TicketInv(s, next) && InOrder(s, next);
    assert s.holder == Some(t) && next != t;
    assert forall i :: 0 <= i < |s.grants| ==> s.grants[i] in s.grants;
    forall u | 0 <= u < |r.life| ensures TicketInv(r, u) && InOrder(r, u) {
      assert TicketInv(s, u) && InOrder(s, u);
    }
  }

  lemma InvClose(s: System)
    requires Inv(s)
    ensures Inv(Next(s, Close))
  {
    var r := Next(s, Close);
    InvValid(s);
    SentAllEach(s.q.tickets, s.q.waiting, false);
    forall t | 0 <= t < |r.life| ensures TicketInv(r, t) && InOrder(r, t) {
      assert TicketInv(s, t) && InOrder(s, t);
    }
  }

  lemma InvStep(s: System, step: Step)
    requires Inv(s) && Enabled(s, step)
    ensures Inv(Next(s, step))
  {
    match step
    case Try => InvIssue(s, Tried(s.q).0);
    case Enqueue => InvIssue(s, Enqueued(s.q).0);
    case Withdraw(t) => InvWithdraw(s, t);
    case Vacate(t) => InvHandOver(s, t);
    case Release(t) => InvHandOver(s, t);
    case Close => InvClose(s);
  }

  // ------------------------------------------------------------------ every run

  /** A run: any interleaving of enabled steps from an empty queue. */
  ghost predicate IsRun(steps: seq<Step>, states: seq<System>) {
    && |states| == |steps| + 1
    && states[0] == INIT
    && forall i :: 0 <= i < |steps| ==> Enabled(states[i], steps[i]) && states[i + 1] == Next(states[i], steps[i])
  }

  lemma {:induction false} InvRun(steps: seq<Step>, states: seq<System>, i: nat)
    requires IsRun(steps, states) && i < |states|
    ensures Inv(states[i])
  {
    if i > 0 {
      InvRun(steps, states, i - 1);
      InvStep(states[i - 1], steps[i - 1]);
    }
  }

  /** At most one ticket has the host, whatever was abandoned, released or closed in between. */
  lemma MutualExclusion(steps: seq<Step>, states: seq<System>, i: nat, t: nat, u: nat)
    requires IsRun(steps, states) && i < |states|
    requires Holds(states[i], t) && Holds(states[i], u)
    ensures t == u
  {
    InvRun(steps, states, i);
    assert TicketInv(states[i], t) && TicketInv(states[i], u);
  }

  /** Before close the busy flag is whether somebody has the host, and a line never stands before a free host. */
  lemma BusyBeforeClose(steps: seq<Step>, states: seq<System>, i: nat)
    requires IsRun(steps, states) && i < |states| && !states[i].q.closed
    ensures states[i].q.busy <==> exists t :: Holds(states[i], t)
    ensures states[i].q.waiting != [] ==> exists t :: Holds(states[i], t)
    ensures |states[i].q.waiting| <= MAX_QUEUED_JOBS
  {
    InvRun(steps, states, i);
    var s := states[i];
    forall t: nat | Holds(s, t) ensures s.holder == Some(t) {
      assert TicketInv(s, t);
    }
    if s.holder.Some? {
      assert Holds(s, s.holder.value);
    }
  }

  /** A ticket is told one thing at most, and nothing exactly while it waits or when it was abandoned in line.
      So a send under the mutex never blocks, and nobody told to run is told again. */
  lemma Messages(steps: seq<Step>, states: seq<System>, i: nat, t: nat)
    requires IsRun(steps, states) && i < |states| && t < |states[i].life|
    ensures |states[i].q.tickets| == |states[i].life|
    ensures |states[i].q.tickets[t].sent| <= 1
    ensures states[i].q.tickets[t].sent == [] <==> states[i].life[t] in {Waiting, Withdrew}
    ensures states[i].q.tickets[t].sent == [false] ==> states[i].q.closed
  {
    InvRun(steps, states, i);
    assert TicketInv(states[i], t);
  }

  /** First come, first served: the host is given in the order tickets were issued, exactly to the tickets told
      to run, and a ticket passed over was abandoned in line. */
  lemma FirstComeFirstServed(steps: seq<Step>, states: seq<System>, i: nat)
    requires IsRun(steps, states) && i < |states|
    ensures |states[i].q.tickets| == |states[i].life| && Ascending(states[i].grants, |states[i].life|)
    ensures forall t :: 0 <= t < |states[i].life| ==> (t in states[i].grants <==> states[i].q.tickets[t].sent == [true])
    ensures forall t: nat, g: nat :: t < g && g in states[i].grants && t !in states[i].grants ==>
      states[i].life[t] == Withdrew
  {
    InvRun(steps, states, i);
    var s := states[i];
    forall t | 0 <= t < |s.life| ensures t in s.grants <==> s.q.tickets[t].sent == [true] {
      assert TicketInv(s, t);
    }
    forall t: nat, g: nat | t < g && g in s.grants && t !in s.grants ensures s.life[t] == Withdrew {
      assert TicketInv(s, t) && InOrder(s, t);
    }
  }

  /** After close, abandoning a ticket that was turned away clears busy while another ticket runs on the host;
      close refuses every later ticket, so nobody joins it. */
  lemma BusyLagsAfterClose(steps: seq<Step>) returns (states: seq<System>)
    requires steps == [Step.Enqueue, Step.Enqueue, Step.Close, Step.Withdraw(1), Step.Vacate(1)]
    ensures IsRun(steps, states)
    ensures !states[5].q.busy && Holds(states[5], 0) && Tried(states[5].q).1 == None
  {
    var s1 := Next(INIT, Step.Enqueue);
    assert s1 == System(Queue(true, false, [], [Ticket(true, [true])]), [Holding], Some(0), [0]);
    var s2 := Next(s1, Step.Enqueue);
    assert s2 ==
      System(Queue(true, false, [1], [Ticket(true, [true]), Ticket(false, [])]), [Holding, Waiting], Some(0), [0]);
    var s3 := TurnedOne(s2);
    var s4 := Next(s3, Step.Withdraw(1));
    var s5 := Next(s4, Step.Vacate(1));
    states := [INIT, s1, s2, s3, s4, s5];
  }

  lemma TurnedOne(s: System) returns (r: System)
    requires s ==
      System(Queue(true, false, [1], [Ticket(true, [true]), Ticket(false, [])]), [Holding, Waiting], Some(0), [0])
    ensures r == Next(s, Step.Close)
    ensures r ==
      System(Queue(true, true, [], [Ticket(true, [true]), Ticket(false, [false])]), [Holding, Turned], Some(0), [0])
  {
    r := Next(s, Step.Close);
    SentAllEach(s.q.tickets, [1], false);
    assert 1 in [1 as nat] && 0 !in [1 as nat];
    assert [] + [false] == [false];
    assert r.q.tickets == [Ticket(true, [true]), Ticket(false, [false])];
    assert r.life == [Holding, Turned];
  }

  /** A ticket abandoned in line is told nothing: the first runs, the second is gone from the line. */
  lemma AbandonedIsToldNothing(steps: seq<Step>) returns (states: seq<System>)
    requires steps == [Step.Enqueue, Step.Enqueue, Step.Withdraw(1)]
    ensures IsRun(steps, states)
    ensures states[3].life == [Holding, Withdrew] && states[3].q.waiting == []
    ensures |states[3].q.tickets| == 2 && states[3].q.tickets[1].sent == []
  {
    var s1 := Next(INIT, Step.Enqueue);
    assert s1 == System(Queue(true, false, [], [Ticket(true, [true])]), [Holding], Some(0), [0]);
    var s2 := Next(s1, Step.Enqueue);
    assert s2 ==
      System(Queue(true, false, [1], [Ticket(true, [true]), Ticket(false, [])]), [Holding, Waiting], Some(0), [0]);
    var s3 := Next(s2, Step.Withdraw(1));
    states := [INIT, s1, s2, s3];
  }
}
