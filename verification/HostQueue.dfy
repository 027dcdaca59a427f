/** The queue that hands one host to one job at a time (pkg/server/queue.go). */
module HostQueue {
  import opened Text

  const MAX_QUEUED_JOBS: nat := 20

  /** A place in the queue; sent is what its channel was given, at most one message deep. */
  datatype Ticket = Ticket(granted: bool, sent: seq<bool>)

  /** What the queue's mutex guards. Tickets are named by the order they were issued in. */
  datatype Queue = Queue(busy: bool, closed: bool, waiting: seq<nat>, tickets: seq<Ticket>) {
    /** Each waiting ticket waits once and its channel is empty, so no send under the mutex blocks. */
    ghost predicate Valid() {
      && (forall i :: 0 <= i < |waiting| ==> waiting[i] < |tickets| && tickets[waiting[i]].sent == [])
      && (forall i, j :: 0 <= i < j < |waiting| ==> waiting[i] != waiting[j])
    }
  }

  datatype Refusal = QueueClosed | QueueFull

  datatype Answer = Issued(ticket: nat) | Refused(why: Refusal)

  const EMPTY := Queue(false, false, [], [])

  /** The queue once the next ticket is given the host at once. */
  function Grant(q: Queue): Queue {
    q.(busy := true, tickets := q.tickets + [Ticket(true, [true])])
  }

  function Sent(tickets: seq<Ticket>, t: nat, message: bool): seq<Ticket> {
    if t < |tickets| then tickets[t := tickets[t].(sent := tickets[t].sent + [message])] else tickets
  }

  function SentTo(ticket: Ticket, reached: bool, message: bool): Ticket {
    if reached then ticket.(sent := ticket.sent + [message]) else ticket
  }

  function SentAll(tickets: seq<Ticket>, to: seq<nat>, message: bool): seq<Ticket> {
    if to == [] then tickets else Sent(SentAll(tickets, to[..|to| - 1], message), to[|to| - 1], message)
  }

  function Without(waiting: seq<nat>, t: nat): seq<nat> {
    if waiting == [] then [] else if waiting[0] == t then waiting[1..] else [waiting[0]] + Without(waiting[1..], t)
  }

  /** A free host nobody waits for is taken; anything else refuses. */
  function Tried(q: Queue): (Queue, Option<nat>) {
    if q.closed || q.busy || q.waiting != [] then (q, None) else (Grant(q), Some(|q.tickets|))
  }

  function Enqueued(q: Queue): (Queue, Answer) {
    if q.closed then (q, Refused(QueueClosed))
    else if !q.busy then (Grant(q), Issued(|q.tickets|))
    else if |q.waiting| >= MAX_QUEUED_JOBS then (q, Refused(QueueFull))
    else (q.(waiting := q.waiting + [|q.tickets|], tickets := q.tickets + [Ticket(false, [])]), Issued(|q.tickets|))
  }

  /** The host goes to the first in line, or is free. */
  function Released(q: Queue): Queue {
    if q.closed || q.waiting == [] then q.(busy := false)
    else q.(waiting := q.waiting[1..], tickets := Sent(q.tickets, q.waiting[0], true))
  }

  /** The first half of abandoning a ticket: it leaves the line, if it stands in it. */
  function Withdrawn(q: Queue, t: nat): Queue {
    q.(waiting := Without(q.waiting, t))
  }

  function Closed(q: Queue): Queue {
    Queue(q.busy, true, [], SentAll(q.tickets, q.waiting, false))
  }

  lemma {:induction false} SentAllEach(tickets: seq<Ticket>, to: seq<nat>, message: bool)
    requires forall i :: 0 <= i < |to| ==> to[i] < |tickets|
    requires forall i, j :: 0 <= i < j < |to| ==> to[i] != to[j]
    ensures |SentAll(tickets, to, message)| == |tickets|
    ensures forall t :: 0 <= t < |tickets| ==> SentAll(tickets, to, message)[t] == SentTo(tickets[t], t in to, message)
  {
    if to != [] {
      SentAllEach(tickets, to[..|to| - 1], message);
      assert to == to[..|to| - 1] + [to[|to| - 1]];
    }
  }

  lemma {:induction false} WithoutKeeps(waiting: seq<nat>, t: nat)
    requires forall i, j :: 0 <= i < j < |waiting| ==> waiting[i] != waiting[j]
    ensures forall x :: x in Without(waiting, t) <==> x in waiting && x != t
    ensures |Without(waiting, t)| == |waiting| - (if t in waiting then 1 else 0)
  {
    if waiting != [] && waiting[0] != t {
      WithoutKeeps(waiting[1..], t);
      assert waiting == [waiting[0]] + waiting[1..];
    } else if waiting != [] {
      assert waiting == [waiting[0]] + waiting[1..];
    }
  }

  lemma {:induction false} WithoutAt(waiting: seq<nat>, i: nat)
    requires i < |waiting| && waiting[i] !in waiting[..i]
    ensures Without(waiting, waiting[i]) == waiting[..i] + waiting[i + 1..]
  {
    if i > 0 {
      assert waiting[0] in waiting[..i];
      assert waiting[1..][i - 1] == waiting[i] && waiting[1..][..i - 1] == waiting[..i][1..];
      WithoutAt(waiting[1..], i - 1);
      assert waiting[..i] == [waiting[0]] + waiting[1..][..i - 1];
    }
  }

  lemma {:induction false} WithoutAbsent(waiting: seq<nat>, t: nat)
    requires t !in waiting
    ensures Without(waiting, t) == waiting
  {
    if waiting != [] {
      WithoutAbsent(waiting[1..], t);
      assert waiting == [waiting[0]] + waiting[1..];
    }
  }

  /** The ticket left its place in the line. */
  ghost predicate LeftLine(before: seq<nat>, after: seq<nat>, t: nat) {
    exists i: nat :: i < |before| && before[i] == t && after == before[..i] + before[i + 1..]
  }

  /** Taking the ith out of the line. */
  lemma WithdrawnAt(q: Queue, i: nat)
    requires q.Valid() && i < |q.waiting| && q.waiting[i] !in q.waiting[..i]
    ensures var rest := q.waiting[..i] + q.waiting[i + 1..];
      Withdrawn(q, q.waiting[i]) == q.(waiting := rest) && Withdrawn(q, q.waiting[i]).Valid()
      && LeftLine(q.waiting, rest, q.waiting[i])
  {
    WithoutAt(q.waiting, i);
  }

  /** The first in line left it and was told yes, and nobody else was told anything. */
  ghost predicate FirstTold(before: Queue, after: Queue) {
    && |before.waiting| > 0 && after.waiting == before.waiting[1..] && |after.tickets| == |before.tickets|
    && forall t :: 0 <= t < |after.tickets| ==>
         (if t == before.waiting[0] then after.tickets[t] == Ticket(before.tickets[t].granted, [true])
          else after.tickets[t] == before.tickets[t])
  }

  ghost predicate ToldNo(before: Ticket, after: Ticket, waits: bool) {
    after.granted == before.granted && after.sent == if waits then [false] else before.sent
  }

  class HostQueue {
    var busy: bool
    var closed: bool
    var waiting: seq<nat>
    var tickets: seq<Ticket>

    ghost function State(): Queue
      reads this
    {
      Queue(busy, closed, waiting, tickets)
    }

    constructor ()
      ensures State() == EMPTY
    {
      busy, closed, waiting, tickets := false, false, [], [];
    }

    method TryTicket() returns (t: Option<nat>)
      requires State().Valid()
      modifies this
      ensures (State(), t) == Tried(old(State())) && State().Valid()
      ensures t == if !old(closed) && !old(busy) && old(waiting) == [] then Some(|old(tickets)|) else None
      ensures closed == old(closed) && waiting == old(waiting) && busy == (old(busy) || t.Some?)
      ensures tickets == old(tickets) + if t.Some? then [Ticket(true, [true])] else []
    {
      if closed || busy || |waiting| > 0 {
        return None;
      }
      busy := true;
      t := Some(|tickets|);
      tickets := tickets + [Ticket(true, [true])];
    }

    method Enqueue() returns (answer: Answer)
      requires State().Valid()
      modifies this
      ensures (State(), answer) == Enqueued(old(State())) && State().Valid()
      ensures answer == Refused(QueueClosed) <==> old(closed)
      ensures answer == Refused(QueueFull) <==> !old(closed) && old(busy) && |old(waiting)| >= MAX_QUEUED_JOBS
      ensures closed == old(closed) && busy == (old(busy) || answer.Issued?)
      ensures answer.Refused? ==> tickets == old(tickets) && waiting == old(waiting)
      ensures answer.Issued? ==> answer.ticket == |old(tickets)| && tickets[..|old(tickets)|] == old(tickets)
      ensures answer.Issued? ==> if old(busy)
        then tickets[|old(tickets)|..] == [Ticket(false, [])] && waiting == old(waiting) + [answer.ticket]
        else tickets[|old(tickets)|..] == [Ticket(true, [true])] && waiting == old(waiting)
    {
      if closed {
        return Refused(QueueClosed);
      }
      answer := Issued(|tickets|);
      if !busy {
        busy := true;
        tickets := tickets + [Ticket(true, [true])];
        return;
      }
      if |waiting| >= MAX_QUEUED_JOBS {
        return Refused(QueueFull);
      }
      waiting := waiting + [|tickets|];
      tickets := tickets + [Ticket(false, [])];
    }

    /** The part of abandon under the first lock: whether the ticket stood in line, and so is done with. */
    method Withdraw(t: nat) returns (found: bool)
      requires State().Valid()
      modifies this
      ensures State() == Withdrawn(old(State()), t) && State().Valid()
      ensures found <==> t in old(waiting)
      ensures busy == old(busy) && closed == old(closed) && tickets == old(tickets)
      ensures if found then LeftLine(old(waiting), waiting, t) else waiting == old(waiting)
    {
      for i := 0 to |waiting|
        invariant State() == old(State())
        invariant t !in waiting[..i]
      {
        if waiting[i] == t {
          WithdrawnAt(State(), i);
          waiting := waiting[..i] + waiting[i + 1..];
          return true;
        }
      }
      assert waiting[..|waiting|] == waiting;
      WithoutAbsent(waiting, t);
      return false;
    }

    method Release()
      requires State().Valid()
      modifies this
      ensures State() == Released(old(State())) && State().Valid()
      ensures closed == old(closed)
      ensures old(closed) || old(waiting) == [] ==> !busy && waiting == old(waiting) && tickets == old(tickets)
      ensures !old(closed) && old(waiting) != [] ==> busy == old(busy) && FirstTold(old(State()), State())
    {
      if closed || |waiting| == 0 {
        busy := false;
        return;
      }
      var next := waiting[0];
      waiting := waiting[1..];
      tickets := tickets[next := tickets[next].(sent := tickets[next].sent + [true])];
    }

    /** Giving a ticket up when nobody else comes between its two locks. */
    method Abandon(t: nat)
      requires State().Valid()
      modifies this
      ensures State().Valid()
      ensures State() == if t in old(waiting) then Withdrawn(old(State()), t) else Released(old(State()))
    {
      var found := Withdraw(t);
      if !found {
        WithoutAbsent(old(waiting), t);
        Release();
      }
    }

    method Close()
      requires State().Valid()
      modifies this
      ensures State() == Closed(old(State())) && State().Valid()
      ensures closed && busy == old(busy) && waiting == [] && |tickets| == |old(tickets)|
      ensures forall t :: 0 <= t < |tickets| ==> ToldNo(old(tickets)[t], tickets[t], t in old(waiting))
    {
      closed := true;
      for i := 0 to |waiting|
        invariant busy == old(busy) && closed && waiting == old(waiting)
        invariant |tickets| == |old(tickets)|
        invariant tickets == SentAll(old(tickets), waiting[..i], false)
      {
        assert waiting[..i + 1][..i] == waiting[..i];
        tickets := Sent(tickets, waiting[i], false);
      }
      assert waiting[..|waiting|] == waiting;
      SentAllEach(old(tickets), waiting, false);
      waiting := [];
    }

    /** Where a ticket is in line (1 is next), or 0. */
    method Position(t: nat) returns (n: nat)
      ensures n > 0 ==> n <= |waiting| && waiting[n - 1] == t && t !in waiting[..n - 1]
      ensures n == 0 <==> t !in waiting
    {
      for i := 0 to |waiting|
        invariant t !in waiting[..i]
      {
        if waiting[i] == t {
          return i + 1;
        }
      }
      assert waiting[..|waiting|] == waiting;
      return 0;
    }
  }
}
