/**
 * The one-slot mailbox of the WebSocket test client (scripts/test-ws-client.ts): a queue, one waiter
 * slot, timers, and one sequential consumer that waits for any message or for one of a type.
 */
module Mailbox {
  import opened Seqs

  datatype Msg = Msg(kind: string, body: string)

  /** What the consumer is doing; `want` is None for waitForMessage, the type for waitForType. */
  datatype Consumer =
    | Idle
    | Checking(kind: string)
    | Pending(timer: nat, want: Option<string>)

  /** A finished call: the range of received messages it consumed and how it ended. */
  datatype Call =
    | Got(from: nat, to: nat)
    | Found(kind: string, from: nat, to: nat)
    | TimedOut(want: Option<string>, from: nat, to: nat)

  /** `received`, `delivered`, `mark` and `calls` are history; the rest is the client's state. */
  datatype State = State(
    queue: seq<Msg>, slot: Option<nat>, armed: set<nat>, nextTimer: nat, consumer: Consumer,
    received: seq<Msg>, delivered: seq<Msg>, mark: nat, calls: seq<Call>)

  datatype Event =
    | Arrive(msg: Msg)
    | WaitForMessage
    | WaitForType(kind: string)
    | Resume(expired: bool)   // one turn of the waitForType loop: the deadline test, then waitForMessage
    | Fire(timer: nat)

  const INIT := State([], None, {}, 0, Idle, [], [], 0, [])

  function Finish(s: State, c: Call): State {
    s.(consumer := Idle, mark := |s.delivered|, calls := s.calls + [c])
  }

  /** The consumer receives a message it was waiting for. */
  function Deliver(s: State, want: Option<string>, m: Msg): State {
    var s' := s.(delivered := s.delivered + [m]);
    match want
    case None => Finish(s', Got(s.mark, |s'.delivered|))
    case Some(kind) =>
      if m.kind == kind then Finish(s', Found(kind, s.mark, |s'.delivered|)) else s'.(consumer := Checking(kind))
  }

  /** waitForMessage: the head of the queue at once, or a waiter in the slot with its timer armed. */
  function Take(s: State, want: Option<string>): State {
    if s.queue != [] then Deliver(s.(queue := s.queue[1..]), want, s.queue[0])
    else
      var t := s.nextTimer;
      s.(slot := Some(t), armed := s.armed + {t}, nextTimer := t + 1, consumer := Pending(t, want))
  }

  predicate Enabled(s: State, e: Event) {
    match e
    case Arrive(_) => true
    case WaitForMessage => s.consumer.Idle?
    case WaitForType(_) => s.consumer.Idle?
    case Resume(_) => s.consumer.Checking?
    case Fire(t) => t in s.armed
  }

  /** One event. An event that cannot happen leaves the state alone. */
  function Step(s: State, e: Event): State {
    if !Enabled(s, e) then s
    else
      match e
      case Arrive(m) =>
        var s' := s.(received := s.received + [m]);
        if s.slot.Some? then
          var woken := s'.(slot := None, armed := s.armed - {s.slot.value});
          if s.consumer.Pending? then Deliver(woken, s.consumer.want, m) else woken
        else s'.(queue := s.queue + [m])
      case WaitForMessage => Take(s, None)
      case WaitForType(kind) => s.(consumer := Checking(kind))
      case Resume(expired) =>
        if expired then Finish(s, TimedOut(Some(s.consumer.kind), s.mark, |s.delivered|))
        else Take(s, Some(s.consumer.kind))
      case Fire(t) =>
        var s' := s.(armed := s.armed - {t}, slot := None);
        if s.consumer.Pending? && s.consumer.timer == t
        then Finish(s', TimedOut(s.consumer.want, s.mark, |s.delivered|))
        else s'
  }

  function After(s: State, events: seq<Event>): State {
    if events == [] then s else Step(After(s, events[..|events| - 1]), events[|events| - 1])
  }

  // --- the client as the script runs it ------------------------------------

  class Client {
    var messageQueue: seq<Msg>
    var resolveNext: Option<nat>
    var timers: set<nat>
    var nextTimer: nat
    var consumer: Consumer
    ghost var received: seq<Msg>
    ghost var delivered: seq<Msg>
    ghost var mark: nat
    ghost var calls: seq<Call>

    ghost function Abstract(): State reads this {
      State(messageQueue, resolveNext, timers, nextTimer, consumer, received, delivered, mark, calls)
    }

    constructor ()
      ensures Abstract() == INIT
    {
      messageQueue, resolveNext, timers, nextTimer, consumer := [], None, {}, 0, Idle;
      received, delivered, mark, calls := [], [], 0, [];
    }

    method Hand(want: Option<string>, m: Msg)
      modifies this
      ensures Abstract() == Deliver(old(Abstract()), want, m)
    {
      delivered := delivered + [m];
      if want.Some? && m.kind != want.value {
        consumer := Checking(want.value);
        return;
      }
      consumer := Idle;
      calls := calls + [if want.None? then Got(mark, |delivered|) else Found(want.value, mark, |delivered|)];
      mark := |delivered|;
    }

    method OnMessage(m: Msg)
      modifies this
      ensures Abstract() == Step(old(Abstract()), Arrive(m))
    {
      received := received + [m];
      if resolveNext.Some? {
        timers := timers - {resolveNext.value};
        resolveNext := None;
        if consumer.Pending? {
          Hand(consumer.want, m);
        }
      } else {
        messageQueue := messageQueue + [m];
      }
    }

    method Wait(want: Option<string>)
      modifies this
      ensures Abstract() == Take(old(Abstract()), want)
      ensures want == None && old(consumer).Idle? ==> Abstract() == Step(old(Abstract()), WaitForMessage)
    {
      if messageQueue != [] {
        var m := messageQueue[0];
        messageQueue := messageQueue[1..];
        Hand(want, m);
        return;
      }
      resolveNext := Some(nextTimer);
      timers := timers + {nextTimer};
      consumer := Pending(nextTimer, want);
      nextTimer := nextTimer + 1;
    }

    method BeginWaitForType(kind: string)
      requires consumer.Idle?
      modifies this
      ensures Abstract() == Step(old(Abstract()), WaitForType(kind))
    {
      consumer := Checking(kind);
    }

    method LoopTurn(expired: bool)
      requires consumer.Checking?
      modifies this
      ensures Abstract() == Step(old(Abstract()), Resume(expired))
    {
      if expired {
        calls := calls + [TimedOut(Some(consumer.kind), mark, |delivered|)];
        mark := |delivered|;
        consumer := Idle;
        return;
      }
      Wait(Some(consumer.kind));
    }

    method OnTimer(t: nat)
      requires t in timers
      modifies this
      ensures Abstract() == Step(old(Abstract()), Fire(t))
    {
      timers := timers - {t};
      resolveNext := None;
      if consumer.Pending? && consumer.timer == t {
        calls := calls + [TimedOut(consumer.want, mark, |delivered|)];
        mark := |delivered|;
        consumer := Idle;
      }
    }
  }

  // --- safety --------------------------------------------------------------

  ghost predicate NoneOf(msgs: seq<Msg>, kind: string, from: nat, to: nat) {
    to <= |msgs| && forall i :: from <= i < to ==> msgs[i].kind != kind
  }

  /** What a finished call may have consumed. A successful wait for a type ends at the first match. */
  ghost predicate CallOk(c: Call, received: seq<Msg>) {
    match c
    case Got(from, to) => to == from + 1
    case Found(kind, from, to) =>
      from < to <= |received| && received[to - 1].kind == kind && NoneOf(received, kind, from, to - 1)
    case TimedOut(None, from, to) => from == to
    case TimedOut(Some(kind), from, to) => from <= to && NoneOf(received, kind, from, to)
  }

  /** The calls' ranges follow one another from 0 to `end`: nothing is consumed twice or outside a call. */
  ghost predicate Tiles(calls: seq<Call>, end: nat) {
    if calls == [] then end == 0
    else
      var n := |calls| - 1;
      calls[n].to == end && Tiles(calls[..n], calls[n].from)
  }

  ghost function Wanted(s: State): Option<string> {
    match s.consumer
    case Idle => None
    case Checking(kind) => Some(kind)
    case Pending(_, want) => want
  }

  ghost predicate Safe(s: State) {
    // nothing lost, nothing twice, in order
    && s.received == s.delivered + s.queue
    // a waiter in the slot means an empty queue, a waiting consumer, and exactly its own timer armed
    && (s.slot.Some? ==> s.queue == [] && s.consumer.Pending? && s.slot.value == s.consumer.timer)
    && (s.consumer.Pending? ==> s.slot.Some?)
    && s.armed == (if s.slot.Some? then {s.slot.value} else {})
    // finished calls tile what was consumed before the current one
    && Tiles(s.calls, s.mark) && s.mark <= |s.delivered|
    && (forall c :: c in s.calls ==> CallOk(c, s.received))
    // the current call has consumed only messages it skips
    && (match Wanted(s)
        case None => s.mark == |s.delivered|
        case Some(kind) => NoneOf(s.delivered, kind, s.mark, |s.delivered|))
  }

  lemma FinishSafe(s: State, c: Call)
    requires s.received == s.delivered + s.queue && s.slot == None && s.armed == {}
    requires Tiles(s.calls, s.mark) && (forall k :: k in s.calls ==> CallOk(k, s.received))
    requires CallOk(c, s.received) && c.from == s.mark && c.to == |s.delivered|
    ensures Safe(Finish(s, c))
  {
    hide CallOk;
    assert (s.calls + [c])[..|s.calls|] == s.calls;
  }

  lemma DeliverSafe(s: State, want: Option<string>, m: Msg)
    requires s.received == s.delivered + [m] + s.queue && s.slot == None && s.armed == {}
    requires Tiles(s.calls, s.mark) && s.mark <= |s.delivered|
    requires forall c :: c in s.calls ==> CallOk(c, s.received)
    requires match want
             case None => s.mark == |s.delivered|
             case Some(kind) => NoneOf(s.delivered, kind, s.mark, |s.delivered|)
    ensures Safe(Deliver(s, want, m))
  {
    hide Tiles;
    var s' := s.(delivered := s.delivered + [m]);
    assert s'.received[|s.delivered|] == m;
    match want
    case None => FinishSafe(s', Got(s.mark, |s'.delivered|));
    case Some(kind) =>
      if m.kind == kind {
        FinishSafe(s', Found(kind, s.mark, |s'.delivered|));
      }
  }

  lemma MoreReceived(calls: seq<Call>, received: seq<Msg>, m: Msg)
    requires forall c :: c in calls ==> CallOk(c, received)
    ensures forall c :: c in calls ==> CallOk(c, received + [m])
  {
  }

  lemma StepSafe(s: State, e: Event)
    requires Safe(s)
    ensures Safe(Step(s, e))
  {
    hide Tiles, CallOk;
    if Enabled(s, e) {
      match e
      case Arrive(m) =>
        MoreReceived(s.calls, s.received, m);
        if s.slot.Some? {
          DeliverSafe(s.(received := s.received + [m], slot := None, armed := {}), s.consumer.want, m);
        }
      case WaitForMessage => TakeSafe(s, None);
      case WaitForType(kind) =>
      case Resume(expired) =>
        if expired {
          SkippedOk(s, s.consumer.kind);
          FinishSafe(s, TimedOut(Some(s.consumer.kind), s.mark, |s.delivered|));
        } else {
          TakeSafe(s, Some(s.consumer.kind));
        }
      case Fire(t) =>
        if s.consumer.want.Some? {
          SkippedOk(s, s.consumer.want.value);
        } else {
          EmptyCallOk(s.mark, s.received);
        }
        FinishSafe(s.(armed := {}, slot := None), TimedOut(s.consumer.want, s.mark, |s.delivered|));
    }
  }

  lemma EmptyCallOk(at: nat, received: seq<Msg>)
    ensures CallOk(TimedOut(None, at, at), received)
  {
  }

  lemma SkippedOk(s: State, kind: string)
    requires s.received == s.delivered + s.queue && s.mark <= |s.delivered|
    requires NoneOf(s.delivered, kind, s.mark, |s.delivered|)
    ensures CallOk(TimedOut(Some(kind), s.mark, |s.delivered|), s.received)
  {
  }

  lemma TakeSafe(s: State, want: Option<string>)
    requires Safe(s) && !s.consumer.Pending? && Wanted(s) == want
    ensures Safe(Take(s, want))
  {
    hide Tiles, CallOk;
    if s.queue != [] {
      assert s.queue == [s.queue[0]] + s.queue[1..];
      DeliverSafe(s.(queue := s.queue[1..]), want, s.queue[0]);
    }
  }

  /** Every interleaving of arrivals, waits, deadline tests and timeouts is safe. */
  lemma {:induction false} AlwaysSafe(events: seq<Event>)
    ensures Safe(After(INIT, events))
  {
    hide Safe, Step;
    if events == [] {
      InitSafe();
    } else {
      AlwaysSafe(events[..|events| - 1]);
      StepSafe(After(INIT, events[..|events| - 1]), events[|events| - 1]);
    }
  }

  lemma InitSafe()
    ensures Safe(INIT)
  {
  }

  // --- progress ------------------------------------------------------------

  /** The state after a run, and after one more event. */
  lemma OneMore(events: seq<Event>, e: Event)
    ensures After(INIT, events + [e]) == Step(After(INIT, events), e) && Safe(After(INIT, events))
  {
    assert (events + [e])[..|events|] == events;
    AlwaysSafe(events);
    hide Step, Safe;
  }

  /** A call for any message takes the queue's head at once; with none queued, it leaves a waiter and a new timer. */
  lemma WaitTakesTheHead(events: seq<Event>)
    requires After(INIT, events).consumer.Idle?
    ensures
      var s, next := After(INIT, events), After(INIT, events + [WaitForMessage]);
      && next.received == s.received
      && if s.queue != [] then
           && next.calls == s.calls + [Got(|s.delivered|, |s.delivered| + 1)] && next.consumer.Idle?
           && next.delivered == s.delivered + [s.queue[0]] && next.queue == s.queue[1..]
           && next.slot == None && next.armed == {}
         else
           && next.calls == s.calls && next.delivered == s.delivered && next.queue == []
           && next.consumer == Pending(s.nextTimer, None)
           && next.slot == Some(s.nextTimer) && next.armed == {s.nextTimer}
  {
    OneMore(events, WaitForMessage);
    hide After;
  }

  /** A call for a type starts with a turn of its loop and has touched nothing before that. */
  lemma WaitForTypeBegins(events: seq<Event>, kind: string)
    requires After(INIT, events).consumer.Idle?
    ensures After(INIT, events + [WaitForType(kind)]) == After(INIT, events).(consumer := Checking(kind))
    ensures After(INIT, events).mark == |After(INIT, events).delivered|
  {
    OneMore(events, WaitForType(kind));
    hide After, CallOk, Tiles, NoneOf;
  }

  /**
   * One turn of the wait for a type: past the deadline the call times out; before it, a queued head is
   * taken and ends the call exactly when its type is the awaited one; with none queued, one waiter is left.
   */
  lemma TurnTakesTheHead(events: seq<Event>, kind: string, expired: bool)
    requires After(INIT, events).consumer == Checking(kind)
    ensures
      var s, next := After(INIT, events), After(INIT, events + [Resume(expired)]);
      && next.received == s.received
      && if expired then
           && next.calls == s.calls + [TimedOut(Some(kind), s.mark, |s.delivered|)] && next.consumer.Idle?
           && next.delivered == s.delivered && next.queue == s.queue
         else if s.queue != [] then
           && next.delivered == s.delivered + [s.queue[0]] && next.queue == s.queue[1..]
           && next.slot == None && next.armed == {}
           && if s.queue[0].kind == kind
              then next.calls == s.calls + [Found(kind, s.mark, |s.delivered| + 1)] && next.consumer.Idle?
              else next.calls == s.calls && next.consumer == Checking(kind)
         else
           && next.calls == s.calls && next.delivered == s.delivered && next.queue == []
           && next.consumer == Pending(s.nextTimer, Some(kind))
           && next.slot == Some(s.nextTimer) && next.armed == {s.nextTimer}
  {
    OneMore(events, Resume(expired));
    hide After, CallOk, Tiles, NoneOf;
  }

  /** An arrival goes to the waiter, and ends its call when it is what was awaited; without a waiter it is queued. */
  lemma ArrivalIsHandedOn(events: seq<Event>, m: Msg)
    ensures
      var s, next := After(INIT, events), After(INIT, events + [Arrive(m)]);
      && next.received == s.received + [m]
      && match s.consumer
         case Pending(_, want) =>
           && next.delivered == s.delivered + [m] && next.queue == [] && next.slot == None && next.armed == {}
           && (match want
               case None => next.calls == s.calls + [Got(|s.delivered|, |s.delivered| + 1)] && next.consumer.Idle?
               case Some(kind) =>
                 if m.kind == kind
                 then next.calls == s.calls + [Found(kind, s.mark, |s.delivered| + 1)] && next.consumer.Idle?
                 else next.calls == s.calls && next.consumer == Checking(kind))
         case _ =>
           && next.queue == s.queue + [m] && next.delivered == s.delivered && next.calls == s.calls
           && next.consumer == s.consumer && next.slot == None && next.armed == {}
  {
    OneMore(events, Arrive(m));
    hide After, CallOk, Tiles, NoneOf;
  }

  ghost predicate EndsTimedOut(s: State, next: State) {
    exists want, from: nat, to: nat :: next.calls == s.calls + [TimedOut(want, from, to)]
  }

  /** A call times out exactly when the pending timer fires or a loop turn finds its deadline past. */
  lemma TimeoutsExact(events: seq<Event>, e: Event)
    ensures
      var s, next := After(INIT, events), After(INIT, events + [e]);
      EndsTimedOut(s, next)
      <==> || (e.Fire? && s.consumer.Pending? && e.timer == s.consumer.timer)
           || (e == Resume(true) && s.consumer.Checking?)
  {
    OneMore(events, e);
    var s, next := After(INIT, events), After(INIT, events + [e]);
    hide After, CallOk, Tiles, NoneOf;
    assert |next.calls| > |s.calls| ==> next.calls == s.calls + [next.calls[|s.calls|]];
    if EndsTimedOut(s, next) {
      assert next.calls[|s.calls|].TimedOut?;
    }
    if (e.Fire? && s.consumer.Pending? && e.timer == s.consumer.timer) || (e == Resume(true) && s.consumer.Checking?) {
      var c := next.calls[|s.calls|];
      assert next.calls == s.calls + [TimedOut(c.want, c.from, c.to)];
    }
  }

  ghost predicate TimersBelow(s: State) {
    forall t :: t in s.armed ==> t < s.nextTimer
  }

  lemma StepTimers(s: State, e: Event)
    requires TimersBelow(s)
    ensures TimersBelow(Step(s, e)) && s.nextTimer <= Step(s, e).nextTimer
  {
  }

  /** Timers are never reused: every timer armed in a run is older than the next one. */
  lemma {:induction false} TimersAreNew(events: seq<Event>)
    ensures TimersBelow(After(INIT, events))
    ensures events != [] ==> After(INIT, events[..|events| - 1]).nextTimer <= After(INIT, events).nextTimer
  {
    hide Step;
    if events != [] {
      TimersAreNew(events[..|events| - 1]);
      StepTimers(After(INIT, events[..|events| - 1]), events[|events| - 1]);
    }
  }
}
