/** The asynchronous observer: a bounded, closable, first-in-first-out queue in front of one worker. The queue
    is first a value; the object with its heap-allocated events, and the goroutines of `AsyncLaws`, both
    move by its steps. */
module AsyncObservers {
  import opened Core
  import opened Errors
  import opened Lifecycle
  import opened Records
  import opened Managers

  const DEFAULT_ASYNC_OBSERVER_BUFFER: int := 64

  /** `NewAsyncObserver`: 64 unless the option says otherwise; a negative size means no buffer. */
  function BufferSize(option: Option<int>): nat {
    var buffer := if option.Some? then option.value else DEFAULT_ASYNC_OBSERVER_BUFFER;
    if buffer < 0 then 0 else buffer
  }

  /** The worker is about to receive, parked in a receive that found nothing, calling the wrapped observer,
      unwinding the call of one that panicked, or gone. */
  datatype Worker<+E> = Ranging | Parked | Delivering(item: E) | Unwinding | Exited

  datatype Channel<+E> = Channel(capacity: nat, buffer: seq<E>, closed: bool, worker: Worker<E>)

  function OpenChannel<E>(capacity: nat): Channel<E> {
    Channel(capacity, [], false, Ranging)
  }

  /** A non-blocking send goes through if the buffer has room, or if the receiver is already parked: with
      no buffer the second is the only way. */
  predicate CanSend<E>(c: Channel<E>) {
    c.worker.Parked? || |c.buffer| < c.capacity
  }

  function Send<E>(c: Channel<E>, item: E): Channel<E> {
    if c.worker.Parked? then c.(worker := Delivering(item)) else c.(buffer := c.buffer + [item])
  }

  /** One turn of the worker: receive, park, leave when the channel is closed and empty; return from the wrapped
      observer, or start to unwind if it panicked; and, unwinding, run `deliver`'s deferred recover, which goes
      back to the loop. */
  function Work<E>(c: Channel<E>, panics: bool): Channel<E> {
    match c.worker
    case Exited => c
    case Delivering(_) => c.(worker := if panics then Unwinding else Ranging)
    case Unwinding => c.(worker := Ranging)
    case _ =>
      if c.buffer != [] then c.(buffer := c.buffer[1..], worker := Delivering(c.buffer[0]))
      else if c.closed then c.(worker := Exited)
      else c.(worker := Parked)
  }

  function InFlight<E>(c: Channel<E>): seq<E> {
    if c.worker.Delivering? then [c.worker.item] else []
  }

  /** What has been accepted and not delivered, oldest first. */
  function Pending<E>(c: Channel<E>): seq<E> {
    InFlight(c) + c.buffer
  }

  predicate WellFormed<E>(c: Channel<E>) {
    && |c.buffer| <= c.capacity
    && (c.worker.Parked? ==> c.buffer == [])
    && (c.worker.Exited? ==> c.buffer == [] && c.closed)
  }

  /** How many turns a closed channel's worker still has to make. */
  function Rank<E>(c: Channel<E>): nat {
    match c.worker
    case Exited => 0
    case Delivering(_) => 3 * |c.buffer| + 3
    case Unwinding => 3 * |c.buffer| + 2
    case _ => 3 * |c.buffer| + 1
  }

  /** An accepted event goes to the end of what is pending. */
  lemma SendAppends<E>(c: Channel<E>, item: E)
    requires WellFormed(c) && CanSend(c) && !c.closed
    ensures WellFormed(Send(c, item)) && Pending(Send(c, item)) == Pending(c) + [item]
  {
  }

  /** A turn delivers the oldest pending event, or nothing; on a closed channel it is one turn nearer the end.
      A panic of the observer loses no event and does not stop the worker; and a worker that finds nothing stands ready
      for the next send, whatever the capacity. */
  lemma WorkTakesOldest<E>(c: Channel<E>, panics: bool)
    requires WellFormed(c)
    ensures WellFormed(Work(c, panics))
    ensures c.worker.Delivering? ==> Pending(c) == [c.worker.item] + Pending(Work(c, panics))
    ensures !c.worker.Delivering? ==> Pending(c) == Pending(Work(c, panics))
    ensures c.closed && !c.worker.Exited? ==> Rank(Work(c, panics)) < Rank(c)
    ensures c.closed ==> Work(c, panics).closed && !Work(c, panics).worker.Parked?
    ensures c.worker.Exited? ==> Pending(c) == []
    ensures !c.closed && Pending(c) == [] && !c.worker.Unwinding? ==> CanSend(Work(c, panics))
  {
    if !c.worker.Delivering? && !c.worker.Exited? && c.buffer != [] {
      assert c.buffer == [c.buffer[0]] + c.buffer[1..];
    }
  }

  // ---------------------------------------------------------------- the object

  function EventsOf(log: seq<Emission>): seq<Event> {
    seq(|log|, i requires 0 <= i < |log| => log[i].event)
  }

  /** The object holds `event`, a clone with the value `value`, and nothing of it outside `part`. */
  ghost predicate Holds(event: EventRef, part: set<object>, value: Event)
    reads part
  {
    && (event.attempt != null ==>
          event.attempt in part && (event.attempt.value.failure != null ==> event.attempt.value.failure in part))
    && (event.snapshot != null ==> event.snapshot in part)
    && (event.apply != null ==>
          && event.apply in part
          && (event.apply.value.previous != null ==> event.apply.value.previous in part)
          && (event.apply.value.current != null ==> event.apply.value.current in part))
    && event.View() == value
  }

  /** The clone a queue keeps: made of new objects only. */
  method CloneForQueue(event: EventRef) returns (clone: EventRef, ghost part: set<object>)
    ensures fresh(part) && Holds(clone, part, event.View())
    ensures event.View() == old(event.View())
  {
    clone := CloneEvent(event);
    part := clone.Reach();
  }

  ghost function HoardOf(observer: Observer?): set<object> {
    if observer == null then {} else {observer.hoard}
  }

  class AsyncObserver {
    const observer: Observer?
    const capacity: nat
    var events: seq<EventRef>
    var eventsClosed: bool
    var worker: Worker<EventRef>
    var closed: bool
    var dropped: nat

    // the queue as a value, and the objects each of its events is made of
    ghost var channel: Channel<Event>
    ghost var parts: seq<set<object>>
    ghost var busy: set<object>
    ghost var owned: set<object>

    ghost predicate Valid()
      reads this, owned
    {
      && Queued()
      && (worker.Delivering? ==> Holds(worker.item, busy, channel.worker.item))
    }

    /** `Valid` but for the event the observer has in its hands. */
    ghost predicate Queued()
      reads this, owned
    {
      && Shape()
      && (forall i | 0 <= i < |parts| :: Holds(events[i], parts[i], channel.buffer[i]))
    }

    /** The part of `Valid` that reads only the object itself. */
    ghost predicate Shape()
      reads this
    {
      && |parts| == |events| == |channel.buffer|
      && WellFormed(channel) && channel.capacity == capacity
      && channel.closed == eventsClosed == closed
      && dropped < ID_SPACE
      && (worker.Ranging? <==> channel.worker.Ranging?) && (worker.Parked? <==> channel.worker.Parked?)
      && (worker.Delivering? <==> channel.worker.Delivering?) && (worker.Unwinding? <==> channel.worker.Unwinding?)
      && (worker.Exited? <==> channel.worker.Exited?)
      && (observer == null ==> Pending(channel) == [])
      && Apart()
    }

    /** No two queued events share an object, with each other or with the object itself. */
    ghost predicate Apart()
      reads this
    {
      && (forall i | 0 <= i < |parts| :: parts[i] <= owned && parts[i] !! busy)
      && (forall i, j | 0 <= i < j < |parts| :: parts[i] !! parts[j])
      && busy <= owned && this !in owned && observer !in owned && (observer != null ==> observer.hoard !in owned)
    }

    constructor (observer: Observer?, buffer: Option<int>)
      ensures Valid() && owned == {} && this.observer == observer && dropped == 0
      ensures channel == OpenChannel(BufferSize(buffer))
      ensures capacity == if buffer.None? then 64 else if buffer.value < 0 then 0 else buffer.value
    {
      this.observer := observer;
      capacity := BufferSize(buffer);
      events, eventsClosed, worker, closed, dropped := [], false, Ranging, false, 0;
      channel, parts, busy, owned := OpenChannel(BufferSize(buffer)), [], {}, {};
    }

    /** The send of a select that has found room. */
    method Enqueue(event: EventRef, ghost part: set<object>, ghost value: Event)
      requires Valid() && observer != null && !closed && CanSend(channel)
      requires Holds(event, part, value) && part !! owned
      requires this !in part && observer !in part && observer.hoard !in part
      modifies this
      ensures Valid() && channel == Send(old(channel), value) && dropped == old(dropped)
      ensures owned <= old(owned) + part
    {
      hide Holds, WellFormed;
      SendAppends(channel, value);
      if worker.Parked? {
        HandOver(event, part, value);
      } else {
        Append(event, part, value);
      }
    }

    method HandOver(event: EventRef, ghost part: set<object>, ghost value: Event)
      requires Valid() && observer != null && worker.Parked? && WellFormed(Send(channel, value))
      requires Holds(event, part, value) && part !! owned
      requires this !in part && observer !in part && observer.hoard !in part
      modifies this
      ensures Valid() && channel == Send(old(channel), value) && dropped == old(dropped)
      ensures owned <= old(owned) + part
    {
      worker, busy, channel, owned := Delivering(event), part, Send(channel, value), owned + part;
    }

    method Append(event: EventRef, ghost part: set<object>, ghost value: Event)
      requires Valid() && observer != null && !worker.Parked? && WellFormed(Send(channel, value))
      requires Holds(event, part, value) && part !! owned
      requires this !in part && observer !in part && observer.hoard !in part
      modifies this
      ensures Valid() && channel == Send(old(channel), value) && dropped == old(dropped)
      ensures owned <= old(owned) + part
    {
      events, parts, channel, owned := events + [event], parts + [part], Send(channel, value), owned + part;
    }

    /** Never waits for the wrapped observer: the event is cloned and queued, or dropped and counted. The
        caller's objects are neither kept nor changed. */
    method Notify(event: EventRef)
      requires Valid()
      modifies this
      ensures Valid() && fresh(owned - old(owned))
      ensures event.View() == old(event.View())
      ensures (channel, dropped) ==
              if observer == null then (old(channel), old(dropped))
              else if !old(channel).closed && CanSend(old(channel)) then
                (Send(old(channel), old(event.View())), old(dropped))
              else (old(channel), (old(dropped) + 1) % ID_SPACE)
    {
      hide Holds, WellFormed;
      if observer == null {
        return;
      }
      if closed {
        Drop();
        return;
      }
      ghost var value := event.View();
      var clone, part := CloneForQueue(event);
      assert Valid();
      if worker.Parked? || |events| < capacity {
        Enqueue(clone, part, value);
      } else {
        Drop();
      }
    }

    /** `dropped.Add(1)`, on an unsigned 64-bit counter. */
    method Drop()
      requires Valid()
      modifies this`dropped
      ensures Valid() && dropped == (old(dropped) + 1) % ID_SPACE
    {
      hide Holds, WellFormed;
      dropped := (dropped + 1) % ID_SPACE;
    }

    /** The worker receives, parks, or leaves. */
    method Receive()
      requires Valid() && (worker.Ranging? || worker.Parked?)
      modifies this
      ensures Valid() && channel == Work(old(channel), false) && dropped == old(dropped)
      ensures owned <= old(owned)
    {
      WorkTakesOldest(channel, false);
      if events != [] {
        TakeOldest();
      } else if eventsClosed {
        worker, busy, channel := Exited, {}, Work(channel, false);
      } else {
        worker, busy, channel := Parked, {}, Work(channel, false);
      }
    }

    method TakeOldest()
      requires Valid() && (worker.Ranging? || worker.Parked?) && events != []
      modifies this
      ensures Valid() && channel == Work(old(channel), false) && dropped == old(dropped)
      ensures owned == old(owned)
    {
      hide Holds;
      WorkTakesOldest(channel, false);
      worker, busy := Delivering(events[0]), parts[0];
      events, parts, channel := events[1..], parts[1..], Work(channel, false);
    }

    /** `deliver`, up to the observer's return or panic: it may do anything to the event it is given; the rest of
        the queue is untouched. */
    method Deliver(ghost live: LifecycleState) returns (panicked: bool)
      requires Valid() && worker.Delivering?
      modifies this, observer, HoardOf(observer), busy
      ensures Valid() && channel == Work(old(channel), panicked) && dropped == old(dropped)
      ensures owned <= old(owned)
      ensures observer != null
      ensures observer.received == old(observer.received) + [Emission(old(channel).worker.item, live)]
    {
      panicked := CallObserver(live);
      Return(panicked);
    }

    /** The call of the wrapped observer: nothing is promised about the event afterwards. */
    method CallObserver(ghost live: LifecycleState) returns (panicked: bool)
      requires Valid() && worker.Delivering?
      modifies observer, HoardOf(observer), busy
      ensures Queued() && unchanged(this) && observer != null
      ensures observer.received == old(observer.received) + [Emission(channel.worker.item, live)]
    {
      assert observer != null;
      panicked := observer.Observe(worker.item, live);
    }

    method Return(panicked: bool)
      requires Queued() && worker.Delivering?
      modifies this
      ensures Valid() && channel == Work(old(channel), panicked) && dropped == old(dropped)
      ensures owned == old(owned)
    {
      hide Holds;
      WorkTakesOldest(channel, panicked);
      worker, busy := if panicked then Unwinding else Ranging, {};
      channel := Work(channel, panicked);
    }

    /** The deferred recover of `deliver`. */
    method Recover()
      requires Valid() && worker.Unwinding?
      modifies this
      ensures Valid() && channel == Work(old(channel), false) && dropped == old(dropped)
      ensures owned <= old(owned)
    {
      hide Holds;
      worker, channel := Ranging, Work(channel, false);
    }

    /** The body of `closeOnce`: only the first call runs it. */
    method Shut()
      requires Valid()
      modifies this`closed, this`eventsClosed, this`channel
      ensures Valid() && channel == old(channel).(closed := true)
    {
      hide Holds;
      if !closed {
        closed, eventsClosed := true, true;
        channel := channel.(closed := true);
      }
    }

    /** The worker's turns while `Close` waits: everything pending is delivered, oldest first, exactly once,
        unless the context ends first; then the rest is still pending. `preferCtx` is the choice of the select
        when the worker is gone and the context has ended. */
    method Close(ctx: Context, from: nat, preferCtx: bool) returns (err: Option<Error>)
      requires Valid()
      modifies this, observer, HoardOf(observer), owned
      ensures Valid() && channel.closed && dropped == old(dropped) && owned <= old(owned)
      ensures observer != null ==>
        EventsOf(observer.received) + Pending(channel) == old(EventsOf(observer.received) + Pending(channel))
      ensures err.None? ==> channel.worker.Exited? && Pending(channel) == []
      ensures err.Some? ==> exists now: nat :: from <= now && ctx.Err(now) == err
    {
      hide Holds, WellFormed, EventsOf, Pending, Work, Rank;
      Shut();
      assert Pending(channel) == old(Pending(channel)) by { ShutKeepsPending(old(channel)); }
      var now := from;
      while !worker.Exited?
        invariant Valid() && channel.closed && from <= now && dropped == old(dropped) && owned <= old(owned)
        invariant observer != null ==>
          EventsOf(observer.received) + Pending(channel) == old(EventsOf(observer.received) + Pending(channel))
        decreases Rank(channel)
      {
        err := ctx.Err(now);
        if err.Some? {
          return;
        }
        Turn();
        now := now + 1;
      }
      WorkTakesOldest(channel, false);
      err := if preferCtx then ctx.Err(now) else None;
    }

    /** One turn of the worker on a closed channel. */
    method Turn()
      requires Valid() && channel.closed && !worker.Exited?
      modifies this, observer, HoardOf(observer), owned
      ensures Valid() && channel.closed && Rank(channel) < Rank(old(channel))
      ensures exists panics :: channel == Work(old(channel), panics)
      ensures dropped == old(dropped) && owned <= old(owned)
      ensures observer != null ==>
        EventsOf(observer.received) + Pending(channel) == old(EventsOf(observer.received) + Pending(channel))
    {
      hide Holds, WellFormed, EventsOf, Pending, Rank;
      WorkTakesOldest(channel, true);
      WorkTakesOldest(channel, false);
      if worker.Delivering? {
        ghost var received, item := observer.received, channel.worker.item;
        // the manager may have moved on by now: nothing is claimed about its state at delivery
        var panicked := Deliver(StateNone);
        assert panicked == true || panicked == false;
        EventsOfAppend(received, Emission(item, StateNone));
      } else if worker.Unwinding? {
        Recover();
      } else {
        Receive();
      }
    }
  }

  lemma ShutKeepsPending<E>(c: Channel<E>)
    ensures Pending(c.(closed := true)) == Pending(c)
  {
  }

  lemma EventsOfAppend(log: seq<Emission>, e: Emission)
    ensures EventsOf(log + [e]) == EventsOf(log) + [e.event]
  {
  }
}
