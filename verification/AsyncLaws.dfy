/** Any number of goroutines notifying and closing one asynchronous observer, beside its worker. Every access to
    the lock, the flag, the once and the channel is a step of its own. `crashed` stands for the two runtime
    panics of a channel: a send on a closed one, and a second close. */
module AsyncLaws {
  import opened Core
  import opened Errors
  import opened AsyncObservers

  /** An accepted event, and the goroutine whose `Notify` sent it. */
  datatype Item = Item(sender: nat, event: Event)

  datatype Caller =
    // Notify
    | Notifying(event: Event)
    | Checking(event: Event)
    | Offering(event: Event)
    | Dropping(event: Event)
    | Leaving(event: Event, accepted: bool)
    | Notified(event: Event, accepted: bool)
    | Ignored
    // Close
    | Closing(ctx: Context)
    | Locking(ctx: Context)
    | Draining(ctx: Context)
    | Flagging(ctx: Context)
    | Shutting(ctx: Context)
    | Unlocking(ctx: Context)
    | Completing(ctx: Context)
    | Waiting(ctx: Context)
    | Closed(ctx: Context, err: Option<Error>)

  datatype Once = Fresh | Running(tid: nat) | Ran

  datatype System = System(
    now: nat,
    hasObserver: bool,
    readers: set<nat>,
    lock: WriteLock,
    once: Once,
    flag: bool,
    channel: Channel<Item>,
    dropped: nat,
    crashed: bool,
    callers: map<nat, Caller>,
    accepted: seq<Item>,
    delivered: seq<Item>,
    drops: nat
  )

  datatype Action =
    | Notify(tid: nat, event: Event)
    | Close(tid: nat, ctx: Context)
    // `preferDone` is the choice of the select in `Close`; `delay` is the time that passes
    | Step(tid: nat, preferDone: bool, delay: nat)
    // the worker's turn; `panics` says how a call of the wrapped observer ends
    | Turn(panics: bool, delay: nat)

  function Initial(hasObserver: bool, buffer: Option<int>): System {
    System(0, hasObserver, {}, Unlocked, Fresh, false, OpenChannel(BufferSize(buffer)), 0, false, map[], [], [], 0)
  }

  function Put(s: System, tid: nat, c: Caller, delay: nat): System {
    s.(callers := s.callers[tid := c], now := s.now + 1 + delay)
  }

  function Act(s: System, a: Action): System {
    if s.crashed then s
    else
      match a
      case Notify(tid, event) => if tid in s.callers then s else s.(callers := s.callers[tid := Notifying(event)])
      case Close(tid, ctx) => if tid in s.callers then s else s.(callers := s.callers[tid := Closing(ctx)])
      case Step(tid, preferDone, delay) =>
        if tid !in s.callers then s
        else if s.callers[tid].Notifying? || s.callers[tid].Checking? || s.callers[tid].Offering?
                || s.callers[tid].Dropping? || s.callers[tid].Leaving? then
          NotifyStep(s, tid, s.callers[tid], delay)
        else CloseStep(s, tid, s.callers[tid], preferDone, delay)
      case Turn(panics, delay) =>
        s.(channel := Work(s.channel, panics), delivered := s.delivered + InFlight(s.channel), now := s.now + 1 + delay)
  }

  function NotifyStep(s: System, tid: nat, c: Caller, delay: nat): System {
    match c
    case Notifying(event) =>
      if !s.hasObserver then Put(s, tid, Ignored, delay)
      else if !s.lock.Unlocked? then s.(now := s.now + delay)
      else Put(s, tid, Checking(event), delay).(readers := s.readers + {tid})
    case Checking(event) =>
      Put(s, tid, if s.flag then Dropping(event) else Offering(event), delay)
    case Offering(event) =>
      if s.channel.closed then s.(crashed := true)
      else if CanSend(s.channel) then
        Put(s, tid, Leaving(event, true), delay)
        .(channel := Send(s.channel, Item(tid, event)), accepted := s.accepted + [Item(tid, event)])
      else Put(s, tid, Dropping(event), delay)
    case Dropping(event) =>
      Put(s, tid, Leaving(event, false), delay).(dropped := (s.dropped + 1) % ID_SPACE, drops := s.drops + 1)
    case Leaving(event, accepted) =>
      Put(s, tid, Notified(event, accepted), delay).(readers := s.readers - {tid})
    case _ => s
  }

  /** A `Close` that waits for the once, the lock, the worker or its context; or a call that is over. */
  predicate Blocked(s: System, c: Caller) {
    match c
    case Closing(_) => s.once.Running?
    case Locking(_) => !s.lock.Unlocked?
    case Draining(_) => s.readers != {}
    case Waiting(ctx) => !s.channel.worker.Exited? && ctx.Err(s.now).None?
    case Flagging(_) | Shutting(_) | Unlocking(_) | Completing(_) => false
    case _ => true
  }

  /** Where a `Close` that is not blocked goes next. */
  function CloseNext(s: System, c: Caller, preferDone: bool): Caller {
    match c
    case Closing(ctx) => if s.once.Fresh? then Locking(ctx) else Waiting(ctx)
    case Locking(ctx) => Draining(ctx)
    case Draining(ctx) => Flagging(ctx)
    case Flagging(ctx) => Shutting(ctx)
    case Shutting(ctx) => Unlocking(ctx)
    case Unlocking(ctx) => Completing(ctx)
    case Completing(ctx) => Waiting(ctx)
    case Waiting(ctx) =>
      var e := ctx.Err(s.now);
      if s.channel.worker.Exited? && !(e.Some? && preferDone) then Closed(ctx, None) else Closed(ctx, e)
    case _ => c
  }

  function CloseStep(s: System, tid: nat, c: Caller, preferDone: bool, delay: nat): System {
    if Blocked(s, c) then s.(now := s.now + delay)
    else if c.Shutting? && s.channel.closed then s.(crashed := true)
    else
      var next := Put(s, tid, CloseNext(s, c, preferDone), delay);
      match c
      case Closing(_) => if s.once.Fresh? then next.(once := Running(tid)) else next
      case Locking(_) => next.(lock := Requested(tid))
      case Draining(_) => next.(lock := Held(tid))
      case Flagging(_) => next.(flag := true)
      case Shutting(_) => next.(channel := s.channel.(closed := true))
      case Unlocking(_) => next.(lock := Unlocked)
      case Completing(_) => next.(once := Ran)
      case _ => next
  }

  function Exec(hasObserver: bool, buffer: Option<int>, actions: seq<Action>): System {
    if actions == [] then Initial(hasObserver, buffer)
    else Act(Exec(hasObserver, buffer, actions[..|actions| - 1]), actions[|actions| - 1])
  }

  // ---------------------------------------------------------------- the invariant

  predicate Reading(c: Caller) {
    c.Checking? || c.Offering? || c.Dropping? || c.Leaving?
  }

  predicate Excluding(c: Caller) {
    c.Flagging? || c.Shutting? || c.Unlocking?
  }

  predicate InOnce(c: Caller) {
    c.Locking? || c.Draining? || Excluding(c) || c.Completing?
  }

  predicate Decided(c: Caller, accepted: bool) {
    (c.Leaving? || c.Notified?) && c.accepted == accepted
  }

  ghost predicate LockInv(s: System) {
    && (forall t :: t in s.readers <==> t in s.callers && Reading(s.callers[t]))
    && (forall t | t in s.callers :: s.callers[t].Draining? <==> s.lock == Requested(t))
    && (forall t | t in s.callers :: Excluding(s.callers[t]) <==> s.lock == Held(t))
    && (!s.lock.Unlocked? ==> s.lock.tid in s.callers)
    && (s.lock.Held? ==> s.readers == {})
  }

  /** The flag and the channel follow the once, and change only under the write lock. */
  ghost predicate OnceInv(s: System) {
    && (forall t | t in s.callers :: InOnce(s.callers[t]) <==> s.once == Running(t))
    && (s.once.Running? ==> s.once.tid in s.callers)
    && (s.once.Fresh? ==> !s.flag && !s.channel.closed)
    && (s.once.Ran? ==> s.flag && s.channel.closed)
    && (s.once.Running? ==>
          var c := s.callers[s.once.tid];
          && (s.flag <==> c.Shutting? || c.Unlocking? || c.Completing?)
          && (s.channel.closed <==> c.Unlocking? || c.Completing?))
    && (forall t | t in s.callers ::
          && (s.callers[t].Offering? ==> !s.flag)
          && (s.callers[t].Waiting? || s.callers[t].Closed? ==> s.once.Ran?)
          && (s.callers[t].Closed? ==>
                match s.callers[t].err
                case None => s.channel.worker.Exited?
                case Some(e) => s.callers[t].ctx.doneFrom.Some? && e == s.callers[t].ctx.cause))
  }

  /** Nothing accepted is lost, repeated or reordered. */
  ghost predicate QueueInv(s: System) {
    && WellFormed(s.channel)
    && s.accepted == s.delivered + Pending(s.channel)
    && (forall i | 0 <= i < |s.accepted| ::
          && s.accepted[i].sender in s.callers
          && Decided(s.callers[s.accepted[i].sender], true)
          && s.callers[s.accepted[i].sender].event == s.accepted[i].event)
    && (forall i, j | 0 <= i < j < |s.accepted| :: s.accepted[i].sender != s.accepted[j].sender)
  }

  function Deciders(callers: map<nat, Caller>, accepted: bool): set<nat> {
    set t | t in callers && Decided(callers[t], accepted)
  }

  ghost predicate CountInv(s: System) {
    && |s.accepted| == |Deciders(s.callers, true)|
    && s.drops == |Deciders(s.callers, false)|
    && s.dropped == s.drops % ID_SPACE
    && (!s.hasObserver ==> forall t | t in s.callers :: !Reading(s.callers[t]) && !s.callers[t].Notified?)
    && (s.hasObserver ==> forall t | t in s.callers :: !s.callers[t].Ignored?)
  }

  ghost predicate Inv(s: System) {
    !s.crashed && LockInv(s) && OnceInv(s) && QueueInv(s) && CountInv(s)
  }

  lemma DecidersPut(callers: map<nat, Caller>, tid: nat, c: Caller, accepted: bool)
    ensures Deciders(callers[tid := c], accepted) ==
            if Decided(c, accepted) then Deciders(callers, accepted) + {tid} else Deciders(callers, accepted) - {tid}
  {
  }

  /** A step that decides nothing. */
  lemma CountKept(s: System, s': System, tid: nat, c: Caller)
    requires CountInv(s) && s'.callers == s.callers[tid := c] && s'.hasObserver == s.hasObserver
    requires |s'.accepted| == |s.accepted| && s'.drops == s.drops && s'.dropped == s.dropped
    requires forall b :: Decided(c, b) <==> tid in s.callers && Decided(s.callers[tid], b)
    requires if s.hasObserver then !c.Ignored? else !Reading(c) && !c.Notified?
    ensures CountInv(s')
  {
    forall b: bool ensures Deciders(s'.callers, b) == Deciders(s.callers, b) {
      DecidersPut(s.callers, tid, c, b);
    }
  }

  /** A step that accepts or drops one event. */
  lemma CountOne(s: System, s': System, tid: nat, c: Caller)
    requires CountInv(s) && s'.callers == s.callers[tid := c] && s'.hasObserver == s.hasObserver
    requires tid in s.callers && !s.callers[tid].Leaving? && !s.callers[tid].Notified? && c.Leaving?
    requires s.hasObserver
    requires |s'.accepted| == |s.accepted| + (if c.accepted then 1 else 0)
    requires s'.drops == s.drops + (if c.accepted then 0 else 1)
    requires s'.dropped == if c.accepted then s.dropped else (s.dropped + 1) % ID_SPACE
    ensures CountInv(s')
  {
    hide Deciders;
    DecidersPut(s.callers, tid, c, true);
    DecidersPut(s.callers, tid, c, false);
    Undecided(s.callers, tid);
  }

  lemma Undecided(callers: map<nat, Caller>, tid: nat)
    requires tid in callers && !callers[tid].Leaving? && !callers[tid].Notified?
    ensures tid !in Deciders(callers, true) && tid !in Deciders(callers, false)
    ensures forall b :: Deciders(callers, b) - {tid} == Deciders(callers, b)
  {
    forall b: bool ensures Deciders(callers, b) - {tid} == Deciders(callers, b) {
      assert tid !in Deciders(callers, b);
    }
  }

  lemma InitialInv(hasObserver: bool, buffer: Option<int>)
    ensures Inv(Initial(hasObserver, buffer))
  {
    assert Deciders(map[], true) == {} == Deciders(map[], false);
  }

  /** A sender that found the flag clear still holds the read lock, so the channel is open: the send cannot
      panic. */
  lemma OfferIsSafe(s: System, tid: nat)
    requires LockInv(s) && OnceInv(s) && tid in s.callers && s.callers[tid].Offering?
    ensures !s.channel.closed && tid in s.readers && !s.lock.Held?
  {
    assert tid in s.readers;
  }

  /** The only closer of the channel is the goroutine that runs the once, and it closes it once. */
  lemma ShutIsSafe(s: System, tid: nat)
    requires OnceInv(s) && tid in s.callers && s.callers[tid].Shutting?
    ensures !s.channel.closed && s.once == Running(tid)
  {
    assert InOnce(s.callers[tid]);
  }

  lemma LockStep(s: System, s': System, tid: nat, c: Caller)
    requires LockInv(s) && s'.callers == s.callers[tid := c]
    requires var reading, mine := tid in s.readers, !s.lock.Unlocked? && s.lock.tid == tid;
      && s'.readers == (if Reading(c) == reading then s.readers
                        else if reading then s.readers - {tid} else s.readers + {tid})
      && s'.lock == (if c.Draining? then Requested(tid) else if Excluding(c) then Held(tid)
                     else if mine then Unlocked else s.lock)
      && (c.Draining? ==> s.lock.Unlocked? || s.lock == Requested(tid))
      && (Excluding(c) ==> s.lock == Held(tid) || (s.lock == Requested(tid) && s.readers == {}))
      && (Reading(c) && !reading ==> s.lock.Unlocked?)
    ensures LockInv(s')
  {
  }

  /** A step that leaves the once, the flag and the channel's state alone. */
  lemma OnceKept(s: System, s': System, tid: nat, c: Caller)
    requires OnceInv(s) && s'.callers == s.callers[tid := c]
    requires s'.once == s.once && s'.flag == s.flag && s'.channel.closed == s.channel.closed
    requires s.channel.worker.Exited? ==> s'.channel.worker.Exited?
    requires !InOnce(c) && (tid in s.callers ==> !InOnce(s.callers[tid]))
    requires c.Offering? ==> !s.flag
    requires c.Waiting? || c.Closed? ==> s.once.Ran?
    requires c.Closed? ==>
      match c.err
      case None => s.channel.worker.Exited?
      case Some(e) => c.ctx.doneFrom.Some? && e == c.ctx.cause
    ensures OnceInv(s')
  {
  }

  lemma NotifyKeeps(s: System, tid: nat, delay: nat)
    requires Inv(s) && tid in s.callers
    requires s.callers[tid].Notifying? || Reading(s.callers[tid])
    ensures Inv(NotifyStep(s, tid, s.callers[tid], delay))
  {
    hide CountInv, QueueInv, CanSend, OnceInv, LockInv;
    var c := s.callers[tid];
    var s' := NotifyStep(s, tid, c, delay);
    if c.Offering? {
      OfferIsSafe(s, tid);
    }
    NotifyKeepsQueue(s, tid, delay);
    NotifyKeepsCount(s, tid, delay);
    if s' == s.(now := s'.now) {
      Waits(s, s'.now);
    } else {
      assert (s.lock.Unlocked? || s.lock.tid != tid) && (tid in s.readers <==> Reading(c)) by { Locks(s, tid); }
      assert c.Offering? ==> !s.flag by { Flags(s, tid); }
      LockStep(s, s', tid, s'.callers[tid]);
      OnceKept(s, s', tid, s'.callers[tid]);
    }
  }

  lemma Locks(s: System, tid: nat)
    requires LockInv(s) && tid in s.callers
    ensures tid in s.readers <==> Reading(s.callers[tid])
    ensures s.lock == Requested(tid) <==> s.callers[tid].Draining?
    ensures s.lock == Held(tid) <==> Excluding(s.callers[tid])
    ensures Excluding(s.callers[tid]) ==> s.readers == {}
    ensures Excluding(s.callers[tid]) ==> forall t | t in s.callers :: !s.callers[t].Offering?
  {
    if Excluding(s.callers[tid]) {
      forall t | t in s.callers ensures !s.callers[t].Offering? {
        assert t !in s.readers;
      }
    }
  }

  lemma Flags(s: System, tid: nat)
    requires OnceInv(s) && tid in s.callers
    ensures s.callers[tid].Offering? ==> !s.flag
  {
  }

  lemma NotifyKeepsCount(s: System, tid: nat, delay: nat)
    requires Inv(s) && tid in s.callers
    requires s.callers[tid].Notifying? || Reading(s.callers[tid])
    ensures CountInv(NotifyStep(s, tid, s.callers[tid], delay))
  {
    hide QueueInv, CanSend, Send;
    var c := s.callers[tid];
    var s' := NotifyStep(s, tid, c, delay);
    if c.Offering? {
      OfferIsSafe(s, tid);
    }
    if s' != s.(now := s'.now) {
      var c' := s'.callers[tid];
      if c'.Leaving? {
        CountOne(s, s', tid, c');
      } else {
        CountKept(s, s', tid, c');
      }
    }
  }

  lemma NotifyKeepsQueue(s: System, tid: nat, delay: nat)
    requires Inv(s) && tid in s.callers
    requires s.callers[tid].Notifying? || Reading(s.callers[tid])
    ensures QueueInv(NotifyStep(s, tid, s.callers[tid], delay))
  {
    hide CountInv, LockInv, OnceInv, CanSend, Send, Pending, WellFormed;
    var c := s.callers[tid];
    var s' := NotifyStep(s, tid, c, delay);
    if c.Offering? {
      OfferIsSafe(s, tid);
      if CanSend(s.channel) {
        SendAppends(s.channel, Item(tid, c.event));
      }
    }
  }

  lemma Waits(s: System, now: nat)
    requires Inv(s)
    ensures Inv(s.(now := now))
  {
  }

  lemma CloseKeeps(s: System, tid: nat, preferDone: bool, delay: nat)
    requires Inv(s) && tid in s.callers
    requires !s.callers[tid].Notifying? && !Reading(s.callers[tid])
    ensures Inv(CloseStep(s, tid, s.callers[tid], preferDone, delay))
  {
    hide CountInv, QueueInv, OnceInv, LockInv, CloseNext;
    var c := s.callers[tid];
    var s' := CloseStep(s, tid, c, preferDone, delay);
    var c' := CloseNext(s, c, preferDone);
    if Blocked(s, c) {
      Waits(s, s'.now);
    } else {
      if c.Shutting? {
        ShutIsSafe(s, tid);
      }
      CloseGoes(s, tid, preferDone);
      Locks(s, tid);
      CountKept(s, s', tid, c');
      CloseKeepsQueue(s, s', tid, c');
      LockStep(s, s', tid, c');
      CloseKeepsOnce(s, tid, preferDone, delay);
    }
  }

  lemma CloseGoes(s: System, tid: nat, preferDone: bool)
    requires tid in s.callers && !s.callers[tid].Notifying? && !Reading(s.callers[tid])
    requires !Blocked(s, s.callers[tid])
    ensures var c, c' := s.callers[tid], CloseNext(s, s.callers[tid], preferDone);
      && !c.Notified? && !c'.Notified? && !c'.Ignored? && !Reading(c')
      && (c'.Draining? <==> c.Locking?)
      && (Excluding(c') <==> c.Draining? || c.Flagging? || c.Shutting?)
      && (InOnce(c) || InOnce(c') || c'.Waiting? || c'.Closed?)
      && !c'.Offering?
  {
  }

  lemma CloseKeepsOnce(s: System, tid: nat, preferDone: bool, delay: nat)
    requires Inv(s) && tid in s.callers
    requires !s.callers[tid].Notifying? && !Reading(s.callers[tid])
    requires !Blocked(s, s.callers[tid])
    ensures OnceInv(CloseStep(s, tid, s.callers[tid], preferDone, delay))
  {
    hide CountInv, QueueInv, OnceInv, LockInv;
    var c := s.callers[tid];
    var s' := CloseStep(s, tid, c, preferDone, delay);
    if InOnce(c) || (c.Closing? && s.once.Fresh?) {
      InsideOnce(s, tid, preferDone, delay);
    } else {
      Ended(s, tid);
      OnceKept(s, s', tid, CloseNext(s, c, preferDone));
    }
  }

  lemma Ended(s: System, tid: nat)
    requires OnceInv(s) && tid in s.callers
    ensures s.callers[tid].Waiting? || s.callers[tid].Closed? ==> s.once.Ran?
  {
  }

  /** The goroutine that runs the once: it takes it, sets the flag, closes the channel, and completes it. */
  lemma InsideOnce(s: System, tid: nat, preferDone: bool, delay: nat)
    requires LockInv(s) && OnceInv(s) && tid in s.callers
    requires InOnce(s.callers[tid]) || (s.callers[tid].Closing? && s.once.Fresh?)
    ensures OnceInv(CloseStep(s, tid, s.callers[tid], preferDone, delay))
  {
    hide LockInv, Put, OnceInv;
    Locks(s, tid);
    var c := s.callers[tid];
    var s' := CloseStep(s, tid, c, preferDone, delay);
    if Blocked(s, c) {
      Ticks(s, s'.now);
    } else {
      OnceMoves(s, s', tid, c, preferDone, delay);
    }
  }

  lemma Ticks(s: System, now: nat)
    requires OnceInv(s)
    ensures OnceInv(s.(now := now))
  {
  }

  lemma OnceMoves(s: System, s': System, tid: nat, c: Caller, preferDone: bool, delay: nat)
    requires OnceInv(s) && tid in s.callers && c == s.callers[tid] && !Blocked(s, c)
    requires InOnce(c) || (c.Closing? && s.once.Fresh?)
    requires Excluding(c) ==> forall t | t in s.callers :: !s.callers[t].Offering?
    requires s' == CloseStep(s, tid, c, preferDone, delay)
    ensures OnceInv(s')
  {
    assert s.once == if InOnce(c) then Running(tid) else Fresh;
  }

  lemma CloseKeepsQueue(s: System, s': System, tid: nat, c: Caller)
    requires QueueInv(s) && tid in s.callers && !s.callers[tid].Leaving? && !s.callers[tid].Notified?
    requires s'.callers == s.callers[tid := c]
    requires s'.accepted == s.accepted && s'.delivered == s.delivered
    requires s'.channel == s.channel.(closed := s'.channel.closed) && (s.channel.closed ==> s'.channel.closed)
    ensures QueueInv(s')
  {
  }

  lemma TurnKeeps(s: System, panics: bool, delay: nat)
    requires Inv(s)
    ensures Inv(Act(s, Turn(panics, delay)))
  {
    hide CountInv, LockInv, Pending, Work, WellFormed;
    WorkTakesOldest(s.channel, panics);
    WorkKeepsClosed(s.channel, panics);
    var s' := Act(s, Turn(panics, delay));
    assert CountInv(s') && LockInv(s') by { TurnLeavesCallers(s, s'); }
  }

  lemma WorkKeepsClosed<E>(c: Channel<E>, panics: bool)
    ensures Work(c, panics).closed == c.closed && (c.worker.Exited? ==> Work(c, panics).worker.Exited?)
  {
  }

  lemma TurnLeavesCallers(s: System, s': System)
    requires CountInv(s) && LockInv(s)
    requires s' == s.(channel := s'.channel, delivered := s'.delivered, now := s'.now)
    ensures CountInv(s') && LockInv(s')
  {
  }

  lemma ActKeeps(s: System, a: Action)
    requires Inv(s)
    ensures Inv(Act(s, a))
  {
    match a
    case Turn(panics, delay) => TurnKeeps(s, panics, delay);
    case Step(tid, preferDone, delay) =>
      if tid in s.callers {
        hide Inv;
        if s.callers[tid].Notifying? || Reading(s.callers[tid]) {
          NotifyKeeps(s, tid, delay);
        } else {
          CloseKeeps(s, tid, preferDone, delay);
        }
      }
    case Notify(tid, event) => CallKeeps(s, tid, Notifying(event));
    case Close(tid, ctx) => CallKeeps(s, tid, Closing(ctx));
  }

  lemma CallKeeps(s: System, tid: nat, c: Caller)
    requires Inv(s) && (c.Notifying? || c.Closing?)
    ensures tid !in s.callers ==> Inv(s.(callers := s.callers[tid := c]))
  {
    hide CountInv, LockInv, OnceInv;
    if tid !in s.callers {
      var s' := s.(callers := s.callers[tid := c]);
      CountKept(s, s', tid, c);
      Outside(s, tid);
      LockStep(s, s', tid, c);
      OnceKept(s, s', tid, c);
    }
  }

  lemma Outside(s: System, tid: nat)
    requires LockInv(s) && tid !in s.callers
    ensures tid !in s.readers && (s.lock.Unlocked? || s.lock.tid != tid)
  {
  }

  lemma {:induction false} ExecKeeps(hasObserver: bool, buffer: Option<int>, actions: seq<Action>)
    ensures Inv(Exec(hasObserver, buffer, actions))
    decreases |actions|
  {
    hide Inv, Act;
    if actions == [] {
      InitialInv(hasObserver, buffer);
    } else {
      var n := |actions| - 1;
      ExecKeeps(hasObserver, buffer, actions[..n]);
      ActKeeps(Exec(hasObserver, buffer, actions[..n]), actions[n]);
    }
  }

  // ---------------------------------------------------------------- what every interleaving guarantees

  /** No interleaving sends on the closed channel or closes it twice. */
  lemma {:induction false} ChannelUseIsSafe(hasObserver: bool, buffer: Option<int>, actions: seq<Action>, tid: nat)
    ensures var s := Exec(hasObserver, buffer, actions);
      && !s.crashed
      && (tid in s.callers && (s.callers[tid].Offering? || s.callers[tid].Shutting?) ==> !s.channel.closed)
  {
    hide Exec, QueueInv, CountInv, LockInv, OnceInv;
    var s := Exec(hasObserver, buffer, actions);
    ExecKeeps(hasObserver, buffer, actions);
    if tid in s.callers {
      if s.callers[tid].Offering? {
        OfferIsSafe(s, tid);
      } else if s.callers[tid].Shutting? {
        ShutIsSafe(s, tid);
      }
    }
  }

  /** The calls of `Notify` that have decided what to do with their event. */
  function Finished(callers: map<nat, Caller>): set<nat> {
    set t | t in callers && (callers[t].Leaving? || callers[t].Notified?)
  }

  /** Conservation, in every reachable state: what was accepted is what was delivered, then what is being
      delivered, then what is queued, in that order; each accepted event is one call's, and each call's at most
      once; and accepted and dropped calls together are all that have decided. */
  lemma {:induction false} Conservation(hasObserver: bool, buffer: Option<int>, actions: seq<Action>)
    ensures var s := Exec(hasObserver, buffer, actions);
      && s.accepted == s.delivered + InFlight(s.channel) + s.channel.buffer
      && |s.channel.buffer| <= BufferSize(buffer)
      && (forall item | item in s.accepted :: item.sender in Deciders(s.callers, true))
      && (forall i, j | 0 <= i < j < |s.accepted| :: s.accepted[i].sender != s.accepted[j].sender)
      && |s.accepted| + s.drops == |Finished(s.callers)|
      && |s.accepted| == |Deciders(s.callers, true)|
      && s.dropped == s.drops % ID_SPACE
      && (!hasObserver ==> s.accepted == [] && s.drops == 0)
  {
    hide Exec, LockInv, OnceInv;
    var s := Exec(hasObserver, buffer, actions);
    ExecKeeps(hasObserver, buffer, actions);
    ExecConstants(hasObserver, buffer, actions);
    FinishedCount(s.callers);
    if !hasObserver {
      assert Finished(s.callers) == {};
    }
  }

  lemma FinishedCount(callers: map<nat, Caller>)
    ensures |Finished(callers)| == |Deciders(callers, true)| + |Deciders(callers, false)|
  {
    assert Finished(callers) == Deciders(callers, true) + Deciders(callers, false);
    assert Deciders(callers, true) !! Deciders(callers, false);
  }

  lemma {:induction false} ExecConstants(hasObserver: bool, buffer: Option<int>, actions: seq<Action>)
    ensures var s := Exec(hasObserver, buffer, actions);
      s.hasObserver == hasObserver && s.channel.capacity == BufferSize(buffer)
    decreases |actions|
  {
    hide Act;
    if actions != [] {
      var n := |actions| - 1;
      ExecConstants(hasObserver, buffer, actions[..n]);
      ActPersists(Exec(hasObserver, buffer, actions[..n]), actions[n]);
    }
  }

  // ---------------------------------------------------------------- order, and what closing means

  ghost predicate Persists(s: System, s': System) {
    && s'.hasObserver == s.hasObserver && s'.channel.capacity == s.channel.capacity
    && s.accepted <= s'.accepted && s.delivered <= s'.delivered && s.drops <= s'.drops
    && (s.flag ==> s'.flag) && (s.channel.closed ==> s'.channel.closed)
    && (s.channel.worker.Exited? ==> s'.channel.worker.Exited?)
    && (forall t | t in s.callers ::
          t in s'.callers && (s.callers[t].Notified? || s.callers[t].Closed? ==> s'.callers[t] == s.callers[t]))
  }

  lemma ActPersists(s: System, a: Action)
    ensures Persists(s, Act(s, a))
  {
    hide NotifyStep, CloseStep;
    if !s.crashed && a.Step? && a.tid in s.callers {
      NotifyPersists(s, a.tid, a.delay);
      ClosePersists(s, a.tid, a.preferDone, a.delay);
    }
  }

  lemma NotifyPersists(s: System, tid: nat, delay: nat)
    requires tid in s.callers
    ensures Persists(s, NotifyStep(s, tid, s.callers[tid], delay))
  {
    hide CanSend, Send;
    var c := s.callers[tid];
    if c.Offering? {
      SendKeeps(s.channel, Item(tid, c.event));
    }
  }

  lemma SendKeeps<E>(c: Channel<E>, item: E)
    ensures var c' := Send(c, item);
      c'.closed == c.closed && c'.capacity == c.capacity && (c.worker.Exited? ==> c'.worker.Exited?)
  {
  }

  lemma ClosePersists(s: System, tid: nat, preferDone: bool, delay: nat)
    requires tid in s.callers
    ensures Persists(s, CloseStep(s, tid, s.callers[tid], preferDone, delay))
  {
    hide CloseNext, Persists, Blocked;
    var c := s.callers[tid];
    var s' := CloseStep(s, tid, c, preferDone, delay);
    if Blocked(s, c) || (c.Shutting? && s.channel.closed) {
      SamePersists(s, s');
    } else {
      if c.Notified? || c.Closed? {
        OverIsBlocked(s, c);
      }
      MovePersists(s, s', tid, CloseNext(s, c, preferDone));
    }
  }

  lemma OverIsBlocked(s: System, c: Caller)
    requires c.Notified? || c.Closed?
    ensures Blocked(s, c)
  {
  }

  ghost predicate SameQueue(s: System, s': System) {
    && s'.hasObserver == s.hasObserver && s'.channel == s.channel.(closed := s'.channel.closed)
    && (s.channel.closed ==> s'.channel.closed) && (s.flag ==> s'.flag)
    && s'.accepted == s.accepted && s'.delivered == s.delivered && s'.drops == s.drops
  }

  lemma SamePersists(s: System, s': System)
    requires SameQueue(s, s') && s'.callers == s.callers
    ensures Persists(s, s')
  {
  }

  lemma MovePersists(s: System, s': System, tid: nat, c: Caller)
    requires SameQueue(s, s') && s'.callers == s.callers[tid := c]
    requires tid in s.callers && !s.callers[tid].Notified? && !s.callers[tid].Closed?
    ensures Persists(s, s')
  {
  }

  lemma {:induction false} ExecPersists(hasObserver: bool, buffer: Option<int>, actions: seq<Action>, more: seq<Action>)
    ensures Persists(Exec(hasObserver, buffer, actions), Exec(hasObserver, buffer, actions + more))
    decreases |more|
  {
    hide Act;
    if more == [] {
      assert actions + more == actions;
    } else {
      var n := |more| - 1;
      assert (actions + more)[..|actions + more| - 1] == actions + more[..n];
      ExecPersists(hasObserver, buffer, actions, more[..n]);
      ActPersists(Exec(hasObserver, buffer, actions + more[..n]), more[n]);
    }
  }

  /** First in, first out: if one accepted `Notify` returned before another began, its event is accepted, and so
      delivered, first. */
  lemma {:induction false} FirstInFirstOut(hasObserver: bool, buffer: Option<int>, actions: seq<Action>,
                                           more: seq<Action>, first: nat, i: nat, j: nat)
    requires var s, s' := Exec(hasObserver, buffer, actions), Exec(hasObserver, buffer, actions + more);
      && i < |s.accepted| && s.accepted[i].sender == first
      && j < |s'.accepted| && s'.accepted[j].sender !in s.callers
    ensures var s' := Exec(hasObserver, buffer, actions + more);
      && i < j && s'.accepted[i].sender == first
      && (j < |s'.delivered| ==> s'.delivered[i] == s'.accepted[i] && s'.delivered[j] == s'.accepted[j])
  {
    hide Exec, LockInv, OnceInv, CountInv, Pending, WellFormed;
    var s, s' := Exec(hasObserver, buffer, actions), Exec(hasObserver, buffer, actions + more);
    ExecKeeps(hasObserver, buffer, actions);
    ExecKeeps(hasObserver, buffer, actions + more);
    ExecPersists(hasObserver, buffer, actions, more);
    assert s'.accepted[..|s.accepted|] == s.accepted;
    assert forall k | 0 <= k < |s.accepted| :: s'.accepted[k] == s.accepted[k];
  }

  /** Once the flag is set nothing more is accepted. */
  lemma {:induction false} ClosedIsFinal(hasObserver: bool, buffer: Option<int>, actions: seq<Action>,
                                         more: seq<Action>)
    requires Exec(hasObserver, buffer, actions).flag
    ensures Exec(hasObserver, buffer, actions + more).accepted == Exec(hasObserver, buffer, actions).accepted
    decreases |more|
  {
    hide Act, Inv;
    if more == [] {
      assert actions + more == actions;
    } else {
      var n := |more| - 1;
      assert (actions + more)[..|actions + more| - 1] == actions + more[..n];
      ClosedIsFinal(hasObserver, buffer, actions, more[..n]);
      ExecPersists(hasObserver, buffer, actions, more[..n]);
      ExecKeeps(hasObserver, buffer, actions + more[..n]);
      FlagStops(Exec(hasObserver, buffer, actions + more[..n]), more[n]);
    }
  }

  lemma FlagStops(s: System, a: Action)
    requires Inv(s) && s.flag
    ensures Act(s, a).accepted == s.accepted
  {
    hide QueueInv, CountInv, LockInv, OnceInv, CloseNext;
    if a.Step? && a.tid in s.callers {
      Flags(s, a.tid);
    }
  }

  /** `Close` returning nil means that every event ever accepted has been delivered, that nothing is queued or in
      flight, and that it stays that way. */
  lemma {:induction false} CloseDrains(hasObserver: bool, buffer: Option<int>, actions: seq<Action>, more: seq<Action>,
                                       tid: nat)
    requires var s := Exec(hasObserver, buffer, actions);
      tid in s.callers && s.callers[tid].Closed? && s.callers[tid].err.None?
    ensures var s, s' := Exec(hasObserver, buffer, actions), Exec(hasObserver, buffer, actions + more);
      && s.channel.worker.Exited? && s.channel.buffer == []
      && s.delivered == s.accepted == s'.accepted == s'.delivered
  {
    hide Exec, CountInv, LockInv;
    var s, s' := Exec(hasObserver, buffer, actions), Exec(hasObserver, buffer, actions + more);
    ExecKeeps(hasObserver, buffer, actions);
    ExecKeeps(hasObserver, buffer, actions + more);
    ExecPersists(hasObserver, buffer, actions, more);
    assert s.once.Ran? && s.flag;
    ClosedIsFinal(hasObserver, buffer, actions, more);
  }

  // ---------------------------------------------------------------- progress

  /** An offer is accepted if and only if the buffer has room or the worker is parked; with no buffer, if and
      only if it is parked. */
  lemma {:induction false} OfferIsDecided(hasObserver: bool, buffer: Option<int>, actions: seq<Action>, tid: nat,
                                          delay: nat)
    requires var s := Exec(hasObserver, buffer, actions); tid in s.callers && s.callers[tid].Offering?
    ensures var s := Exec(hasObserver, buffer, actions);
            var event := s.callers[tid].event;
            var c' := Act(s, Step(tid, false, delay)).callers[tid];
      && (c' == Leaving(event, true) <==> |s.channel.buffer| < BufferSize(buffer) || s.channel.worker.Parked?)
      && (c' == Dropping(event) <==> c' != Leaving(event, true))
      && (BufferSize(buffer) == 0 ==> (c' == Leaving(event, true) <==> s.channel.worker.Parked?))
  {
    hide Exec, QueueInv, CountInv, LockInv, OnceInv, Send;
    var s := Exec(hasObserver, buffer, actions);
    ExecKeeps(hasObserver, buffer, actions);
    ExecConstants(hasObserver, buffer, actions);
    OfferIsSafe(s, tid);
  }

  predicate InNotify(c: Caller) {
    c.Notifying? || Reading(c)
  }

  /** A step that brings the writer nearer to giving the lock back: one of the writer, or of a reader it waits
      for. The worker and the wrapped observer take no part. */
  predicate Helps(s: System, tid: nat) {
    && tid in s.callers
    && (Reading(s.callers[tid]) || Excluding(s.callers[tid]) || (s.callers[tid].Draining? && s.readers == {}))
  }

  /** A call of `Notify` waits if and only if a `Close` has asked for the lock and not given it back: that is the
      one goroutine inside the once, and it or a `Notify` inside the lock can move. */
  lemma NotifyWaitsOnlyForClose(hasObserver: bool, buffer: Option<int>, actions: seq<Action>, tid: nat, delay: nat)
    returns (helper: nat)
    requires var s := Exec(hasObserver, buffer, actions); tid in s.callers && InNotify(s.callers[tid])
    ensures var s := Exec(hasObserver, buffer, actions);
            var c := s.callers[tid];
            var s' := Act(s, Step(tid, false, delay));
      && tid in s'.callers
      && (s'.callers[tid] == c <==> c.Notifying? && hasObserver && !s.lock.Unlocked?)
      && (!s.lock.Unlocked? ==>
            && s.once == Running(s.lock.tid)
            && Helps(s, helper) && (helper == s.lock.tid || Reading(s.callers[helper])))
  {
    hide Exec, QueueInv, CountInv, CanSend, Send;
    var s := Exec(hasObserver, buffer, actions);
    ExecKeeps(hasObserver, buffer, actions);
    ExecConstants(hasObserver, buffer, actions);
    helper := tid;
    if s.callers[tid].Offering? {
      OfferIsSafe(s, tid);
    }
    if !s.lock.Unlocked? {
      helper := SomebodyHelps(s);
    }
  }

  /** It does happen: one `Notify` is inside the lock, `Close` asks for it, and a second `Notify` stays where it is. */
  lemma NotifyCanWait(event: Event, ctx: Context, delay: nat)
    ensures var calls := [Notify(0, event), Step(0, false, 0), Close(1, ctx), Step(1, false, 0), Step(1, false, 0),
                          Notify(2, event)];
            var s := Exec(true, None, calls);
            var s' := Act(s, Step(2, false, delay));
      && s.lock == Requested(1)
      && s.callers == map[0 := Checking(event), 1 := Draining(ctx), 2 := Notifying(event)]
      && s'.callers == s.callers
  {
    hide Exec, CloseStep;
    var asked := [Notify(0, event), Step(0, false, 0), Close(1, ctx), Step(1, false, 0), Step(1, false, 0)];
    OneAsks(event, ctx);
    ExecOne(true, None, asked, Notify(2, event));
    assert asked + [Notify(2, event)] == [Notify(0, event), Step(0, false, 0), Close(1, ctx), Step(1, false, 0),
                                          Step(1, false, 0), Notify(2, event)];
  }

  lemma OneAsks(event: Event, ctx: Context)
    ensures var s := Exec(true, None, [Notify(0, event), Step(0, false, 0), Close(1, ctx), Step(1, false, 0),
                                       Step(1, false, 0)]);
      && s.callers == map[0 := Checking(event), 1 := Draining(ctx)]
      && s.lock == Requested(1) && s.hasObserver && !s.crashed
  {
    hide Exec, NotifyStep;
    var inside := [Notify(0, event), Step(0, false, 0), Close(1, ctx)];
    var asking := inside + [Step(1, false, 0)];
    OneIsInside(event, ctx);
    ExecOne(true, None, inside, Step(1, false, 0));
    ExecOne(true, None, asking, Step(1, false, 0));
    assert asking + [Step(1, false, 0)] ==
           [Notify(0, event), Step(0, false, 0), Close(1, ctx), Step(1, false, 0), Step(1, false, 0)];
  }

  lemma OneIsInside(event: Event, ctx: Context)
    ensures var s := Exec(true, None, [Notify(0, event), Step(0, false, 0), Close(1, ctx)]);
      && s.callers == map[0 := Checking(event), 1 := Closing(ctx)]
      && s.lock.Unlocked? && s.once.Fresh? && s.hasObserver && !s.crashed
  {
    var one: seq<Action> := [Notify(0, event)];
    var two := one + [Step(0, false, 0)];
    ExecOne(true, None, [], Notify(0, event));
    assert [] + one == one;
    ExecOne(true, None, one, Step(0, false, 0));
    ExecOne(true, None, two, Close(1, ctx));
    assert two + [Close(1, ctx)] == [Notify(0, event), Step(0, false, 0), Close(1, ctx)];
  }

  lemma {:induction false} ExecOne(hasObserver: bool, buffer: Option<int>, actions: seq<Action>, a: Action)
    ensures Exec(hasObserver, buffer, actions + [a]) == Act(Exec(hasObserver, buffer, actions), a)
  {
    hide Act;
    assert (actions + [a])[..|actions|] == actions;
  }

  lemma SomebodyHelps(s: System) returns (helper: nat)
    requires LockInv(s) && OnceInv(s) && !s.lock.Unlocked?
    ensures s.once == Running(s.lock.tid)
    ensures Helps(s, helper) && (helper == s.lock.tid || Reading(s.callers[helper]))
  {
    var c := s.callers[s.lock.tid];
    assert InOnce(c);
    helper := s.lock.tid;
    if c.Draining? && s.readers != {} {
      helper :| helper in s.readers;
    }
  }

  /** How many steps a reader has left under the lock. */
  function ReaderRank(c: Caller): nat {
    match c
    case Checking(_) => 4
    case Offering(_) => 3
    case Dropping(_) => 2
    case Leaving(_, _) => 1
    case _ => 0
  }

  function WriterRank(c: Caller): nat {
    match c
    case Draining(_) => 4
    case Flagging(_) => 3
    case Shutting(_) => 2
    case Unlocking(_) => 1
    case _ => 0
  }

  function AtLeast(callers: map<nat, Caller>, rank: nat): set<nat> {
    set t | t in callers && ReaderRank(callers[t]) >= rank
  }

  /** How many helpful steps the lock still needs: each reader counts as often as it has steps left. */
  function Patience(s: System): nat {
    |AtLeast(s.callers, 1)| + |AtLeast(s.callers, 2)| + |AtLeast(s.callers, 3)| + |AtLeast(s.callers, 4)|
    + (if !s.lock.Unlocked? && s.lock.tid in s.callers then WriterRank(s.callers[s.lock.tid]) else 0)
  }

  lemma AtLeastPut(callers: map<nat, Caller>, tid: nat, c: Caller, rank: nat)
    requires tid in callers && ReaderRank(c) <= ReaderRank(callers[tid]) && rank > 0
    ensures var before, after := AtLeast(callers, rank), AtLeast(callers[tid := c], rank);
      |after| == |before| - (if ReaderRank(c) < rank <= ReaderRank(callers[tid]) then 1 else 0)
  {
    var before, after := AtLeast(callers, rank), AtLeast(callers[tid := c], rank);
    if ReaderRank(c) < rank <= ReaderRank(callers[tid]) {
      assert after == before - {tid} && tid in before;
    } else {
      assert after == before;
    }
  }

  /** Patience is bounded by the readers that are inside, four steps each, and four steps of the writer. */
  lemma PatienceIsBounded(s: System)
    requires LockInv(s)
    ensures Patience(s) <= 4 * |s.readers| + 4
  {
    forall rank: nat | rank > 0 ensures |AtLeast(s.callers, rank)| <= |s.readers| {
      assert AtLeast(s.callers, rank) <= s.readers;
      SubsetSize(AtLeast(s.callers, rank), s.readers);
    }
  }

  lemma SubsetSize(a: set<nat>, b: set<nat>)
    requires a <= b
    ensures |a| <= |b|
  {
    assert b == a + (b - a);
  }

  /** Patience counts exactly the ranks. */
  lemma PatiencePut(s: System, s': System, tid: nat, c: Caller)
    requires tid in s.callers && s'.callers == s.callers[tid := c]
    requires !s.lock.Unlocked? && !s'.lock.Unlocked? && s'.lock.tid == s.lock.tid && s.lock.tid in s.callers
    requires ReaderRank(c) <= ReaderRank(s.callers[tid])
    requires tid == s.lock.tid ==> WriterRank(c) <= WriterRank(s.callers[tid])
    ensures Patience(s') == Patience(s) - (ReaderRank(s.callers[tid]) - ReaderRank(c))
                            - (if tid == s.lock.tid then WriterRank(s.callers[tid]) - WriterRank(c) else 0)
  {
    hide AtLeast;
    AtLeastPut(s.callers, tid, c, 1);
    AtLeastPut(s.callers, tid, c, 2);
    AtLeastPut(s.callers, tid, c, 3);
    AtLeastPut(s.callers, tid, c, 4);
  }

  lemma PatienceOfCall(s: System, tid: nat, c: Caller)
    requires tid !in s.callers && ReaderRank(c) == 0 && !s.lock.Unlocked? && s.lock.tid in s.callers
    ensures Patience(s.(callers := s.callers[tid := c])) == Patience(s)
  {
    forall rank: nat | rank > 0 ensures AtLeast(s.callers[tid := c], rank) == AtLeast(s.callers, rank) {
    }
  }

  /** While the lock is asked for or held, nobody new gets in: no action adds to the patience needed, and every
      helpful step takes from it. */
  lemma PatienceFalls(s: System, a: Action)
    requires Inv(s) && !s.lock.Unlocked?
    ensures var s' := Act(s, a);
      if s'.lock.Unlocked? then s'.flag
      else
        && s'.lock.tid == s.lock.tid
        && Patience(s') <= Patience(s)
        && (a.Step? && Helps(s, a.tid) ==> Patience(s') < Patience(s))
  {
    hide CountInv, QueueInv, Patience, NotifyStep, CloseStep;
    match a
    case Turn(_, _) => hide LockInv, OnceInv; SamePatience(s, Act(s, a));
    case Notify(tid, event) => if tid !in s.callers { PatienceOfCall(s, tid, Notifying(event)); }
    case Close(tid, ctx) => if tid !in s.callers { PatienceOfCall(s, tid, Closing(ctx)); }
    case Step(tid, preferDone, delay) =>
      if tid in s.callers {
        hide LockInv, OnceInv;
        if InNotify(s.callers[tid]) {
          NotifyHelps(s, tid, delay);
        } else {
          CloseHelps(s, tid, preferDone, delay);
        }
      }
  }

  lemma SamePatience(s: System, s': System)
    requires s'.callers == s.callers && s'.lock == s.lock
    ensures Patience(s') == Patience(s)
  {
  }

  lemma NotifyHelps(s: System, tid: nat, delay: nat)
    requires LockInv(s) && OnceInv(s) && tid in s.callers && InNotify(s.callers[tid]) && !s.lock.Unlocked?
    ensures var s' := NotifyStep(s, tid, s.callers[tid], delay);
      && s'.lock == s.lock
      && Patience(s') <= Patience(s)
      && (Reading(s.callers[tid]) ==> Patience(s') < Patience(s))
  {
    hide Patience, CanSend, Send;
    var c := s.callers[tid];
    var s' := NotifyStep(s, tid, c, delay);
    if c.Notifying? && s.hasObserver {
      SamePatience(s, s');
    } else {
      if c.Offering? {
        OfferIsSafe(s, tid);
      }
      Locks(s, tid);
      PatiencePut(s, s', tid, s'.callers[tid]);
    }
  }

  lemma CloseHelps(s: System, tid: nat, preferDone: bool, delay: nat)
    requires LockInv(s) && OnceInv(s) && tid in s.callers && !InNotify(s.callers[tid]) && !s.lock.Unlocked?
    ensures var s' := CloseStep(s, tid, s.callers[tid], preferDone, delay);
      if s'.lock.Unlocked? then s'.flag
      else
        && s'.lock.tid == s.lock.tid
        && Patience(s') <= Patience(s)
        && (Helps(s, tid) ==> Patience(s') < Patience(s))
  {
    hide Patience;
    var c := s.callers[tid];
    var s' := CloseStep(s, tid, c, preferDone, delay);
    assert InOnce(s.callers[s.lock.tid]);
    assert InOnce(c) ==> tid == s.lock.tid;
    if Blocked(s, c) {
      SamePatience(s, s');
    } else if c.Shutting? {
      ShutIsSafe(s, tid);
      PatiencePut(s, s', tid, CloseNext(s, c, preferDone));
    } else if !c.Unlocking? {
      PatiencePut(s, s', tid, CloseNext(s, c, preferDone));
    }
  }

  /** Once given back, the lock is never asked for again. */
  lemma FreedForGood(s: System, a: Action)
    requires Inv(s) && s.flag && s.lock.Unlocked?
    ensures var s' := Act(s, a); s'.flag && s'.lock.Unlocked?
  {
    hide CountInv, QueueInv, CanSend, Send, Work;
    if a.Step? && a.tid in s.callers {
      Locks(s, a.tid);
      if InOnce(s.callers[a.tid]) {
        assert s.once == Running(a.tid);
      }
    }
  }

  /** The flag set and the lock given back: from then on no `Notify` ever waits. */
  lemma {:induction false} NeverAskedAgain(hasObserver: bool, buffer: Option<int>, actions: seq<Action>,
                                           more: seq<Action>)
    requires var s := Exec(hasObserver, buffer, actions); s.flag && s.lock.Unlocked?
    ensures var s' := Exec(hasObserver, buffer, actions + more); s'.flag && s'.lock.Unlocked?
    decreases |more|
  {
    hide Act, Inv;
    if more == [] {
      assert actions + more == actions;
    } else {
      var n := |more| - 1;
      assert (actions + more)[..|actions + more| - 1] == actions + more[..n];
      NeverAskedAgain(hasObserver, buffer, actions, more[..n]);
      ExecKeeps(hasObserver, buffer, actions + more[..n]);
      FreedForGood(Exec(hasObserver, buffer, actions + more[..n]), more[n]);
    }
  }

  /** The helpful steps among the actions `more`, each taken in the state it finds. */
  function HelpsIn(hasObserver: bool, buffer: Option<int>, actions: seq<Action>, more: seq<Action>): nat
    decreases |more|
  {
    if more == [] then 0
    else
      var n := |more| - 1;
      var s := Exec(hasObserver, buffer, actions + more[..n]);
      HelpsIn(hasObserver, buffer, actions, more[..n])
      + (if more[n].Step? && Helps(s, more[n].tid) then 1 else 0)
  }

  /** A `Notify` that waits for the lock waits for at most so many helpful steps, whatever else happens and whatever
      the worker and the wrapped observer do; after that no `Notify` ever waits again. */
  lemma {:induction false} LockIsGivenBack(hasObserver: bool, buffer: Option<int>, actions: seq<Action>,
                                           more: seq<Action>)
    requires !Exec(hasObserver, buffer, actions).lock.Unlocked?
    ensures var s, s' := Exec(hasObserver, buffer, actions), Exec(hasObserver, buffer, actions + more);
      && Patience(s) <= 4 * |s.readers| + 4
      && (if s'.lock.Unlocked? then s'.flag
          else s'.lock.tid == s.lock.tid
               && Patience(s') + HelpsIn(hasObserver, buffer, actions, more) <= Patience(s))
    decreases |more|
  {
    hide Act, Inv, Patience, Helps;
    var s, s' := Exec(hasObserver, buffer, actions), Exec(hasObserver, buffer, actions + more);
    ExecKeeps(hasObserver, buffer, actions);
    assert LockInv(s) by { assert Inv(s); LockOf(s); }
    PatienceIsBounded(s);
    if more == [] {
      assert actions + more == actions;
    } else {
      var n := |more| - 1;
      assert (actions + more)[..|actions + more| - 1] == actions + more[..n];
      LockIsGivenBack(hasObserver, buffer, actions, more[..n]);
      var before := Exec(hasObserver, buffer, actions + more[..n]);
      ExecKeeps(hasObserver, buffer, actions + more[..n]);
      if before.lock.Unlocked? {
        FreedForGood(before, more[n]);
      } else {
        PatienceFalls(before, more[n]);
      }
    }
  }

  lemma LockOf(s: System)
    requires Inv(s)
    ensures LockInv(s)
  {
  }

  function TurnsIn(actions: seq<Action>): nat {
    if actions == [] then 0
    else TurnsIn(actions[..|actions| - 1]) + (if actions[|actions| - 1].Turn? then 1 else 0)
  }

  /** On a closed channel no action adds work, and every turn of the worker removes some. */
  lemma RankFalls(s: System, a: Action)
    requires Inv(s) && s.channel.closed
    ensures var s' := Act(s, a);
      && s'.channel.closed
      && Rank(s'.channel) <= Rank(s.channel)
      && (a.Turn? && Rank(s.channel) > 0 ==> Rank(s'.channel) < Rank(s.channel))
  {
    hide CountInv, LockInv, OnceInv, Pending;
    if a.Turn? {
      WorkTakesOldest(s.channel, a.panics);
    }
    if a.Step? && a.tid in s.callers && s.callers[a.tid].Offering? {
      OfferIsSafe(s, a.tid);
    }
  }

  /** After the channel is closed the worker is gone within three turns for every queued event and three more:
      nothing else can prolong it. */
  lemma {:induction false} CloseLeadsToExit(hasObserver: bool, buffer: Option<int>, actions: seq<Action>,
                                            more: seq<Action>)
    requires Exec(hasObserver, buffer, actions).channel.closed
    ensures var s, s' := Exec(hasObserver, buffer, actions), Exec(hasObserver, buffer, actions + more);
      && s'.channel.closed
      && Rank(s'.channel) <= (if TurnsIn(more) <= Rank(s.channel) then Rank(s.channel) - TurnsIn(more) else 0)
      && (TurnsIn(more) >= Rank(s.channel) ==> s'.channel.worker.Exited? && s'.delivered == s'.accepted)
    decreases |more|
  {
    hide Act, Inv, Rank;
    var s, s' := Exec(hasObserver, buffer, actions), Exec(hasObserver, buffer, actions + more);
    if more == [] {
      assert actions + more == actions;
    } else {
      var n := |more| - 1;
      assert (actions + more)[..|actions + more| - 1] == actions + more[..n];
      CloseLeadsToExit(hasObserver, buffer, actions, more[..n]);
      ExecKeeps(hasObserver, buffer, actions + more[..n]);
      RankFalls(Exec(hasObserver, buffer, actions + more[..n]), more[n]);
    }
    ExecKeeps(hasObserver, buffer, actions + more);
    if Rank(s'.channel) == 0 {
      RankZero(s');
    }
  }

  lemma RankZero(s: System)
    requires Inv(s) && Rank(s.channel) == 0
    ensures s.channel.worker.Exited? && s.delivered == s.accepted
  {
  }
}
