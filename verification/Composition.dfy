/** A manager with an asynchronous observer registered: every event the manager emits is one call of `Notify` by the
    goroutine that holds the token, which goes on when the call returns. What the wrapped observer gets is the
    manager's own log with the dropped events taken out. */
module Compositions {
  import opened Core
  import opened Errors
  import opened Lifecycle
  import opened RunLaws
  import opened EventLaws
  import opened AsyncObservers
  import A = AsyncLaws
  import C = Concurrent
  import CL = ConcurrentLaws

  datatype Composed<!T> = Composed(manager: C.System<T>, async: A.System)

  datatype Action<!T> =
    | Manage(step: C.Action<T>)
    // closers, the steps of all calls, and the worker; only the manager notifies
    | Observe(turn: A.Action)

  /** The `Notify` call of the k-th event; closers have odd names. */
  function CallOf(k: nat): nat {
    2 * k
  }

  predicate Over(c: A.Caller) {
    c.Notified? || c.Ignored?
  }

  /** The holder is inside `notify`. */
  predicate Busy<T>(c: Composed<T>) {
    var n := |c.manager.run.log|;
    n > 0 && CallOf(n - 1) in c.async.callers && !Over(c.async.callers[CallOf(n - 1)])
  }

  predicate ByHolder<T>(s: C.System<T>, a: C.Action<T>) {
    a.Step? && a.tid in s.threads && C.HasToken(s.threads[a.tid])
  }

  function Initial<T>(limit: int, hasObserver: bool, buffer: Option<int>): Composed<T> {
    Composed(C.Initial(limit), A.Initial(hasObserver, buffer))
  }

  function Act<T>(clock: nat -> Time, c: Composed<T>, action: Action<T>): Composed<T> {
    match action
    case Manage(a) =>
      if Busy(c) && ByHolder(c.manager, a) then c
      else
        var n := |c.manager.run.log|;
        var manager := C.Act(clock, c.manager, a);
        if |manager.run.log| <= n then c.(manager := manager)
        else Composed(manager, A.Act(c.async, A.Notify(CallOf(n), manager.run.log[n].event)))
    case Observe(a) =>
      if a.Notify? || (a.Close? && a.tid % 2 == 0) then c else c.(async := A.Act(c.async, a))
  }

  function Exec<T>(clock: nat -> Time, limit: int, hasObserver: bool, buffer: Option<int>, actions: seq<Action<T>>)
    : Composed<T>
  {
    if actions == [] then Initial(limit, hasObserver, buffer)
    else
      Act(clock, Exec(clock, limit, hasObserver, buffer, actions[..|actions| - 1]), actions[|actions| - 1])
  }

  // ---------------------------------------------------------------- the invariant

  function EventsIn(items: seq<A.Item>): seq<Event> {
    seq(|items|, i requires 0 <= i < |items| => items[i].event)
  }

  /** The log without the events that were dropped, or are not decided yet. */
  function Surviving(log: seq<Emission>, callers: map<nat, A.Caller>): seq<Event> {
    if log == [] then []
    else
      var n := |log| - 1;
      Surviving(log[..n], callers)
      + (if CallOf(n) in callers && A.Decided(callers[CallOf(n)], true) then [log[n].event] else [])
  }

  /** The calls of `Notify` are the events of the log, and all but the last are over. */
  ghost predicate Calls(log: seq<Emission>, callers: map<nat, A.Caller>) {
    && (forall k | 0 <= k < |log| :: CallOf(k) in callers && IsCall(callers[CallOf(k)], log[k].event))
    && (forall k | 0 <= k < |log| - 1 :: Over(callers[CallOf(k)]))
    && (forall t | t in callers && (A.InNotify(callers[t]) || Over(callers[t])) :: t % 2 == 0 && t / 2 < |log|)
    && (forall t | t in callers && t % 2 == 0 :: t / 2 < |log|)
  }

  predicate IsCall(c: A.Caller, event: Event) {
    c.Ignored? || ((A.InNotify(c) || c.Notified?) && c.event == event)
  }

  ghost predicate Inv<T>(clock: nat -> Time, limit: int, hasObserver: bool, c: Composed<T>) {
    && C.Inv(clock, limit, c.manager)
    && A.Inv(c.async)
    && c.async.hasObserver == hasObserver
    && Calls(c.manager.run.log, c.async.callers)
    && EventsIn(c.async.accepted) == Surviving(c.manager.run.log, c.async.callers)
    && (Busy(c) ==> c.manager.held == 1)
  }

  // ---------------------------------------------------------------- steps of the observer's side

  /** Nothing but the calls' own progress, and at most one more event accepted. */
  ghost predicate Goes(s: A.System, s': A.System, tid: nat, c: A.Caller) {
    && tid in s.callers && s'.callers == s.callers[tid := c]
    && (IsCallOf(s.callers[tid], c) || (IsCloser(s.callers[tid]) && IsCloser(c)))
    && s'.accepted == s.accepted
                      + (if A.Decided(c, true) && !A.Decided(s.callers[tid], true) then [A.Item(tid, c.event)] else [])
    && (A.Decided(s.callers[tid], true) ==> A.Decided(c, true))
  }

  predicate IsCloser(c: A.Caller) {
    !A.InNotify(c) && !Over(c)
  }

  /** A call goes on with the same event, and once over stays over. */
  predicate IsCallOf(c: A.Caller, c': A.Caller) {
    && A.InNotify(c) && (c'.Ignored? || ((A.InNotify(c') || c'.Notified?) && c'.event == c.event))
  }

  lemma NotifyGoes(s: A.System, tid: nat, delay: nat)
    requires tid in s.callers && A.InNotify(s.callers[tid])
    ensures var s' := A.NotifyStep(s, tid, s.callers[tid], delay);
      || (s'.callers == s.callers && s'.accepted == s.accepted)
      || exists c :: Goes(s, s', tid, c)
  {
    var c := s.callers[tid];
    var s' := A.NotifyStep(s, tid, c, delay);
    if c.Offering? && s.channel.closed {
    } else if c.Notifying? && s.hasObserver && !s.lock.Unlocked? {
    } else {
      assert Goes(s, s', tid, s'.callers[tid]);
    }
  }

  lemma CloseGoes(s: A.System, tid: nat, preferDone: bool, delay: nat)
    requires tid in s.callers && !A.InNotify(s.callers[tid])
    ensures var s' := A.CloseStep(s, tid, s.callers[tid], preferDone, delay);
      || (s'.callers == s.callers && s'.accepted == s.accepted)
      || exists c :: Goes(s, s', tid, c)
  {
    var c := s.callers[tid];
    var s' := A.CloseStep(s, tid, c, preferDone, delay);
    if !A.Blocked(s, c) && !(c.Shutting? && s.channel.closed) {
      assert Goes(s, s', tid, A.CloseNext(s, c, preferDone));
    }
  }

  lemma {:induction false} GoesKeeps(log: seq<Emission>, s: A.System, s': A.System, tid: nat, c: A.Caller)
    requires Calls(log, s.callers) && EventsIn(s.accepted) == Surviving(log, s.callers) && Goes(s, s', tid, c)
    ensures Calls(log, s'.callers) && EventsIn(s'.accepted) == Surviving(log, s'.callers)
  {
    hide Surviving;
    CallsKept(log, s, s', tid, c);
    if A.Decided(c, true) && !A.Decided(s.callers[tid], true) {
      Accepts(log, s, tid, c);
    } else {
      SameSurvivors(log, s.callers, s'.callers);
    }
  }

  lemma CallsKept(log: seq<Emission>, s: A.System, s': A.System, tid: nat, c: A.Caller)
    requires Calls(log, s.callers) && Goes(s, s', tid, c)
    ensures Calls(log, s'.callers)
  {
    var callers, callers' := s.callers, s'.callers;
    forall k | 0 <= k < |log| ensures CallOf(k) in callers' && IsCall(callers'[CallOf(k)], log[k].event) {
      assert CallOf(k) in callers && IsCall(callers[CallOf(k)], log[k].event);
    }
    forall k | 0 <= k < |log| - 1 ensures Over(callers'[CallOf(k)]) {
      assert CallOf(k) in callers && Over(callers[CallOf(k)]);
    }
  }

  lemma {:induction false} SameSurvivors(log: seq<Emission>, callers: map<nat, A.Caller>, callers': map<nat, A.Caller>)
    requires forall k | 0 <= k < |log| ::
      (CallOf(k) in callers && A.Decided(callers[CallOf(k)], true))
      <==> (CallOf(k) in callers' && A.Decided(callers'[CallOf(k)], true))
    ensures Surviving(log, callers') == Surviving(log, callers)
    decreases |log|
  {
    if log != [] {
      SameSurvivors(log[..|log| - 1], callers, callers');
    }
  }

  /** Only the last event's call is undecided, so an accepted event goes behind all the others. */
  lemma {:induction false} Accepts(log: seq<Emission>, s: A.System, tid: nat, c: A.Caller)
    requires Calls(log, s.callers) && EventsIn(s.accepted) == Surviving(log, s.callers)
    requires tid in s.callers && IsCallOf(s.callers[tid], c)
    requires A.Decided(c, true) && !A.Decided(s.callers[tid], true)
    ensures EventsIn(s.accepted + [A.Item(tid, c.event)]) == Surviving(log, s.callers[tid := c])
  {
    var n := |log| - 1;
    assert tid == CallOf(tid / 2);
    assert tid == CallOf(n);
    SameSurvivors(log[..n], s.callers, s.callers[tid := c]);
    assert Surviving(log, s.callers) == Surviving(log[..n], s.callers);
  }

  // ---------------------------------------------------------------- every action keeps the invariant

  lemma ObserveKeeps<T>(clock: nat -> Time, limit: int, hasObserver: bool, c: Composed<T>, a: A.Action)
    requires Inv(clock, limit, hasObserver, c)
    ensures Inv(clock, limit, hasObserver, Act(clock, c, Observe(a)))
  {
    hide C.Inv, A.Inv, Calls, Surviving, A.NotifyStep, A.CloseStep, Goes;
    var s := c.async;
    var s' := A.Act(s, a);
    if !(a.Notify? || (a.Close? && a.tid % 2 == 0)) {
      A.ActKeeps(s, a);
      A.ActPersists(s, a);
      var log := c.manager.run.log;
      if a.Close? {
        CloserComes(log, s, s', a.tid, a.ctx);
      } else if a.Step? && !s.crashed && a.tid in s.callers {
        StepGoes(s, a.tid, a.preferDone, a.delay);
        if tid, next :| Goes(s, s', tid, next) {
          GoesKeeps(log, s, s', tid, next);
          NotBusier(log, s, s', tid, next);
        }
      }
    }
  }

  lemma StepGoes(s: A.System, tid: nat, preferDone: bool, delay: nat)
    requires tid in s.callers && !s.crashed
    ensures var s' := A.Act(s, A.Step(tid, preferDone, delay));
      || (s'.callers == s.callers && s'.accepted == s.accepted)
      || exists c :: Goes(s, s', tid, c)
  {
    hide A.NotifyStep, A.CloseStep, Goes;
    if A.InNotify(s.callers[tid]) {
      NotifyGoes(s, tid, delay);
    } else {
      CloseGoes(s, tid, preferDone, delay);
    }
  }

  lemma {:induction false} CloserComes(log: seq<Emission>, s: A.System, s': A.System, tid: nat, ctx: Context)
    requires Calls(log, s.callers) && EventsIn(s.accepted) == Surviving(log, s.callers) && tid % 2 == 1
    requires s' == A.Act(s, A.Close(tid, ctx))
    ensures Calls(log, s'.callers) && EventsIn(s'.accepted) == Surviving(log, s'.callers)
    ensures forall k | 0 <= k < |log| ::
      CallOf(k) in s.callers && CallOf(k) in s'.callers && s'.callers[CallOf(k)] == s.callers[CallOf(k)]
  {
    hide Surviving;
    SameSurvivors(log, s.callers, s'.callers);
  }

  lemma NotBusier(log: seq<Emission>, s: A.System, s': A.System, tid: nat, c: A.Caller)
    requires Calls(log, s.callers) && Goes(s, s', tid, c)
    ensures forall k | 0 <= k < |log| ::
      CallOf(k) in s.callers && CallOf(k) in s'.callers && (Over(s.callers[CallOf(k)]) ==> Over(s'.callers[CallOf(k)]))
  {
  }

  /** A step of the manager's that the calls of `Notify` let it make: it emits nothing, or one event. */
  lemma ManageKeeps<T>(clock: nat -> Time, limit: int, hasObserver: bool, c: Composed<T>, a: C.Action<T>)
    requires Inv(clock, limit, hasObserver, c)
    ensures Inv(clock, limit, hasObserver, Act(clock, c, Manage(a)))
  {
    hide C.Inv, A.Inv, Calls, Surviving, C.Act, A.Act;
    if !(Busy(c) && ByHolder(c.manager, a)) {
      var s, s' := c.manager, C.Act(clock, c.manager, a);
      var n := |s.run.log|;
      C.ActKeeps(clock, limit, s, a);
      CL.ActPersists(clock, s, a);
      CL.ActStamps(clock, s, a);
      HeldWhileEmitting(clock, limit, s, a);
      if |s'.run.log| > n {
        assert s'.run.log == s.run.log + [s'.run.log[n]];
        LastCall(s.run.log, c.async);
        EventComes(s.run.log, s'.run.log[n], c.async);
        A.ActKeeps(c.async, A.Notify(CallOf(n), s'.run.log[n].event));
        A.ActPersists(c.async, A.Notify(CallOf(n), s'.run.log[n].event));
      }
    }
  }

  lemma LastCall(log: seq<Emission>, s: A.System)
    requires A.Inv(s) && Calls(log, s.callers)
    ensures !s.crashed && (log != [] ==> CallOf(|log| - 1) in s.callers)
  {
    hide A.LockInv, A.OnceInv, A.QueueInv, A.CountInv;
  }

  /** The calls of a log that nobody is busy with, and one more event. */
  lemma {:induction false} EventComes(log: seq<Emission>, e: Emission, s: A.System)
    requires Calls(log, s.callers) && EventsIn(s.accepted) == Surviving(log, s.callers)
    requires !s.crashed
    requires |log| > 0 ==> Over(s.callers[CallOf(|log| - 1)])
    ensures var s' := A.Act(s, A.Notify(CallOf(|log|), e.event));
      Calls(log + [e], s'.callers) && EventsIn(s'.accepted) == Surviving(log + [e], s'.callers)
  {
    hide Surviving;
    var n := |log|;
    assert CallOf(n) !in s.callers;
    var callers' := s.callers[CallOf(n) := A.Notifying(e.event)];
    var longer := log + [e];
    assert longer[..n] == log;
    SameSurvivors(log, s.callers, callers');
    assert Surviving(longer, callers') == Surviving(log, callers') by { NothingYet(longer, callers'); }
    forall k | 0 <= k < |longer| ensures CallOf(k) in callers' && IsCall(callers'[CallOf(k)], longer[k].event) {
      if k < n {
        assert CallOf(k) in s.callers && IsCall(s.callers[CallOf(k)], log[k].event);
      }
    }
    forall k | 0 <= k < |longer| - 1 ensures Over(callers'[CallOf(k)]) {
      if k < n - 1 {
        assert Over(s.callers[CallOf(k)]);
      }
    }
  }

  lemma {:induction false} NothingYet(log: seq<Emission>, callers: map<nat, A.Caller>)
    requires log != [] && CallOf(|log| - 1) in callers && callers[CallOf(|log| - 1)].Notifying?
    ensures Surviving(log, callers) == Surviving(log[..|log| - 1], callers)
  {
  }

  /** Only the holder emits, and it still holds the token then; nobody else changes the token while it is held. */
  lemma HeldWhileEmitting<T>(clock: nat -> Time, limit: int, s: C.System<T>, a: C.Action<T>)
    requires C.Inv(clock, limit, s)
    ensures var s' := C.Act(clock, s, a);
      && (|s'.run.log| > |s.run.log| ==> ByHolder(s, a) && s'.held == 1)
      && (s.held == 1 && !ByHolder(s, a) ==> s'.held == 1)
  {
    hide C.RunInv, C.OrderInv, C.ReplyInv, C.ReaderInv, C.LockInv, C.Move, C.WriteStep, C.TokenInv;
    if a.Step? && a.tid in s.threads {
      var th := s.threads[a.tid];
      if C.HasToken(th) {
        C.SoleHolder(s.threads, s.held, a.tid);
        if th.Writing? {
          CL.WriteAppends(clock, th, s.run, s.now);
        }
      } else {
        QuietMoves(clock, th, s.run, s.now);
      }
    }
  }

  lemma QuietMoves<T>(clock: nat -> Time, th: C.Thread<T>, run: Run<T>, now: nat)
    requires !C.HasToken(th)
    ensures C.Move(clock, th, run, now).run == run
  {
  }

  lemma {:induction false} ExecKeeps<T>(clock: nat -> Time, limit: int, hasObserver: bool, buffer: Option<int>,
                                        actions: seq<Action<T>>)
    ensures Inv(clock, limit, hasObserver, Exec(clock, limit, hasObserver, buffer, actions))
    decreases |actions|
  {
    hide Inv, Act;
    if actions == [] {
      StartsEmpty<T>(clock, limit, hasObserver, buffer);
    } else {
      var n := |actions| - 1;
      ExecKeeps(clock, limit, hasObserver, buffer, actions[..n]);
      var c := Exec(clock, limit, hasObserver, buffer, actions[..n]);
      match actions[n]
      case Manage(a) => ManageKeeps(clock, limit, hasObserver, c, a);
      case Observe(a) => ObserveKeeps(clock, limit, hasObserver, c, a);
    }
  }

  lemma StartsEmpty<T>(clock: nat -> Time, limit: int, hasObserver: bool, buffer: Option<int>)
    ensures Inv(clock, limit, hasObserver, Initial<T>(limit, hasObserver, buffer))
  {
    hide C.Inv, A.Inv;
    C.InitialInv<T>(clock, limit);
    A.InitialInv(hasObserver, buffer);
  }

  // ---------------------------------------------------------------- what the wrapped observer gets

  /** The manager's own steps, without those it could not take because `notify` had not returned. */
  function ManagerSteps<T>(clock: nat -> Time, limit: int, hasObserver: bool, buffer: Option<int>,
                           actions: seq<Action<T>>): seq<C.Action<T>>
  {
    if actions == [] then []
    else
      var n := |actions| - 1;
      var c := Exec(clock, limit, hasObserver, buffer, actions[..n]);
      ManagerSteps(clock, limit, hasObserver, buffer, actions[..n])
      + (if actions[n].Manage? && !(Busy(c) && ByHolder(c.manager, actions[n].step)) then [actions[n].step] else [])
  }

  /** The manager beside its observer is at every instant a manager alone: every law of its runs carries over. */
  lemma {:induction false} ManagerIsAsAlone<T>(clock: nat -> Time, limit: int, hasObserver: bool, buffer: Option<int>,
                                               actions: seq<Action<T>>)
    ensures Exec(clock, limit, hasObserver, buffer, actions).manager ==
            C.Exec(clock, limit, ManagerSteps(clock, limit, hasObserver, buffer, actions))
    decreases |actions|
  {
    hide C.Act, A.Act, Busy, ByHolder, C.Exec;
    if actions == [] {
      hide ManagerSteps;
      StartsAlone<T>(clock, limit, hasObserver, buffer);
    } else {
      var n := |actions| - 1;
      ManagerIsAsAlone(clock, limit, hasObserver, buffer, actions[..n]);
      var before := ManagerSteps(clock, limit, hasObserver, buffer, actions[..n]);
      if actions[n].Manage? {
        ExecOne(clock, limit, before, actions[n].step);
      }
      assert before + [] == before;
    }
  }

  lemma StartsAlone<T>(clock: nat -> Time, limit: int, hasObserver: bool, buffer: Option<int>)
    ensures Exec<T>(clock, limit, hasObserver, buffer, []).manager ==
            C.Exec(clock, limit, ManagerSteps<T>(clock, limit, hasObserver, buffer, []))
  {
  }

  lemma {:induction false} ExecOne<T>(clock: nat -> Time, limit: int, steps: seq<C.Action<T>>, a: C.Action<T>)
    ensures C.Exec(clock, limit, steps + [a]) == C.Act(clock, C.Exec(clock, limit, steps), a)
  {
    hide C.Act;
    assert (steps + [a])[..|steps|] == steps;
  }

  /** In every reachable state of the manager and its observer: delivered, in flight and queued are the manager's own
      log, in order, without the events that were dropped or are not decided yet. */
  lemma {:induction false} DeliveriesAreTheLog<T>(clock: nat -> Time, limit: int, hasObserver: bool,
                                                  buffer: Option<int>, actions: seq<Action<T>>)
    ensures var c := Exec(clock, limit, hasObserver, buffer, actions);
      && EventsIn(c.async.delivered + Pending(c.async.channel)) == Surviving(c.manager.run.log, c.async.callers)
      && EventsIn(c.async.delivered) <= Surviving(c.manager.run.log, c.async.callers)
      && !c.async.crashed
      && (c.manager.held == 0 ==> c.manager.run == Replay(clock, limit, c.manager.entries))
  {
    hide Exec, Surviving, A.LockInv, A.OnceInv, A.CountInv, Replay, Pending, Calls;
    var c := Exec(clock, limit, hasObserver, buffer, actions);
    ExecKeeps(clock, limit, hasObserver, buffer, actions);
    Prefix(c.async.delivered, Pending(c.async.channel));
    if c.manager.held == 0 {
      FreeIsReplay(clock, limit, c.manager);
    }
  }

  lemma Prefix(a: seq<A.Item>, b: seq<A.Item>)
    ensures EventsIn(a + b) == EventsIn(a) + EventsIn(b)
  {
  }

  lemma {:induction false} FreeIsReplay<T>(clock: nat -> Time, limit: int, s: C.System<T>)
    requires C.Inv(clock, limit, s) && s.held == 0
    ensures s.run == Replay(clock, limit, s.entries)
  {
    hide Replay, C.Explains, C.OrderInv, C.ReplyInv, C.ReaderInv, C.LockInv;
    C.NoHolder(s.threads, s.held);
  }

  /** Reading events alone. */
  function ReadEvents(r: Reader, events: seq<Event>): Reader
    decreases |events|
  {
    if events == [] then r else ReadEvents(Read(r, events[0]), events[1..])
  }

  lemma {:induction false} ReadingEvents(r: Reader, log: seq<Emission>)
    ensures ReadEvents(r, EventsOf(log)) == ReadLog(r, log)
    decreases |log|
  {
    if log != [] {
      assert EventsOf(log)[1..] == EventsOf(log[1..]);
      ReadingEvents(Read(r, log[0].event), log[1..]);
    }
  }

  lemma {:induction false} NothingDropped(log: seq<Emission>, s: A.System)
    requires A.Inv(s) && Calls(log, s.callers) && s.hasObserver && s.drops == 0
    requires log != [] ==> Over(s.callers[CallOf(|log| - 1)])
    ensures Surviving(log, s.callers) == EventsOf(log)
  {
    hide A.LockInv, A.OnceInv, A.QueueInv;
    assert A.Deciders(s.callers, false) == {};
    forall k | 0 <= k < |log| ensures CallOf(k) in s.callers && A.Decided(s.callers[CallOf(k)], true) {
      assert Over(s.callers[CallOf(k)]);
      assert CallOf(k) !in A.Deciders(s.callers, false);
    }
    AllSurvive(log, s.callers);
  }

  lemma {:induction false} AllSurvive(log: seq<Emission>, callers: map<nat, A.Caller>)
    requires forall k | 0 <= k < |log| :: CallOf(k) in callers && A.Decided(callers[CallOf(k)], true)
    ensures Surviving(log, callers) == EventsOf(log)
    decreases |log|
  {
    if log != [] {
      AllSurvive(log[..|log| - 1], callers);
    }
  }

  /** When nothing was dropped, a `Close` returned nil and the token is free, the wrapped observer has been given the
      whole log: reading what it got gives the accepted results, the current snapshot, and, if and only if no
      external failure is in view, the manager's whole status and history. */
  lemma {:induction false} ObserverCanRebuild<T>(clock: nat -> Time, limit: int, buffer: Option<int>,
                                                 actions: seq<Action<T>>, tid: nat)
    requires var c := Exec(clock, limit, true, buffer, actions);
      && c.manager.held == 0 && c.async.drops == 0
      && tid in c.async.callers && c.async.callers[tid].Closed? && c.async.callers[tid].err.None?
      && |Taken(c.manager.entries)| < ID_SPACE
    ensures var c := Exec(clock, limit, true, buffer, actions);
            var reader := ReadEvents(FRESH_READER, EventsIn(c.async.delivered));
      && EventsIn(c.async.delivered) == EventsOf(c.manager.run.log)
      && reader == Reader(Idle, VisiblePairs(c.manager.run.accepted), MetadataOf(c.manager.run.m.current))
      && (Rebuilt(c.manager.run.m, limit, reader.seen) <==> Rebuildable(clock, limit, Taken(c.manager.entries)))
  {
    hide Exec, Surviving, Replay, Calls, A.LockInv, A.OnceInv, A.QueueInv, A.CountInv, Rebuilt, Rebuildable, ReadLog;
    hide ReadEvents, Taken;
    var c := Exec(clock, limit, true, buffer, actions);
    ExecKeeps(clock, limit, true, buffer, actions);
    ClosedMeansDelivered(c.async, tid);
    LastCall(c.manager.run.log, c.async);
    NothingDropped(c.manager.run.log, c.async);
    ReadingEvents(FRESH_READER, c.manager.run.log);
    FreeIsReplay(clock, limit, c.manager);
    LogIsRead(clock, limit, c.manager.entries);
    LogRebuildsStatus(clock, limit, c.manager.entries);
  }

  lemma ClosedMeansDelivered(s: A.System, tid: nat)
    requires A.Inv(s) && tid in s.callers && s.callers[tid].Closed? && s.callers[tid].err.None?
    ensures s.delivered == s.accepted
  {
    hide A.LockInv, A.CountInv;
  }
}
