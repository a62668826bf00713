/** What the worker gets done. An observer without a buffer depends on its worker standing ready: a send goes through
    only if the worker is waiting in its receive. The laws of `AsyncLaws` say that nothing is lost or reordered; these
    say that something happens. */
module AsyncProgress {
  import opened Core
  import opened Errors
  import opened AsyncObservers
  import opened AsyncLaws

  /** How many turns the worker of an open channel needs before it waits for the next event. */
  function Backlog<E>(c: Channel<E>): nat {
    match c.worker
    case Parked => 0
    case Delivering(_) => 3 * |c.buffer| + 3
    case Unwinding => 3 * |c.buffer| + 2
    case _ => 3 * |c.buffer| + 1
  }

  /** Turns of the worker and nothing else. */
  predicate OnlyTurns(actions: seq<Action>) {
    forall a | a in actions :: a.Turn?
  }

  /** The callers, and what they share, are as they were. */
  ghost predicate SameCallers(s: System, s': System) {
    && s'.callers == s.callers && s'.lock == s.lock && s'.readers == s.readers && s'.once == s.once
    && s'.flag == s.flag && s'.channel.closed == s.channel.closed && s'.hasObserver == s.hasObserver
    && s'.crashed == s.crashed && s'.accepted == s.accepted && s'.drops == s.drops
  }

  lemma TurnGoesOn(s: System, a: Action)
    requires a.Turn? && !s.crashed && !s.channel.closed && WellFormed(s.channel)
    ensures var s' := Act(s, a);
      && SameCallers(s, s')
      && Backlog(s'.channel) <= (if Backlog(s.channel) == 0 then 0 else Backlog(s.channel) - 1)
  {
  }

  /** While the channel is open, enough turns leave the worker waiting, whatever panics. */
  lemma {:induction false} WorkerCatchesUp(hasObserver: bool, buffer: Option<int>, actions: seq<Action>,
                                           turns: seq<Action>)
    requires OnlyTurns(turns) && !Exec(hasObserver, buffer, actions).channel.closed
    ensures var s, s' := Exec(hasObserver, buffer, actions), Exec(hasObserver, buffer, actions + turns);
      && SameCallers(s, s')
      && Backlog(s'.channel) <= (if |turns| <= Backlog(s.channel) then Backlog(s.channel) - |turns| else 0)
    decreases |turns|
  {
    hide Act, Backlog, Inv;
    if turns == [] {
      assert actions + turns == actions;
    } else {
      var n := |turns| - 1;
      assert (actions + turns)[..|actions + turns| - 1] == actions + turns[..n];
      WorkerCatchesUp(hasObserver, buffer, actions, turns[..n]);
      var s := Exec(hasObserver, buffer, actions + turns[..n]);
      ExecKeeps(hasObserver, buffer, actions + turns[..n]);
      InvGives(s);
      TurnGoesOn(s, turns[n]);
    }
  }

  lemma InvGives(s: System)
    requires Inv(s)
    ensures !s.crashed && WellFormed(s.channel) && s.accepted == s.delivered + Pending(s.channel)
    ensures !s.flag ==> !s.channel.closed
  {
  }

  lemma BacklogIsBounded<E>(c: Channel<E>)
    ensures !c.worker.Exited? ==> Backlog(c) <= 3 * |Pending(c)| + 2
  {
  }

  /** The five actions of one call of `Notify`. */
  function Call(tid: nat, event: Event, delays: (nat, nat, nat, nat)): seq<Action> {
    [Notify(tid, event), Step(tid, false, delays.0), Step(tid, false, delays.1), Step(tid, false, delays.2),
     Step(tid, false, delays.3)]
  }

  /** A call of `Notify` that finds the flag clear, nobody asking for the lock, and the worker waiting, hands its event
      over, and the next turn delivers it. */
  lemma CallIsAccepted(s: System, tid: nat, event: Event, delays: (nat, nat, nat, nat))
    returns (checking: System, offering: System, leaving: System)
    requires !s.crashed && s.hasObserver && !s.flag && !s.channel.closed && s.lock.Unlocked? && tid !in s.callers
    requires s.channel.worker.Parked?
    ensures checking == Act(Act(s, Notify(tid, event)), Step(tid, false, delays.0))
    ensures offering == Act(checking, Step(tid, false, delays.1))
    ensures leaving == Act(offering, Step(tid, false, delays.2))
    ensures var s' := Act(leaving, Step(tid, false, delays.3));
      && s'.accepted == s.accepted + [Item(tid, event)] && s'.delivered == s.delivered && s'.drops == s.drops
      && s'.callers == s.callers[tid := Notified(event, true)]
      && !s'.crashed && InFlight(s'.channel) == [Item(tid, event)]
  {
    checking := Act(Act(s, Notify(tid, event)), Step(tid, false, delays.0));
    offering := Act(checking, Step(tid, false, delays.1));
    leaving := Act(offering, Step(tid, false, delays.2));
  }

  /** From every reachable state of an observer that nobody has begun to close, in the middle of whatever other calls
      of `Notify`: once the worker has had three turns for each event it still owed and two more, everything owed is
      delivered, the next call's event is accepted, and one more turn delivers that too. It holds for every buffer
      size, none included, and whether or not the wrapped observer panics. */
  lemma {:induction false} EventsGetThrough(buffer: Option<int>, actions: seq<Action>, turns: seq<Action>, tid: nat,
                                            event: Event, delays: (nat, nat, nat, nat), last: Action)
    requires OnlyTurns(turns) && last.Turn?
    requires var s := Exec(true, buffer, actions);
      && !s.flag && s.lock.Unlocked? && tid !in s.callers
      && |turns| >= 3 * (|s.accepted| - |s.delivered|) + 2
    ensures var s := Exec(true, buffer, actions);
            var ready := Exec(true, buffer, actions + turns);
            var called := Exec(true, buffer, actions + turns + Call(tid, event, delays));
            var done := Exec(true, buffer, actions + turns + Call(tid, event, delays) + [last]);
      && ready.delivered == ready.accepted == s.accepted
      && called.accepted == s.accepted + [Item(tid, event)] && called.drops == s.drops
      && called.callers == s.callers[tid := Notified(event, true)]
      && done.delivered == done.accepted == called.accepted
  {
    hide Act, Backlog, Inv, Exec, OnlyTurns;
    var s, ready := Exec(true, buffer, actions), Exec(true, buffer, actions + turns);
    ExecKeeps(true, buffer, actions);
    ExecKeeps(true, buffer, actions + turns);
    ExecConstants(true, buffer, actions);
    InvGives(s);
    InvGives(ready);
    BacklogIsBounded(s.channel);
    OpenWorkerStays(s);
    WorkerCatchesUp(true, buffer, actions, turns);
    WaitingIsIdle(ready.channel);
    var checking, offering, leaving := CallIsAccepted(ready, tid, event, delays);
    CallRuns(true, buffer, actions + turns, tid, event, delays);
    ExecOne(true, buffer, actions + turns + Call(tid, event, delays), last);
    TurnDelivers(Exec(true, buffer, actions + turns + Call(tid, event, delays)), last);
  }

  lemma OpenWorkerStays(s: System)
    requires Inv(s) && !s.channel.closed
    ensures !s.channel.worker.Exited?
  {
  }

  lemma WaitingIsIdle<E>(c: Channel<E>)
    requires Backlog(c) == 0 && WellFormed(c)
    ensures c.worker.Parked? && Pending(c) == []
  {
  }

  lemma TurnDelivers(s: System, a: Action)
    requires a.Turn? && !s.crashed
    ensures var s' := Act(s, a); s'.delivered == s.delivered + InFlight(s.channel) && s'.accepted == s.accepted
  {
  }

  lemma CallRuns(hasObserver: bool, buffer: Option<int>, actions: seq<Action>, tid: nat, event: Event,
                 delays: (nat, nat, nat, nat))
    ensures Exec(hasObserver, buffer, actions + Call(tid, event, delays)) ==
            Act(Act(Act(Act(Act(Exec(hasObserver, buffer, actions), Notify(tid, event)), Step(tid, false, delays.0)),
                        Step(tid, false, delays.1)), Step(tid, false, delays.2)), Step(tid, false, delays.3))
  {
    hide Exec, Act;
    var called := actions + [Notify(tid, event)];
    var entered := called + [Step(tid, false, delays.0)];
    var checked := entered + [Step(tid, false, delays.1)];
    var offered := checked + [Step(tid, false, delays.2)];
    ExecOne(hasObserver, buffer, actions, Notify(tid, event));
    ExecOne(hasObserver, buffer, called, Step(tid, false, delays.0));
    ExecOne(hasObserver, buffer, entered, Step(tid, false, delays.1));
    ExecOne(hasObserver, buffer, checked, Step(tid, false, delays.2));
    ExecOne(hasObserver, buffer, offered, Step(tid, false, delays.3));
    assert offered + [Step(tid, false, delays.3)] == actions + Call(tid, event, delays);
  }

  // ---------------------------------------------------------------- Close returns

  /** How many steps a `Close` that nothing holds up needs to get to its select. */
  function StepsToSelect(c: Caller): nat {
    match c
    case Closing(_) => 7
    case Locking(_) => 6
    case Draining(_) => 5
    case Flagging(_) => 4
    case Shutting(_) => 3
    case Unlocking(_) => 2
    case Completing(_) => 1
    case _ => 0
  }

  predicate Over(c: Caller) {
    c.Notified? || c.Ignored? || c.Closed?
  }

  /** The only call in progress is this `Close`, if it is not over, with nil, already. */
  ghost predicate OnlyCloser(s: System, tid: nat, ctx: Context) {
    && tid in s.callers
    && (StepsToSelect(s.callers[tid]) > 0 || s.callers[tid].Waiting? || s.callers[tid] == Closed(ctx, None))
    && s.callers[tid].ctx == ctx
    && (forall t | t in s.callers && t != tid :: Over(s.callers[t]))
  }

  /** Nobody but the closer can hold the lock or be inside the once. */
  lemma NothingInTheWay(s: System, tid: nat, ctx: Context)
    requires LockInv(s) && OnceInv(s) && OnlyCloser(s, tid, ctx)
    ensures s.readers == {}
    ensures s.callers[tid].Closing? || s.callers[tid].Locking? ==> s.lock.Unlocked?
    ensures s.callers[tid].Closing? ==> !s.once.Running?
  {
    assert forall t :: t !in s.readers;
  }

  lemma CloserSteps(s: System, a: Action, tid: nat, ctx: Context)
    requires Inv(s) && OnlyCloser(s, tid, ctx) && a.Step? && a.tid == tid && ctx.doneFrom.None?
    ensures var s' := Act(s, a);
      && OnlyCloser(s', tid, ctx)
      && (StepsToSelect(s'.callers[tid]) < StepsToSelect(s.callers[tid]) || StepsToSelect(s.callers[tid]) == 0)
      && (StepsToSelect(s.callers[tid]) == 0 ==> StepsToSelect(s'.callers[tid]) == 0)
      && s'.accepted == s.accepted && s'.delivered == s.delivered
  {
    var c := s.callers[tid];
    CloserIsFree(s, tid, ctx);
    if !c.Closed? {
      NextIsNearer(s, c, a.preferDone);
    }
    CloseMoves(s, a, tid);
    hide Inv, Act, Blocked, CloseNext, StepsToSelect;
  }

  lemma NextIsNearer(s: System, c: Caller, preferDone: bool)
    requires (StepsToSelect(c) > 0 || c.Waiting?) && c.ctx.doneFrom.None?
    ensures var c' := CloseNext(s, c, preferDone);
      && c'.ctx == c.ctx
      && (StepsToSelect(c) > 0 ==>
            StepsToSelect(c') < StepsToSelect(c) && (StepsToSelect(c') > 0 || c'.Waiting?))
      && (c.Waiting? ==> c' == Closed(c.ctx, None))
  {
  }

  lemma CloseMoves(s: System, a: Action, tid: nat)
    requires a.Step? && a.tid == tid && tid in s.callers && !s.crashed
    requires var c := s.callers[tid];
      (StepsToSelect(c) > 0 || c.Waiting? || c.Closed?) && !(c.Shutting? && s.channel.closed)
    ensures var c, s' := s.callers[tid], Act(s, a);
      && s'.callers == (if Blocked(s, c) then s.callers else s.callers[tid := CloseNext(s, c, a.preferDone)])
      && s'.accepted == s.accepted && s'.delivered == s.delivered
  {
    hide Blocked, CloseNext;
  }

  lemma CloserIsFree(s: System, tid: nat, ctx: Context)
    requires Inv(s) && OnlyCloser(s, tid, ctx)
    ensures !s.crashed && !(s.callers[tid].Shutting? && s.channel.closed)
    ensures StepsToSelect(s.callers[tid]) > 0 ==> !Blocked(s, s.callers[tid])
    ensures s.callers[tid].Closed? ==> Blocked(s, s.callers[tid])
  {
    hide QueueInv, CountInv;
    NothingInTheWay(s, tid, ctx);
    if s.callers[tid].Shutting? {
      ShutIsSafe(s, tid);
    }
  }

  predicate OnlySteps(actions: seq<Action>, tid: nat) {
    forall a | a in actions :: a.Step? && a.tid == tid
  }

  lemma {:induction false} CloserArrives(hasObserver: bool, buffer: Option<int>, actions: seq<Action>,
                                         steps: seq<Action>, tid: nat, ctx: Context)
    requires OnlySteps(steps, tid) && OnlyCloser(Exec(hasObserver, buffer, actions), tid, ctx) && ctx.doneFrom.None?
    ensures var s, s' := Exec(hasObserver, buffer, actions), Exec(hasObserver, buffer, actions + steps);
      && OnlyCloser(s', tid, ctx) && s'.accepted == s.accepted && s'.delivered == s.delivered
      && StepsToSelect(s'.callers[tid])
         <= (if |steps| <= StepsToSelect(s.callers[tid]) then StepsToSelect(s.callers[tid]) - |steps| else 0)
    decreases |steps|
  {
    hide Act, Inv, StepsToSelect, OnlyCloser;
    if steps == [] {
      assert actions + steps == actions;
    } else {
      var n := |steps| - 1;
      assert (actions + steps)[..|actions + steps| - 1] == actions + steps[..n];
      assert OnlySteps(steps[..n], tid) && steps[n] in steps;
      CloserArrives(hasObserver, buffer, actions, steps[..n], tid, ctx);
      ExecKeeps(hasObserver, buffer, actions + steps[..n]);
      OnlyCloserIsThere(Exec(hasObserver, buffer, actions), tid, ctx);
      OnlyCloserIsThere(Exec(hasObserver, buffer, actions + steps[..n]), tid, ctx);
      CloserSteps(Exec(hasObserver, buffer, actions + steps[..n]), steps[n], tid, ctx);
      OnlyCloserIsThere(Exec(hasObserver, buffer, actions + steps), tid, ctx);
    }
  }

  lemma OnlyCloserIsThere(s: System, tid: nat, ctx: Context)
    requires OnlyCloser(s, tid, ctx)
    ensures tid in s.callers && StepsToSelect(s.callers[tid]) <= 7
    ensures StepsToSelect(s.callers[tid]) == 0 ==> s.callers[tid].Waiting? || s.callers[tid] == Closed(ctx, None)
    ensures s.callers[tid].Waiting? ==> s.callers[tid] == Waiting(ctx)
  {
  }

  lemma TurnsLeaveCallers(hasObserver: bool, buffer: Option<int>, actions: seq<Action>, turns: seq<Action>)
    requires OnlyTurns(turns)
    ensures Exec(hasObserver, buffer, actions + turns).callers == Exec(hasObserver, buffer, actions).callers
    ensures Exec(hasObserver, buffer, actions + turns).accepted == Exec(hasObserver, buffer, actions).accepted
    ensures TurnsIn(turns) == |turns|
    decreases |turns|
  {
    if turns == [] {
      assert actions + turns == actions;
    } else {
      hide Act;
      var n := |turns| - 1;
      assert (actions + turns)[..|actions + turns| - 1] == actions + turns[..n];
      assert turns[n] in turns && OnlyTurns(turns[..n]);
      TurnsLeaveCallers(hasObserver, buffer, actions, turns[..n]);
      TurnLeaves(Exec(hasObserver, buffer, actions + turns[..n]), turns[n]);
    }
  }

  lemma TurnLeaves(s: System, a: Action)
    requires a.Turn?
    ensures Act(s, a).callers == s.callers && Act(s, a).accepted == s.accepted
  {
  }

  /** A `Close` whose context never ends returns nil: from every reachable state in which no other call is in
      progress, after seven steps of its own, three turns of the worker for each event still owed and two more, and
      the step out of its select; and then everything accepted has been delivered. */
  lemma {:induction false} CloseReturns(hasObserver: bool, buffer: Option<int>, actions: seq<Action>,
                                        steps: seq<Action>, turns: seq<Action>, last: Action, tid: nat, ctx: Context)
    requires OnlySteps(steps, tid) && |steps| >= 7 && OnlyTurns(turns) && OnlySteps([last], tid)
    requires ctx.doneFrom.None?
    requires var s := Exec(hasObserver, buffer, actions);
      && tid !in s.callers && (forall t | t in s.callers :: Over(s.callers[t]))
      && |turns| >= 3 * (|s.accepted| - |s.delivered|) + 2
    ensures var s := Exec(hasObserver, buffer, actions);
            var s' := Exec(hasObserver, buffer, actions + [Close(tid, ctx)] + steps + turns + [last]);
      && tid in s'.callers && s'.callers[tid] == Closed(ctx, None)
      && s'.delivered == s'.accepted == s.accepted
  {
    hide Act, Exec, Inv, OnlyTurns, OnlyCloser;
    var called := actions + [Close(tid, ctx)];
    var waiting := called + steps;
    var drained := waiting + turns;
    ExecKeeps(hasObserver, buffer, actions);
    ExecOne(hasObserver, buffer, actions, Close(tid, ctx));
    CloseIsCalled(Exec(hasObserver, buffer, actions), tid, ctx);
    OnlyCloserIsThere(Exec(hasObserver, buffer, called), tid, ctx);
    CloserArrives(hasObserver, buffer, called, steps, tid, ctx);
    OnlyCloserIsThere(Exec(hasObserver, buffer, waiting), tid, ctx);
    ExecKeeps(hasObserver, buffer, waiting);
    PastOnce(Exec(hasObserver, buffer, waiting), tid);
    TurnsLeaveCallers(hasObserver, buffer, waiting, turns);
    CloseLeadsToExit(hasObserver, buffer, waiting, turns);
    assert last in [last];
    ExecKeeps(hasObserver, buffer, drained);
    ExecOne(hasObserver, buffer, drained, last);
    LeavesSelect(Exec(hasObserver, buffer, drained), last, tid, ctx);
  }

  /** A `Close` in its select leaves it as soon as the worker is gone or its own context has ended, with nil or with the
      context's error, and with that error only if the context has ended. */
  lemma SelectIsLeft(hasObserver: bool, buffer: Option<int>, actions: seq<Action>, tid: nat, preferDone: bool,
                     delay: nat)
    requires var s := Exec(hasObserver, buffer, actions); tid in s.callers && s.callers[tid].Waiting?
    ensures var s := Exec(hasObserver, buffer, actions);
            var c, c' := s.callers[tid], Act(s, Step(tid, preferDone, delay)).callers[tid];
      && (c' == c <==> !s.channel.worker.Exited? && c.ctx.Err(s.now).None?)
      && (c' != c ==> c'.Closed? && c'.ctx == c.ctx)
      && (c' == Closed(c.ctx, None) ==> s.delivered == s.accepted)
      && (c'.Closed? && c'.err.Some? ==> c'.err == Some(c.ctx.cause) && c.ctx.Err(s.now).Some?)
      && (s.channel.worker.Exited? && c.ctx.Err(s.now).None? ==> c' == Closed(c.ctx, None))
  {
    hide Exec, LockInv, OnceInv, CountInv;
    ExecKeeps(hasObserver, buffer, actions);
  }

  lemma CloseIsCalled(s: System, tid: nat, ctx: Context)
    requires Inv(s) && tid !in s.callers && (forall t | t in s.callers :: Over(s.callers[t]))
    ensures var s' := Act(s, Close(tid, ctx));
      OnlyCloser(s', tid, ctx) && s'.accepted == s.accepted && s'.delivered == s.delivered
  {
  }

  /** Whoever waits in the select has the closing behind it. */
  lemma PastOnce(s: System, tid: nat)
    requires Inv(s) && tid in s.callers && (s.callers[tid].Waiting? || s.callers[tid].Closed?)
    ensures s.channel.closed && Rank(s.channel) <= 3 * (|s.accepted| - |s.delivered|) + 2
  {
  }

  lemma LeavesSelect(s: System, a: Action, tid: nat, ctx: Context)
    requires Inv(s) && a.Step? && a.tid == tid && tid in s.callers && s.channel.worker.Exited? && ctx.doneFrom.None?
    requires s.callers[tid] == Waiting(ctx) || s.callers[tid] == Closed(ctx, None)
    ensures var s' := Act(s, a);
      && tid in s'.callers && s'.callers[tid] == Closed(ctx, None)
      && s'.accepted == s.accepted && s'.delivered == s.delivered
  {
  }
}
