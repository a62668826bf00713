/** The manager as an object: mutable fields, an in-place history buffer, heap-allocated failures and
    metadata, observers that may do anything to the events they are given, and the admission token.

    `failures`, `cells` and the history's own `failures` are the objects reachable from the manager's
    fields. They only ever grow by freshly allocated objects, and everything handed to a caller or an
    observer is fresh and outside them, so nothing reachable from the manager is ever shared. */
module Managers {
  import opened Core
  import opened Errors
  import opened Pipelines
  import opened LoadLaws
  import opened Lifecycle
  import opened RunLaws
  import opened Records
  import opened Views

  // ---------------------------------------------------------------- collaborators

  /** A source: its behaviour, and how often it has been called. */
  class Source {
    const behaviour: SourceBehaviour
    var calls: nat

    constructor (behaviour: SourceBehaviour)
      ensures this.behaviour == behaviour && calls == 0
    {
      this.behaviour := behaviour;
      calls := 0;
    }

    method Metadata(now: nat) returns (out: MetadataOutcome)
      modifies this
      ensures out == behaviour.metadata(now) && calls == old(calls) + 1
    {
      calls := calls + 1;
      out := behaviour.metadata(now);
    }

    method Read(ctx: Context, now: nat) returns (out: Outcome<SourceData>)
      modifies this
      ensures out == behaviour.read(ctx, now) && calls == old(calls) + 1
    {
      calls := calls + 1;
      out := behaviour.read(ctx, now);
    }
  }

  function BehaviourOf(source: Source?): Option<SourceBehaviour> {
    if source == null then None else Some(source.behaviour)
  }

  function CallsOf(source: Source?): nat
    reads source
  {
    if source == null then 0 else source.calls
  }

  /** The objects of all the events that the observers of one manager have been given. */
  class Hoard {
    ghost var objects: set<object>

    constructor ()
      ensures objects == {}
    {
      objects := {};
    }
  }

  /** An observer remembers what it was told, keeps the objects of every event it receives, and is free to
      overwrite them: its contract says nothing about them. It may also panic. */
  class Observer {
    ghost var received: seq<Emission>
    ghost var kept: set<object>
    ghost const hoard: Hoard

    constructor (ghost hoard: Hoard)
      ensures received == [] && kept == {} && this.hoard == hoard
    {
      received, kept := [], {};
      this.hoard := hoard;
    }

    method Observe(event: EventRef, ghost live: LifecycleState) returns (panicked: bool)
      modifies this, event.Reach(), hoard
      ensures received == old(received) + [old(Emission(event.View(), live))]
      ensures kept == old(kept + event.Reach()) && hoard.objects == old(hoard.objects + event.Reach())
    {
      received := received + [Emission(event.View(), live)];
      kept := kept + event.Reach();
      hoard.objects := hoard.objects + event.Reach();
      if event.snapshot != null {
        event.snapshot.value := SnapshotMetadata(NO_METADATA, "", "", ZERO_TIME);
      }
      if event.attempt != null {
        event.attempt.value := event.attempt.value.(failure := null);
      }
      panicked := *;
    }
  }

  /** `notifyObserver`, on a clone: a panic is recovered and forgotten. */
  method Tell(observer: Observer, event: EventRef, ghost live: LifecycleState)
    modifies observer, observer.hoard
    ensures observer.received == old(observer.received) + [Emission(old(event.View()), live)]
    ensures event.View() == old(event.View())
    ensures fresh(observer.kept - old(observer.kept))
    ensures observer.hoard.objects == old(observer.hoard.objects) + (observer.kept - old(observer.kept))
  {
    var clone := CloneEvent(event);
    var _ := observer.Observe(clone, live);
  }

  function Repeat<V>(v: V, n: nat): seq<V> {
    seq(n, _ => v)
  }

  lemma RepeatMore<V>(v: V, n: nat)
    ensures Repeat(v, n + 1) == Repeat(v, n) + [v] && Repeat(v, 0) == []
  {
  }

  /** What an observer registered `n` times is told of a log: each emission `n` times. */
  function Told(log: seq<Emission>, n: nat): seq<Emission> {
    if log == [] then [] else Told(log[..|log| - 1], n) + Repeat(log[|log| - 1], n)
  }

  ghost function Watchers(observers: seq<Observer?>): set<Observer> {
    set o: Observer | o in observers
  }

  /** No object was given to two observers. */
  ghost predicate Separate(observers: seq<Observer?>, hoard: Hoard)
    reads Watchers(observers), hoard
  {
    && (forall o: Observer | o in observers :: o.kept <= hoard.objects)
    && (forall o: Observer, p: Observer | o in observers && p in observers && o != p :: o.kept !! p.kept)
  }

  /** One turn of the loop of `notify`. */
  method TellOne(ghost observers: seq<Observer?>, ghost hoard: Hoard, observer: Observer, event: EventRef,
                 ghost live: LifecycleState)
    requires observer.hoard == hoard
    modifies observer, hoard
    ensures observer.received == old(observer.received) + [Emission(old(event.View()), live)]
    ensures event.View() == old(event.View())
    ensures fresh(hoard.objects - old(hoard.objects))
    ensures old(Separate(observers, hoard)) ==> Separate(observers, hoard)
  {
    Tell(observer, event, live);
  }

  /** The loop of `notify`: nil observers are skipped, and one registered twice is told twice. Whatever
      an observer does to the event it was given, the next one is told the same. */
  method TellAll(observers: seq<Observer?>, ghost hoard: Hoard, event: EventRef, ghost live: LifecycleState)
    requires forall o: Observer | o in observers :: o.hoard == hoard
    modifies Watchers(observers), hoard
    ensures forall o: Observer | o in observers ::
      o.received == old(o.received) + Repeat(Emission(old(event.View()), live), multiset(observers)[o])
    ensures fresh(hoard.objects - old(hoard.objects))
    ensures old(Separate(observers, hoard)) ==> Separate(observers, hoard)
  {
    hide Repeat, Separate;
    ghost var told := Emission(event.View(), live);
    RepeatMore(told, 0);
    for i := 0 to |observers|
      invariant event.View() == told.event
      invariant fresh(hoard.objects - old(hoard.objects))
      invariant old(Separate(observers, hoard)) ==> Separate(observers, hoard)
      invariant forall o: Observer | o in observers ::
        o.received == old(o.received) + Repeat(told, multiset(observers[..i])[o])
    {
      assert observers[..i + 1] == observers[..i] + [observers[i]];
      if observers[i] != null {
        RepeatMore(told, multiset(observers[..i])[observers[i]]);
        TellOne(observers, hoard, observers[i], event, live);
      }
    }
    assert observers[..|observers|] == observers;
  }

  /** The instants of an admission: the first check, the select, and the check after it; `preferDone`
      is the select's choice when the token and the cancellation are both ready. */
  datatype Gate = Gate(firstAt: nat, selectAt: nat, recheckAt: nat, preferDone: bool) {
    predicate Ordered() {
      firstAt <= selectAt <= recheckAt
    }
  }

  /** A caller that need not wait is admitted exactly when its context is still live at the last check. */
  function Refusal(ctx: Context, gate: Gate): Option<Error> {
    ctx.Err(gate.recheckAt)
  }

  datatype Admission = Admitted | RefusedWith(cause: Error) | StillWaiting

  /** What the admission comes to, with `held` tokens in the channel: the select has no case to go on with while
      another caller has the token and the context is live. */
  function Admit(held: nat, ctx: Context, gate: Gate): Admission {
    if held > 0 && ctx.Err(gate.selectAt).None? then StillWaiting
    else if Refusal(ctx, gate).Some? then RefusedWith(Refusal(ctx, gate).value)
    else Admitted
  }

  /** Who is admitted, by the caller's context alone: with the token free, a caller whose context does not end before
      the last check; and whoever is refused is so by its own context, and never waits. */
  lemma AdmissionByContext(held: nat, ctx: Context, gate: Gate)
    requires gate.Ordered()
    ensures Admit(held, ctx, gate).Admitted? ==> held == 0
    ensures held == 0 ==>
      (Admit(held, ctx, gate).Admitted? <==> ctx.doneFrom.None? || gate.recheckAt < ctx.doneFrom.value)
    ensures held > 0 ==>
      (Admit(held, ctx, gate).StillWaiting? <==> ctx.doneFrom.None? || gate.selectAt < ctx.doneFrom.value)
    ensures Admit(held, ctx, gate).RefusedWith? ==>
      Admit(held, ctx, gate).cause == ctx.cause && ctx.doneFrom.Some? && ctx.doneFrom.value <= gate.recheckAt
  {
  }

  /** The admission channel: how many tokens its one-slot buffer holds. */
  class LifecycleAdmission {
    var held: nat

    constructor ()
      ensures held == 0
    {
      held := 0;
    }

    /** `acquire`, up to the point it gets to: a caller that finds the token taken and its context live is where it
        was before the call. */
    method Acquire(ctx: Context, gate: Gate) returns (out: Admission)
      requires gate.Ordered()
      modifies this
      ensures out == Admit(old(held), ctx, gate)
      ensures held == if out.Admitted? then 1 else old(held)
      ensures out.Admitted? ==> old(held) == 0
    {
      var err := ctx.Err(gate.firstAt);
      if err.Some? {
        return RefusedWith(err.value);
      }
      err := ctx.Err(gate.selectAt);
      if err.Some? && (held > 0 || gate.preferDone) {
        return RefusedWith(err.value);
      }
      if held > 0 {
        return StillWaiting;
      }
      held := held + 1;
      err := ctx.Err(gate.recheckAt);
      if err.Some? {
        held := held - 1;
        return RefusedWith(err.value);
      }
      out := Admitted;
    }

    /** `release`. */
    method Release()
      requires held == 1
      modifies this
      ensures held == 0
    {
      held := held - 1;
    }
  }

  // ---------------------------------------------------------------- what callers get

  datatype StatusRef = StatusRef(
    state: LifecycleState,
    current: MetadataCell?,
    lastAttempt: AttemptCell?,
    lastSuccess: AttemptCell?,
    lastFailure: AttemptCell?,
    lastApply: ApplyCell?
  ) {
    ghost function Reach(): set<object>
      reads lastAttempt, lastSuccess, lastFailure, lastApply
    {
      Objects(current) + AttemptReach(lastAttempt) + AttemptReach(lastSuccess) + AttemptReach(lastFailure)
      + ApplyReach(lastApply)
    }

    ghost function View(): Status
      reads Reach()
    {
      Status(state, MetadataView(current), AttemptCellView(lastAttempt), AttemptCellView(lastSuccess),
             AttemptCellView(lastFailure), ApplyCellView(lastApply))
    }
  }

  method CloneAttempts(a: Option<Attempt>, b: Option<Attempt>, c: Option<Attempt>)
    returns (x: AttemptCell?, y: AttemptCell?, z: AttemptCell?)
    ensures AttemptCellView(x) == HeldView(a) && AttemptCellView(y) == HeldView(b) && AttemptCellView(z) == HeldView(c)
    ensures fresh(AttemptReach(x)) && fresh(AttemptReach(y)) && fresh(AttemptReach(z))
  {
    x := CloneHeld(a);
    y := CloneHeld(b);
    z := CloneHeld(c);
  }

  method CloneCurrent(current: Option<SnapshotMetadata>, lastApply: Option<Apply>)
    returns (metadata: MetadataCell?, apply: ApplyCell?)
    ensures MetadataView(metadata) == current && ApplyCellView(apply) == HeldApplyView(lastApply)
    ensures fresh(Objects(metadata)) && fresh(ApplyReach(apply))
  {
    metadata := NewMetadata(current);
    apply := CloneHeldApply(lastApply);
  }

  /** The clones of `statusLocked`. */
  method CloneStatus(state: LifecycleState, current: Option<SnapshotMetadata>, lastAttempt: Option<Attempt>,
                     lastSuccess: Option<Attempt>, lastFailure: Option<Attempt>, lastApply: Option<Apply>)
    returns (status: StatusRef)
    ensures status.state == state && MetadataView(status.current) == current
    ensures AttemptCellView(status.lastAttempt) == HeldView(lastAttempt)
    ensures AttemptCellView(status.lastSuccess) == HeldView(lastSuccess)
    ensures AttemptCellView(status.lastFailure) == HeldView(lastFailure)
    ensures ApplyCellView(status.lastApply) == HeldApplyView(lastApply)
    ensures fresh(Objects(status.current)) && fresh(ApplyReach(status.lastApply))
    ensures fresh(AttemptReach(status.lastAttempt)) && fresh(AttemptReach(status.lastSuccess))
    ensures fresh(AttemptReach(status.lastFailure))
  {
    var metadata, apply := CloneCurrent(current, lastApply);
    var attempt, success, failure := CloneAttempts(lastAttempt, lastSuccess, lastFailure);
    status := StatusRef(state, metadata, attempt, success, failure, apply);
  }

  /** What `Inspect` reads under one read lock, with its pointers. */
  datatype ViewRef = ViewRef(status: StatusRef, redacted: RedactedMap?, attempts: array<Attempt>, lastApply: ApplyCell?)

  /** `opskit.Inspection`, with its pointers. */
  datatype InspectionRef = InspectionRef(
    state: LifecycleState,
    ready: bool,
    current: MetadataCell?,
    lastAttempt: Option<AttemptSummary>,
    lastSuccess: Option<AttemptSummary>,
    lastFailure: Option<AttemptSummary>,
    redacted: RedactedMap?,
    recentAttempts: array<Attempt>,
    lastApply: ApplyCell?
  ) {
    ghost predicate Presents(i: Inspection)
      reads current, redacted, recentAttempts, Failures(recentAttempts[..]), ApplyReach(lastApply)
    {
      && (state, ready) == (i.state, i.ready)
      && (lastAttempt, lastSuccess, lastFailure) == (i.lastAttempt, i.lastSuccess, i.lastFailure)
      && MetadataView(current) == i.current
      && RedactedViewOf(redacted) == i.redacted
      && Shows(recentAttempts[..], i.recentAttempts)
      && ApplyCellView(lastApply) == i.lastApply
    }
  }

  /** `attemptSummary`. */
  function SummaryOf(attempt: AttemptCell?): Option<AttemptSummary>
    reads attempt
  {
    if attempt == null then None
    else
      var a := attempt.value.fields;
      Some(AttemptSummary(a.id, a.kind, a.status, a.stage, a.startedAt, a.endedAt))
  }

  /** What a lifecycle call returns, with its pointers. */
  datatype ReplyRef<+T> =
    | RefusedRef(cause: Error)
    | AppliedRef(apply: Apply, err: Option<Error>)
    | ManagedRef(result: LoadRef<T>, apply: Apply, err: Option<Error>)
  {
    /** The failure and the metadata cells the caller can now reach, and mutate. */
    ghost function Failures(): set<Failure> {
      if ManagedRef? then result.attempt.Reach() else {}
    }

    ghost function Cells(): set<MetadataCell> {
      if RefusedRef? then {} else apply.Reach()
    }

    ghost function Reach(): set<object> {
      match this
      case RefusedRef(_) => {}
      case AppliedRef(apply, _) => apply.Reach()
      case ManagedRef(result, apply, _) => result.attempt.Reach() + apply.Reach()
    }

    ghost function View(): Reply<T>
      reads Reach()
    {
      match this
      case RefusedRef(cause) => Refused(cause)
      case AppliedRef(apply, err) => Applied(apply.View(), err)
      case ManagedRef(result, apply, err) => Managed(result.View(), apply.View(), err)
    }
  }

  /** What a caller that was not admitted gets: nothing yet, or its context's error. */
  function NotAdmitted<T>(admission: Admission): Option<ReplyRef<T>>
    requires !admission.Admitted?
  {
    if admission.StillWaiting? then None else Some(RefusedRef(admission.cause))
  }

  const NO_APPLY_REF := Apply(NO_APPLY, null, null)

  class Manager<T> {
    const clock: nat -> Time

    const attemptAdmission: LifecycleAdmission

    var nextAttemptID: nat
    var current: Option<Snapshot<T>>
    var lastAttempt: Option<Attempt>
    var lastSuccess: Option<Attempt>
    var lastFailure: Option<Attempt>
    var lastApply: Option<Apply>
    const attemptHistory: AttemptSlice
    const attemptHistoryLimit: int
    const observers: seq<Observer?>
    const degradedReady: Option<bool>
    ghost const hoard: Hoard

    ghost var run: Run<T>

    // the objects its stored records point to; the history owns its own
    ghost var failures: set<Failure>
    ghost var cells: set<MetadataCell>

    ghost predicate Valid()
      reads this, failures, cells, attemptHistory, attemptHistory.buffer, attemptHistory.failures
    {
      && (forall o: Observer | o in observers :: o.hoard == hoard)
      && Within(lastAttempt, failures) && Within(lastSuccess, failures) && Within(lastFailure, failures)
      && WithinApply(lastApply, cells)
      && attemptHistory.Valid()
      // the value of the fields is the state of the run
      && run.m.nextId == nextAttemptID
      && run.m.current == current
      && run.m.lastAttempt == HeldView(lastAttempt)
      && run.m.lastSuccess == HeldView(lastSuccess)
      && run.m.lastFailure == HeldView(lastFailure)
      && run.m.lastApply == HeldApplyView(lastApply)
      && run.m.history == attemptHistory.values
      && run.m.limit == attemptHistoryLimit
      && |attemptHistory.values| <= Capacity(attemptHistoryLimit)
    }

    /** The manager has captured nothing that existed before: what it owns now and did not own then is new. */
    twostate predicate OwnsOnlyNew()
      reads this, attemptHistory
    {
      && fresh(failures - old(failures))
      && fresh(cells - old(cells))
      && fresh(attemptHistory.failures - old(attemptHistory.failures))
      && (attemptHistory.buffer == old(attemptHistory.buffer) || fresh(attemptHistory.buffer))
    }

    /** Nothing in `s` is reachable from the manager, and neither the manager nor an observer is in it. */
    ghost predicate Apart(s: set<object>)
      reads this`failures, this`cells, attemptHistory`failures, attemptHistory`buffer
    {
      && this !in s && attemptAdmission !in s && attemptHistory !in s && attemptHistory.buffer !in s && hoard !in s
      && (forall f | f in failures :: f !in s)
      && (forall f | f in attemptHistory.failures :: f !in s)
      && (forall c | c in cells :: c !in s)
      && (forall o: Observer | o in observers :: o !in s)
    }

    /** Every observer has been told all that was logged since, once per registration; `before` says, per registration,
        what it had been told by then. */
    ghost predicate Heard(before: seq<seq<Emission>>, since: nat)
      reads this`run, Watchers(observers)
    {
      && |before| == |observers| && since <= |run.log|
      && forall i | 0 <= i < |observers| && observers[i] != null ::
           observers[i].received == before[i] + Told(run.log[since..], multiset(observers)[observers[i]])
    }

    /** Meanwhile the observers were told what was logged, whatever they had been told before, and no object was given
        to two of them. */
    twostate predicate Relays()
      reads this`run, Watchers(observers), hoard
    {
      && (forall before, since: nat :: old(Heard(before, since)) ==> Heard(before, since))
      && (old(Separate(observers, hoard)) ==> Separate(observers, hoard))
    }

    /** ... that is, each was told exactly the new part of the log, once per registration. */
    twostate predicate Caught()
      reads this`run, Watchers(observers)
    {
      && |old(run.log)| <= |run.log|
      && forall o: Observer | o in observers ::
           o.received == old(o.received) + Told(run.log[|old(run.log)|..], multiset(observers)[o])
    }

    twostate lemma RelaysIsCaught()
      requires Relays()
      ensures Caught()
    {
      ghost var before := seq(|observers|, i requires 0 <= i < |observers| =>
        if observers[i] == null then [] else old(observers[i].received));
      assert old(Heard(before, |run.log|));
      assert Heard(before, old(|run.log|));
    }

    twostate lemma OneTold(news: Emission)
      requires run.log == old(run.log) + [news]
      requires forall o: Observer | o in observers ::
        o.received == old(o.received) + Repeat(news, multiset(observers)[o])
      requires old(Separate(observers, hoard)) ==> Separate(observers, hoard)
      ensures Relays()
    {
      hide Repeat, Separate;
      forall before, since: nat | old(Heard(before, since)) ensures Heard(before, since) {
        assert run.log[since..][..|run.log[since..]| - 1] == old(run.log)[since..];
        assert run.log[since..][|run.log[since..]| - 1] == news;
      }
    }

    /** Nothing was logged and nobody was told anything. */
    twostate lemma Silent()
      requires run.log == old(run.log) && unchanged(Watchers(observers)) && unchanged(hoard)
      ensures Relays()
    {
    }

    /** The manager and its observers are as they were. */
    twostate predicate Undisturbed()
      reads this, attemptAdmission, attemptHistory, attemptHistory.buffer, Watchers(observers), hoard
    {
      && unchanged(this) && attemptAdmission.held == old(attemptAdmission.held)
      && unchanged(attemptHistory) && unchanged(attemptHistory.buffer)
      && unchanged(Watchers(observers)) && unchanged(hoard)
    }

    twostate lemma Untouched()
      requires Undisturbed()
      ensures Relays() && Caught() && OwnsOnlyNew()
      ensures hoard.objects == old(hoard.objects) && (old(Apart(hoard.objects)) ==> Apart(hoard.objects))
    {
      Silent();
      RelaysIsCaught();
    }

    /** What was apart stays apart while the manager only takes new objects. */
    twostate lemma StaysApart(s: set<object>)
      requires old(Apart(s)) && OwnsOnlyNew()
      ensures Apart(s)
    {
    }

    constructor (clock: nat -> Time, limit: Option<int>, observers: seq<Observer?>, degradedReady: Option<bool>,
                 ghost hoard: Hoard)
      requires forall o: Observer | o in observers :: o.hoard == hoard
      ensures Valid() && failures == {} && cells == {}
      ensures fresh(attemptAdmission) && attemptAdmission.held == 0
      ensures fresh(attemptHistory) && attemptHistory.failures == {} && fresh(attemptHistory.buffer)
      ensures this.clock == clock && this.observers == observers && this.degradedReady == degradedReady
      ensures this.hoard == hoard
      ensures run == InitialRun(ConfiguredLimit(limit))
    {
      this.clock := clock;
      this.observers := observers;
      this.degradedReady := degradedReady;
      this.hoard := hoard;
      nextAttemptID := 0;
      current, lastAttempt, lastSuccess, lastFailure, lastApply := None, None, None, None, None;
      attemptHistoryLimit := ConfiguredLimit(limit);
      var admission := new LifecycleAdmission();
      attemptAdmission := admission;
      var history := new AttemptSlice();
      attemptHistory := history;
      run := InitialRun(ConfiguredLimit(limit));
      failures, cells := {}, {};
    }

    /** `nextManagedAttemptID`: no lock, only the token. */
    method TakeAttemptId() returns (id: nat)
      requires Valid() && attemptAdmission.held == 1
      modifies this`nextAttemptID, this`run
      ensures Valid() && id == nextAttemptID == NextId(old(nextAttemptID))
      ensures run == AssignId(old(run)) && run.log == old(run.log)
    {
      nextAttemptID := NextId(nextAttemptID);
      id := nextAttemptID;
      run := AssignId(run);
    }

    // -------------------------------------------------------------- applying a result

    /** `lifecycleStateLocked`. */
    function StateLocked(): LifecycleState
      reads this
    {
      var failed := lastAttempt.Some? && lastAttempt.value.fields.status == StatusFailed;
      if current.None? then (if failed then StateFailed else StateUnloaded)
      else if failed then StateDegraded
      else StateLoaded
    }

    /** The first writes of `apply`: the last attempt ... */
    method AttemptLocked(attempt: Attempt)
      requires Valid()
      modifies this`lastAttempt, this`run, this`failures
      ensures Valid() && fresh(failures - old(failures))
      ensures run == old(run).(m := old(run).m.(lastAttempt := Some(old(attempt.View()))))
    {
      ghost var m := run.m;
      var last := CloneAttempt(attempt);
      lastAttempt := Some(last);
      run := run.(m := m.(lastAttempt := Some(last.View())));
      failures := failures + last.Reach();
    }

    /** ... and the history. */
    method RecordLocked(attempt: Attempt)
      requires Valid()
      modifies this`run, attemptHistory, attemptHistory.buffer
      ensures Valid() && fresh(attemptHistory.failures - old(attemptHistory.failures))
      ensures attemptHistory.buffer == old(attemptHistory.buffer) || fresh(attemptHistory.buffer)
      ensures run == old(run).(m := old(run).m.(history := Remember(old(run).m.history, old(attempt.View()),
                                                                    old(run).m.limit)))
    {
      hide Remember;
      attemptHistory.Record(attempt, attemptHistoryLimit);
      run := run.(m := run.m.(history := attemptHistory.values));
    }

    /** The second: the snapshot and the last success ... */
    method PublishLocked(snapshot: Snapshot<T>, attempt: Attempt)
      requires Valid() && attempt.fields.status == StatusSucceeded
      modifies this`current, this`lastSuccess, this`run, this`failures
      ensures Valid() && fresh(failures - old(failures))
      ensures run == old(run).(m := WriteOutcome(old(run).m, LoadResult(Some(snapshot), old(attempt.View()))))
    {
      ghost var m := run.m;
      var success := CloneAttempt(attempt);
      current, lastSuccess := Some(snapshot), Some(success);
      run := run.(m := WriteOutcome(m, LoadResult(Some(snapshot), success.View())));
      failures := failures + success.Reach();
    }

    /** ... or the last failure. */
    method FailLocked(attempt: Attempt)
      requires Valid() && attempt.fields.status == StatusFailed
      modifies this`lastFailure, this`run, this`failures
      ensures Valid() && fresh(failures - old(failures))
      ensures run == old(run).(m := WriteOutcome(old(run).m, LoadResult(None, old(attempt.View()))))
    {
      ghost var m := run.m;
      var failure := CloneAttempt(attempt);
      lastFailure := Some(failure);
      run := run.(m := m.(lastFailure := Some(failure.View())));
      failures := failures + failure.Reach();
    }

    /** The third: a clone of the apply result. */
    method StoreApplyLocked(applied: Apply, ghost accepted: Accepted<T>)
      requires Valid()
      modifies this`lastApply, this`run, this`cells
      ensures Valid() && fresh(cells - old(cells))
      ensures run == old(run).(m := WriteApply(old(run).m, old(applied.View())),
                               accepted := old(run).accepted + [accepted])
    {
      ghost var m := run.m;
      var stored := CloneApply(applied);
      lastApply := Some(stored);
      run := run.(m := WriteApply(m, stored.View()), accepted := run.accepted + [accepted]);
      cells := cells + stored.Reach();
    }

    lemma StateIsLive()
      requires Valid()
      ensures StateLocked() == LifecycleStateOf(run.m) && current == run.m.current
    {
    }

    /** All of them but the third. */
    method OutcomeLocked(result: LoadRef<T>)
      requires Valid() && Applicable(result.View())
      modifies this, attemptHistory, attemptHistory.buffer
      ensures Valid() && OwnsOnlyNew()
      ensures nextAttemptID == old(nextAttemptID)
      ensures run ==
        old(run).(m := WriteOutcome(WriteAttempt(old(run).m, old(result.View().attempt)), old(result.View())))
    {
      hide Valid, Remember;
      AttemptLocked(result.attempt);
      RecordLocked(result.attempt);
      if result.attempt.fields.status == StatusSucceeded && result.snapshot.Some? {
        PublishLocked(result.snapshot.value, result.attempt);
      } else if result.attempt.fields.status == StatusFailed {
        FailLocked(result.attempt);
      }
    }

    /** `apply` up to the stored copy of its result. */
    method WriteLocked(result: LoadRef<T>, at: nat) returns (applied: Apply)
      requires Valid() && Applicable(result.View())
      modifies this, attemptHistory, attemptHistory.buffer
      ensures Valid() && OwnsOnlyNew()
      ensures nextAttemptID == old(nextAttemptID)
      ensures run ==
        old(run).(m := WriteOutcome(WriteAttempt(old(run).m, old(result.View().attempt)), old(result.View())))
      ensures applied.View() == ApplyOf(old(run).m, old(result.View()), clock(at))
      ensures fresh(applied.Reach()) && applied.Reach() !! cells
    {
      hide Valid, Remember, Applicable, WriteAttempt, WriteOutcome, LifecycleStateOf;
      ghost var value, before := result.View(), run.m;
      StateIsLive();
      var was := MetadataOf(current);
      OutcomeLocked(result);
      StateIsLive();
      var published := result.attempt.fields.status == StatusSucceeded && result.snapshot.Some?;
      AppliedIs(before, value, clock(at));
      applied := NewApply(published, was, MetadataOf(current), StateLocked(), clock(at));
    }

    /** `apply`: whatever the caller keeps of the result, and whatever it does with the apply result it
        gets, is not reachable from the manager. */
    method ApplyLoad(result: LoadRef<T>, at: nat, ghost external: bool) returns (applied: Apply)
      requires Valid() && Applicable(result.View())
      modifies this, attemptHistory, attemptHistory.buffer
      ensures Valid() && OwnsOnlyNew()
      ensures nextAttemptID == old(nextAttemptID)
      ensures run == CommitResult(old(run), external, old(result.View()), clock(at)) && run.log == old(run.log)
      ensures applied.View() == ApplyOf(old(run).m, old(result.View()), clock(at))
      ensures fresh(applied.Reach()) && applied.Reach() !! cells
      ensures Relays() && (old(Apart(hoard.objects)) ==> Apart(hoard.objects))
    {
      hide Valid, Apart, Heard, Separate, Applicable, WriteAttempt, WriteOutcome, ApplyOf;
      ghost var accepted := Accepted(external, result.View(), ApplyOf(run.m, result.View(), clock(at)));
      applied := WriteLocked(result, at);
      StoreApplyLocked(applied, accepted);
      Silent();
      if old(Apart(hoard.objects)) {
        StaysApart(hoard.objects);
      }
    }

    // -------------------------------------------------------------- observers

    /** `notify`: every observer gets its own clone, and the state it is told is the live one. */
    method Notify(event: EventRef)
      requires Valid() && event.View().managerState == LifecycleStateOf(run.m)
      modifies this`run, Watchers(observers), hoard
      ensures Valid() && run == Emit(old(run), old(event.View()))
      ensures forall o: Observer | o in observers ::
        o.received == old(o.received) + Repeat(Emission(old(event.View()), old(LifecycleStateOf(run.m))),
                                               multiset(observers)[o])
      ensures Relays()
      ensures fresh(hoard.objects - old(hoard.objects))
      ensures old(Apart(hoard.objects)) ==> Apart(hoard.objects)
    {
      hide LifecycleStateOf, Repeat, Relays, Separate;
      ghost var news := Emission(event.View(), LifecycleStateOf(run.m));
      run := Emit(run, event.View());
      TellAll(observers, hoard, event, news.live);
      OneTold(news);
    }

    /** `notifyLoadStarted`: the state is read under the read lock, with the token held. */
    method NotifyLoadStarted(id: nat, kind: AttemptKind, source: SourceMetadata, revision: string, at: nat)
      requires Valid()
      modifies this`run, Watchers(observers), hoard
      ensures Valid()
      ensures run == Emit(old(run), StartedEvent(id, kind, source, revision, LifecycleStateOf(old(run).m), clock(at)))
      ensures Relays()
      ensures fresh(hoard.objects - old(hoard.objects))
      ensures old(Apart(hoard.objects)) ==> Apart(hoard.objects)
    {
      hide Valid, Apart, Heard, Separate, LifecycleStateOf;
      StateIsLive();
      Notify(EventRef(StartedEvent(id, kind, source, revision, StateLocked(), clock(at)), null, null, null));
    }

    /** `notifyLoadFinished`. */
    method NotifyLoadFinished(id: nat, kind: AttemptKind, result: LoadRef<T>, apply: Apply, err: Option<Error>, at: nat)
      requires Valid() && apply.fields.managerState == LifecycleStateOf(run.m)
      modifies this`run, Watchers(observers), hoard
      ensures Valid()
      ensures run == Emit(old(run), FinishedEvent(id, kind, old(result.View()), old(apply.View()), err, clock(at)))
      ensures result.View() == old(result.View()) && apply.View() == old(apply.View())
      ensures Relays()
      ensures fresh(hoard.objects - old(hoard.objects))
      ensures old(Apart(hoard.objects)) ==> Apart(hoard.objects)
    {
      hide Valid, Apart, Heard, Separate, LifecycleStateOf;
      ghost var finished := FinishedEvent(id, kind, result.View(), apply.View(), err, clock(at));
      var event := NewEvent(if err.Some? then LoadFailed else LoadSucceeded, id, kind, result.attempt,
                            MetadataOf(result.snapshot), apply, clock(at));
      assert event.View() == finished;
      Notify(event);
    }

    /** `notifySnapshotApplied`. */
    method NotifySnapshotApplied(attempt: Attempt, apply: Apply, at: nat)
      requires Valid() && (apply.fields.published ==> apply.fields.managerState == LifecycleStateOf(run.m))
      modifies this`run, Watchers(observers), hoard
      ensures Valid()
      ensures run == EmitApplied(old(run), old(attempt.View()), old(apply.View()), clock(at))
      ensures attempt.View() == old(attempt.View()) && apply.View() == old(apply.View())
      ensures Relays()
      ensures fresh(hoard.objects - old(hoard.objects))
      ensures old(Apart(hoard.objects)) ==> Apart(hoard.objects)
    {
      hide Valid, Apart, Heard, Separate, LifecycleStateOf;
      if !apply.fields.published || apply.current == null {
        Silent();
        return;
      }
      ghost var applied := AppliedEvent(attempt.View(), apply.View(), clock(at));
      var event := NewEvent(SnapshotApplied, attempt.fields.id, attempt.fields.kind, attempt,
                            Some(apply.current.value), apply, clock(at));
      assert event.View() == applied;
      Notify(event);
    }

    // -------------------------------------------------------------- lifecycle operations

    /** `applyValidated`. */
    method ApplyValidated(result: LoadRef<T>, at: nat) returns (applied: Apply, err: Option<Error>)
      requires Valid()
      modifies this, attemptHistory, attemptHistory.buffer
      ensures Valid() && OwnsOnlyNew() && nextAttemptID == old(nextAttemptID)
      ensures run == SettleRun(old(run), old(result.View()), clock(at)) && run.log == old(run.log)
      ensures applied.View() == SettleApply(old(run), old(result.View()), clock(at))
      ensures err == SettleErr(old(result.View()), None)
      ensures fresh(applied.Reach()) && applied.Reach() !! cells
      ensures Relays() && (old(Apart(hoard.objects)) ==> Apart(hoard.objects))
    {
      hide Valid, Apart, Heard, Separate, CommitResult, ApplyOf;
      var reason := InvalidReason(result.View());
      if reason.Some? {
        Silent();
        return NO_APPLY_REF, Some(Wrap(reason.value, InvalidLoadResult));
      }
      applied := ApplyLoad(result, at, false);
      err := None;
    }

    method NotifyCompletion(ghost op: Op<T>, kind: AttemptKind, result: LoadRef<T>, apply: Apply, err: Option<Error>,
                            t: Moments)
      requires Valid() && apply.fields.managerState == LifecycleStateOf(run.m)
      requires !op.ApplyOp? && kind == KindOf(op)
      modifies this`run, Watchers(observers), hoard
      ensures Valid()
      ensures run == Conclude(clock, old(run), op, t, old(result.View()), old(apply.View()), err)
      ensures result.View() == old(result.View()) && apply.View() == old(apply.View())
      ensures Relays()
      ensures fresh(hoard.objects - old(hoard.objects))
      ensures old(Apart(hoard.objects)) ==> Apart(hoard.objects)
    {
      hide Valid, Apart, Heard, Separate, LifecycleStateOf;
      NotifyLoadFinished(result.attempt.fields.id, kind, result, apply, err, t.finishedAt);
      NotifySnapshotApplied(result.attempt, apply, t.publishedAt);
    }

    ghost method NoteMetadataCall(op: Op<T>)
      requires Valid()
      modifies this`run
      ensures Valid() && run == old(run).(sourceCalls := old(run).sourceCalls + MetadataCalls(op))
    {
      run := run.(sourceCalls := run.sourceCalls + MetadataCalls(op));
    }

    ghost method NoteReadCall(op: Op<T>, t: Moments)
      requires Valid()
      modifies this`run
      ensures Valid() && run == Obtain(old(run), op, t) && run.log == old(run.log)
    {
      run := Obtain(run, op, t);
    }

    /** The common beginning of the two managed loads: take an identifier, tell the observers. */
    method Start(ghost op: Op<T>, kind: AttemptKind, source: SourceMetadata, revision: string, t: Moments)
      returns (id: nat)
      requires Valid() && attemptAdmission.held == 1 && !op.ApplyOp?
      requires kind == KindOf(op) && source == AnnouncedSource(op, t) && revision == AnnouncedRevision(op)
      modifies this`nextAttemptID, this`run, Watchers(observers), hoard
      ensures Valid() && id == Begin(old(run), op).m.nextId
      ensures run == Announce(clock, Begin(old(run), op), op, t)
      ensures Relays()
      ensures fresh(hoard.objects - old(hoard.objects))
      ensures old(Apart(hoard.objects)) ==> Apart(hoard.objects)
    {
      hide Valid, Apart, Heard, Separate, LifecycleStateOf, AnnouncedSource, AnnouncedRevision, MetadataCalls, NextId;
      NoteMetadataCall(op);
      id := TakeAttemptId();
      Silent();
      NotifyLoadStarted(id, kind, source, revision, t.announcedAt);
    }

    /** The common end of the two managed loads: validate and apply the numbered result, notify. */
    method Complete(ghost op: Op<T>, kind: AttemptKind, result: LoadRef<T>, loadErr: Option<Error>, t: Moments)
      returns (reply: ReplyRef<T>)
      requires Valid() && !op.ApplyOp? && kind == KindOf(op)
      requires LifecycleStateOf(SettleRun(run, result.View(), clock(t.committedAt)).m)
               == SettleApply(run, result.View(), clock(t.committedAt)).managerState
      requires result.attempt.Reach() !! failures && result.attempt.Reach() !! attemptHistory.failures
      requires forall f | f in result.attempt.Reach() :: f !in hoard.objects
      modifies this, attemptHistory, attemptHistory.buffer, Watchers(observers), hoard
      ensures Valid() && OwnsOnlyNew()
      ensures (run, reply.View()) == Completed(clock, old(run), op, t, old(result.View()), loadErr)
      ensures reply.Failures() == result.attempt.Reach() && fresh(reply.Cells()) && PrivateFrom(reply)
      ensures Relays()
      ensures fresh(hoard.objects - old(hoard.objects))
      ensures old(Apart(hoard.objects)) ==> Apart(hoard.objects)
    {
      hide Valid, Apart, Heard, Separate, SettleRun, SettleApply, SettleErr, Conclude;
      ghost var value, before := result.View(), run;
      SettleErrSplits(value, loadErr);
      var apply, applyErr := ApplyValidated(result, t.committedAt);
      var err := if loadErr.Some? then loadErr else applyErr;
      NotifyCompletion(op, kind, result, apply, err, t);
      reply := ManagedRef(result, apply, err);
    }

    /** `Load`, once admitted, up to its numbered result. */
    method ObtainFromData(ctx: Context, kind: AttemptKind, data: SourceData, pipeline: Pipeline<T>, t: Moments)
      returns (result: LoadRef<T>, err: Option<Error>)
      requires Valid() && attemptAdmission.held == 1
      modifies this`nextAttemptID, this`run, Watchers(observers), hoard
      ensures Valid()
      ensures var op := LoadOp(ctx, kind, data, pipeline);
        && run == Obtain(Announce(clock, Begin(old(run), op), op, t), op, t)
        && result.View() == WithId(OutcomeOf(clock, op, t).result, Begin(old(run), op).m.nextId)
        && err == OutcomeOf(clock, op, t).err
      ensures fresh(result.attempt.Reach()) && forall f | f in result.attempt.Reach() :: f !in hoard.objects
      ensures Relays()
      ensures fresh(hoard.objects - old(hoard.objects))
      ensures old(Apart(hoard.objects)) ==> Apart(hoard.objects)
    {
      hide Valid, Apart, Heard, Separate, Begin, Announce, Obtain, LoadOutcome;
      ghost var op := LoadOp(ctx, kind, data, pipeline);
      var id := Start(op, kind, data.metadata, data.revision, t);
      var loaded := Pipelines.Load(Job(ctx, clock, kind, data, pipeline, clock(t.startedAt)), t.loadAt);
      label loaded:
      NoteReadCall(op, t);
      Silent@loaded();
      result := NumberedRef(loaded, id);
      err := loaded.err;
    }

    /** `Load`, once admitted. */
    method LoadAdmitted(ctx: Context, kind: AttemptKind, data: SourceData, pipeline: Pipeline<T>, t: Moments)
      returns (reply: ReplyRef<T>)
      requires Valid() && attemptAdmission.held == 1
      modifies this, attemptHistory, attemptHistory.buffer, Watchers(observers), hoard
      ensures Valid() && OwnsOnlyNew()
      ensures (run, reply.View()) == Perform(clock, old(run), LoadOp(ctx, kind, data, pipeline), t)
      ensures fresh(reply.Failures()) && fresh(reply.Cells()) && PrivateFrom(reply)
      ensures Relays()
      ensures fresh(hoard.objects - old(hoard.objects))
      ensures old(Apart(hoard.objects)) ==> Apart(hoard.objects)
    {
      hide ReplyRef.View, LoadRef.View, ReplyRef.Failures, ReplyRef.Cells, ReplyRef.Reach, PrivateFrom;
      hide Valid, Apart, Heard, Separate, Completed, Perform, Begin, Announce, Obtain, SettleRun, SettleApply,
           OutcomeOf, WithId, LifecycleStateOf, Capacity;
      ghost var op := LoadOp(ctx, kind, data, pipeline);
      PerformIsCompleted(clock, run, op, t);
      var result, err := ObtainFromData(ctx, kind, data, pipeline, t);
      reply := Complete(op, kind, result, err, t);
    }

    /** `Load`. */
    method Load(ctx: Context, kind: AttemptKind, data: SourceData, pipeline: Pipeline<T>, gate: Gate, t: Moments)
      returns (reply: Option<ReplyRef<T>>)
      requires Valid() && gate.Ordered()
      modifies this, attemptAdmission, attemptHistory, attemptHistory.buffer, Watchers(observers), hoard
      ensures Valid() && OwnsOnlyNew() && attemptAdmission.held == old(attemptAdmission.held)
      ensures !Admit(old(attemptAdmission.held), ctx, gate).Admitted? ==>
        && Undisturbed()
        && reply == NotAdmitted(Admit(old(attemptAdmission.held), ctx, gate))
      ensures Admit(old(attemptAdmission.held), ctx, gate).Admitted? ==>
        reply.Some? && (run, reply.value.View()) == Perform(clock, old(run), LoadOp(ctx, kind, data, pipeline), t)
      ensures reply.Some? ==> fresh(reply.value.Failures()) && fresh(reply.value.Cells()) && PrivateFrom(reply.value)
      ensures Relays() && Caught()
      ensures fresh(hoard.objects - old(hoard.objects))
      ensures old(Apart(hoard.objects)) ==> Apart(hoard.objects)
    {
      hide Valid, Apart, Heard, Separate, Caught, PrivateFrom, ReplyRef.Reach, Admit, NotAdmitted, Told, Perform;
      var admission := attemptAdmission.Acquire(ctx, gate);
      if !admission.Admitted? {
        Untouched();
        reply := NotAdmitted(admission);
        EmptyHanded(admission);
        return;
      }
      var done := LoadAdmitted(ctx, kind, data, pipeline, t);
      attemptAdmission.Release();
      RelaysIsCaught();
      reply := Some(done);
    }

    /** `LoadFromSource`, once admitted, up to its numbered result. */
    method ObtainFromSource(ctx: Context, kind: AttemptKind, source: Source?, pipeline: Pipeline<T>, t: Moments)
      returns (result: LoadRef<T>, err: Option<Error>)
      requires Valid() && attemptAdmission.held == 1
      modifies this`nextAttemptID, this`run, Watchers(observers), hoard, source
      ensures Valid()
      ensures var op := SourceOp(ctx, kind, BehaviourOf(source), pipeline);
        && run == Obtain(Announce(clock, Begin(old(run), op), op, t), op, t)
        && result.View() == WithId(OutcomeOf(clock, op, t).result, Begin(old(run), op).m.nextId)
        && err == OutcomeOf(clock, op, t).err
        && CallsOf(source) == old(CallsOf(source)) + MetadataCalls(op) + ReadCalls(op, t)
      ensures fresh(result.attempt.Reach()) && forall f | f in result.attempt.Reach() :: f !in hoard.objects
      ensures Relays()
      ensures fresh(hoard.objects - old(hoard.objects))
      ensures old(Apart(hoard.objects)) ==> Apart(hoard.objects)
    {
      hide Valid, Apart, Heard, Separate, Begin, Announce, Obtain, SourceOutcome, AnnouncedMetadata, ReadMetadata,
           Capacity;
      ghost var op := SourceOp(ctx, kind, BehaviourOf(source), pipeline);
      var startedAt := clock(t.startedAt);
      var metadata, announced := ReadSourceMetadata(source, t.metadataAt);
      var id := Start(op, kind, announced, "", t);
      label announced:
      result, err := ReadAnnounced(ctx, kind, source, pipeline, startedAt, metadata, id, t);
      Silent@announced();
    }

    /** The part of `LoadFromSource` between the announcement and the numbered result. */
    method ReadAnnounced(ctx: Context, kind: AttemptKind, source: Source?, pipeline: Pipeline<T>, startedAt: Time,
                         metadata: Result<SourceMetadata>, id: nat, t: Moments)
      returns (result: LoadRef<T>, err: Option<Error>)
      requires Valid() && startedAt == clock(t.startedAt)
      requires source != null ==> metadata == ReadMetadata(source.behaviour, t.metadataAt)
      modifies this`run, source
      ensures Valid()
      ensures var op := SourceOp(ctx, kind, BehaviourOf(source), pipeline);
        && run == Obtain(old(run), op, t) && run.log == old(run.log)
        && result.View() == WithId(OutcomeOf(clock, op, t).result, id)
        && err == OutcomeOf(clock, op, t).err
        && CallsOf(source) == old(CallsOf(source)) + ReadCalls(op, t)
      ensures fresh(result.attempt.Reach())
    {
      hide Valid, Obtain, SourceOutcome, ReadMetadata;
      var loaded := LoadWithMetadata(ctx, clock, kind, source, pipeline, startedAt, metadata, t);
      NoteReadCall(SourceOp(ctx, kind, BehaviourOf(source), pipeline), t);
      result := NumberedRef(loaded, id);
      err := loaded.err;
    }

    /** `LoadFromSource`, once admitted. */
    method LoadFromSourceAdmitted(ctx: Context, kind: AttemptKind, source: Source?, pipeline: Pipeline<T>, t: Moments)
      returns (reply: ReplyRef<T>)
      requires Valid() && attemptAdmission.held == 1
      modifies this, attemptHistory, attemptHistory.buffer, Watchers(observers), hoard, source
      ensures Valid() && OwnsOnlyNew()
      ensures var op := SourceOp(ctx, kind, BehaviourOf(source), pipeline);
        && (run, reply.View()) == Perform(clock, old(run), op, t)
        && CallsOf(source) == old(CallsOf(source)) + MetadataCalls(op) + ReadCalls(op, t)
      ensures fresh(reply.Failures()) && fresh(reply.Cells()) && PrivateFrom(reply)
      ensures Relays()
      ensures fresh(hoard.objects - old(hoard.objects))
      ensures old(Apart(hoard.objects)) ==> Apart(hoard.objects)
    {
      hide ReplyRef.View, LoadRef.View, ReplyRef.Failures, ReplyRef.Cells, ReplyRef.Reach, PrivateFrom;
      hide Valid, Apart, Heard, Separate, Completed, Perform, Begin, Announce, Obtain, SettleRun, SettleApply,
           OutcomeOf, WithId, MetadataCalls, ReadCalls, CallsOf, LifecycleStateOf, Capacity;
      ghost var op := SourceOp(ctx, kind, BehaviourOf(source), pipeline);
      PerformIsCompleted(clock, run, op, t);
      var result, err := ObtainFromSource(ctx, kind, source, pipeline, t);
      reply := Complete(op, kind, result, err, t);
    }

    /** `LoadFromSource`. */
    method LoadFromSource(ctx: Context, kind: AttemptKind, source: Source?, pipeline: Pipeline<T>, gate: Gate,
                          t: Moments)
      returns (reply: Option<ReplyRef<T>>)
      requires Valid() && gate.Ordered()
      modifies this, attemptAdmission, attemptHistory, attemptHistory.buffer, Watchers(observers), hoard, source
      ensures Valid() && OwnsOnlyNew() && attemptAdmission.held == old(attemptAdmission.held)
      ensures !Admit(old(attemptAdmission.held), ctx, gate).Admitted? ==>
        && Undisturbed()
        && (source != null ==> unchanged(source))
        && reply == NotAdmitted(Admit(old(attemptAdmission.held), ctx, gate))
      ensures Admit(old(attemptAdmission.held), ctx, gate).Admitted? ==>
        var op := SourceOp(ctx, kind, BehaviourOf(source), pipeline);
        && reply.Some? && (run, reply.value.View()) == Perform(clock, old(run), op, t)
        && CallsOf(source) == old(CallsOf(source)) + MetadataCalls(op) + ReadCalls(op, t)
      ensures reply.Some? ==> fresh(reply.value.Failures()) && fresh(reply.value.Cells()) && PrivateFrom(reply.value)
      ensures Relays() && Caught()
      ensures fresh(hoard.objects - old(hoard.objects))
      ensures old(Apart(hoard.objects)) ==> Apart(hoard.objects)
    {
      hide Valid, Apart, Heard, Separate, Caught, PrivateFrom, ReplyRef.Reach, Admit, NotAdmitted, Told, Perform,
           BehaviourOf, CallsOf, MetadataCalls, ReadCalls;
      var admission := attemptAdmission.Acquire(ctx, gate);
      if !admission.Admitted? {
        Untouched();
        reply := NotAdmitted(admission);
        EmptyHanded(admission);
        return;
      }
      var done := LoadFromSourceAdmitted(ctx, kind, source, pipeline, t);
      attemptAdmission.Release();
      RelaysIsCaught();
      reply := Some(done);
    }

    /** `Apply`, once the result has been validated and numbered. */
    method ApplyNumbered(result: LoadRef<T>, t: Moments) returns (apply: Apply)
      requires Valid() && Applicable(result.View())
      modifies this, attemptHistory, attemptHistory.buffer, Watchers(observers), hoard
      ensures Valid() && OwnsOnlyNew()
      ensures var at := clock(t.committedAt);
        && apply.View() == ApplyOf(old(run).m, old(result.View()), at)
        && run == EmitApplied(CommitResult(old(run), true, old(result.View()), at), old(result.View()).attempt,
                              apply.View(), clock(t.publishedAt))
      ensures fresh(apply.Reach()) && apply.Reach() !! cells && forall c | c in apply.Reach() :: c !in hoard.objects
      ensures Relays()
      ensures fresh(hoard.objects - old(hoard.objects))
      ensures old(Apart(hoard.objects)) ==> Apart(hoard.objects)
    {
      hide Valid, Apart, Heard, Separate, Commit, ApplyOf, CommitResult, InvalidReason, LifecycleStateOf;
      LiveAfterCommit(run, true, result.View(), clock(t.committedAt));
      apply := ApplyLoad(result, t.committedAt, true);
      NotifySnapshotApplied(result.attempt, apply, t.publishedAt);
    }

    /** A copy of the caller's result with an identifier of the manager's. */
    method Stamp(result: LoadRef<T>) returns (stamped: LoadRef<T>)
      requires Valid() && attemptAdmission.held == 1
      modifies this`nextAttemptID, this`run
      ensures Valid() && Relays()
      ensures run == AssignId(old(run)) && stamped.View() == WithId(result.View(), run.m.nextId)
    {
      hide Heard, Separate, Capacity, attemptHistory.Valid;
      var id := TakeAttemptId();
      Silent();
      stamped := result.(attempt := result.attempt.(fields := result.attempt.fields.(id := id)));
    }

    /** `Apply`, once the result has been found valid. */
    method ApplyValid(ghost ctx: Context, result: LoadRef<T>, t: Moments) returns (reply: ReplyRef<T>)
      requires Valid() && attemptAdmission.held == 1 && Applicable(result.View())
      modifies this, attemptHistory, attemptHistory.buffer, Watchers(observers), hoard
      ensures Valid() && OwnsOnlyNew()
      ensures (run, reply.View()) == Perform(clock, old(run), ApplyOp(ctx, old(result.View())), t)
      ensures reply.Failures() == {} && fresh(reply.Cells()) && PrivateFrom(reply)
      ensures Relays()
      ensures fresh(hoard.objects - old(hoard.objects))
      ensures old(Apart(hoard.objects)) ==> Apart(hoard.objects)
    {
      hide Valid, Apart, Heard, Separate, PrivateFrom, ReplyRef.Reach, WithId, Perform, Applicable, AssignId;
      hide ApplyOf, CommitResult, EmitApplied;
      ghost var value := result.View();
      PerformsApply(clock, run, ctx, value, t);
      var stamped := Stamp(result);
      ApplicableIgnoresId(value, run.m.nextId);
      var apply := ApplyNumbered(stamped, t);
      reply := AppliedRef(apply, None);
      CellsArePrivate(reply);
    }

    /** `Apply`, once admitted. */
    method ApplyAdmitted(ghost ctx: Context, result: LoadRef<T>, t: Moments) returns (reply: ReplyRef<T>)
      requires Valid() && attemptAdmission.held == 1
      modifies this, attemptHistory, attemptHistory.buffer, Watchers(observers), hoard
      ensures Valid() && OwnsOnlyNew()
      ensures (run, reply.View()) == Perform(clock, old(run), ApplyOp(ctx, old(result.View())), t)
      ensures reply.Failures() == {} && fresh(reply.Cells()) && PrivateFrom(reply)
      ensures Relays()
      ensures fresh(hoard.objects - old(hoard.objects))
      ensures old(Apart(hoard.objects)) ==> Apart(hoard.objects)
    {
      hide Valid, Apart, Heard, Separate, ApplyOf, CommitResult, EmitApplied, InvalidReason, AssignId;
      var reason := InvalidReason(result.View());
      if reason.Some? {
        Silent();
        return AppliedRef(NO_APPLY_REF, Some(Wrap(reason.value, InvalidLoadResult)));
      }
      reply := ApplyValid(ctx, result, t);
    }

    /** `Apply`. */
    method ApplyExternal(ctx: Context, result: LoadRef<T>, gate: Gate, t: Moments) returns (reply: Option<ReplyRef<T>>)
      requires Valid() && gate.Ordered()
      modifies this, attemptAdmission, attemptHistory, attemptHistory.buffer, Watchers(observers), hoard
      ensures Valid() && OwnsOnlyNew() && attemptAdmission.held == old(attemptAdmission.held)
      ensures !Admit(old(attemptAdmission.held), ctx, gate).Admitted? ==>
        && Undisturbed()
        && reply == NotAdmitted(Admit(old(attemptAdmission.held), ctx, gate))
      ensures Admit(old(attemptAdmission.held), ctx, gate).Admitted? ==>
        reply.Some? && (run, reply.value.View()) == Perform(clock, old(run), ApplyOp(ctx, old(result.View())), t)
      ensures reply.Some? ==>
        reply.value.Failures() == {} && fresh(reply.value.Cells()) && PrivateFrom(reply.value)
      ensures Relays() && Caught()
      ensures fresh(hoard.objects - old(hoard.objects))
      ensures old(Apart(hoard.objects)) ==> Apart(hoard.objects)
    {
      hide Valid, Apart, Heard, Separate, Caught, PrivateFrom, ReplyRef.Reach, Admit, NotAdmitted, Told, Perform;
      var admission := attemptAdmission.Acquire(ctx, gate);
      if !admission.Admitted? {
        Untouched();
        reply := NotAdmitted(admission);
        EmptyHanded(admission);
        return;
      }
      var done := ApplyAdmitted(ctx, result, t);
      attemptAdmission.Release();
      RelaysIsCaught();
      reply := Some(done);
    }

    // -------------------------------------------------------------- readers

    /** `statusLocked` and `LifecycleStatus`: every record is a fresh clone. */
    method LifecycleStatus() returns (status: StatusRef)
      requires Valid()
      ensures status.View() == StatusOf(run.m)
      ensures fresh(status.Reach())
    {
      hide LifecycleStateOf, AttemptCellView, ApplyCellView, Shows;
      StateIsLive();
      status := CloneStatus(StateLocked(), MetadataOf(current), lastAttempt, lastSuccess, lastFailure, lastApply);
    }

    /** `Attempts`. */
    method Attempts() returns (attempts: array<Attempt>)
      requires Valid()
      ensures fresh(attempts) && fresh(Failures(attempts[..])) && Shows(attempts[..], run.m.history)
    {
      attempts := attemptHistory.Clones();
    }

    /** `Snapshot`: the struct is copied, its map stays private to it. */
    method CurrentSnapshot() returns (snapshot: Option<Snapshot<T>>)
      requires Valid()
      ensures snapshot == run.m.current
    {
      snapshot := current;
    }

    method DetailsLocked() returns (redacted: RedactedMap?, attempts: array<Attempt>, apply: ApplyCell?)
      requires Valid()
      ensures RedactedViewOf(redacted) == RedactedOf(run.m) && fresh(Objects(redacted))
      ensures fresh(attempts) && fresh(Failures(attempts[..])) && Shows(attempts[..], run.m.history)
      ensures ApplyCellView(apply) == run.m.lastApply && fresh(ApplyReach(apply))
    {
      hide Shows, Failures, FailureView, Capacity;
      apply := CloneHeldApply(lastApply);
      redacted := CloneRedacted(if current.None? then None else current.value.redacted);
      attempts := Attempts();
    }

    /** The critical section of `Inspect`. */
    method InspectLocked() returns (view: ViewRef)
      requires Valid()
      ensures view.status.View() == StatusOf(run.m) && fresh(view.status.Reach())
      ensures RedactedViewOf(view.redacted) == RedactedOf(run.m) && fresh(Objects(view.redacted))
      ensures fresh(view.attempts) && fresh(Failures(view.attempts[..])) && Shows(view.attempts[..], run.m.history)
      ensures ApplyCellView(view.lastApply) == run.m.lastApply && fresh(ApplyReach(view.lastApply))
    {
      hide LifecycleStateOf, MetadataOf, Shows, Failures, StatusOf, Valid;
      var status := LifecycleStatus();
      var redacted, attempts, apply := DetailsLocked();
      view := ViewRef(status, redacted, attempts, apply);
    }

    /** `opskitInspectionFromSnapshot`: readiness as the manager was configured, the attempts in summary. */
    method Summarized(view: ViewRef) returns (inspection: InspectionRef)
      requires Valid()
      requires view.status.View() == StatusOf(run.m) && RedactedViewOf(view.redacted) == RedactedOf(run.m)
      requires Shows(view.attempts[..], run.m.history) && ApplyCellView(view.lastApply) == run.m.lastApply
      ensures inspection.Presents(InspectionOf(ViewOf(run.m), DegradedReady(degradedReady)))
      ensures inspection.current == view.status.current && inspection.redacted == view.redacted
      ensures inspection.recentAttempts == view.attempts && inspection.lastApply == view.lastApply
    {
      hide Valid, Shows, Failures, LifecycleStateOf, RedactedOf;
      var s := view.status;
      inspection := InspectionRef(s.state, Ready(s.state, DegradedReady(degradedReady)), s.current,
                                  SummaryOf(s.lastAttempt), SummaryOf(s.lastSuccess), SummaryOf(s.lastFailure),
                                  view.redacted, view.attempts, view.lastApply);
    }

    /** `Inspect`: refused with the context's error, and otherwise the inspection of one state. */
    method Inspect(ctx: Context, now: nat) returns (inspection: Option<InspectionRef>, err: Option<Error>)
      requires Valid()
      ensures err == ctx.Err(now) && (inspection.None? <==> err.Some?)
      ensures inspection.Some? ==>
        inspection.value.Presents(InspectionOf(ViewOf(run.m), DegradedReady(degradedReady)))
      ensures inspection.Some? ==>
        && fresh(Objects(inspection.value.current)) && fresh(Objects(inspection.value.redacted))
        && fresh(inspection.value.recentAttempts) && fresh(Failures(inspection.value.recentAttempts[..]))
        && fresh(ApplyReach(inspection.value.lastApply))
    {
      err := ctx.Err(now);
      if err.Some? {
        return None, err;
      }
      hide Valid, Shows, Failures, StatusOf, InspectionOf, ViewOf;
      var locked := InspectLocked();
      var summarized := Summarized(locked);
      inspection := Some(summarized);
    }

    /** Nothing the caller got is reachable from the manager, or was given to an observer. */
    ghost predicate PrivateFrom(reply: ReplyRef<T>)
      reads this`failures, this`cells, attemptHistory`failures, hoard
    {
      && (forall f | f in reply.Failures() :: f !in hoard.objects)
      && (forall c | c in reply.Cells() :: c !in hoard.objects)
      && reply.Failures() !! failures
      && reply.Failures() !! attemptHistory.failures
      && reply.Cells() !! cells
    }

    lemma EmptyHanded(admission: Admission)
      requires !admission.Admitted?
      ensures var reply := NotAdmitted<T>(admission);
              reply.Some? ==> reply.value.Failures() == {} && reply.value.Cells() == {} && PrivateFrom(reply.value)
    {
    }

    lemma CellsArePrivate(reply: ReplyRef<T>)
      requires reply.Failures() == {} && reply.Cells() !! cells
      requires forall c | c in reply.Cells() :: c !in hoard.objects
      ensures PrivateFrom(reply)
    {
    }
  }

  /** The result of a load with its identifier, on the heap: `newFailure` allocates the failure. */
  method NumberedRef<T>(loaded: Loaded<T>, id: nat) returns (result: LoadRef<T>)
    ensures result.View() == WithId(loaded.result, id)
    ensures fresh(result.attempt.Reach())
  {
    var failure := NewFailure(loaded.result.attempt.failure);
    result := LoadRef(loaded.result.snapshot, Attempt(loaded.result.attempt.(id := id), failure));
  }

  /** What is left of a managed load once it has a numbered result. */
  ghost function Completed<T>(clock: nat -> Time, r: Run<T>, op: Op<T>, t: Moments, result: LoadResult<T>,
                              loadErr: Option<Error>): (Run<T>, Reply<T>)
    requires !op.ApplyOp?
  {
    var at := clock(t.committedAt);
    var apply := SettleApply(r, result, at);
    var err := SettleErr(result, loadErr);
    (Conclude(clock, SettleRun(r, result, at), op, t, result, apply, err), Managed(result, apply, err))
  }

  lemma SettleErrSplits<T>(result: LoadResult<T>, loadErr: Option<Error>)
    ensures SettleErr(result, loadErr) == (if loadErr.Some? then loadErr else SettleErr(result, None))
  {
  }

  /** A managed load announces itself, obtains a result, and completes; the result is always applied, so
      the observers are told the state it led to. */
  lemma PerformIsCompleted<T>(clock: nat -> Time, r: Run<T>, op: Op<T>, t: Moments)
    requires !op.ApplyOp?
    ensures var obtained := Obtain(Announce(clock, Begin(r, op), op, t), op, t);
            var loaded := OutcomeOf(clock, op, t);
            var result := WithId(loaded.result, Begin(r, op).m.nextId);
            var at := clock(t.committedAt);
      && Perform(clock, r, op, t) == Completed(clock, obtained, op, t, result, loaded.err)
      && LifecycleStateOf(SettleRun(obtained, result, at).m) == SettleApply(obtained, result, at).managerState
  {
    hide OutcomeOf, Commit, ApplyOf, Conclude;
    OutcomeSound(clock, op, t);
    var obtained := Obtain(Announce(clock, Begin(r, op), op, t), op, t);
    var id := Begin(r, op).m.nextId;
    LiveAfterCommit(obtained, false, WithId(OutcomeOf(clock, op, t).result, id), clock(t.committedAt));
    ApplicableIgnoresId(OutcomeOf(clock, op, t).result, id);
  }

  /** A valid `Apply` takes an identifier, commits and notifies. */
  lemma PerformsApply<T>(clock: nat -> Time, r: Run<T>, ctx: Context, value: LoadResult<T>, t: Moments)
    requires Applicable(value)
    ensures var numbered := AssignId(r);
            var stamped := WithId(value, numbered.m.nextId);
            var at := clock(t.committedAt);
            var apply := ApplyOf(numbered.m, stamped, at);
      Perform(clock, r, ApplyOp(ctx, value), t) ==
      (EmitApplied(CommitResult(numbered, true, stamped, at), stamped.attempt, apply, clock(t.publishedAt)),
       Applied(apply, None))
  {
    hide ApplyOf, CommitResult, EmitApplied, AssignId, Applicable;
  }

  /** `loadSourceMetadata`, when there is a source: a panic is recovered. */
  method ReadSourceMetadata(source: Source?, now: nat)
    returns (out: Result<SourceMetadata>, announced: SourceMetadata)
    modifies source
    ensures source != null ==> out == ReadMetadata(source.behaviour, now)
    ensures announced == AnnouncedMetadata(BehaviourOf(source), now)
    ensures CallsOf(source) == old(CallsOf(source)) + (if source == null then 0 else 1)
  {
    if source == null {
      return Success(NO_METADATA), NO_METADATA;
    }
    var described := source.Metadata(now);
    match described
    case Described(metadata) => out, announced := Success(metadata), metadata;
    case MetadataPanic(_) => out, announced := Failure(PanicError("read config source metadata")), NO_METADATA;
  }

  /** `loadFromSourceWithMetadata`: reads the source only when there is one and its metadata could be read. */
  method LoadWithMetadata<T>(ctx: Context, clock: nat -> Time, kind: AttemptKind, source: Source?,
                             pipeline: Pipeline<T>, startedAt: Time, metadata: Result<SourceMetadata>, t: Moments)
    returns (out: Loaded<T>)
    requires source != null ==> metadata == ReadMetadata(source.behaviour, t.metadataAt)
    modifies source
    ensures out == SourceOutcome(ctx, clock, kind, BehaviourOf(source), pipeline, startedAt, t.metadataAt, t.loadAt)
    ensures CallsOf(source) == old(CallsOf(source)) + ReadCalls(SourceOp(ctx, kind, BehaviourOf(source), pipeline), t)
  {
    hide LoadOutcome;
    var now := t.loadAt;
    if source == null {
      return FailedRead(kind, NO_METADATA, startedAt, clock(now),
                        FailureDetail(CodeMissingSource, "config source is missing"), MissingSource, now + 1);
    }
    if metadata.Failure? {
      return FailedRead(kind, NO_METADATA, startedAt, clock(now), FailureFor(StageSourceRead, metadata.error),
                        metadata.error, now + 1);
    }
    var read := source.Read(ctx, now);
    var data := Recover("read config source", read);
    if data.Failure? {
      var readError := StageError("read config source", data.error);
      return FailedRead(kind, metadata.value, startedAt, clock(now + 1), FailureFor(StageSourceRead, readError),
                        readError, now + 2);
    }
    out := Pipelines.Load(Job(ctx, clock, kind, WithSource(data.value, metadata.value), pipeline, startedAt), now + 1);
  }

  lemma LiveAfterCommit<T>(r: Run<T>, external: bool, result: LoadResult<T>, at: Time)
    ensures var r' := CommitResult(r, external, result, at);
            LifecycleStateOf(r'.m) == ApplyOf(r.m, result, at).managerState
  {
  }

  /** A completion event, with its own clones of the attempt, the snapshot metadata and the apply result. */
  method NewEvent(kind: EventKind, id: nat, attemptKind: AttemptKind, attempt: Attempt,
                  snapshot: Option<SnapshotMetadata>, apply: Apply, at: Time)
    returns (event: EventRef)
    ensures fresh(event.Reach())
    ensures event.View() ==
      Event(kind, apply.fields.managerState, id, attemptKind, attempt.fields.source, attempt.fields.revision,
            Some(attempt.View()), snapshot, Some(apply.View()), at)
  {
    var a := CloneHeld(Some(attempt));
    var s := NewMetadata(snapshot);
    var p := CloneHeldApply(Some(apply));
    event := EventRef(Event(kind, apply.fields.managerState, id, attemptKind, attempt.fields.source,
                            attempt.fields.revision, None, None, None, at), a, s, p);
  }

  /** The apply result of a write from `was` to `latest`. */
  method NewApply(published: bool, was: Option<SnapshotMetadata>, latest: Option<SnapshotMetadata>,
                  state: LifecycleState, at: Time)
    returns (applied: Apply)
    requires published ==> latest.Some?
    ensures fresh(applied.Reach())
    ensures applied.View() ==
      ApplyResult(published, published && (was.None? || was.value.checksum != latest.value.checksum), was, latest,
                  state, at)
  {
    var previous := NewMetadata(was);
    var current := NewMetadata(latest);
    var changed := published && (previous == null || previous.value.checksum != current.value.checksum);
    applied := Apply(ApplyResult(published, changed, None, None, state, at), previous, current);
  }

  lemma AppliedIs<T>(m: State<T>, result: LoadResult<T>, at: Time)
    ensures var m' := WriteOutcome(WriteAttempt(m, result.attempt), result);
            var was, latest := MetadataOf(m.current), MetadataOf(m'.current);
      && (Publishes(result) ==> latest.Some?)
      && ApplyOf(m, result, at) ==
         ApplyResult(Publishes(result),
                     Publishes(result) && (was.None? || was.value.checksum != latest.value.checksum),
                     was, latest, LifecycleStateOf(m'), at)
  {
  }
}
